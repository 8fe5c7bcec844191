/** Little-endian fixed-width integers, as both SBE runtimes lay them out. */
module Wire {
  import opened Arith

  type Byte = b: nat | b < 256

  datatype Option<T> = None | Some(value: T)

  function Pow256(n: nat): (p: nat)
    ensures p > 0
  {
    if n == 0 then 1 else 256 * Pow256(n - 1)
  }

  /** The `n` low bytes of `v`, least significant first. */
  function LE(v: nat, n: nat): (s: seq<Byte>)
    ensures |s| == n
  {
    seq(n, i requires 0 <= i < n => (v / Pow256(i)) % 256)
  }

  function FromLE(s: seq<Byte>): nat {
    if s == [] then 0 else s[0] + 256 * FromLE(s[1..])
  }

  lemma DivDiv(v: nat, p: nat)
    requires p > 0
    ensures v / (256 * p) == (v / 256) / p
  {
    var q, r := (v / 256) / p, (v / 256) % p;
    DivModIs(v, 256 * p, q, 256 * r + v % 256);
  }

  lemma LEShift(v: nat, n: nat)
    requires n > 0
    ensures LE(v, n) == [v % 256] + LE(v / 256, n - 1)
  {
    var a, b := LE(v, n), [v % 256] + LE(v / 256, n - 1);
    forall i | 0 <= i < n ensures a[i] == b[i] {
      if i > 0 { DivDiv(v, Pow256(i - 1)); }
    }
  }

  lemma {:induction false} LERoundTrip(v: nat, n: nat)
    requires v < Pow256(n)
    ensures FromLE(LE(v, n)) == v
  {
    if n > 0 {
      LEShift(v, n);
      LERoundTrip(v / 256, n - 1);
      assert LE(v, n)[1..] == LE(v / 256, n - 1);
    }
  }

  /** A count as the 16-bit group header holds it. */
  function Short(n: nat): nat { n % 65536 }

  // ---------- signed integers: two's complement ----------

  ghost predicate FitsSigned(v: int, n: nat) {
    -(Pow256(n) as int) <= 2 * v < Pow256(n)
  }

  function ToUnsigned(v: int, n: nat): nat {
    v % Pow256(n)
  }

  function ToSigned(u: nat, n: nat): int {
    if 2 * u < Pow256(n) then u else u - Pow256(n)
  }

  lemma SignedRoundTrip(v: int, n: nat)
    requires FitsSigned(v, n)
    ensures ToUnsigned(v, n) < Pow256(n) && ToSigned(ToUnsigned(v, n), n) == v
  {
    var p := Pow256(n);
    if v >= 0 {
      SmallMod(v, p);
    } else {
      SmallMod(v + p, p);
      AddMod(v, p);
    }
  }

  function SLE(v: int, n: nat): (s: seq<Byte>)
    ensures |s| == n
  {
    LE(ToUnsigned(v, n), n)
  }

  // ---------- reading ----------

  /** The `n`-byte integer at `off`. */
  function Get(data: seq<Byte>, off: nat, n: nat): nat
    requires off + n <= |data|
    decreases |data| - off
  {
    if n == 0 then 0 else data[off] + 256 * Get(data, off + 1, n - 1)
  }

  lemma {:induction false} GetFrom(data: seq<Byte>, off: nat, n: nat)
    requires off + n <= |data|
    ensures Get(data, off, n) == FromLE(data[off..off + n])
    decreases |data| - off
  {
    if n > 0 {
      GetFrom(data, off + 1, n - 1);
      assert data[off..off + n][1..] == data[off + 1..off + n];
    }
  }

  function GetS(data: seq<Byte>, off: nat, n: nat): int
    requires off + n <= |data|
  {
    ToSigned(Get(data, off, n), n)
  }

  lemma GetIs(data: seq<Byte>, off: nat, n: nat, v: nat)
    requires off + n <= |data| && data[off..off + n] == LE(v, n) && v < Pow256(n)
    ensures Get(data, off, n) == v
  {
    LERoundTrip(v, n);
    GetFrom(data, off, n);
  }

  lemma GetSIs(data: seq<Byte>, off: nat, n: nat, v: int)
    requires off + n <= |data| && data[off..off + n] == SLE(v, n) && FitsSigned(v, n)
    ensures GetS(data, off, n) == v
  {
    SignedRoundTrip(v, n);
    GetIs(data, off, n, ToUnsigned(v, n));
  }

  /** The ranges of the machine integers. */
  ghost predicate Word(v: int) { 0 <= v < 0x1_0000_0000 }

  ghost predicate Int64(v: int) { FitsSigned(v, 8) }

  lemma Powers()
    ensures Pow256(2) == 65536 && Pow256(4) == 0x1_0000_0000 && Pow256(8) == 0x1_0000_0000_0000_0000
  {
    assert Pow256(1) == 256 && Pow256(3) == 0x100_0000;
    assert Pow256(5) == 0x100_0000_0000 && Pow256(6) == 0x1_0000_0000_0000 && Pow256(7) == 0x100_0000_0000_0000;
  }

  // ---------- fields inside blocks ----------

  lemma Slice(data: seq<Byte>, off: nat, len: nat, at: nat, n: nat)
    requires off + len <= |data| && at + n <= len
    ensures data[off + at..off + at + n] == data[off..off + len][at..at + n]
  {
    var a, b := data[off + at..off + at + n], data[off..off + len][at..at + n];
    forall i | 0 <= i < n ensures a[i] == b[i] {
      assert b[i] == data[off..off + len][at + i];
    }
  }

  /** A block inside a larger stretch lies in the data where the stretch does. */
  lemma SubBlock(data: seq<Byte>, pos: nat, whole: seq<Byte>, at: nat, block: seq<Byte>)
    requires pos + |whole| <= |data| && data[pos..pos + |whole|] == whole && at + |block| <= |whole|
    requires whole[at..at + |block|] == block
    ensures data[pos + at..pos + at + |block|] == block
  {
    Slice(data, pos, |whole|, at, |block|);
  }

  /** A field of a block that lies in the data at `off`. */
  lemma Field(data: seq<Byte>, off: nat, block: seq<Byte>, at: nat, n: nat, v: nat)
    requires off + |block| <= |data| && data[off..off + |block|] == block && at + n <= |block|
    requires block[at..at + n] == LE(v, n) && v < Pow256(n)
    ensures Get(data, off + at, n) == v
  {
    Slice(data, off, |block|, at, n);
    GetIs(data, off + at, n, v);
  }

  lemma SField(data: seq<Byte>, off: nat, block: seq<Byte>, at: nat, n: nat, v: int)
    requires off + |block| <= |data| && data[off..off + |block|] == block && at + n <= |block|
    requires block[at..at + n] == SLE(v, n) && FitsSigned(v, n)
    ensures GetS(data, off + at, n) == v
  {
    Slice(data, off, |block|, at, n);
    GetSIs(data, off + at, n, v);
  }

  // ---------- what the bytes are ----------

  /** The `n` bytes at `off` are `v` in two's complement, least significant first: byte `i`
      is `v` shifted right by `8 * i`, cut to eight bits. */
  ghost predicate Shows(data: seq<Byte>, off: nat, n: nat, v: int) {
    off + n <= |data| && forall i :: 0 <= i < n ==> ByteShown(data, off, i, v)
  }

  ghost predicate ByteShown(data: seq<Byte>, off: nat, i: nat, v: int)
    requires off + i < |data|
  {
    data[off + i] == (v / Pow256(i)) % 256
  }

  lemma {:induction false} PowSplit(i: nat, j: nat)
    ensures Pow256(i + j) == Pow256(i) * Pow256(j)
  {
    if i > 0 {
      PowSplit(i - 1, j);
      Associate(256, Pow256(i - 1), Pow256(j));
    }
  }

  lemma Associate(a: int, b: int, c: int)
    ensures a * b * c == a * (b * c)
  {
  }

  /** A byte of a number does not depend on what lies above `p * 256`. */
  lemma ByteOf(v: int, p: nat, k: int)
    requires p > 0
    ensures ((v + p * (256 * k)) / p) % 256 == (v / p) % 256
  {
    var q, r := v / p, v % p;
    Distribute(p, q, -(256 * k));
    DivModIs(v + p * (256 * k), p, q + 256 * k, r);
    DivModIs(q + 256 * k, 256, q / 256 + k, q % 256);
  }

  lemma ByteOfResidue(v: int, big: nat, p: nat, m: nat)
    requires p > 0 && big > 0 && big == p * (256 * m)
    ensures ((v % big) / p) % 256 == (v / p) % 256
  {
    var q := v / big;
    Associate(p, 256 * m, q);
    Associate(256, m, q);
    assert v == v % big + p * (256 * (m * q));
    ByteOf(v % big, p, m * q);
  }

  /** The low `n` bytes of a number are those of its residue. */
  lemma LowBytes(v: int, n: nat, i: nat)
    requires i < n
    ensures ((v % Pow256(n)) / Pow256(i)) % 256 == (v / Pow256(i)) % 256
  {
    PowSplit(i, n - i);
    ByteOfResidue(v, Pow256(n), Pow256(i), Pow256(n - i - 1));
  }

  lemma LEShows(v: nat, n: nat)
    ensures Shows(LE(v, n), 0, n, v)
  {
  }

  lemma SLEShows(v: int, n: nat)
    ensures Shows(SLE(v, n), 0, n, v)
  {
    forall i | 0 <= i < n ensures ByteShown(SLE(v, n), 0, i, v) { LowBytes(v, n, i); }
  }

  /** What a field shows, the data around it shows. */
  lemma ShowsWithin(data: seq<Byte>, off: nat, field: seq<Byte>, n: nat, v: int)
    requires off + n <= |data| && data[off..off + n] == field && Shows(field, 0, n, v)
    ensures Shows(data, off, n, v)
  {
    forall i | 0 <= i < n ensures ByteShown(data, off, i, v) { assert ByteShown(field, 0, i, v) && data[off + i] == field[i]; }
  }

  /** A field of a block that lies in the data, little-endian. */
  lemma FieldShown(data: seq<Byte>, off: nat, block: seq<Byte>, at: nat, n: nat, v: nat)
    requires off + |block| <= |data| && data[off..off + |block|] == block && at + n <= |block| && block[at..at + n] == LE(v, n)
    ensures Shows(data, off + at, n, v)
  {
    Slice(data, off, |block|, at, n);
    LEShows(v, n);
    ShowsWithin(data, off + at, LE(v, n), n, v);
  }

  lemma SFieldShown(data: seq<Byte>, off: nat, block: seq<Byte>, at: nat, n: nat, v: int)
    requires off + |block| <= |data| && data[off..off + |block|] == block && at + n <= |block| && block[at..at + n] == SLE(v, n)
    ensures Shows(data, off + at, n, v)
  {
    Slice(data, off, |block|, at, n);
    SLEShows(v, n);
    ShowsWithin(data, off + at, SLE(v, n), n, v);
  }

  /** The encoding of a number in range, read as an unsigned integer: a negative one is `256^n` higher. */
  lemma TwosComplement(v: int, n: nat)
    requires FitsSigned(v, n)
    ensures FromLE(SLE(v, n)) == if v >= 0 then v else v + Pow256(n)
  {
    SignedRoundTrip(v, n);
    LERoundTrip(ToUnsigned(v, n), n);
    if v >= 0 {
      SmallMod(v, Pow256(n));
    } else {
      SmallMod(v + Pow256(n), Pow256(n));
      AddMod(v, Pow256(n));
    }
  }

  /** The integer of two, four and eight bytes, spelt out. */
  lemma Spelt(a: Byte, b: Byte, c: Byte, d: Byte, rest: seq<Byte>)
    ensures FromLE([a, b]) == a + 0x100 * b
    ensures FromLE([a, b, c, d]) == a + 0x100 * b + 0x1_0000 * c + 0x100_0000 * d
    ensures FromLE([a, b, c, d] + rest) == FromLE([a, b, c, d]) + 0x1_0000_0000 * FromLE(rest)
  {
    Unfold(a, [b]);
    Unfold(b, []);
    Unfold(a, [b, c, d]);
    Unfold(b, [c, d]);
    Unfold(c, [d]);
    Unfold(d, []);
    assert [a, b, c, d] + rest == [a] + ([b] + ([c] + ([d] + rest)));
    Unfold(a, [b] + ([c] + ([d] + rest)));
    Unfold(b, [c] + ([d] + rest));
    Unfold(c, [d] + rest);
    Unfold(d, rest);
  }

  lemma Unfold(a: Byte, rest: seq<Byte>)
    ensures FromLE([a] + rest) == a + 256 * FromLE(rest)
  {
    assert ([a] + rest)[1..] == rest;
  }

  /** Reading undoes showing, for a number in range. */
  lemma {:induction false} GetShows(data: seq<Byte>, off: nat, n: nat)
    requires off + n <= |data|
    ensures Get(data, off, n) < Pow256(n) && Shows(data, off, n, Get(data, off, n))
    decreases n
  {
    if n > 0 {
      GetShows(data, off + 1, n - 1);
      var rest := Get(data, off + 1, n - 1);
      var u := Get(data, off, n);
      forall i | 0 <= i < n ensures ByteShown(data, off, i, u) {
        DivModIs(u, 256, rest, data[off]);
        if i > 0 {
          assert ByteShown(data, off + 1, i - 1, rest);
          DivDiv(u, Pow256(i - 1));
        }
      }
    }
  }

  /** A signed field shows the number read from it. */
  lemma GetSShows(data: seq<Byte>, off: nat, n: nat)
    requires off + n <= |data|
    ensures Shows(data, off, n, GetS(data, off, n)) && FitsSigned(GetS(data, off, n), n)
  {
    GetShows(data, off, n);
    var u, v := Get(data, off, n), GetS(data, off, n);
    if v != u {
      assert v % Pow256(n) == u % Pow256(n) by { AddMod(v, Pow256(n)); }
      forall i | 0 <= i < n ensures ByteShown(data, off, i, v) {
        SameByte(u, v, n, i);
        assert ByteShown(data, off, i, u);
      }
    }
  }

  /** Numbers with the same residue have the same low bytes. */
  lemma SameByte(u: int, v: int, n: nat, i: nat)
    requires i < n && u % Pow256(n) == v % Pow256(n)
    ensures (u / Pow256(i)) % 256 == (v / Pow256(i)) % 256
  {
    LowBytes(u, n, i);
    LowBytes(v, n, i);
  }
}
