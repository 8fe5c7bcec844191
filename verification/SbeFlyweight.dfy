/** The generated SBE flyweight: a buffer, one shared position, one current
    repeating group.  Writing past the buffer or past a group's announced count
    panics in the source; here it is `false`.
 */
module SbeFlyweight {
  import opened Wire

  /** Largest group count the encoder accepts. */
  const MAX_COUNT: nat := 65534

  const GROUP_LEN: nat := 4

  function GroupHeader(blockLength: nat, count: nat): (s: seq<Byte>)
    ensures |s| == GROUP_LEN
  {
    LE(blockLength, 2) + LE(count, 2)
  }

  /** The dimensions of a group read back. */
  lemma GroupReads(data: seq<Byte>, pos: nat, block: nat, count: nat)
    requires pos + GROUP_LEN <= |data| && data[pos..pos + GROUP_LEN] == GroupHeader(block, count)
    requires block < 65536 && count < 65536
    ensures Get(data, pos, 2) == block && Get(data, pos + 2, 2) == count
  {
    Powers();
    var b := GroupHeader(block, count);
    assert b[0..2] == LE(block, 2) && b[2..4] == LE(count, 2);
    Field(data, pos, b, 0, 2, block);
    Field(data, pos, b, 2, 2, count);
  }

  class Flyweight {
    var buf: array<Byte>
    var len: nat
    var position: nat
    var count: nat
    var index: nat
    var block: nat

    ghost predicate Valid()
      reads this
    {
      position <= len <= buf.Length
    }

    /** The bytes written so far. */
    ghost function Written(): (s: seq<Byte>)
      reads this, buf
      requires Valid()
      ensures |s| == position
    {
      buf[..position]
    }

    constructor ()
      ensures Valid() && fresh(buf)
    {
      buf := new Byte[0];
      len, position, count, index, block := 0, 0, 0, 0, 0;
    }

    /** A buffer of exactly `n` bytes, holding whatever the last image left there. */
    method Grow(n: nat)
      modifies this
      ensures Valid() && len == n && position == 0
      ensures buf == old(buf) || fresh(buf)
    {
      if buf.Length < n {
        buf := new Byte[n];
      }
      len, position := n, 0;
    }

    /** Little-endian store of the `n` low bytes of `v` at `at`. */
    method Store(at: nat, v: nat, n: nat)
      requires at + n <= buf.Length
      modifies buf
      ensures buf[at..at + n] == LE(v, n)
      ensures buf[..at] == old(buf[..at])
    {
      var i := 0;
      while i < n
        invariant i <= n
        invariant forall j :: 0 <= j < i ==> buf[at + j] == LE(v, n)[j]
        invariant forall j :: 0 <= j < at ==> buf[j] == old(buf[j])
      {
        buf[at + i] := (v / Pow256(i)) % 256;
        i := i + 1;
      }
    }

    /** Store the next field of a block that starts at `start` and so far holds `done`. */
    method Set(start: nat, ghost done: seq<Byte>, at: nat, v: nat, n: nat)
      requires at == start + |done| && at + n <= buf.Length && buf[start..at] == done
      modifies buf
      ensures buf[start..at + n] == done + LE(v, n)
      ensures buf[..start] == old(buf[..start])
    {
      Store(at, v, n);
      assert buf[..start] == buf[..at][..start];
      assert buf[start..at] == buf[..at][start..];
      assert buf[start..at + n] == buf[start..at] + buf[at..at + n];
    }

    method SetByte(start: nat, ghost done: seq<Byte>, at: nat, b: Byte)
      requires at == start + |done| && at < buf.Length && buf[start..at] == done
      modifies buf
      ensures buf[start..at + 1] == done + [b]
      ensures buf[..start] == old(buf[..start])
    {
      buf[at] := b;
    }

    method SetSigned(start: nat, ghost done: seq<Byte>, at: nat, v: int, n: nat)
      requires at == start + |done| && at + n <= buf.Length && buf[start..at] == done
      modifies buf
      ensures buf[start..at + n] == done + SLE(v, n)
      ensures buf[..start] == old(buf[..start])
    {
      Set(start, done, at, ToUnsigned(v, n), n);
    }

    /** Start a group of `n` elements; the count is truncated to 16 bits, and 65535 panics. */
    method StartGroup(n: nat, blockLength: nat) returns (ok: bool)
      requires Valid()
      modifies `position, `count, `index, `block, buf
      ensures Valid() && ok == (n % 65536 <= 65534 && old(position) + 4 <= len)
      ensures ok ==> Written() == old(Written()) + GroupHeader(blockLength, n % 65536)
      ensures ok ==> count == n % 65536 && index == 0 && block == blockLength
    {
      var c := n % 65536;
      ok := c <= MAX_COUNT && position + GROUP_LEN <= len;
      if ok {
        Set(position, [], position, blockLength, 2);
        ghost var d := LE(blockLength, 2);
        assert [] + d == d;
        Set(position, d, position + 2, c, 2);
        count, index, block := c, 0, blockLength;
        position := position + GROUP_LEN;
        assert buf[..position] == buf[..old(position)] + buf[old(position)..position];
      }
    }

    /** Claim the next element of the group. */
    method Next() returns (ok: bool, offset: nat)
      requires Valid()
      modifies `position, `index
      ensures Valid() && offset == old(position)
      ensures ok == (old(index) < count && old(position) + block <= len)
      ensures ok ==> position == old(position) + block && index == old(index) + 1
      ensures !ok ==> position == old(position) && index == old(index)
    {
      offset := position;
      if index >= count { return false, offset; }
      if offset + block > len { return false, offset; }
      position := offset + block;
      index := index + 1;
      return true, offset;
    }
  }
}
