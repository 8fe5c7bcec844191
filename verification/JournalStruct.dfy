/** The owned-struct journal codec: a writer over the caller's buffer that stops at
    the first short write, and a reader that takes the fields one after another.
 */
module JournalStruct {
  import opened Wire
  import opened SbeFlyweight
  import opened JournalSpec
  import opened JournalFlyweight

  /** What a writer over `len` bytes keeps of a stream. */
  function Clip(s: seq<Byte>, len: nat): seq<Byte> {
    if |s| <= len then s else s[..len]
  }

  class SliceWriter {
    const b: array<Byte>
    var n: nat

    constructor (b: array<Byte>)
      ensures this.b == b && n == 0
    {
      this.b, n := b, 0;
    }

    ghost predicate Valid()
      reads this
    {
      n <= b.Length
    }

    ghost function Kept(): seq<Byte>
      reads this, b
      requires Valid()
    {
      b[..n]
    }

    /** Copy what fits; a short write is an error. */
    method Write(p: seq<Byte>) returns (ok: bool)
      requires Valid()
      modifies this, b
      ensures Valid() && ok == (old(n) + |p| <= b.Length)
      ensures Kept() == Clip(old(Kept()) + p, b.Length)
    {
      var c := if n + |p| <= b.Length then |p| else b.Length - n;
      var i := 0;
      while i < c
        invariant i <= c && n == old(n)
        invariant forall j :: 0 <= j < n ==> b[j] == old(b[j])
        invariant forall j :: 0 <= j < i ==> b[n + j] == p[j]
      {
        b[n + i] := p[i];
        i := i + 1;
      }
      ghost var kept := old(Kept());
      assert b[..n + c] == kept + p[..c];
      assert if c == |p| then p[..c] == p else (kept + p)[..b.Length] == kept + p[..c];
      n := n + c;
      ok := c == |p|;
    }

    /** Write the next field unless an earlier one failed.  `done` is everything offered so far. */
    method Then(okSoFar: bool, ghost done: seq<Byte>, p: seq<Byte>) returns (ok: bool)
      requires Valid() && Kept() == Clip(done, b.Length)
      requires !okSoFar ==> |done| > b.Length
      requires p == [] && okSoFar ==> |done| <= b.Length
      modifies this, b
      ensures Valid() && Kept() == Clip(done + p, b.Length) && ok == (|done + p| <= b.Length)
    {
      if okSoFar {
        ClipMore(done, p, b.Length);
        ok := Write(p);
      } else {
        assert (done + p)[..b.Length] == done[..b.Length];
        ok := false;
      }
    }
  }

  lemma ClipMore(s: seq<Byte>, t: seq<Byte>, len: nat)
    ensures Clip(Clip(s, len) + t, len) == Clip(s + t, len)
  {
    if |s| > len {
      assert (s[..len] + t)[..len] == s[..len] == (s + t)[..len];
    }
  }

  /** A stream that overflowed the buffer left what any longer stream with that start leaves. */
  lemma ClipPrefix(s: seq<Byte>, whole: seq<Byte>, len: nat)
    requires s <= whole && |s| > len
    ensures Clip(s, len) == Clip(whole, len)
  {
    assert whole[..|s|] == s;
    assert whole[..len] == whole[..|s|][..len];
  }

  method PutHeader(w: SliceWriter) returns (ok: bool)
    requires w.Valid() && w.n == 0
    modifies w, w.b
    ensures w.Valid() && w.Kept() == Clip(FrameHeader(), w.b.Length)
  {
    ghost var d: seq<Byte> := [];
    ok := w.Then(true, d, LE(BLOCK_LEN, 2));
    d := LE(BLOCK_LEN, 2);
    assert [] + d == d;
    ok := w.Then(ok, d, LE(1, 2));
    d := d + LE(1, 2);
    ok := w.Then(ok, d, LE(7, 2));
    d := d + LE(7, 2);
    ok := w.Then(ok, d, LE(1, 2));
  }

  method PutFixed(w: SliceWriter, r: Record, ghost h: seq<Byte>) returns (ok: bool)
    requires w.Valid() && w.Kept() == Clip(h, w.b.Length)
    modifies w, w.b
    ensures w.Valid() && w.Kept() == Clip(h + RecordBlock(r), w.b.Length)
    ensures ok == (|h + RecordBlock(r)| <= w.b.Length)
  {
    ghost var d := SLE(r.termId, 8);
    ok := w.Then(true, h, SLE(r.termId, 8));
    ok := PutNext(w, ok, h, d, SLE(r.position, 8));
    d := d + SLE(r.position, 8);
    ok := PutNext(w, ok, h, d, SLE(r.timestamp, 8));
    d := d + SLE(r.timestamp, 8);
    ok := PutNext(w, ok, h, d, SLE(r.session, 8));
    d := d + SLE(r.session, 8);
    ok := PutNext(w, ok, h, d, SLE(r.correlation, 8));
    d := d + SLE(r.correlation, 8);
    ok := PutNext(w, ok, h, d, SLE(r.leader, 4));
    d := d + SLE(r.leader, 4);
    ok := PutNext(w, ok, h, d, SLE(r.service, 4));
    d := d + SLE(r.service, 4);
    ok := PutNext(w, ok, h, d, [r.eventType]);
    d := d + [r.eventType];
    ok := PutNext(w, ok, h, d, [r.flags]);
  }

  /** The next field of a block that follows `h` and so far holds `d`. */
  method PutNext(w: SliceWriter, okSoFar: bool, ghost h: seq<Byte>, ghost d: seq<Byte>, p: seq<Byte>) returns (ok: bool)
    requires w.Valid() && w.Kept() == Clip(h + d, w.b.Length) && okSoFar == (|h + d| <= w.b.Length)
    modifies w, w.b
    ensures w.Valid() && w.Kept() == Clip(h + (d + p), w.b.Length) && ok == (|h + (d + p)| <= w.b.Length)
  {
    assert h + d + p == h + (d + p);
    ok := w.Then(okSoFar, h + d, p);
  }

  method PutEntry(w: SliceWriter, okSoFar: bool, e: Entry, ghost h: seq<Byte>) returns (ok: bool)
    requires w.Valid() && w.Kept() == Clip(h, w.b.Length) && okSoFar == (|h| <= w.b.Length) && |e.text| < Pow256(4)
    modifies w, w.b
    ensures w.Valid() && w.Kept() == Clip(h + EntryBytes(e), w.b.Length)
    ensures ok == (|h + EntryBytes(e)| <= w.b.Length)
  {
    ghost var d := SLE(e.termId, 8);
    ok := w.Then(okSoFar, h, SLE(e.termId, 8));
    ok := PutNext(w, ok, h, d, SLE(e.index, 8));
    d := d + SLE(e.index, 8);
    ok := PutNext(w, ok, h, d, SLE(e.timestamp, 8));
    d := d + SLE(e.timestamp, 8);
    ok := PutNext(w, ok, h, d, SLE(e.key, 4));
    d := d + SLE(e.key, 4);
    ok := PutNext(w, ok, h, d, SLE(e.qty, 8));
    d := d + SLE(e.qty, 8);
    ok := PutNext(w, ok, h, d, LE(e.price, 8));
    d := d + LE(e.price, 8);
    ok := PutNext(w, ok, h, d, [FlagByte(e.flag)]);
    d := d + [FlagByte(e.flag)];
    ok := PutNext(w, ok, h, d, LE(|e.text|, 4));
    d := d + LE(|e.text|, 4);
    ok := PutNext(w, ok, h, d, e.text);
  }

  /** `Encode` of the struct codec.  Errors are dropped, so the buffer always ends up with as
      much of the frame as fits; the group count is truncated to 16 bits without a check. */
  method Encode(b: array<Byte>, r: Record) returns (n: nat)
    requires forall i :: 0 <= i < |r.entries| ==> |r.entries[i].text| < Pow256(4)
    modifies b
    ensures n <= b.Length && b[..n] == Clip(Frame(r), b.Length)
  {
    var w := new SliceWriter(b);
    var ok := PutHeader(w);
    PutMessage(w, r);
    n := w.n;
  }

  method PutMessage(w: SliceWriter, r: Record)
    requires w.Valid() && w.Kept() == Clip(FrameHeader(), w.b.Length)
    requires forall i :: 0 <= i < |r.entries| ==> |r.entries[i].text| < Pow256(4)
    modifies w, w.b
    ensures w.Valid() && w.Kept() == Clip(Frame(r), w.b.Length)
  {
    var ok := PutFixed(w, r, FrameHeader());
    ghost var h := FrameHeader() + RecordBlock(r);
    ghost var d := LE(ENTRY_LEN, 2);
    ok := w.Then(ok, h, LE(ENTRY_LEN, 2));
    ok := PutNext(w, ok, h, d, LE(Short(|r.entries|), 2));
    PutEntries(w, ok, r);
  }

  method PutEntries(w: SliceWriter, okSoFar: bool, r: Record)
    requires w.Valid() && w.Kept() == Clip(Front(r), w.b.Length) && okSoFar == (|Front(r)| <= w.b.Length)
    requires forall i :: 0 <= i < |r.entries| ==> |r.entries[i].text| < Pow256(4)
    modifies w, w.b
    ensures w.Valid() && w.Kept() == Clip(Frame(r), w.b.Length)
  {
    UptoEnds(r);
    if !okSoFar {
      ClipPrefix(Front(r), Frame(r), w.b.Length);
      return;
    }
    var i := 0;
    while i < |r.entries|
      invariant i <= |r.entries| && w.Valid()
      invariant w.Kept() == Clip(Upto(r, i), w.b.Length) && |Upto(r, i)| <= w.b.Length
    {
      UptoNext(r, i);
      var ok := PutEntry(w, true, r.entries[i], Upto(r, i));
      if !ok {
        ClipPrefix(Upto(r, i + 1), Frame(r), w.b.Length);
        return;
      }
      i := i + 1;
    }
  }

  // ---------- the two encoders ----------

  /** In buffers of the same size: whenever the flyweight encoder does not panic, the struct
      encoder produces the same length and the same bytes. */
  method EncodersAgree(r: Record, size: nat) returns (ok: bool, fly: seq<Byte>, owned: seq<Byte>)
    requires forall i :: 0 <= i < |r.entries| ==> |r.entries[i].text| < Pow256(4)
    ensures ok == (|r.entries| <= 65534 && |Frame(r)| <= size)
    ensures ok ==> fly == owned == Frame(r)
    ensures owned == Clip(Frame(r), size)
  {
    var w := new Flyweight();
    w.Grow(size);
    ok := JournalFlyweight.Encode(w, r);
    fly := w.buf[..w.position];
    var b := new Byte[size];
    var n := Encode(b, r);
    owned := b[..n];
  }

  // ---------- decoding ----------

  /** One entry of the stream: the fixed fields, what a newer schema adds to the block, then
      the text at its stated length.  A read past the end is an error. */
  function EntryAt(data: seq<Byte>, off: nat, version: nat, block: nat): Option<Parsed> {
    var at := off + ENTRY_LEN + Skipped(version, block, ENTRY_LEN);
    if off + ENTRY_LEN > |data| || at + 4 > |data| then None
    else
      var n := Get(data, at, 4);
      if at + 4 + n > |data| then None
      else Some(Parsed(ReadFixed(data, off, data[at + 4..at + 4 + n]), at + 4 + n))
  }

  /** The bytes a newer schema added to a block. */
  function Skipped(version: nat, block: nat, known: nat): nat {
    if version > 1 && block > known then block - known else 0
  }

  function TakeEntry(data: seq<Byte>, version: nat, block: nat): nat -> Option<Parsed> {
    (off: nat) => EntryAt(data, off, version, block)
  }

  /** What any bytes decode to, `None` where decoding ends in an error. */
  function Decoded(data: seq<Byte>): Option<Record> {
    if |data| < 8 + BLOCK_LEN then None
    else
      var version := Get(data, 6, 2);
      var pos := 8 + BLOCK_LEN + Skipped(version, Get(data, 0, 2), BLOCK_LEN);
      if pos + 4 > |data| then None
      else
        match EntriesFrom(TakeEntry(data, version, Get(data, pos, 2)), pos + 4, Get(data, pos + 2, 2))
        case None => None
        case Some(entries) => Some(ReadRoot(data, 8, []).(entries := entries))
  }

  lemma EntryAtIs(data: seq<Byte>, off: nat, e: Entry)
    requires off + ENTRY_LEN + 4 + |e.text| <= |data| && ReadFixed(data, off, e.text) == e
    requires Get(data, off + ENTRY_LEN, 4) == |e.text|
    requires data[off + ENTRY_LEN + 4..off + ENTRY_LEN + 4 + |e.text|] == e.text
    ensures EntryAt(data, off, 1, ENTRY_LEN) == Some(Parsed(e, off + ENTRY_LEN + 4 + |e.text|))
  {
  }

  lemma FrameEntry(r: Record, k: nat)
    requires RecordFits(r) && k < |r.entries|
    ensures TakesEntry(TakeEntry(Frame(r), 1, ENTRY_LEN), r, r.entries, k)
  {
    EntryReads(Frame(r), r, k, At(r, k));
    EntriesNext(r.entries, k);
    EntryAtIs(Frame(r), At(r, k), r.entries[k]);
  }

  lemma FrameEntries(r: Record)
    requires RecordFits(r)
    ensures EntriesFrom(TakeEntry(Frame(r), 1, ENTRY_LEN), 62, |r.entries|) == Some(r.entries)
  {
    forall k | 0 <= k < |r.entries| ensures TakesEntry(TakeEntry(Frame(r), 1, ENTRY_LEN), r, r.entries, k) { FrameEntry(r, k); }
    EntriesAlong(TakeEntry(Frame(r), 1, ENTRY_LEN), r, r.entries, 0);
    assert r.entries[0..] == r.entries;
  }

  /** Every field of a frame comes back, texts whole. */
  lemma DecodesFrame(r: Record)
    requires RecordFits(r) && |r.entries| < 65536
    ensures Decoded(Frame(r)) == Some(r)
  {
    FrontOf(Frame(r), r);
    RootOf(Frame(r), r);
    FrameEntries(r);
  }

  /** `Decode` of the struct codec, for any bytes. */
  method Decode(data: seq<Byte>) returns (out: Option<Record>)
    ensures out == Decoded(data)
  {
    if |data| < 8 + BLOCK_LEN { return None; }
    var blockLength, version := Get(data, 0, 2), Get(data, 6, 2);
    var root := ReadRoot(data, 8, []);
    var pos: nat := 8 + BLOCK_LEN;
    if version > 1 && blockLength > BLOCK_LEN { pos := pos + (blockLength - BLOCK_LEN); }
    if pos + 4 > |data| { return None; }
    var block, count := Get(data, pos, 2), Get(data, pos + 2, 2);
    ghost var take := TakeEntry(data, version, block);
    assert forall off: nat :: TakesAt(take, data, version, block, off);
    var ok, entries := DecodeEntries(data, pos + 4, version, block, count, take);
    if !ok { return None; }
    out := Some(root.(entries := entries));
  }

  /** `Decode` of one entry. */
  /** `take` yields the entry at `off`. */
  ghost predicate TakesAt(take: nat -> Option<Parsed>, data: seq<Byte>, version: nat, block: nat, off: nat) {
    take(off) == EntryAt(data, off, version, block)
  }

  ghost predicate Reader(take: nat -> Option<Parsed>, data: seq<Byte>, version: nat, block: nat) {
    forall off: nat :: TakesAt(take, data, version, block, off)
  }

  method DecodeEntry(data: seq<Byte>, off: nat, version: nat, block: nat, ghost take: nat -> Option<Parsed>) returns (ok: bool, e: Entry, next: nat)
    requires Reader(take, data, version, block)
    ensures take(off) == if ok then Some(Parsed(e, next)) else None
  {
    assert TakesAt(take, data, version, block, off);
    e, next := Entry(0, 0, 0, 0, 0, 0, false, []), off;
    if off + ENTRY_LEN > |data| { return false, e, next; }
    next := off + ENTRY_LEN;
    if version > 1 && block > ENTRY_LEN { next := next + (block - ENTRY_LEN); }
    if next + 4 > |data| { return false, e, next; }
    var n := Get(data, next, 4);
    if next + 4 + n > |data| { return false, e, next; }
    return true, ReadFixed(data, off, data[next + 4..next + 4 + n]), next + 4 + n;
  }

  method DecodeEntries(data: seq<Byte>, start: nat, version: nat, block: nat, count: nat, ghost take: nat -> Option<Parsed>)
    returns (ok: bool, entries: seq<Entry>)
    requires Reader(take, data, version, block)
    ensures EntriesFrom(take, start, count) == if ok then Some(entries) else None
  {
    entries := [];
    BehindNone(EntriesFrom(take, start, count));
    var pos := start;
    for i := 0 to count
      invariant EntriesFrom(take, start, count) == Behind(entries, EntriesFrom(take, pos, count - i))
    {
      var e;
      BehindTaken(entries, take, pos, count - i);
      ok, e, pos := DecodeEntry(data, pos, version, block, take);
      if !ok { return; }
      entries := entries + [e];
    }
    BehindAll(entries);
    ok := true;
  }

  /** Each decoder on the other's output: the struct decoder recovers the record; the flyweight
      one recovers it exactly when every text fits its scratch buffer. */
  method CrossDecode(r: Record, size: nat) returns (fromFly: Option<Record>, fromOwned: Option<Record>)
    requires RecordFits(r) && |r.entries| <= 65534 && |Frame(r)| <= size
    ensures fromFly == Some(r)
    ensures fromOwned == Some(r) <==> forall i :: 0 <= i < |r.entries| ==> |r.entries[i].text| <= 65536
  {
    var ok, fly, owned := EncodersAgree(r, size);
    fromFly := Decode(fly);
    fromOwned := JournalFlyweight.Decode(owned);
    DecodesFrame(r);
    JournalFlyweight.DecodesFrame(r);
    CutExact(r.entries);
  }

  lemma CutExact(es: seq<Entry>)
    ensures CutAll(es) == es <==> forall i :: 0 <= i < |es| ==> |es[i].text| <= SCRATCH
  {
    if CutAll(es) == es {
      forall i | 0 <= i < |es| ensures |es[i].text| <= SCRATCH {
        assert CutAll(es)[i] == CutEntry(es[i]);
      }
    }
    if forall i :: 0 <= i < |es| ==> |es[i].text| <= SCRATCH {
      assert CutAll(es) == es;
    }
  }
}
