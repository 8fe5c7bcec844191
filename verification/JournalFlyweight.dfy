/** The zero-copy journal codec: fields go straight to their offsets through the
    flyweight, text advances the shared position.  A panic is `false` or `None`.
 */
module JournalFlyweight {
  import opened Wire
  import opened SbeFlyweight
  import opened JournalSpec

  method FillHeader(w: Flyweight)
    requires 8 <= w.buf.Length
    modifies w.buf
    ensures w.buf[0..8] == FrameHeader()
  {
    w.Set(0, [], 0, BLOCK_LEN, 2);
    ghost var d := LE(BLOCK_LEN, 2);
    assert [] + d == d;
    w.Set(0, d, 2, 1, 2);
    d := d + LE(1, 2);
    w.Set(0, d, 4, 7, 2);
    d := d + LE(7, 2);
    w.Set(0, d, 6, 1, 2);
  }

  method FillRecord(w: Flyweight, r: Record, start: nat)
    requires start + BLOCK_LEN <= w.buf.Length
    modifies w.buf
    ensures w.buf[start..start + BLOCK_LEN] == RecordBlock(r)
    ensures w.buf[..start] == old(w.buf[..start])
  {
    w.SetSigned(start, [], start, r.termId, 8);
    ghost var d := SLE(r.termId, 8);
    assert [] + d == d;
    w.SetSigned(start, d, start + 8, r.position, 8);
    d := d + SLE(r.position, 8);
    w.SetSigned(start, d, start + 16, r.timestamp, 8);
    d := d + SLE(r.timestamp, 8);
    w.SetSigned(start, d, start + 24, r.session, 8);
    d := d + SLE(r.session, 8);
    w.SetSigned(start, d, start + 32, r.correlation, 8);
    d := d + SLE(r.correlation, 8);
    w.SetSigned(start, d, start + 40, r.leader, 4);
    d := d + SLE(r.leader, 4);
    w.SetSigned(start, d, start + 44, r.service, 4);
    d := d + SLE(r.service, 4);
    w.SetByte(start, d, start + 48, r.eventType);
    d := d + [r.eventType];
    w.SetByte(start, d, start + 49, r.flags);
  }

  method FillEntry(w: Flyweight, e: Entry, start: nat)
    requires start + ENTRY_LEN <= w.buf.Length
    modifies w.buf
    ensures w.buf[start..start + ENTRY_LEN] == EntryBlock(e)
    ensures w.buf[..start] == old(w.buf[..start])
  {
    w.SetSigned(start, [], start, e.termId, 8);
    ghost var d := SLE(e.termId, 8);
    assert [] + d == d;
    w.SetSigned(start, d, start + 8, e.index, 8);
    d := d + SLE(e.index, 8);
    w.SetSigned(start, d, start + 16, e.timestamp, 8);
    d := d + SLE(e.timestamp, 8);
    w.SetSigned(start, d, start + 24, e.key, 4);
    d := d + SLE(e.key, 4);
    w.SetSigned(start, d, start + 28, e.qty, 8);
    d := d + SLE(e.qty, 8);
    w.Set(start, d, start + 36, e.price, 8);
    d := d + LE(e.price, 8);
    w.SetByte(start, d, start + 44, FlagByte(e.flag));
  }

  /** Header and root block. */
  method StartMessage(w: Flyweight, r: Record) returns (ok: bool)
    requires w.Valid()
    modifies w`position, w.buf
    ensures w.Valid() && ok == (8 + BLOCK_LEN <= w.len)
    ensures ok ==> w.Written() == FrameHeader() + RecordBlock(r)
  {
    ok := 8 + BLOCK_LEN <= w.len;
    if ok {
      FillHeader(w);
      FillRecord(w, r, 8);
      w.position := 8 + BLOCK_LEN;
      assert w.buf[0..8] == w.buf[..8];
      assert w.buf[..w.position] == w.buf[..8] + w.buf[8..w.position];
    }
  }

  /** `PutCmdText`: the length, then the text, both at the shared position. */
  method PutText(w: Flyweight, text: seq<Byte>) returns (ok: bool)
    requires w.Valid() && |text| < Pow256(4)
    modifies w`position, w.buf
    ensures w.Valid() && ok == (old(w.position) + 4 + |text| <= w.len)
    ensures ok ==> w.Written() == old(w.Written()) + LE(|text|, 4) + text
  {
    var at := w.position;
    if at + 4 > w.len { return false; }
    w.Store(at, |text|, 4);
    w.position := at + 4;
    assert w.buf[..at + 4] == w.buf[..at] + w.buf[at..at + 4];
    if |text| != 0 {
      if at + 4 + |text| > w.len { return false; }
      Copy(w, at + 4, text);
      w.position := at + 4 + |text|;
      assert w.buf[..w.position] == w.buf[..at + 4] + w.buf[at + 4..w.position];
    }
    return true;
  }

  method Copy(w: Flyweight, at: nat, bytes: seq<Byte>)
    requires at + |bytes| <= w.buf.Length
    modifies w.buf
    ensures w.buf[at..at + |bytes|] == bytes
    ensures w.buf[..at] == old(w.buf[..at])
  {
    var i := 0;
    while i < |bytes|
      invariant i <= |bytes|
      invariant forall j :: 0 <= j < i ==> w.buf[at + j] == bytes[j]
      invariant forall j :: 0 <= j < at ==> w.buf[j] == old(w.buf[j])
    {
      w.buf[at + i] := bytes[i];
      i := i + 1;
    }
  }

  /** `Next`, the fixed fields, the text. */
  method PutEntry(w: Flyweight, e: Entry) returns (ok: bool)
    requires w.Valid() && w.block == ENTRY_LEN && |e.text| < Pow256(4)
    modifies w`position, w`index, w.buf
    ensures w.Valid() && ok == (old(w.index) < w.count && old(w.position) + ENTRY_LEN + 4 + |e.text| <= w.len)
    ensures ok ==> w.Written() == old(w.Written()) + EntryBytes(e) && w.index == old(w.index) + 1
  {
    var start;
    ok, start := w.Next();
    if !ok { return; }
    FillEntry(w, e, start);
    assert w.buf[..w.position] == w.buf[..start] + w.buf[start..w.position];
    ok := PutText(w, e.text);
    if ok {
      assert old(w.Written()) + EntryBlock(e) + LE(|e.text|, 4) + e.text == old(w.Written()) + EntryBytes(e);
    }
  }

  /** `SBECodec.Encode`: the whole frame at the start of the buffer, or a panic exactly
      when there are more than 65534 entries or the buffer is too short. */
  method Encode(w: Flyweight, r: Record) returns (ok: bool)
    requires w.Valid() && w.position == 0 && forall i :: 0 <= i < |r.entries| ==> |r.entries[i].text| < Pow256(4)
    modifies w, w.buf
    ensures w.Valid() && w.buf == old(w.buf) && w.len == old(w.len)
    ensures ok == (|r.entries| <= 65534 && |Frame(r)| <= w.len)
    ensures ok ==> w.Written() == Frame(r)
  {
    ok := StartMessage(w, r);
    if !ok { return; }
    ok := w.StartGroup(|r.entries|, ENTRY_LEN);
    if !ok { return; }
    ok := PutEntries(w, r);
  }

  method PutEntries(w: Flyweight, r: Record) returns (ok: bool)
    requires w.Valid() && w.Written() == Front(r) && w.block == ENTRY_LEN && w.index == 0
    requires w.count == Short(|r.entries|) <= MAX_COUNT
    requires forall i :: 0 <= i < |r.entries| ==> |r.entries[i].text| < Pow256(4)
    modifies w`position, w`index, w.buf
    ensures w.Valid()
    ensures ok == (|r.entries| <= MAX_COUNT && |Frame(r)| <= w.len)
    ensures ok ==> w.Written() == Frame(r)
  {
    var i := 0;
    UptoEnds(r);
    while i < |r.entries|
      invariant i <= |r.entries| && w.Valid() && w.index == i <= w.count
      invariant w.Written() == Upto(r, i)
    {
      UptoNext(r, i);
      ok := PutEntry(w, r.entries[i]);
      if !ok { return; }
      i := i + 1;
    }
    ok := true;
  }

  // ---------- decoding ----------

  /** One element of the group: the fixed fields in place, then the text behind the block, cut
      to the scratch buffer.  A read past the buffer panics. */
  function EntryAt(data: seq<Byte>, off: nat, block: nat): Option<Parsed> {
    var at := off + block;
    if at > |data| || off + ENTRY_LEN > |data| || at + 4 > |data| then None
    else
      var n := Get(data, at, 4);
      if at + 4 + n > |data| then None
      else Some(Parsed(ReadFixed(data, off, data[at + 4..at + 4 + if SCRATCH < n then SCRATCH else n]), at + 4 + n))
  }

  function TakeEntry(data: seq<Byte>, block: nat): nat -> Option<Parsed> {
    (off: nat) => EntryAt(data, off, block)
  }

  /** What any bytes decode to, `None` where the flyweight panics.  The group starts where the
      header's block length says, the root fields are read at their own offsets. */
  function Decoded(data: seq<Byte>): Option<Record> {
    if |data| < 8 then None
    else
      var pos := 8 + Get(data, 0, 2);
      if pos > |data| || 8 + BLOCK_LEN > |data| || pos + GROUP_LEN > |data| then None
      else
        match EntriesFrom(TakeEntry(data, Get(data, pos, 2)), pos + GROUP_LEN, Get(data, pos + 2, 2))
        case None => None
        case Some(entries) => Some(ReadRoot(data, 8, []).(entries := entries))
  }

  /** An entry that lies at `off`, its text behind its block. */
  lemma EntryAtIs(data: seq<Byte>, off: nat, e: Entry)
    requires off + ENTRY_LEN + 4 + |e.text| <= |data| && ReadFixed(data, off, e.text) == e
    requires Get(data, off + ENTRY_LEN, 4) == |e.text|
    requires data[off + ENTRY_LEN + 4..off + ENTRY_LEN + 4 + |e.text|] == e.text
    ensures EntryAt(data, off, ENTRY_LEN) == Some(Parsed(CutEntry(e), off + ENTRY_LEN + 4 + |e.text|))
  {
    var at, k := off + ENTRY_LEN + 4, if SCRATCH < |e.text| then SCRATCH else |e.text|;
    SameFixed(data, off, e.text, CutEntry(e).text);
    assert data[at..at + k] == data[at..at + |e.text|][..k];
  }

  lemma FrameEntry(r: Record, k: nat)
    requires RecordFits(r) && k < |r.entries|
    ensures TakesEntry(TakeEntry(Frame(r), ENTRY_LEN), r, CutAll(r.entries), k)
  {
    EntryReads(Frame(r), r, k, At(r, k));
    EntriesNext(r.entries, k);
    EntryAtIs(Frame(r), At(r, k), r.entries[k]);
  }

  lemma FrameEntries(r: Record)
    requires RecordFits(r)
    ensures EntriesFrom(TakeEntry(Frame(r), ENTRY_LEN), 62, |r.entries|) == Some(CutAll(r.entries))
  {
    forall k | 0 <= k < |r.entries| ensures TakesEntry(TakeEntry(Frame(r), ENTRY_LEN), r, CutAll(r.entries), k) { FrameEntry(r, k); }
    EntriesAlong(TakeEntry(Frame(r), ENTRY_LEN), r, CutAll(r.entries), 0);
    assert CutAll(r.entries)[0..] == CutAll(r.entries);
  }

  /** Every field of a frame comes back, each text cut to the scratch buffer. */
  lemma DecodesFrame(r: Record)
    requires RecordFits(r) && |r.entries| < 65536
    ensures Decoded(Frame(r)) == Some(r.(entries := CutAll(r.entries)))
  {
    FrontOf(Frame(r), r);
    RootOf(Frame(r), r);
    FrameEntries(r);
  }

  /** `DecodeChecksum` with the fields collected instead of folded, for any bytes. */
  method Decode(data: seq<Byte>) returns (out: Option<Record>)
    ensures out == Decoded(data)
  {
    if |data| < 8 { return None; }
    var pos := 8 + Get(data, 0, 2);
    if pos > |data| || 8 + BLOCK_LEN > |data| || pos + GROUP_LEN > |data| { return None; }
    var root := ReadRoot(data, 8, []);
    var block, count := Get(data, pos, 2), Get(data, pos + 2, 2);
    ghost var take := TakeEntry(data, block);
    assert forall off: nat :: TakesAt(take, data, block, off);
    var ok, entries := DecodeEntries(data, pos + GROUP_LEN, block, count, take);
    if !ok { return None; }
    out := Some(root.(entries := entries));
  }

  /** `Next`, the fixed fields at the element's offset, and the text copied into the scratch buffer. */
  /** `take` yields the entry at `off`. */
  ghost predicate TakesAt(take: nat -> Option<Parsed>, data: seq<Byte>, block: nat, off: nat) {
    take(off) == EntryAt(data, off, block)
  }

  ghost predicate Reader(take: nat -> Option<Parsed>, data: seq<Byte>, block: nat) {
    forall off: nat :: TakesAt(take, data, block, off)
  }

  method DecodeEntry(data: seq<Byte>, off: nat, block: nat, ghost take: nat -> Option<Parsed>) returns (ok: bool, e: Entry, next: nat)
    requires Reader(take, data, block)
    ensures take(off) == if ok then Some(Parsed(e, next)) else None
  {
    assert TakesAt(take, data, block, off);
    e, next := Entry(0, 0, 0, 0, 0, 0, false, []), off + block;
    if next > |data| || off + ENTRY_LEN > |data| || next + 4 > |data| { return false, e, next; }
    var n := Get(data, next, 4);
    if next + 4 + n > |data| { return false, e, next; }
    var copied := if SCRATCH < n then SCRATCH else n;
    return true, ReadFixed(data, off, data[next + 4..next + 4 + copied]), next + 4 + n;
  }

  method DecodeEntries(data: seq<Byte>, start: nat, block: nat, count: nat, ghost take: nat -> Option<Parsed>)
    returns (ok: bool, entries: seq<Entry>)
    requires Reader(take, data, block)
    ensures EntriesFrom(take, start, count) == if ok then Some(entries) else None
  {
    entries := [];
    BehindNone(EntriesFrom(take, start, count));
    var pos := start;
    for i := 0 to count
      invariant EntriesFrom(take, start, count) == Behind(entries, EntriesFrom(take, pos, count - i))
    {
      var e;
      BehindTaken(entries, take, pos, count - i);
      ok, e, pos := DecodeEntry(data, pos, block, take);
      if !ok { return; }
      entries := entries + [e];
    }
    BehindAll(entries);
    ok := true;
  }
}
