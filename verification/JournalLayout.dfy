/** The journal frame byte by byte: which offset shows which field. */
module JournalLayout {
  import opened Wire
  import opened SbeFlyweight
  import opened JournalSpec

  /** Message header and root block: template 1 of schema 7, version 1. */
  ghost predicate RootShown(data: seq<Byte>, r: Record) {
    && |data| >= 62
    && Shows(data, 0, 2, 50) && Shows(data, 2, 2, 1) && Shows(data, 4, 2, 7) && Shows(data, 6, 2, 1)
    && Shows(data, 8, 8, r.termId) && Shows(data, 16, 8, r.position) && Shows(data, 24, 8, r.timestamp)
    && Shows(data, 32, 8, r.session) && Shows(data, 40, 8, r.correlation)
    && Shows(data, 48, 4, r.leader) && Shows(data, 52, 4, r.service)
    && data[56] == r.eventType && data[57] == r.flags
    && Shows(data, 58, 2, 45) && Shows(data, 60, 2, |r.entries|)
  }

  /** An entry: its fixed fields, one byte 0 or 1 for the flag, the length of its text, the text. */
  ghost predicate EntryShown(data: seq<Byte>, off: nat, e: Entry) {
    && off + 49 + |e.text| <= |data|
    && Shows(data, off, 8, e.termId) && Shows(data, off + 8, 8, e.index) && Shows(data, off + 16, 8, e.timestamp)
    && Shows(data, off + 24, 4, e.key) && Shows(data, off + 28, 8, e.qty) && Shows(data, off + 36, 8, e.price)
    && data[off + 44] == (if e.flag then 1 else 0)
    && Shows(data, off + 45, 4, |e.text|) && data[off + 49..off + 49 + |e.text|] == e.text
  }

  /** Where entry `i` starts: behind the root block, the group dimensions and the entries before it. */
  ghost function StartOf(es: seq<Entry>, i: nat): nat
    requires i <= |es|
  {
    if i == 0 then 62 else StartOf(es, i - 1) + 49 + |es[i - 1].text|
  }

  lemma {:induction false} StartIs(r: Record, i: nat)
    requires i <= |r.entries|
    ensures StartOf(r.entries, i) == At(r, i)
  {
    if i > 0 {
      StartIs(r, i - 1);
      EntriesNext(r.entries, i - 1);
    }
  }

  lemma HeaderShows(data: seq<Byte>)
    requires |data| >= 8 && data[0..8] == FrameHeader()
    ensures Shows(data, 0, 2, 50) && Shows(data, 2, 2, 1) && Shows(data, 4, 2, 7) && Shows(data, 6, 2, 1)
  {
    var b := FrameHeader();
    assert b[0..2] == LE(50, 2) && b[2..4] == LE(1, 2) && b[4..6] == LE(7, 2) && b[6..8] == LE(1, 2);
    FieldShown(data, 0, b, 0, 2, 50);
    FieldShown(data, 0, b, 2, 2, 1);
    FieldShown(data, 0, b, 4, 2, 7);
    FieldShown(data, 0, b, 6, 2, 1);
  }

  lemma BlockShows(data: seq<Byte>, r: Record)
    requires |data| >= 58 && data[8..58] == RecordBlock(r)
    ensures Shows(data, 8, 8, r.termId) && Shows(data, 16, 8, r.position) && Shows(data, 24, 8, r.timestamp)
    ensures Shows(data, 32, 8, r.session) && Shows(data, 40, 8, r.correlation)
    ensures Shows(data, 48, 4, r.leader) && Shows(data, 52, 4, r.service) && data[56] == r.eventType && data[57] == r.flags
  {
    var b := RecordBlock(r);
    RecordSlices(r);
    assert data[56] == data[8..58][48] && data[57] == data[8..58][49];
    SFieldShown(data, 8, b, 0, 8, r.termId);
    SFieldShown(data, 8, b, 8, 8, r.position);
    SFieldShown(data, 8, b, 16, 8, r.timestamp);
    SFieldShown(data, 8, b, 24, 8, r.session);
    SFieldShown(data, 8, b, 32, 8, r.correlation);
    SFieldShown(data, 8, b, 40, 4, r.leader);
    SFieldShown(data, 8, b, 44, 4, r.service);
  }

  lemma GroupShows(data: seq<Byte>, n: nat)
    requires |data| >= 62 && data[58..62] == GroupHeader(45, Short(n))
    ensures Shows(data, 58, 2, 45) && Shows(data, 60, 2, n)
  {
    var b := GroupHeader(45, Short(n));
    assert b[0..2] == LE(45, 2) && b[2..4] == LE(Short(n), 2);
    FieldShown(data, 58, b, 0, 2, 45);
    FieldShown(data, 58, b, 2, 2, Short(n));
    Powers();
    forall i | 0 <= i < 2 ensures ByteShown(data, 60, i, n) {
      assert ByteShown(data, 60, i, Short(n));
      LowBytes(n, 2, i);
    }
  }

  lemma FixedShows(data: seq<Byte>, off: nat, e: Entry)
    requires off + 45 <= |data| && data[off..off + 45] == EntryBlock(e)
    ensures Shows(data, off, 8, e.termId) && Shows(data, off + 8, 8, e.index) && Shows(data, off + 16, 8, e.timestamp)
    ensures Shows(data, off + 24, 4, e.key) && Shows(data, off + 28, 8, e.qty) && Shows(data, off + 36, 8, e.price)
    ensures data[off + 44] == if e.flag then 1 else 0
  {
    var b := EntryBlock(e);
    EntrySlices(e);
    assert data[off + 44] == data[off..off + 45][44];
    SFieldShown(data, off, b, 0, 8, e.termId);
    SFieldShown(data, off, b, 8, 8, e.index);
    SFieldShown(data, off, b, 16, 8, e.timestamp);
    SFieldShown(data, off, b, 24, 4, e.key);
    SFieldShown(data, off, b, 28, 8, e.qty);
    FieldShown(data, off, b, 36, 8, e.price);
  }

  lemma EntryShows(data: seq<Byte>, r: Record, i: nat)
    requires data == Frame(r) && i < |r.entries|
    ensures EntryShown(data, At(r, i), r.entries[i])
  {
    var e, off := r.entries[i], At(r, i);
    EntriesWithin(r, i);
    Pieces(data, Front(r) + EntriesBytes(r.entries[..i]), EntryBlock(e), LE(|e.text|, 4), e.text);
    FixedShows(data, off, e);
    FieldShown(data, off + 45, LE(|e.text|, 4), 0, 4, |e.text|);
  }

  /** The frame of any record shows every field of it at the offset the schema gives, its entries
      one behind the other, and nothing besides: so for every entry `i`. */
  lemma FrameShows(r: Record, i: nat)
    ensures RootShown(Frame(r), r) && |Frame(r)| == StartOf(r.entries, |r.entries|)
    ensures i < |r.entries| ==> EntryShown(Frame(r), StartOf(r.entries, i), r.entries[i])
  {
    var data := Frame(r);
    FrontPieces(data, r);
    HeaderShows(data);
    BlockShows(data, r);
    GroupShows(data, |r.entries|);
    StartIs(r, |r.entries|);
    assert r.entries[..|r.entries|] == r.entries;
    if i < |r.entries| {
      StartIs(r, i);
      EntryShows(data, r, i);
    }
  }
}
