/** Journal records and the frame both SBE encoders write for one: header, root
    block, one repeating group whose elements end in variable-length text.
 */
module JournalSpec {
  import opened Wire
  import opened SbeFlyweight

  /** `price` is the 64-bit pattern of the floating-point price. */
  datatype Entry = Entry(termId: int, index: int, timestamp: int, key: int, qty: int, price: nat, flag: bool, text: seq<Byte>)

  datatype Record = Record(
    termId: int, position: int, timestamp: int, session: int, correlation: int,
    leader: int, service: int, eventType: Byte, flags: Byte, entries: seq<Entry>)

  const BLOCK_LEN: nat := 50
  const ENTRY_LEN: nat := 45

  /** Bytes of command text the flyweight decoder copies at most. */
  const SCRATCH: nat := 65536

  function FrameHeader(): (s: seq<Byte>)
    ensures |s| == 8
  {
    LE(BLOCK_LEN, 2) + LE(1, 2) + LE(7, 2) + LE(1, 2)
  }

  function RecordBlock(r: Record): (s: seq<Byte>)
    ensures |s| == BLOCK_LEN
  {
    SLE(r.termId, 8) + SLE(r.position, 8) + SLE(r.timestamp, 8) + SLE(r.session, 8) + SLE(r.correlation, 8)
    + SLE(r.leader, 4) + SLE(r.service, 4) + [r.eventType] + [r.flags]
  }

  function FlagByte(b: bool): Byte { if b then 1 else 0 }

  function EntryBlock(e: Entry): (s: seq<Byte>)
    ensures |s| == ENTRY_LEN
  {
    SLE(e.termId, 8) + SLE(e.index, 8) + SLE(e.timestamp, 8) + SLE(e.key, 4) + SLE(e.qty, 8) + LE(e.price, 8) + [FlagByte(e.flag)]
  }

  function EntryBytes(e: Entry): (s: seq<Byte>)
    ensures |s| == ENTRY_LEN + 4 + |e.text|
  {
    EntryBlock(e) + LE(|e.text|, 4) + e.text
  }

  function EntriesBytes(es: seq<Entry>): seq<Byte> {
    if es == [] then [] else EntriesBytes(es[..|es| - 1]) + EntryBytes(es[|es| - 1])
  }

  function Front(r: Record): (s: seq<Byte>)
    ensures |s| == 62
  {
    FrameHeader() + RecordBlock(r) + GroupHeader(ENTRY_LEN, Short(|r.entries|))
  }

  function Frame(r: Record): seq<Byte> {
    Front(r) + EntriesBytes(r.entries)
  }

  lemma EntriesNext(es: seq<Entry>, i: nat)
    requires i < |es|
    ensures EntriesBytes(es[..i + 1]) == EntriesBytes(es[..i]) + EntryBytes(es[i])
  {
    assert es[..i + 1][..i] == es[..i];
  }

  lemma {:induction false} EntriesGrow(es: seq<Entry>, i: nat, n: nat)
    requires i <= n <= |es|
    ensures EntriesBytes(es[..i]) <= EntriesBytes(es[..n])
  {
    if i < n {
      EntriesGrow(es, i, n - 1);
      EntriesNext(es, n - 1);
    }
  }

  /** The first `i + 1` entries lie in the frame. */
  lemma EntriesWithin(r: Record, i: nat)
    requires i < |r.entries|
    ensures 62 + |EntriesBytes(r.entries[..i])| + ENTRY_LEN + 4 + |r.entries[i].text| <= |Frame(r)|
    ensures Front(r) + EntriesBytes(r.entries[..i]) + EntryBytes(r.entries[i]) <= Frame(r)
  {
    EntriesNext(r.entries, i);
    EntriesGrow(r.entries, i + 1, |r.entries|);
    assert r.entries[..|r.entries|] == r.entries;
    assert Front(r) + EntriesBytes(r.entries[..i]) + EntryBytes(r.entries[i]) == Front(r) + EntriesBytes(r.entries[..i + 1]);
  }

  /** The frame up to its entry `i`. */
  ghost function Upto(r: Record, i: nat): seq<Byte>
    requires i <= |r.entries|
  {
    if i == 0 then Front(r) else Upto(r, i - 1) + EntryBytes(r.entries[i - 1])
  }

  lemma {:induction false} UptoIs(r: Record, i: nat)
    requires i <= |r.entries|
    ensures Upto(r, i) == Front(r) + EntriesBytes(r.entries[..i])
  {
    if i == 0 {
      assert Front(r) + EntriesBytes(r.entries[..0]) == Front(r);
    } else {
      UptoIs(r, i - 1);
      EntriesNext(r.entries, i - 1);
      assert Front(r) + EntriesBytes(r.entries[..i - 1]) + EntryBytes(r.entries[i - 1])
          == Front(r) + (EntriesBytes(r.entries[..i - 1]) + EntryBytes(r.entries[i - 1]));
    }
  }

  lemma UptoNext(r: Record, i: nat)
    requires i < |r.entries|
    ensures Upto(r, i + 1) == Upto(r, i) + EntryBytes(r.entries[i]) && Upto(r, i + 1) <= Frame(r)
  {
    UptoIs(r, i + 1);
    EntriesGrow(r.entries, i + 1, |r.entries|);
    assert r.entries[..|r.entries|] == r.entries;
  }

  lemma UptoEnds(r: Record)
    ensures Upto(r, 0) == Front(r) <= Frame(r) && Upto(r, |r.entries|) == Frame(r)
  {
    UptoIs(r, |r.entries|);
    assert r.entries[..|r.entries|] == r.entries;
  }

  // ---------- what a frame decodes to ----------

  ghost predicate EntryFits(e: Entry) {
    && Int64(e.termId) && Int64(e.index) && Int64(e.timestamp) && FitsSigned(e.key, 4) && Int64(e.qty)
    && e.price < Pow256(8) && |e.text| < Pow256(4)
  }

  ghost predicate RecordFits(r: Record) {
    && Int64(r.termId) && Int64(r.position) && Int64(r.timestamp) && Int64(r.session) && Int64(r.correlation)
    && FitsSigned(r.leader, 4) && FitsSigned(r.service, 4)
    && forall i :: 0 <= i < |r.entries| ==> EntryFits(r.entries[i])
  }

  /** The text the flyweight decoder hands on. */
  function CutEntry(e: Entry): (cut: Entry)
    ensures cut == e.(text := cut.text) && cut.text <= e.text
    ensures |cut.text| == if |e.text| <= 65536 then |e.text| else 65536
  {
    if |e.text| <= SCRATCH then e else e.(text := e.text[..SCRATCH])
  }

  function CutAll(es: seq<Entry>): (cut: seq<Entry>)
    ensures |cut| == |es|
  {
    seq(|es|, i requires 0 <= i < |es| => CutEntry(es[i]))
  }

  /** The fixed part of an entry, read at `off`. */
  function ReadFixed(data: seq<Byte>, off: nat, text: seq<Byte>): Entry
    requires off + ENTRY_LEN <= |data|
  {
    Entry(GetS(data, off, 8), GetS(data, off + 8, 8), GetS(data, off + 16, 8), GetS(data, off + 24, 4),
          GetS(data, off + 28, 8), Get(data, off + 36, 8), data[off + 44] != 0, text)
  }

  function ReadRoot(data: seq<Byte>, off: nat, entries: seq<Entry>): Record
    requires off + BLOCK_LEN <= |data|
  {
    Record(GetS(data, off, 8), GetS(data, off + 8, 8), GetS(data, off + 16, 8), GetS(data, off + 24, 8), GetS(data, off + 32, 8),
           GetS(data, off + 40, 4), GetS(data, off + 44, 4), data[off + 48], data[off + 49], entries)
  }

  lemma EntrySlices(e: Entry)
    ensures var b := EntryBlock(e);
            && b[0..8] == SLE(e.termId, 8) && b[8..16] == SLE(e.index, 8) && b[16..24] == SLE(e.timestamp, 8)
            && b[24..28] == SLE(e.key, 4) && b[28..36] == SLE(e.qty, 8) && b[36..44] == LE(e.price, 8) && b[44] == FlagByte(e.flag)
  {
  }

  lemma FixedReads(data: seq<Byte>, off: nat, e: Entry)
    requires off + ENTRY_LEN <= |data| && data[off..off + ENTRY_LEN] == EntryBlock(e) && EntryFits(e)
    ensures ReadFixed(data, off, e.text) == e
  {
    var b := EntryBlock(e);
    EntrySlices(e);
    assert data[off + 44] == data[off..off + ENTRY_LEN][44];
    SField(data, off, b, 0, 8, e.termId);
    SField(data, off, b, 8, 8, e.index);
    SField(data, off, b, 16, 8, e.timestamp);
    SField(data, off, b, 24, 4, e.key);
    SField(data, off, b, 28, 8, e.qty);
    Field(data, off, b, 36, 8, e.price);
  }

  lemma RecordSlices(r: Record)
    ensures var b := RecordBlock(r);
            && b[0..8] == SLE(r.termId, 8) && b[8..16] == SLE(r.position, 8) && b[16..24] == SLE(r.timestamp, 8)
            && b[24..32] == SLE(r.session, 8) && b[32..40] == SLE(r.correlation, 8) && b[40..44] == SLE(r.leader, 4)
            && b[44..48] == SLE(r.service, 4) && b[48] == r.eventType && b[49] == r.flags
  {
  }

  lemma RootReads(data: seq<Byte>, off: nat, r: Record)
    requires off + BLOCK_LEN <= |data| && data[off..off + BLOCK_LEN] == RecordBlock(r) && RecordFits(r)
    ensures ReadRoot(data, off, r.entries) == r
  {
    var b := RecordBlock(r);
    RecordSlices(r);
    assert data[off + 48] == data[off..off + BLOCK_LEN][48] && data[off + 49] == data[off..off + BLOCK_LEN][49];
    SField(data, off, b, 0, 8, r.termId);
    SField(data, off, b, 8, 8, r.position);
    SField(data, off, b, 16, 8, r.timestamp);
    SField(data, off, b, 24, 8, r.session);
    SField(data, off, b, 32, 8, r.correlation);
    SField(data, off, b, 40, 4, r.leader);
    SField(data, off, b, 44, 4, r.service);
  }

  /** The root block does not depend on the entries. */
  lemma SameBlock(r: Record)
    ensures RecordBlock(r.(entries := [])) == RecordBlock(r) && (RecordFits(r) ==> RecordFits(r.(entries := [])))
  {
  }

  /** A piece of what `data` starts with lies where the pieces before it end. */
  lemma Piece(data: seq<Byte>, front: seq<Byte>, b: seq<Byte>, rest: seq<Byte>)
    requires front + b + rest <= data
    ensures |front| + |b| <= |data| && data[|front|..|front| + |b|] == b
  {
    var all := front + b + rest;
    forall i | 0 <= i < |b| ensures data[|front|..|front| + |b|][i] == b[i] {
      assert all[|front| + i] == b[i] && data[|front| + i] == all[|front| + i];
    }
  }

  lemma FrontPieces(data: seq<Byte>, r: Record)
    requires Front(r) <= data
    ensures |data| >= 62 && data[0..8] == FrameHeader() && data[8..58] == RecordBlock(r)
    ensures data[58..62] == GroupHeader(ENTRY_LEN, Short(|r.entries|))
  {
    var h, b, g := FrameHeader(), RecordBlock(r), GroupHeader(ENTRY_LEN, Short(|r.entries|));
    assert Front(r) == [] + h + (b + g) == h + b + g == h + b + g + [];
    Piece(data, [], h, b + g);
    Piece(data, h, b, g);
    Piece(data, h + b, g, []);
  }

  lemma HeaderFields(data: seq<Byte>)
    requires |data| >= 8 && data[0..8] == FrameHeader()
    ensures Get(data, 0, 2) == BLOCK_LEN && Get(data, 6, 2) == 1
  {
    Powers();
    var h := FrameHeader();
    assert h[0..2] == LE(BLOCK_LEN, 2) && h[6..8] == LE(1, 2);
    Field(data, 0, h, 0, 2, BLOCK_LEN);
    Field(data, 0, h, 6, 2, 1);
  }

  /** The header and the group dimensions of a frame read back. */
  lemma FrontOf(data: seq<Byte>, r: Record)
    requires Front(r) <= data && |r.entries| < 65536
    ensures |data| >= 62 && Get(data, 0, 2) == BLOCK_LEN && Get(data, 6, 2) == 1
    ensures Get(data, 58, 2) == ENTRY_LEN && Get(data, 60, 2) == |r.entries|
  {
    FrontPieces(data, r);
    assert Short(|r.entries|) == |r.entries|;
    HeaderFields(data);
    GroupReads(data, 58, ENTRY_LEN, |r.entries|);
  }

  /** ... and so does its root block. */
  lemma RootOf(data: seq<Byte>, r: Record)
    requires Front(r) <= data && RecordFits(r)
    ensures |data| >= 62 && ReadRoot(data, 8, []) == r.(entries := [])
  {
    FrontPieces(data, r);
    SameBlock(r);
    RootReads(data, 8, r.(entries := []));
  }

  /** Entry `i` of a frame: its fixed part, the length of its text, its text. */
  lemma EntryReads(data: seq<Byte>, r: Record, i: nat, off: nat)
    requires Frame(r) <= data && RecordFits(r) && i < |r.entries| && off == 62 + |EntriesBytes(r.entries[..i])|
    ensures var e := r.entries[i];
            && off + ENTRY_LEN + 4 + |e.text| <= |data|
            && ReadFixed(data, off, e.text) == e && Get(data, off + ENTRY_LEN, 4) == |e.text|
            && data[off + ENTRY_LEN + 4..off + ENTRY_LEN + 4 + |e.text|] == e.text
  {
    var e := r.entries[i];
    EntriesWithin(r, i);
    var front, b, l := Front(r) + EntriesBytes(r.entries[..i]), EntryBlock(e), LE(|e.text|, 4);
    Pieces(data, front, b, l, e.text);
    FixedReads(data, off, e);
    GetIs(data, off + ENTRY_LEN, 4, |e.text|);
  }

  lemma Pieces(data: seq<Byte>, front: seq<Byte>, b: seq<Byte>, l: seq<Byte>, t: seq<Byte>)
    requires front + (b + l + t) <= data
    ensures var p := |front|; var q := p + |b|; var s := q + |l|;
            s + |t| <= |data| && data[p..q] == b && data[q..s] == l && data[s..s + |t|] == t
  {
    var p := |front|; var q := p + |b|; var s := q + |l|;
    assert front + (b + l + t) == front + b + (l + t) == front + b + l + t == front + b + l + t + [];
    Piece(data, front, b, l + t);
    Piece(data, front + b, l, t);
    Piece(data, front + b + l, t, []);
  }

  // ---------- decoding any bytes ----------

  /** An entry and the offset behind it. */
  datatype Parsed = Parsed(e: Entry, next: nat)

  /** `n` entries from `pos` on, each starting where the one before it ends. */
  function EntriesFrom(take: nat -> Option<Parsed>, pos: nat, n: nat): Option<seq<Entry>>
    decreases n
  {
    if n == 0 then Some([])
    else
      match take(pos)
      case None => None
      case Some(p) => Behind([p.e], EntriesFrom(take, p.next, n - 1))
  }

  function Behind(front: seq<Entry>, rest: Option<seq<Entry>>): Option<seq<Entry>> {
    if rest.None? then None else Some(front + rest.value)
  }

  /** What is left behind `front` once the next entry has been taken, or could not be. */
  lemma BehindTaken(front: seq<Entry>, take: nat -> Option<Parsed>, pos: nat, n: nat)
    requires n > 0
    ensures Behind(front, EntriesFrom(take, pos, n)) ==
            if take(pos).None? then None
            else Behind(front + [take(pos).value.e], EntriesFrom(take, take(pos).value.next, n - 1))
  {
    if take(pos).Some? {
      BehindMore(front, take(pos).value.e, EntriesFrom(take, take(pos).value.next, n - 1));
    }
  }

  lemma BehindNone(rest: Option<seq<Entry>>)
    ensures Behind([], rest) == rest
  {
    if rest.Some? { assert [] + rest.value == rest.value; }
  }

  lemma BehindAll(front: seq<Entry>)
    ensures Behind(front, Some([])) == Some(front)
  {
    assert front + [] == front;
  }

  lemma BehindMore(front: seq<Entry>, e: Entry, rest: Option<seq<Entry>>)
    ensures Behind(front, Behind([e], rest)) == Behind(front + [e], rest)
  {
    if rest.Some? { assert front + ([e] + rest.value) == front + [e] + rest.value; }
  }

  /** Only the text depends on the text. */
  lemma SameFixed(data: seq<Byte>, off: nat, text: seq<Byte>, cut: seq<Byte>)
    requires off + ENTRY_LEN <= |data|
    ensures ReadFixed(data, off, cut) == ReadFixed(data, off, text).(text := cut)
  {
  }

  /** Where entry `i` of a frame starts. */
  function At(r: Record, i: nat): nat
    requires i <= |r.entries|
  {
    62 + |EntriesBytes(r.entries[..i])|
  }

  /** `take` turns entry `k` of the frame into `out[k]`. */
  ghost predicate TakesEntry(take: nat -> Option<Parsed>, r: Record, out: seq<Entry>, k: nat)
    requires k < |r.entries| == |out|
  {
    take(At(r, k)) == Some(Parsed(out[k], At(r, k + 1)))
  }

  /** A group whose entries can be taken one by one is taken whole. */
  lemma {:induction false} EntriesAlong(take: nat -> Option<Parsed>, r: Record, out: seq<Entry>, i: nat)
    requires i <= |r.entries| == |out| && forall k :: 0 <= k < |out| ==> TakesEntry(take, r, out, k)
    ensures EntriesFrom(take, At(r, i), |out| - i) == Some(out[i..])
    decreases |out| - i
  {
    if i < |out| {
      EntriesAlong(take, r, out, i + 1);
      assert TakesEntry(take, r, out, i);
      assert [out[i]] + out[i + 1..] == out[i..];
    }
  }
}
