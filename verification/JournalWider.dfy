/** Frames of a newer schema, whose blocks carry more bytes behind the fields known
    here: what the two decoders make of them.
 */
module JournalWider {
  import opened Wire
  import opened SbeFlyweight
  import opened JournalSpec
  import JournalFlyweight
  import JournalStruct

  /** What a newer schema adds: its version, bytes behind the root fields, and the same number
      of bytes behind the fields of every entry. */
  datatype Wider = Wider(version: nat, root: seq<Byte>, size: nat, pads: seq<seq<Byte>>)

  ghost predicate Fits(r: Record, x: Wider) {
    && RecordFits(r) && |r.entries| < 65536 && |x.pads| == |r.entries| && x.version < 65536
    && BLOCK_LEN + |x.root| < 65536 && ENTRY_LEN + x.size < 65536
    && forall i :: 0 <= i < |x.pads| ==> |x.pads[i]| == x.size
  }

  function WideHeader(x: Wider): (s: seq<Byte>)
    ensures |s| == 8
  {
    LE(BLOCK_LEN + |x.root|, 2) + LE(1, 2) + LE(7, 2) + LE(x.version, 2)
  }

  function WideEntry(e: Entry, pad: seq<Byte>): (s: seq<Byte>)
    ensures |s| == ENTRY_LEN + |pad| + 4 + |e.text|
  {
    EntryBlock(e) + pad + LE(|e.text|, 4) + e.text
  }

  /** The frame up to its entry `i`. */
  function WideUpto(r: Record, x: Wider, i: nat): (s: seq<Byte>)
    requires i <= |r.entries| == |x.pads|
    ensures |s| >= 62 + |x.root|
  {
    if i == 0 then WideHeader(x) + RecordBlock(r) + x.root + GroupHeader(ENTRY_LEN + x.size, |r.entries|)
    else WideUpto(r, x, i - 1) + WideEntry(r.entries[i - 1], x.pads[i - 1])
  }

  function WideFrame(r: Record, x: Wider): seq<Byte>
    requires |r.entries| == |x.pads|
  {
    WideUpto(r, x, |r.entries|)
  }

  lemma {:induction false} UptoGrows(r: Record, x: Wider, i: nat, n: nat)
    requires i <= n <= |r.entries| == |x.pads|
    ensures WideUpto(r, x, i) <= WideUpto(r, x, n)
  {
    if i < n { UptoGrows(r, x, i, n - 1); }
  }

  // ---------- reading one ----------

  lemma FourPieces(data: seq<Byte>, a: seq<Byte>, b: seq<Byte>, c: seq<Byte>, d: seq<Byte>)
    requires a + b + c + d <= data
    ensures |a| + |b| + |c| + |d| <= |data|
    ensures data[|a|..|a| + |b|] == b && data[|a| + |b|..|a| + |b| + |c|] == c
    ensures data[|a| + |b| + |c|..|a| + |b| + |c| + |d|] == d
  {
    Piece(data, a, b, c + d) by { assert a + b + (c + d) == a + b + c + d; }
    Piece(data, a + b, c, d);
    Piece(data, a + b + c, d, []) by { assert a + b + c + d + [] == a + b + c + d; }
  }

  lemma EntryPieces(data: seq<Byte>, front: seq<Byte>, b: seq<Byte>, pad: seq<Byte>, l: seq<Byte>, t: seq<Byte>)
    requires front + (b + pad + l + t) <= data
    ensures var p := |front|; var q := p + |b| + |pad|; var s := q + |l|;
            s + |t| <= |data| && data[p..p + |b|] == b && data[q..s] == l && data[s..s + |t|] == t
  {
    assert front + (b + pad + l + t) == front + b + (pad + l) + t == front + (b + pad) + l + t;
    FourPieces(data, front, b, pad + l, t);
    FourPieces(data, front, b + pad, l, t);
  }

  /** Where entry `i` of a wide frame starts. */
  function StartOf(r: Record, x: Wider, i: nat): nat
    requires i <= |r.entries|
  {
    if i == 0 then 62 + |x.root| else StartOf(r, x, i - 1) + ENTRY_LEN + x.size + 4 + |r.entries[i - 1].text|
  }

  lemma {:induction false} StartIs(r: Record, x: Wider, i: nat)
    requires Fits(r, x) && i <= |r.entries|
    ensures |WideUpto(r, x, i)| == StartOf(r, x, i)
  {
    if i > 0 { StartIs(r, x, i - 1); }
  }

  /** Entry `e` lies at `off`: its fixed part, and its text behind a block `size` bytes longer. */
  ghost predicate EntryThere(data: seq<Byte>, off: nat, size: nat, e: Entry) {
    var at := off + ENTRY_LEN + size;
    && at + 4 + |e.text| <= |data| && ReadFixed(data, off, e.text) == e && Get(data, at, 4) == |e.text|
    && data[at + 4..at + 4 + |e.text|] == e.text
  }

  lemma EntryReads(data: seq<Byte>, front: seq<Byte>, e: Entry, pad: seq<Byte>)
    requires front + WideEntry(e, pad) <= data && EntryFits(e)
    ensures EntryThere(data, |front|, |pad|, e)
  {
    EntryPieces(data, front, EntryBlock(e), pad, LE(|e.text|, 4), e.text);
    FixedReads(data, |front|, e);
    GetIs(data, |front| + ENTRY_LEN + |pad|, 4, |e.text|);
  }

  lemma WideEntryLies(r: Record, x: Wider, k: nat) returns (front: seq<Byte>)
    requires Fits(r, x) && k < |r.entries|
    ensures |front| == StartOf(r, x, k) && front + WideEntry(r.entries[k], x.pads[k]) <= WideFrame(r, x)
  {
    front := WideUpto(r, x, k);
    UptoGrows(r, x, k + 1, |r.entries|);
    StartIs(r, x, k);
  }

  /** Entry `k` of a wide frame lies where the lengths of those before it put it. */
  ghost predicate EntryAtStart(data: seq<Byte>, r: Record, x: Wider, k: nat)
    requires k < |r.entries|
  {
    EntryThere(data, StartOf(r, x, k), x.size, r.entries[k])
  }

  lemma WideEntryReads(r: Record, x: Wider, k: nat, data: seq<Byte>)
    requires Fits(r, x) && k < |r.entries| && data == WideFrame(r, x)
    ensures EntryAtStart(data, r, x, k)
  {
    var front := WideEntryLies(r, x, k);
    EntryReads(data, front, r.entries[k], x.pads[k]);
  }

  lemma FrontPieces(data: seq<Byte>, h: seq<Byte>, b: seq<Byte>, pad: seq<Byte>, g: seq<Byte>)
    requires h + b + pad + g <= data
    ensures var p := |h| + |b|; var q := p + |pad|;
            q + |g| <= |data| && data[0..|h|] == h && data[|h|..p] == b && data[q..q + |g|] == g
  {
    assert [] + h + b + (pad + g) == h + b + pad + g == h + (b + pad) + g + [];
    FourPieces(data, [], h, b, pad + g);
    FourPieces(data, h, b + pad, g, []);
  }

  lemma WideFront(r: Record, x: Wider)
    requires Fits(r, x)
    ensures var data, pos := WideFrame(r, x), 58 + |x.root|;
            && |data| >= pos + 4
            && data[0..8] == WideHeader(x) && data[8..58] == RecordBlock(r) && data[pos..pos + 4] == GroupHeader(ENTRY_LEN + x.size, |r.entries|)
  {
    UptoGrows(r, x, 0, |r.entries|);
    FrontPieces(WideFrame(r, x), WideHeader(x), RecordBlock(r), x.root, GroupHeader(ENTRY_LEN + x.size, |r.entries|));
  }

  lemma HeaderReads(data: seq<Byte>, x: Wider)
    requires |data| >= 8 && data[0..8] == WideHeader(x) && x.version < 65536 && BLOCK_LEN + |x.root| < 65536
    ensures Get(data, 0, 2) == BLOCK_LEN + |x.root| && Get(data, 6, 2) == x.version
  {
    Powers();
    var h := WideHeader(x);
    assert h[0..2] == LE(BLOCK_LEN + |x.root|, 2) && h[6..8] == LE(x.version, 2);
    Field(data, 0, h, 0, 2, BLOCK_LEN + |x.root|);
    Field(data, 0, h, 6, 2, x.version);
  }

  /** `data` starts like a wide frame of `r`. */
  ghost predicate FrontThere(data: seq<Byte>, r: Record, x: Wider) {
    var pos := 58 + |x.root|;
    && |data| >= pos + 4 && Get(data, 0, 2) == BLOCK_LEN + |x.root| && Get(data, 6, 2) == x.version
    && ReadRoot(data, 8, []) == r.(entries := [])
    && Get(data, pos, 2) == ENTRY_LEN + x.size && Get(data, pos + 2, 2) == |r.entries|
  }

  /** Header, root fields and group dimensions of a wide frame read back. */
  lemma WideFrontReads(r: Record, x: Wider)
    requires Fits(r, x)
    ensures FrontThere(WideFrame(r, x), r, x)
  {
    WideFront(r, x);
    HeaderReads(WideFrame(r, x), x);
    SameBlock(r);
    RootReads(WideFrame(r, x), 8, r.(entries := []));
    GroupReads(WideFrame(r, x), 58 + |x.root|, ENTRY_LEN + x.size, |r.entries|);
  }

  // ---------- reading all ----------

  /** `take` turns entry `k` of the frame into `out[k]`. */
  ghost predicate Takes(take: nat -> Option<Parsed>, r: Record, x: Wider, out: seq<Entry>, k: nat)
    requires k < |r.entries| == |out|
  {
    take(StartOf(r, x, k)) == Some(Parsed(out[k], StartOf(r, x, k + 1)))
  }

  lemma {:induction false} TakenAlong(take: nat -> Option<Parsed>, r: Record, x: Wider, out: seq<Entry>, i: nat)
    requires i <= |r.entries| == |out| && forall k :: 0 <= k < |out| ==> Takes(take, r, x, out, k)
    ensures EntriesFrom(take, StartOf(r, x, i), |out| - i) == Some(out[i..])
    decreases |out| - i
  {
    if i < |out| {
      TakenAlong(take, r, x, out, i + 1);
      assert Takes(take, r, x, out, i);
      assert [out[i]] + out[i + 1..] == out[i..];
    }
  }

  lemma FlyTakes(data: seq<Byte>, off: nat, size: nat, e: Entry)
    requires EntryThere(data, off, size, e)
    ensures JournalFlyweight.EntryAt(data, off, ENTRY_LEN + size) == Some(Parsed(CutEntry(e), off + ENTRY_LEN + size + 4 + |e.text|))
  {
    var at, n := off + ENTRY_LEN + size + 4, if SCRATCH < |e.text| then SCRATCH else |e.text|;
    SameFixed(data, off, e.text, CutEntry(e).text);
    assert data[at..at + n] == data[at..at + |e.text|][..n];
  }

  lemma StructTakes(data: seq<Byte>, off: nat, version: nat, size: nat, e: Entry)
    requires EntryThere(data, off, size, e) && (version > 1 || size == 0)
    ensures JournalStruct.EntryAt(data, off, version, ENTRY_LEN + size) == Some(Parsed(e, off + ENTRY_LEN + size + 4 + |e.text|))
  {
  }

  lemma FlyEntries(r: Record, x: Wider, data: seq<Byte>)
    requires forall k :: 0 <= k < |r.entries| ==> EntryAtStart(data, r, x, k)
    ensures EntriesFrom(JournalFlyweight.TakeEntry(data, ENTRY_LEN + x.size), 62 + |x.root|, |r.entries|) == Some(CutAll(r.entries))
  {
    var take, out := JournalFlyweight.TakeEntry(data, ENTRY_LEN + x.size), CutAll(r.entries);
    forall k | 0 <= k < |out| ensures Takes(take, r, x, out, k) { assert EntryAtStart(data, r, x, k); FlyTakes(data, StartOf(r, x, k), x.size, r.entries[k]); }
    TakenAlong(take, r, x, out, 0);
    assert out[0..] == out;
  }

  lemma StructEntries(r: Record, x: Wider, data: seq<Byte>)
    requires (x.version > 1 || x.size == 0) && forall k :: 0 <= k < |r.entries| ==> EntryAtStart(data, r, x, k)
    ensures EntriesFrom(JournalStruct.TakeEntry(data, x.version, ENTRY_LEN + x.size), 62 + |x.root|, |r.entries|) == Some(r.entries)
  {
    var take, out := JournalStruct.TakeEntry(data, x.version, ENTRY_LEN + x.size), r.entries;
    forall k | 0 <= k < |out| ensures Takes(take, r, x, out, k) { assert EntryAtStart(data, r, x, k); StructTakes(data, StartOf(r, x, k), x.version, x.size, out[k]); }
    TakenAlong(take, r, x, out, 0);
    assert out[0..] == out;
  }

  lemma FlyDecodes(data: seq<Byte>, r: Record, x: Wider, out: seq<Entry>)
    requires FrontThere(data, r, x)
    requires EntriesFrom(JournalFlyweight.TakeEntry(data, ENTRY_LEN + x.size), 62 + |x.root|, |r.entries|) == Some(out)
    ensures JournalFlyweight.Decoded(data) == Some(r.(entries := out))
  {
  }

  lemma StructDecodes(data: seq<Byte>, r: Record, x: Wider)
    requires FrontThere(data, r, x) && (x.version > 1 || x.root == [])
    requires EntriesFrom(JournalStruct.TakeEntry(data, x.version, ENTRY_LEN + x.size), 62 + |x.root|, |r.entries|) == Some(r.entries)
    ensures JournalStruct.Decoded(data) == Some(r)
  {
  }

  lemma EntriesThere(r: Record, x: Wider)
    requires Fits(r, x)
    ensures forall k :: 0 <= k < |r.entries| ==> EntryAtStart(WideFrame(r, x), r, x, k)
  {
    forall k | 0 <= k < |r.entries| ensures EntryAtStart(WideFrame(r, x), r, x, k) { WideEntryReads(r, x, k, WideFrame(r, x)); }
  }

  /** The flyweight steps over what a newer schema added, by the announced block lengths alone:
      every field comes back, each text cut to the scratch buffer. */
  lemma FlyweightSkips(r: Record, x: Wider)
    requires Fits(r, x)
    ensures JournalFlyweight.Decoded(WideFrame(r, x)) == Some(r.(entries := CutAll(r.entries)))
  {
    WideFrontReads(r, x);
    EntriesThere(r, x);
    FlyEntries(r, x, WideFrame(r, x));
    FlyDecodes(WideFrame(r, x), r, x, CutAll(r.entries));
  }

  /** The struct decoder steps over it when the frame says that its version is newer. */
  lemma StructSkips(r: Record, x: Wider)
    requires Fits(r, x) && (x.version > 1 || (x.root == [] && x.size == 0))
    ensures JournalStruct.Decoded(WideFrame(r, x)) == Some(r)
  {
    WideFrontReads(r, x);
    EntriesThere(r, x);
    StructEntries(r, x, WideFrame(r, x));
    StructDecodes(WideFrame(r, x), r, x);
  }
}
