/** The snapshot image byte by byte: which offset shows which field. */
module SnapshotLayout {
  import Arith
  import opened BookSpec
  import opened Wire
  import opened SbeFlyweight
  import opened SnapshotCodec
  import opened SnapshotRoundTrip

  /** Message header and root block: template 1 of schema 8, version 2. */
  ghost predicate RootShown(data: seq<Byte>, r: RootFields) {
    && Shows(data, 0, 2, 40) && Shows(data, 2, 2, 1) && Shows(data, 4, 2, 8) && Shows(data, 6, 2, 2)
    && Shows(data, 8, 8, r.priceMin) && Shows(data, 16, 8, r.tick)
    && Shows(data, 24, 4, r.nLevels) && Shows(data, 28, 4, r.capacity) && Shows(data, 32, 4, r.hwm)
    && Shows(data, 36, 4, r.bestBid) && Shows(data, 40, 4, r.bestAsk) && Shows(data, 44, 4, r.freeHead)
  }

  ghost predicate LevelShown(data: seq<Byte>, off: nat, e: Entry) {
    && off + 25 <= |data| && data[off] == e.side && Shows(data, off + 1, 4, e.t)
    && Shows(data, off + 5, 8, e.level.qtyTotal) && Shows(data, off + 13, 4, e.level.count)
    && Shows(data, off + 17, 4, e.level.head) && Shows(data, off + 21, 4, e.level.tail)
  }

  ghost predicate OrderShown(data: seq<Byte>, off: nat, slot: nat, o: Order) {
    && off + 45 <= |data| && Shows(data, off, 4, slot) && Shows(data, off + 4, 8, o.id) && Shows(data, off + 12, 8, o.price)
    && Shows(data, off + 20, 8, o.qty) && Shows(data, off + 28, 8, o.filled) && data[off + 36] == o.side
    && Shows(data, off + 37, 4, o.next) && Shows(data, off + 41, 4, o.prev)
  }

  // ---------- one block ----------

  lemma HeaderShows(data: seq<Byte>)
    requires |data| >= 8 && data[0..8] == HeaderBytes()
    ensures Shows(data, 0, 2, 40) && Shows(data, 2, 2, 1) && Shows(data, 4, 2, 8) && Shows(data, 6, 2, 2)
  {
    var b := HeaderBytes();
    assert b[0..2] == LE(40, 2) && b[2..4] == LE(1, 2) && b[4..6] == LE(8, 2) && b[6..8] == LE(2, 2);
    FieldShown(data, 0, b, 0, 2, 40);
    FieldShown(data, 0, b, 2, 2, 1);
    FieldShown(data, 0, b, 4, 2, 8);
    FieldShown(data, 0, b, 6, 2, 2);
  }

  lemma RootShows(data: seq<Byte>, r: RootFields)
    requires |data| >= 48 && data[0..8] == HeaderBytes() && data[8..48] == RootBlock(r)
    ensures RootShown(data, r)
  {
    HeaderShows(data);
    var b := RootBlock(r);
    RootSlices(r);
    SFieldShown(data, 8, b, 0, 8, r.priceMin);
    SFieldShown(data, 8, b, 8, 8, r.tick);
    FieldShown(data, 8, b, 16, 4, r.nLevels);
    FieldShown(data, 8, b, 20, 4, r.capacity);
    FieldShown(data, 8, b, 24, 4, r.hwm);
    SFieldShown(data, 8, b, 28, 4, r.bestBid);
    SFieldShown(data, 8, b, 32, 4, r.bestAsk);
    FieldShown(data, 8, b, 36, 4, r.freeHead);
  }

  lemma LevelShows(data: seq<Byte>, off: nat, e: Entry)
    requires off + 25 <= |data| && data[off..off + 25] == LevelBlock(e)
    ensures LevelShown(data, off, e)
  {
    var b := LevelBlock(e);
    LevelSlices(e);
    assert data[off] == data[off..off + 25][0];
    FieldShown(data, off, b, 1, 4, e.t);
    SFieldShown(data, off, b, 5, 8, e.level.qtyTotal);
    SFieldShown(data, off, b, 13, 4, e.level.count);
    FieldShown(data, off, b, 17, 4, e.level.head);
    FieldShown(data, off, b, 21, 4, e.level.tail);
  }

  lemma OrderShows(data: seq<Byte>, off: nat, slot: nat, o: Order)
    requires off + 45 <= |data| && data[off..off + 45] == OrderBlock(slot, o)
    ensures OrderShown(data, off, slot, o)
  {
    var b := OrderBlock(slot, o);
    OrderSlices(slot, o);
    assert data[off + 36] == data[off..off + 45][36];
    FieldShown(data, off, b, 0, 4, slot);
    SFieldShown(data, off, b, 4, 8, o.id);
    SFieldShown(data, off, b, 12, 8, o.price);
    SFieldShown(data, off, b, 20, 8, o.qty);
    SFieldShown(data, off, b, 28, 8, o.filled);
    FieldShown(data, off, b, 37, 4, o.next);
    FieldShown(data, off, b, 41, 4, o.prev);
  }

  lemma GroupShows(data: seq<Byte>, off: nat, block: nat, count: nat)
    requires off + 4 <= |data| && data[off..off + 4] == GroupHeader(block, count)
    ensures Shows(data, off, 2, block) && Shows(data, off + 2, 2, count)
  {
    var b := GroupHeader(block, count);
    assert b[0..2] == LE(block, 2) && b[2..4] == LE(count, 2);
    FieldShown(data, off, b, 0, 2, block);
    FieldShown(data, off, b, 2, 2, count);
  }

  // ---------- the whole image ----------

  /** The occupied levels of the book, bids before asks, each side by ascending level. */
  ghost predicate Occupied(st: State, es: seq<Entry>) {
    && (forall i :: 0 <= i < |es| ==> es[i].t < |st.Lane(es[i].side)|)
    && (forall i :: 0 <= i < |es| ==> es[i].level == st.Lane(es[i].side)[es[i].t] && es[i].level.head != NIL)
    && (forall i, j :: 0 <= i < j < |es| ==> es[i].side < es[j].side || (es[i].side == es[j].side && es[i].t < es[j].t))
    && (forall side: Side, t :: 0 <= t < |st.Lane(side)| && st.Lane(side)[t].head != NIL ==> Entry(side, t, st.Lane(side)[t]) in es)
  }

  /** The entries are the occupied levels in order. */
  lemma EntriesOccupied(st: State)
    ensures Occupied(st, Entries(st))
  {
    EntriesAre(st);
    LaneOfLane(0, st.bids);
    LaneOfLane(1, st.asks);
    EntriesSorted(st, LaneEntries(0, st.bids, |st.bids|), LaneEntries(1, st.asks, |st.asks|), Entries(st));
  }

  lemma LaneOfLane(side: Side, lane: seq<Level>)
    ensures OfLane(side, lane, LaneEntries(side, lane, |lane|))
  {
    LaneEntriesAre(side, lane, |lane|);
  }

  /** Entries of one lane, ascending. */
  ghost predicate OfLane(side: Side, lane: seq<Level>, es: seq<Entry>) {
    && (forall i :: 0 <= i < |es| ==> es[i].side == side && es[i].t < |lane| && es[i].level == lane[es[i].t] && es[i].level.head != NIL)
    && (forall i, j :: 0 <= i < j < |es| ==> es[i].t < es[j].t)
  }

  lemma EntriesSorted(st: State, a: seq<Entry>, b: seq<Entry>, es: seq<Entry>)
    requires OfLane(0, st.bids, a) && OfLane(1, st.asks, b) && es == a + b
    ensures forall i :: 0 <= i < |es| ==> es[i].t < |st.Lane(es[i].side)|
    ensures forall i :: 0 <= i < |es| ==> es[i].level == st.Lane(es[i].side)[es[i].t] && es[i].level.head != NIL
    ensures forall i, j :: 0 <= i < j < |es| ==> es[i].side < es[j].side || (es[i].side == es[j].side && es[i].t < es[j].t)
  {
    forall i | 0 <= i < |es| ensures es[i] == if i < |a| then a[i] else b[i - |a|] { }
  }

  ghost predicate GroupShown(data: seq<Byte>, off: nat, block: nat, count: nat) {
    Shows(data, off, 2, block) && Shows(data, off + 2, 2, count)
  }

  ghost predicate LevelsShown(data: seq<Byte>, es: seq<Entry>) {
    GroupShown(data, 48, 25, |es|) && forall i :: 0 <= i < |es| ==> LevelShown(data, 52 + 25 * i, es[i])
  }

  ghost predicate OrdersShown(data: seq<Byte>, off: nat, pool: seq<Order>, n: nat)
    requires n <= |pool|
  {
    GroupShown(data, off, 45, n) && forall s :: 0 <= s < n ==> OrderShown(data, off + 4 + 45 * s, s, pool[s])
  }

  /** `data` is the image of `st`: every field at its offset, and nothing besides. */
  ghost predicate Displays(data: seq<Byte>, st: State, es: seq<Entry>, crc: Crc)
    requires st.hwm <= |st.pool|
  {
    var orders := 52 + 25 * |es|;
    && |data| == orders + 4 + 45 * st.hwm + 4
    && RootShown(data, RootFields(st.priceMin, st.tick, st.nLevels, |st.pool|, st.hwm, st.bestBid, st.bestAsk, st.freeHead))
    && LevelsShown(data, es) && OrdersShown(data, orders, st.pool, st.hwm)
    && Shows(data, |data| - 4, 4, crc(data[..|data| - 4]))
  }

  lemma {:induction false} ElementIs(pos: nat, block: nat, i: nat)
    ensures ElementAt(pos, block, i) == pos + block * i
  {
    if i > 0 { ElementIs(pos, block, i - 1); }
  }

  lemma LevelsDisplayed(data: seq<Byte>, es: seq<Entry>, i: nat)
    requires i < |es| && 52 + |Join(LevelBlocks(es))| <= |data| && data[52..52 + |Join(LevelBlocks(es))|] == Join(LevelBlocks(es))
    ensures LevelShown(data, 52 + 25 * i, es[i])
  {
    BlockAt(data, 52, LevelBlocks(es), 25, i);
    ElementIs(52, 25, i);
    LevelShows(data, 52 + 25 * i, es[i]);
  }

  lemma OrdersDisplayed(data: seq<Byte>, pool: seq<Order>, n: nat, pos: nat, s: nat)
    requires s < n <= |pool| && pos + |Join(OrderBlocks(pool, n))| <= |data|
    requires data[pos..pos + |Join(OrderBlocks(pool, n))|] == Join(OrderBlocks(pool, n))
    ensures OrderShown(data, pos + 45 * s, s, pool[s])
  {
    BlockAt(data, pos, OrderBlocks(pool, n), 45, s);
    ElementIs(pos, 45, s);
    OrderShows(data, pos + 45 * s, s, pool[s]);
  }

  lemma Sizes(st: State)
    requires st.hwm <= |st.pool|
    ensures |Join(LevelBlocks(Entries(st)))| == 25 * |Entries(st)| && |Join(OrderBlocks(st.pool, st.hwm))| == 45 * st.hwm
  {
    JoinSize(LevelBlocks(Entries(st)), 25);
    JoinSize(OrderBlocks(st.pool, st.hwm), 45);
    ElementIs(0, 25, |Entries(st)|);
    ElementIs(0, 45, st.hwm);
  }

  lemma TrailerShows(body: seq<Byte>, c: Word32)
    ensures var data := body + LE(c, 4); data[..|body|] == body && Shows(data, |body|, 4, c)
  {
    var data := body + LE(c, 4);
    assert data[|body|..|body| + 4] == LE(c, 4);
    LEShows(c, 4);
    ShowsWithin(data, |body|, LE(c, 4), 4, c);
  }

  lemma LevelsGroupShows(data: seq<Byte>, es: seq<Entry>, levels: seq<Byte>)
    requires levels == Join(LevelBlocks(es)) && 52 + |levels| <= |data|
    requires data[48..52] == GroupHeader(25, |es|) && data[52..52 + |levels|] == levels
    ensures LevelsShown(data, es)
  {
    GroupShows(data, 48, 25, |es|);
    forall i | 0 <= i < |es| ensures LevelShown(data, 52 + 25 * i, es[i]) { LevelsDisplayed(data, es, i); }
  }

  lemma OrdersGroupShows(data: seq<Byte>, off: nat, pool: seq<Order>, n: nat, orders: seq<Byte>)
    requires n <= |pool| && orders == Join(OrderBlocks(pool, n)) && off + 4 + |orders| <= |data|
    requires data[off..off + 4] == GroupHeader(45, n) && data[off + 4..off + 4 + |orders|] == orders
    ensures OrdersShown(data, off, pool, n)
  {
    GroupShows(data, off, 45, n);
    OrdersAt(data, off + 4, pool, n, orders);
  }

  lemma OrdersAt(data: seq<Byte>, pos: nat, pool: seq<Order>, n: nat, orders: seq<Byte>)
    requires n <= |pool| && orders == Join(OrderBlocks(pool, n)) && pos + |orders| <= |data| && data[pos..pos + |orders|] == orders
    ensures forall s :: 0 <= s < n ==> OrderShown(data, pos + 45 * s, s, pool[s])
  {
    forall s | 0 <= s < n ensures OrderShown(data, pos + 45 * s, s, pool[s]) { OrdersDisplayed(data, pool, n, pos, s); }
  }

  lemma BodyShows(data: seq<Byte>, limit: nat, st: State)
    requires st.hwm <= |st.pool| && BodyLaid(data, limit, st)
    ensures limit == 56 + 25 * |Entries(st)| + 45 * st.hwm
    ensures RootShown(data, SnapshotCodec.RootOf(st)) && LevelsShown(data, Entries(st))
    ensures OrdersShown(data, 52 + 25 * |Entries(st)|, st.pool, st.hwm)
  {
    Sizes(st);
    RootShows(data, SnapshotCodec.RootOf(st));
    LevelsGroupShows(data, Entries(st), Join(LevelBlocks(Entries(st))));
    OrdersGroupShows(data, 52 + 25 * |Entries(st)|, st.pool, st.hwm, Join(OrderBlocks(st.pool, st.hwm)));
  }

  /** The image of any book shows every field of it at the offset the schema gives. */
  lemma ImageShows(st: State, crc: Crc)
    requires st.hwm <= |st.pool|
    ensures Occupied(st, Entries(st)) && Displays(Image(st, crc), st, Entries(st), crc)
  {
    EntriesOccupied(st);
    ImageLaid(st, crc, Image(st, crc), |Body(st)|);
    BodyShows(Image(st, crc), |Body(st)|, st);
    TrailerShows(Body(st), crc(Body(st)));
  }

  /** All bytes of a field that shows -1 are 255. */
  lemma MinusOne(data: seq<Byte>, off: nat, n: nat, i: nat)
    requires Shows(data, off, n, -1) && i < n
    ensures data[off + i] == 255
  {
    assert ByteShown(data, off, i, -1);
    Arith.DivModIs(-1, Pow256(i), -1, Pow256(i) - 1);
  }

  /** ... and so are those of one that shows the end of a list. */
  lemma NilByte(data: seq<Byte>, off: nat, i: nat)
    requires Shows(data, off, 4, NIL) && i < 4
    ensures data[off + i] == 255
  {
    Powers();
    assert Pow256(1) == 256 && Pow256(3) == 0x100_0000;
    assert ByteShown(data, off, i, NIL);
  }

  lemma RootMarks(data: seq<Byte>, r: RootFields, i: nat)
    requires RootShown(data, r) && i < 4
    ensures |data| >= 48
    ensures r.bestBid == -1 ==> data[36 + i] == 255
    ensures r.bestAsk == -1 ==> data[40 + i] == 255
    ensures r.freeHead == NIL ==> data[44 + i] == 255
  {
    if r.bestBid == -1 { MinusOne(data, 36, 4, i); }
    if r.bestAsk == -1 { MinusOne(data, 40, 4, i); }
    if r.freeHead == NIL { NilByte(data, 44, i); }
  }

  /** The best price of an empty side goes out as four bytes 255, and so does the end of the free list. */
  lemma EmptyMarks(st: State, crc: Crc, i: nat)
    requires st.hwm <= |st.pool| && i < 4
    ensures |Image(st, crc)| >= 48
    ensures st.bestBid == -1 ==> Image(st, crc)[36 + i] == 255
    ensures st.bestAsk == -1 ==> Image(st, crc)[40 + i] == 255
    ensures st.freeHead == NIL ==> Image(st, crc)[44 + i] == 255
  {
    ImageLaid(st, crc, Image(st, crc), |Body(st)|);
    BodyShows(Image(st, crc), |Body(st)|, st);
    RootMarks(Image(st, crc), SnapshotCodec.RootOf(st), i);
  }

  // ---------- what any bytes restore to ----------

  /** The trailer agrees with the checksum of the bytes before it. */
  ghost predicate Sealed(data: seq<Byte>, crc: Crc) {
    |data| >= 4 && FromLE(data[|data| - 4..]) == crc(data[..|data| - 4])
  }

  ghost predicate VersionGood(data: seq<Byte>) {
    |data| >= 12 && FromLE(data[6..8]) == 2
  }

  /** The root block, as long as the frame header says, lies before the trailer. */
  ghost predicate RootThere(data: seq<Byte>) {
    |data| >= 48 && 8 + FromLE(data[0..2]) <= |data| - 4
  }

  /** Which images are refused, and as what, in the order the checks are made; `err` is
      the outcome, none for a book. */
  ghost predicate Screened(data: seq<Byte>, cap: nat, crc: Crc, err: Option<Error>) {
    && (|data| < 4 ==> err == Some(TooShort))
    && (|data| >= 4 && !Sealed(data, crc) ==> err == Some(CrcMismatch))
    && (Sealed(data, crc) && |data| >= 12 && !VersionGood(data) ==> err == Some(BadVersion))
    && (Sealed(data, crc) && VersionGood(data) && RootThere(data) && FromLE(data[28..32]) != cap ==> err == Some(CapacityMismatch))
    && (err == None ==> Sealed(data, crc) && VersionGood(data) && RootThere(data) && FromLE(data[28..32]) == cap)
  }

  /** The scalars of a restored book are those the root block shows. */
  ghost predicate Carries(data: seq<Byte>, st: State) {
    && Shows(data, 8, 8, st.priceMin) && Shows(data, 16, 8, st.tick) && Shows(data, 24, 4, st.nLevels)
    && Shows(data, 32, 4, st.hwm) && Shows(data, 36, 4, st.bestBid) && Shows(data, 40, 4, st.bestAsk)
    && Shows(data, 44, 4, st.freeHead)
  }

  function ErrorOf(r: Restored): Option<Error> {
    if r.Err? then Some(r.error) else None
  }

  lemma Frame(data: seq<Byte>)
    requires |data| >= 4
    ensures Get(data, |data| - 4, 4) == FromLE(data[|data| - 4..])
    ensures |data| >= 12 ==> Get(data, 0, 2) == FromLE(data[0..2]) && Get(data, 6, 2) == FromLE(data[6..8])
    ensures |data| >= 48 ==> Get(data, 28, 4) == FromLE(data[28..32])
  {
    GetFrom(data, |data| - 4, 4);
    assert data[|data| - 4..|data|] == data[|data| - 4..];
    if |data| >= 12 {
      GetFrom(data, 0, 2);
      GetFrom(data, 6, 2);
    }
    if |data| >= 48 { GetFrom(data, 28, 4); }
  }

  lemma BodyScreened(data: seq<Byte>, limit: nat, cfg: Config, rootLen: nat)
    requires HEADER_LEN <= limit && |data| == limit + 4
    ensures var r := DecodeBody(data, limit, cfg, rootLen);
            && (r.Ok? ==> |data| >= 48 && 8 + rootLen <= limit && Get(data, 28, 4) == cfg.cap)
            && (|data| >= 48 && 8 + rootLen <= limit && Get(data, 28, 4) != cfg.cap ==> r == Err(CapacityMismatch))
  {
  }

  /** Decoding refuses exactly what the screen refuses. */
  lemma DecodeScreened(data: seq<Byte>, cfg: Config, crc: Crc)
    ensures Screened(data, cfg.cap, crc, ErrorOf(Decode(data, cfg, crc)))
  {
    if |data| >= 4 {
      Frame(data);
      if |data| >= 12 { BodyScreened(data, |data| - 4, cfg, Get(data, 0, 2)); }
    }
  }

  lemma RootCarries(data: seq<Byte>, r: RootFields)
    requires |data| >= 48 && r == ReadRoot(data)
    ensures Shows(data, 8, 8, r.priceMin) && Shows(data, 16, 8, r.tick) && Shows(data, 24, 4, r.nLevels)
    ensures Shows(data, 32, 4, r.hwm) && Shows(data, 36, 4, r.bestBid) && Shows(data, 40, 4, r.bestAsk) && Shows(data, 44, 4, r.freeHead)
  {
    GetSShows(data, 8, 8);
    GetSShows(data, 16, 8);
    GetShows(data, 24, 4);
    GetShows(data, 32, 4);
    GetSShows(data, 36, 4);
    GetSShows(data, 40, 4);
    GetShows(data, 44, 4);
  }

  lemma GroupsCarry(root: RootFields, data: seq<Byte>, limit: nat, cfg: Config, pos: nat, block: nat, n: nat)
    requires limit <= |data|
    ensures var r := DecodeGroups(root, data, limit, cfg, pos, block, n);
            r.Ok? ==> r.st.priceMin == root.priceMin && r.st.tick == root.tick && r.st.nLevels == root.nLevels && r.st.hwm == root.hwm
                      && r.st.bestBid == root.bestBid && r.st.bestAsk == root.bestAsk && r.st.freeHead == root.freeHead
  {
  }

  lemma DecodeCarries(data: seq<Byte>, cfg: Config, crc: Crc)
    ensures Decode(data, cfg, crc).Ok? ==> Carries(data, Decode(data, cfg, crc).st)
  {
    if Decode(data, cfg, crc).Ok? {
      var limit := |data| - 4;
      var pos := 8 + Get(data, 0, 2);
      RootCarries(data, ReadRoot(data));
      GroupsCarry(ReadRoot(data), data, limit, cfg, pos + 4, Get(data, pos, 2), Get(data, pos + 2, 2));
    }
  }

  /** A level element is read as the fields shown at its place; any side byte but 1 is a bid. */
  lemma LevelRead(data: seq<Byte>, off: nat)
    requires off + 25 <= |data|
    ensures var e := ReadEntry(data, off);
            && (e.side == 1 <==> data[off] == 1) && Shows(data, off + 1, 4, e.t)
            && Shows(data, off + 5, 8, e.level.qtyTotal) && Shows(data, off + 13, 4, e.level.count)
            && Shows(data, off + 17, 4, e.level.head) && Shows(data, off + 21, 4, e.level.tail)
  {
    GetShows(data, off + 1, 4);
    GetSShows(data, off + 5, 8);
    GetShows(data, off + 13, 4);
    GetShows(data, off + 17, 4);
    GetShows(data, off + 21, 4);
  }

  /** ... and so is an order element. */
  lemma OrderRead(data: seq<Byte>, off: nat)
    requires off + 45 <= |data|
    ensures var o := ReadOrder(data, off);
            && Shows(data, off + 4, 8, o.id) && Shows(data, off + 12, 8, o.price) && Shows(data, off + 20, 8, o.qty)
            && Shows(data, off + 28, 8, o.filled) && (o.side == 1 <==> data[off + 36] == 1)
            && Shows(data, off + 37, 4, o.next) && Shows(data, off + 41, 4, o.prev)
  {
    GetSShows(data, off + 4, 8);
    GetSShows(data, off + 12, 8);
    GetSShows(data, off + 20, 8);
    GetSShows(data, off + 28, 8);
    GetShows(data, off + 37, 4);
    GetShows(data, off + 41, 4);
  }
}
