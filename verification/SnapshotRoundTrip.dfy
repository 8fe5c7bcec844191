/** Restoring an image gives back the book, and so the same future. */
module SnapshotRoundTrip {
  import Arith
  import opened BookSpec
  import opened BookInvariant
  import opened BookRuns
  import opened Wire
  import opened SbeFlyweight
  import opened SnapshotCodec

  ghost predicate LevelFits(l: Level) {
    Word(l.head) && Word(l.tail) && Word(l.count) && Int64(l.qtyTotal)
  }

  ghost predicate OrderFits(o: Order) {
    Int64(o.id) && Int64(o.price) && Int64(o.qty) && Int64(o.filled) && Word(o.next) && Word(o.prev)
  }

  ghost predicate RootInRange(r: RootFields) {
    && Int64(r.priceMin) && Int64(r.tick) && Word(r.nLevels) && Word(r.capacity) && Word(r.hwm) && Word(r.freeHead)
    && FitsSigned(r.bestBid, 4) && FitsSigned(r.bestAsk, 4)
  }

  /** Every field is in the range of its machine type. */
  ghost predicate InRange(st: State) {
    && RootInRange(RootOf(st))
    && (forall t :: 0 <= t < |st.bids| ==> LevelFits(st.bids[t]))
    && (forall t :: 0 <= t < |st.asks| ==> LevelFits(st.asks[t]))
    && (forall s :: 0 <= s < st.hwm && s < |st.pool| ==> OrderFits(st.pool[s]))
  }

  // ---------- one block ----------

  lemma LevelSlices(e: Entry)
    ensures var b := LevelBlock(e);
            && b[0] == e.side && b[1..5] == LE(e.t, 4) && b[5..13] == SLE(e.level.qtyTotal, 8)
            && b[13..17] == SLE(e.level.count, 4) && b[17..21] == LE(e.level.head, 4) && b[21..25] == LE(e.level.tail, 4)
  {
  }

  lemma CountBytes(v: int)
    requires Word(v)
    ensures SLE(v, 4) == LE(v, 4)
  {
    Powers();
    Arith.SmallMod(v, WORD32);
  }

  lemma LevelReads(data: seq<Byte>, off: nat, e: Entry)
    requires off + LEVEL_LEN <= |data| && data[off..off + LEVEL_LEN] == LevelBlock(e)
    requires Word(e.t) && LevelFits(e.level)
    ensures ReadEntry(data, off) == e
  {
    Powers();
    var b := LevelBlock(e);
    LevelSlices(e);
    CountBytes(e.level.count);
    assert data[off] == data[off..off + LEVEL_LEN][0];
    Field(data, off, b, 1, 4, e.t);
    SField(data, off, b, 5, 8, e.level.qtyTotal);
    Field(data, off, b, 13, 4, e.level.count);
    Field(data, off, b, 17, 4, e.level.head);
    Field(data, off, b, 21, 4, e.level.tail);
  }

  lemma OrderSlices(slot: nat, o: Order)
    ensures var b := OrderBlock(slot, o);
            && b[0..4] == LE(slot, 4) && b[4..12] == SLE(o.id, 8) && b[12..20] == SLE(o.price, 8)
            && b[20..28] == SLE(o.qty, 8) && b[28..36] == SLE(o.filled, 8) && b[36] == o.side
            && b[37..41] == LE(o.next, 4) && b[41..45] == LE(o.prev, 4)
  {
  }

  lemma OrderReads(data: seq<Byte>, off: nat, slot: nat, o: Order)
    requires off + ORDER_LEN <= |data| && data[off..off + ORDER_LEN] == OrderBlock(slot, o)
    requires Word(slot) && OrderFits(o)
    ensures Get(data, off, 4) == slot && ReadOrder(data, off) == o
  {
    Powers();
    var b := OrderBlock(slot, o);
    OrderSlices(slot, o);
    assert data[off + 36] == data[off..off + ORDER_LEN][36];
    Field(data, off, b, 0, 4, slot);
    SField(data, off, b, 4, 8, o.id);
    SField(data, off, b, 12, 8, o.price);
    SField(data, off, b, 20, 8, o.qty);
    SField(data, off, b, 28, 8, o.filled);
    Field(data, off, b, 37, 4, o.next);
    Field(data, off, b, 41, 4, o.prev);
  }

  lemma RootSlices(r: RootFields)
    ensures var b := RootBlock(r);
            && b[0..8] == SLE(r.priceMin, 8) && b[8..16] == SLE(r.tick, 8) && b[16..20] == LE(r.nLevels, 4)
            && b[20..24] == LE(r.capacity, 4) && b[24..28] == LE(r.hwm, 4) && b[28..32] == SLE(r.bestBid, 4)
            && b[32..36] == SLE(r.bestAsk, 4) && b[36..40] == LE(r.freeHead, 4)
  {
  }

  lemma HeaderReads(data: seq<Byte>)
    requires HEADER_LEN <= |data| && data[0..HEADER_LEN] == HeaderBytes()
    ensures Get(data, 0, 2) == ROOT_LEN && Get(data, 6, 2) == VERSION
  {
    Powers();
    var b := HeaderBytes();
    assert b[0..2] == LE(ROOT_LEN, 2) && b[6..8] == LE(VERSION, 2);
    Field(data, 0, b, 0, 2, ROOT_LEN);
    Field(data, 0, b, 6, 2, VERSION);
  }

  // ---------- the levels group ----------

  ghost predicate AllOf(blocks: seq<seq<Byte>>, k: nat) {
    forall i :: 0 <= i < |blocks| ==> |blocks[i]| == k
  }

  lemma {:induction false} JoinSize(blocks: seq<seq<Byte>>, k: nat)
    requires AllOf(blocks, k)
    ensures |Join(blocks)| == ElementAt(0, k, |blocks|)
  {
    if blocks != [] { JoinSize(blocks[..|blocks| - 1], k); }
  }

  lemma {:induction false} ElementShift(pos: nat, k: nat, i: nat)
    ensures ElementAt(pos, k, i) == pos + ElementAt(0, k, i)
  {
    if i > 0 { ElementShift(pos, k, i - 1); }
  }

  lemma {:induction false} JoinAt(blocks: seq<seq<Byte>>, k: nat, i: nat)
    requires AllOf(blocks, k) && i < |blocks|
    ensures ElementAt(0, k, i) + k <= |Join(blocks)|
    ensures Join(blocks)[ElementAt(0, k, i)..ElementAt(0, k, i) + k] == blocks[i]
  {
    var n := |blocks| - 1;
    JoinSize(blocks[..n], k);
    if i < n {
      JoinAt(blocks[..n], k, i);
      assert Join(blocks)[..|Join(blocks[..n])|] == Join(blocks[..n]);
    }
  }

  /** Element `i` of a group whose blocks lie at `pos`. */
  lemma BlockAt(data: seq<Byte>, pos: nat, blocks: seq<seq<Byte>>, k: nat, i: nat)
    requires AllOf(blocks, k) && i < |blocks|
    requires pos + |Join(blocks)| <= |data| && data[pos..pos + |Join(blocks)|] == Join(blocks)
    ensures ElementAt(pos, k, i) + k <= pos + |Join(blocks)|
    ensures data[ElementAt(pos, k, i)..ElementAt(pos, k, i) + k] == blocks[i]
  {
    ElementShift(pos, k, i);
    JoinAt(blocks, k, i);
    SubBlock(data, pos, Join(blocks), ElementAt(0, k, i), blocks[i]);
  }

  ghost predicate Stored(lanes: Lanes, es: seq<Entry>, n: nat, levels: nat)
    requires n <= |es|
  {
    && |lanes.bids| == levels && |lanes.asks| == levels
    && (forall t :: 0 <= t < levels ==> LaneHas(lanes.bids[t], 0, t, es, n))
    && (forall t :: 0 <= t < levels ==> LaneHas(lanes.asks[t], 1, t, es, n))
  }

  /** `l` is what the first `n` entries left at level `t` of `side`. */
  ghost predicate LaneHas(l: Level, side: Side, t: nat, es: seq<Entry>, n: nat)
    requires n <= |es|
  {
    if exists i :: 0 <= i < n && es[i].side == side && es[i].t == t
    then exists i :: 0 <= i < n && es[i] == Entry(side, t, l)
    else l == EMPTY_LEVEL
  }

  /** Entries name each level at most once. */
  ghost predicate OnePerLevel(es: seq<Entry>) {
    forall i, j :: 0 <= i < |es| && 0 <= j < |es| && es[i].side == es[j].side && es[i].t == es[j].t ==> i == j
  }

  lemma StoreStep(lanes: Lanes, es: seq<Entry>, n: nat, levels: nat)
    requires n < |es| && OnePerLevel(es) && Stored(lanes, es, n, levels) && es[n].t < levels
    ensures lanes.Store(es[n]).Some? && Stored(lanes.Store(es[n]).value, es, n + 1, levels)
  {
    var e := es[n];
    var lanes' := lanes.Store(e).value;
    forall t | 0 <= t < levels
      ensures LaneHas(lanes'.bids[t], 0, t, es, n + 1) && LaneHas(lanes'.asks[t], 1, t, es, n + 1)
    {
      assert LaneHas(lanes.bids[t], 0, t, es, n) && LaneHas(lanes.asks[t], 1, t, es, n);
      LaneHasStep(lanes.bids[t], lanes'.bids[t], 0, t, es, n);
      LaneHasStep(lanes.asks[t], lanes'.asks[t], 1, t, es, n);
    }
  }

  lemma LaneHasStep(l: Level, l': Level, side: Side, t: nat, es: seq<Entry>, n: nat)
    requires n < |es| && OnePerLevel(es) && LaneHas(l, side, t, es, n)
    requires l' == if es[n].side == side && es[n].t == t then es[n].level else l
    ensures LaneHas(l', side, t, es, n + 1)
  {
    if es[n].side == side && es[n].t == t {
      assert es[n] == Entry(side, t, l');
    } else if exists i :: 0 <= i < n && es[i].side == side && es[i].t == t {
      var i :| 0 <= i < n && es[i] == Entry(side, t, l);
      assert es[i] == Entry(side, t, l');
    }
  }

  ghost predicate EntriesFit(es: seq<Entry>, levels: nat) {
    forall i :: 0 <= i < |es| ==> es[i].t < levels && Word(es[i].t) && LevelFits(es[i].level)
  }

  lemma LevelReadBack(data: seq<Byte>, limit: nat, pos: nat, es: seq<Entry>, i: nat)
    requires i < |es| && Word(es[i].t) && LevelFits(es[i].level)
    requires pos + |Join(LevelBlocks(es))| <= limit <= |data|
    requires data[pos..pos + |Join(LevelBlocks(es))|] == Join(LevelBlocks(es))
    ensures LevelAt(data, limit, ElementAt(pos, LEVEL_LEN, i), LEVEL_LEN) == Some(es[i])
  {
    BlockAt(data, pos, LevelBlocks(es), LEVEL_LEN, i);
    LevelReads(data, ElementAt(pos, LEVEL_LEN, i), es[i]);
  }

  /** Element `i` of the group reads as entry `i`. */
  ghost predicate Reads<T>(take: nat -> Option<T>, pos: nat, block: nat, i: nat, e: T) {
    take(ElementAt(pos, block, i)) == Some(e)
  }

  lemma LevelReadsNext(take: nat -> Option<Entry>, pos: nat, block: nat, n: nat, es: seq<Entry>, levels: nat, empty: Lanes, lanes: Lanes)
    requires n < |es| && OnePerLevel(es) && es[n].t < levels && Reads(take, pos, block, n, es[n])
    requires ReadLevels(take, pos, block, n, empty) == Some(lanes) && Stored(lanes, es, n, levels)
    ensures ReadLevels(take, pos, block, n + 1, empty).Some?
    ensures Stored(ReadLevels(take, pos, block, n + 1, empty).value, es, n + 1, levels)
  {
    StoreStep(lanes, es, n, levels);
    assert ReadLevels(take, pos, block, n + 1, empty) == lanes.Store(es[n]);
  }

  lemma {:induction false} LevelsReadBack(take: nat -> Option<Entry>, pos: nat, block: nat, n: nat, es: seq<Entry>, levels: nat, empty: Lanes)
    requires n <= |es| && OnePerLevel(es) && Stored(empty, es, 0, levels)
    requires forall i :: 0 <= i < |es| ==> es[i].t < levels && Reads(take, pos, block, i, es[i])
    ensures ReadLevels(take, pos, block, n, empty).Some?
    ensures Stored(ReadLevels(take, pos, block, n, empty).value, es, n, levels)
  {
    if n > 0 {
      LevelsReadBack(take, pos, block, n - 1, es, levels, empty);
      LevelReadsNext(take, pos, block, n - 1, es, levels, empty, ReadLevels(take, pos, block, n - 1, empty).value);
    }
  }

  // ---------- the orders group ----------

  lemma OrderReadBack(data: seq<Byte>, limit: nat, pos: nat, pool: seq<Order>, hwm: nat, i: nat)
    requires i < hwm <= |pool| && Word(i) && OrderFits(pool[i])
    requires pos + |Join(OrderBlocks(pool, hwm))| <= limit <= |data|
    requires data[pos..pos + |Join(OrderBlocks(pool, hwm))|] == Join(OrderBlocks(pool, hwm))
    ensures OrderAt(data, limit, ElementAt(pos, ORDER_LEN, i), ORDER_LEN) == Some(SlotOrder(i, pool[i]))
  {
    BlockAt(data, pos, OrderBlocks(pool, hwm), ORDER_LEN, i);
    OrderReads(data, ElementAt(pos, ORDER_LEN, i), i, pool[i]);
  }

  /** The first `n` slots of `pool`, the rest blank. */
  ghost predicate Refilled(pool': seq<Order>, pool: seq<Order>, n: nat, blank: Order) {
    |pool'| == |pool| && forall s :: 0 <= s < |pool| ==> pool'[s] == if s < n then pool[s] else blank
  }

  lemma {:induction false} OrdersReadBack(take: nat -> Option<SlotOrder>, pos: nat, block: nat, n: nat, pool: seq<Order>, hwm: nat, blanks: seq<Order>, blank: Order)
    requires n <= hwm <= |pool| && Refilled(blanks, pool, 0, blank)
    requires forall i :: 0 <= i < hwm ==> Reads(take, pos, block, i, SlotOrder(i, pool[i]))
    ensures ReadOrders(take, pos, block, n, blanks).Some? && Refilled(ReadOrders(take, pos, block, n, blanks).value, pool, n, blank)
  {
    if n > 0 {
      OrdersReadBack(take, pos, block, n - 1, pool, hwm, blanks, blank);
      assert Reads(take, pos, block, n - 1, SlotOrder(n - 1, pool[n - 1]));
    }
  }

  // ---------- entries of a book ----------

  lemma {:induction false} LaneEntriesAre(side: Side, lane: seq<Level>, n: nat)
    requires n <= |lane|
    ensures forall i :: 0 <= i < |LaneEntries(side, lane, n)| ==>
              var e := LaneEntries(side, lane, n)[i];
              e.side == side && e.t < n && e.level == lane[e.t] && e.level.head != NIL
    ensures forall i, j :: 0 <= i < j < |LaneEntries(side, lane, n)| ==>
              LaneEntries(side, lane, n)[i].t < LaneEntries(side, lane, n)[j].t
    ensures forall t :: 0 <= t < n && lane[t].head != NIL ==> Entry(side, t, lane[t]) in LaneEntries(side, lane, n)
  {
    if n > 0 { LaneEntriesAre(side, lane, n - 1); }
  }

  lemma EntriesAre(st: State)
    ensures var es := Entries(st);
            && OnePerLevel(es)
            && (forall i :: 0 <= i < |es| ==>
                  && es[i].t < |st.Lane(es[i].side)| && es[i].level == st.Lane(es[i].side)[es[i].t])
            && (forall t :: 0 <= t < |st.bids| && st.bids[t].head != NIL ==> Entry(0, t, st.bids[t]) in es)
            && (forall t :: 0 <= t < |st.asks| && st.asks[t].head != NIL ==> Entry(1, t, st.asks[t]) in es)
  {
    LaneEntriesAre(0, st.bids, |st.bids|);
    LaneEntriesAre(1, st.asks, |st.asks|);
    var a, b := LaneEntries(0, st.bids, |st.bids|), LaneEntries(1, st.asks, |st.asks|);
    var es := Entries(st);
    assert es == a + b;
    forall i | 0 <= i < |es|
      ensures i < |a| ==> es[i] == a[i] && es[i].side == 0
      ensures i >= |a| ==> es[i] == b[i - |a|] && es[i].side == 1
    {
    }
    forall t | 0 <= t < |st.asks| && st.asks[t].head != NIL ensures Entry(1, t, st.asks[t]) in es {
      InRight(a, b, Entry(1, t, st.asks[t]));
    }
  }

  lemma InRight(a: seq<Entry>, b: seq<Entry>, e: Entry)
    requires e in b
    ensures e in a + b
  {
    var i :| 0 <= i < |b| && b[i] == e;
    assert (a + b)[|a| + i] == e;
  }

  /** With empty levels holding the initial value, the stored lanes are the book's. */
  lemma StoredAll(st: State, lanes: Lanes)
    requires |st.bids| == |st.asks| == st.nLevels
    requires EmptyLevelsOk(st)
    requires Stored(lanes, Entries(st), |Entries(st)|, st.nLevels)
    ensures lanes == Lanes(st.bids, st.asks)
  {
    EntriesAre(st);
    forall t | 0 <= t < st.nLevels ensures lanes.bids[t] == st.bids[t] && lanes.asks[t] == st.asks[t] {
      StoredAt(st, lanes.bids[t], 0, t);
      StoredAt(st, lanes.asks[t], 1, t);
    }
  }

  lemma StoredAt(st: State, l: Level, side: Side, t: nat)
    requires t < |st.Lane(side)|
    requires st.Lane(side)[t].head == NIL ==> st.Lane(side)[t] == EMPTY_LEVEL
    requires LaneHas(l, side, t, Entries(st), |Entries(st)|)
    ensures l == st.Lane(side)[t]
  {
    EntriesAre(st);
    var es := Entries(st);
    assert st.Lane(side)[t].head != NIL ==> Entry(side, t, st.Lane(side)[t]) in es;
    if exists i :: 0 <= i < |es| && es[i].side == side && es[i].t == t {
      var i :| 0 <= i < |es| && es[i] == Entry(side, t, l);
      assert es[i].level == st.Lane(side)[t];
    }
  }

  // ---------- the index ----------

  lemma {:induction false} RebuildIs(pool: seq<Order>, n: nat)
    requires n <= |pool|
    requires forall a, b :: 0 <= a < b < n && pool[a].id != 0 ==> pool[a].id != pool[b].id
    ensures forall s :: 0 <= s < n && pool[s].id != 0 ==> pool[s].id in RebuildIds(pool, n) && RebuildIds(pool, n)[pool[s].id] == s
    ensures forall k :: k in RebuildIds(pool, n) ==> RebuildIds(pool, n)[k] < n && k != 0 && pool[RebuildIds(pool, n)[k]].id == k
  {
    if n > 0 { RebuildIs(pool, n - 1); }
  }

  /** The rebuilt index is the one the book carries. */
  lemma RebuiltIndex(st: State)
    requires IndexOk(st) && st.hwm <= |st.pool|
    ensures RebuildIds(st.pool, st.hwm) == st.ids
  {
    RebuildIs(st.pool, st.hwm);
    var ids := RebuildIds(st.pool, st.hwm);
    assert forall k :: k in ids ==> k in st.ids && st.ids[k] == ids[k];
    assert forall k :: k in st.ids ==> k in ids;
  }

  // ---------- the whole image ----------

  /** Six consecutive pieces of `data[..limit]`, the group headers being 4 bytes. */
  ghost predicate Laid(data: seq<Byte>, limit: nat, h: seq<Byte>, r: seq<Byte>, g: seq<Byte>, l: seq<Byte>, k: seq<Byte>, o: seq<Byte>) {
    && limit == 56 + |l| + |o| && limit <= |data|
    && data[0..8] == h && data[8..48] == r && data[48..52] == g && data[52..52 + |l|] == l
    && data[52 + |l|..56 + |l|] == k && data[56 + |l|..limit] == o
  }

  lemma Layout(data: seq<Byte>, limit: nat, h: seq<Byte>, r: seq<Byte>, g: seq<Byte>, l: seq<Byte>, k: seq<Byte>, o: seq<Byte>)
    requires |h| == 8 && |r| == 40 && |g| == 4 && |k| == 4 && limit <= |data| && data[..limit] == h + r + g + l + k + o
    ensures Laid(data, limit, h, r, g, l, k, o)
  {
    var all := h + r + g + l + k + o;
    assert all[0..8] == h && all[8..48] == r && all[48..52] == g && all[52..52 + |l|] == l;
    assert all[52 + |l|..56 + |l|] == k && all[56 + |l|..limit] == o;
    assert data[..limit][0..8] == data[0..8] && data[..limit][8..48] == data[8..48] && data[..limit][48..52] == data[48..52];
    assert data[..limit][52..52 + |l|] == data[52..52 + |l|] && data[..limit][52 + |l|..56 + |l|] == data[52 + |l|..56 + |l|];
    assert data[..limit][56 + |l|..limit] == data[56 + |l|..limit];
  }

  ghost predicate SameConfig(cfg: Config, st: State) {
    cfg.Valid() && cfg.levels == st.nLevels && cfg.cap == |st.pool|
  }

  lemma RootReads(data: seq<Byte>, r: RootFields)
    requires HEADER_LEN + ROOT_LEN <= |data| && data[HEADER_LEN..HEADER_LEN + ROOT_LEN] == RootBlock(r)
    requires RootInRange(r)
    ensures ReadRoot(data) == r
  {
    Powers();
    var b := RootBlock(r);
    RootSlices(r);
    SField(data, 8, b, 0, 8, r.priceMin);
    SField(data, 8, b, 8, 8, r.tick);
    Field(data, 8, b, 16, 4, r.nLevels);
    Field(data, 8, b, 20, 4, r.capacity);
    Field(data, 8, b, 24, 4, r.hwm);
    SField(data, 8, b, 28, 4, r.bestBid);
    SField(data, 8, b, 32, 4, r.bestAsk);
    Field(data, 8, b, 36, 4, r.freeHead);
  }

  /** Empty levels hold the initial value. */
  ghost predicate EmptyLevelsOk(st: State) {
    forall side: Side, t :: 0 <= t < |st.Lane(side)| && st.Lane(side)[t].head == NIL ==> st.Lane(side)[t] == EMPTY_LEVEL
  }

  /** What makes a book come back from its image: no more than the invariant, the ranges and the counts. */
  ghost predicate Restorable(st: State, blank: Order) {
    && |st.bids| == |st.asks| == st.nLevels && st.hwm <= |st.pool|
    && EmptyLevelsOk(st) && IndexOk(st) && Untouched(st, blank) && InRange(st) && CountsFit(st)
  }

  lemma InvRestorable(st: State, v: View, blank: Order)
    requires Inv(st, v) && Untouched(st, blank) && InRange(st) && CountsFit(st)
    ensures Restorable(st, blank)
  {
    forall side: Side, t | 0 <= t < |st.Lane(side)| && st.Lane(side)[t].head == NIL ensures st.Lane(side)[t] == EMPTY_LEVEL {
      assert LevelOk(st, side, t, st.Lane(side)[t], v.Lane(side)[t]);
    }
  }

  lemma EntriesInRange(st: State)
    requires InRange(st) && |st.bids| == |st.asks| == st.nLevels
    ensures EntriesFit(Entries(st), st.nLevels)
  {
    EntriesAre(st);
    var es := Entries(st);
    forall i | 0 <= i < |es| ensures es[i].t < st.nLevels && Word(es[i].t) && LevelFits(es[i].level) {
    }
  }

  lemma LevelsGroup(data: seq<Byte>, limit: nat, st: State, blank: Order, pos: nat, empty: Lanes)
    requires Restorable(st, blank) && Stored(empty, Entries(st), 0, st.nLevels)
    requires pos + |Join(LevelBlocks(Entries(st)))| <= limit <= |data|
    requires data[pos..pos + |Join(LevelBlocks(Entries(st)))|] == Join(LevelBlocks(Entries(st)))
    ensures ReadLevels(TakeLevel(data, limit, LEVEL_LEN), pos, LEVEL_LEN, |Entries(st)|, empty) == Some(Lanes(st.bids, st.asks))
    ensures ElementAt(pos, LEVEL_LEN, |Entries(st)|) == pos + |Join(LevelBlocks(Entries(st)))|
  {
    var es := Entries(st);
    EntriesAre(st);
    EntriesInRange(st);
    var take := TakeLevel(data, limit, LEVEL_LEN);
    forall i | 0 <= i < |es| ensures Reads(take, pos, LEVEL_LEN, i, es[i]) { LevelReadBack(data, limit, pos, es, i); }
    LevelsReadBack(take, pos, LEVEL_LEN, |es|, es, st.nLevels, empty);
    StoredAll(st, ReadLevels(take, pos, LEVEL_LEN, |es|, empty).value);
    JoinSize(LevelBlocks(es), LEVEL_LEN);
    ElementShift(pos, LEVEL_LEN, |es|);
  }

  lemma OrdersGroup(data: seq<Byte>, limit: nat, st: State, blank: Order, pos: nat, blanks: seq<Order>)
    requires Restorable(st, blank) && Refilled(blanks, st.pool, 0, blank)
    requires pos + |Join(OrderBlocks(st.pool, st.hwm))| <= limit <= |data|
    requires data[pos..pos + |Join(OrderBlocks(st.pool, st.hwm))|] == Join(OrderBlocks(st.pool, st.hwm))
    ensures ReadOrders(TakeOrder(data, limit, ORDER_LEN), pos, ORDER_LEN, st.hwm, blanks) == Some(st.pool)
  {
    var take := TakeOrder(data, limit, ORDER_LEN);
    forall i | 0 <= i < st.hwm ensures Reads(take, pos, ORDER_LEN, i, SlotOrder(i, st.pool[i])) {
      OrderReadBack(data, limit, pos, st.pool, st.hwm, i);
    }
    OrdersReadBack(take, pos, ORDER_LEN, st.hwm, st.pool, st.hwm, blanks, blank);
    assert ReadOrders(take, pos, ORDER_LEN, st.hwm, blanks).value == st.pool;
  }

  lemma RootRebuilds(st: State, blank: Order)
    requires Restorable(st, blank)
    ensures Rebuild(RootOf(st), Lanes(st.bids, st.asks), st.pool) == Ok(st)
  {
    RebuiltIndex(st);
  }

  lemma OrdersDecode(root: RootFields, lanes: Lanes, data: seq<Byte>, limit: nat, cfg: Config, pos: nat, block: nat, n: nat, pool: seq<Order>)
    requires ReadOrders(TakeOrder(data, limit, block), pos, block, n, NoOrders(cfg)) == Some(pool)
    ensures DecodeOrders(root, lanes, data, limit, cfg, pos, block, n) == Rebuild(root, lanes, pool)
  {
  }

  /** Decoding two groups whose elements are readable. */
  lemma GroupsDecode(root: RootFields, data: seq<Byte>, limit: nat, cfg: Config, pos: nat, block: nat, n: nat, pos2: nat, lanes: Lanes, pool: seq<Order>)
    requires limit <= |data|
    requires pos2 == ElementAt(pos, block, n) && pos2 + GROUP_LEN <= limit
    requires ReadLevels(TakeLevel(data, limit, block), pos, block, n, NoLevels(cfg.levels)) == Some(lanes)
    requires ReadOrders(TakeOrder(data, limit, Get(data, pos2, 2)), pos2 + GROUP_LEN, Get(data, pos2, 2), Get(data, pos2 + 2, 2), NoOrders(cfg)) == Some(pool)
    ensures DecodeGroups(root, data, limit, cfg, pos, block, n) == Rebuild(root, lanes, pool)
  {
    OrdersDecode(root, lanes, data, limit, cfg, pos2 + GROUP_LEN, Get(data, pos2, 2), Get(data, pos2 + 2, 2), pool);
  }

  /** The root block leads to the groups. */
  lemma BodyDecodes(data: seq<Byte>, limit: nat, cfg: Config, root: RootFields, n: nat)
    requires 52 <= limit <= |data| && ReadRoot(data) == root && root.capacity == cfg.cap
    requires Get(data, 48, 2) == LEVEL_LEN && Get(data, 50, 2) == n
    ensures DecodeBody(data, limit, cfg, ROOT_LEN) == DecodeGroups(root, data, limit, cfg, 52, LEVEL_LEN, n)
  {
  }

  ghost predicate BodyLaid(data: seq<Byte>, limit: nat, st: State)
    requires st.hwm <= |st.pool|
  {
    Laid(data, limit, HeaderBytes(), RootBlock(RootOf(st)), GroupHeader(LEVEL_LEN, |Entries(st)|), Join(LevelBlocks(Entries(st))),
         GroupHeader(ORDER_LEN, st.hwm), Join(OrderBlocks(st.pool, st.hwm)))
  }

  lemma BodyLayout(data: seq<Byte>, limit: nat, st: State)
    requires st.hwm <= |st.pool| && limit <= |data| && data[..limit] == Body(st)
    ensures BodyLaid(data, limit, st)
  {
    Layout(data, limit, HeaderBytes(), RootBlock(RootOf(st)), GroupHeader(LEVEL_LEN, |Entries(st)|), Join(LevelBlocks(Entries(st))),
           GroupHeader(ORDER_LEN, st.hwm), Join(OrderBlocks(st.pool, st.hwm)));
  }

  lemma RootPart(data: seq<Byte>, limit: nat, st: State, blank: Order)
    requires Restorable(st, blank) && BodyLaid(data, limit, st)
    ensures HEADER_LEN + ROOT_LEN <= limit <= |data| && Get(data, 0, 2) == ROOT_LEN && Get(data, 6, 2) == VERSION
    ensures ReadRoot(data) == RootOf(st)
  {
    HeaderReads(data);
    RootReads(data, RootOf(st));
  }

  lemma LevelsPart(data: seq<Byte>, limit: nat, st: State, blank: Order) returns (pos2: nat)
    requires Restorable(st, blank) && BodyLaid(data, limit, st)
    ensures 52 <= limit <= |data| && Get(data, 48, 2) == LEVEL_LEN && Get(data, 50, 2) == |Entries(st)|
    ensures pos2 == ElementAt(52, LEVEL_LEN, |Entries(st)|) == 52 + |Join(LevelBlocks(Entries(st)))|
    ensures ReadLevels(TakeLevel(data, limit, LEVEL_LEN), 52, LEVEL_LEN, |Entries(st)|, NoLevels(st.nLevels)) == Some(Lanes(st.bids, st.asks))
  {
    pos2 := 52 + |Join(LevelBlocks(Entries(st)))|;
    GroupReads(data, 48, LEVEL_LEN, |Entries(st)|);
    LevelsGroup(data, limit, st, blank, 52, NoLevels(st.nLevels));
  }

  lemma OrdersPart(data: seq<Byte>, limit: nat, st: State, blank: Order, pos2: nat, blanks: seq<Order>)
    requires Restorable(st, blank) && BodyLaid(data, limit, st) && pos2 == 52 + |Join(LevelBlocks(Entries(st)))|
    requires Refilled(blanks, st.pool, 0, blank)
    ensures pos2 + 4 <= limit <= |data| && Get(data, pos2, 2) == ORDER_LEN && Get(data, pos2 + 2, 2) == st.hwm
    ensures ReadOrders(TakeOrder(data, limit, ORDER_LEN), pos2 + GROUP_LEN, ORDER_LEN, st.hwm, blanks) == Some(st.pool)
  {
    GroupReads(data, pos2, ORDER_LEN, st.hwm);
    OrdersGroup(data, limit, st, blank, pos2 + GROUP_LEN, blanks);
  }

  lemma GroupsReadBack(data: seq<Byte>, limit: nat, cfg: Config, st: State)
    requires Restorable(st, cfg.blank) && SameConfig(cfg, st)
    requires BodyLaid(data, limit, st)
    ensures 52 <= limit <= |data| && Get(data, 48, 2) == LEVEL_LEN && Get(data, 50, 2) == |Entries(st)|
    ensures DecodeGroups(RootOf(st), data, limit, cfg, 52, LEVEL_LEN, |Entries(st)|) == Rebuild(RootOf(st), Lanes(st.bids, st.asks), st.pool)
  {
    var pos2 := LevelsPart(data, limit, st, cfg.blank);
    OrdersPart(data, limit, st, cfg.blank, pos2, NoOrders(cfg));
    GroupsDecode(RootOf(st), data, limit, cfg, 52, LEVEL_LEN, |Entries(st)|, pos2, Lanes(st.bids, st.asks), st.pool);
  }

  lemma BodyReadBack(data: seq<Byte>, limit: nat, cfg: Config, st: State)
    requires Restorable(st, cfg.blank) && SameConfig(cfg, st)
    requires BodyLaid(data, limit, st)
    ensures HEADER_LEN <= limit <= |data| && Get(data, 0, 2) == ROOT_LEN && Get(data, 6, 2) == VERSION
    ensures DecodeBody(data, limit, cfg, ROOT_LEN) == Ok(st)
  {
    RootPart(data, limit, st, cfg.blank);
    GroupsReadBack(data, limit, cfg, st);
    RootRebuilds(st, cfg.blank);
    BodyDecodes(data, limit, cfg, RootOf(st), |Entries(st)|);
  }

  lemma DecodesBody(data: seq<Byte>, limit: nat, cfg: Config, crc: Crc)
    requires |data| == limit + CRC_LEN && HEADER_LEN <= limit
    requires Get(data, limit, 4) == crc(data[..limit]) && Get(data, 6, 2) == VERSION
    ensures Decode(data, cfg, crc) == DecodeBody(data, limit, cfg, Get(data, 0, 2))
  {
  }

  lemma ImageLaid(st: State, crc: Crc, data: seq<Byte>, limit: nat)
    requires st.hwm <= |st.pool| && data == Image(st, crc) && limit == |Body(st)|
    ensures |data| == limit + CRC_LEN && BodyLaid(data, limit, st) && Get(data, limit, 4) == crc(data[..limit])
  {
    TrailerReads(Body(st), crc(Body(st)));
    BodyLayout(data, limit, st);
  }

  lemma TrailerReads(body: seq<Byte>, c: Word32)
    ensures var data := body + LE(c, 4);
            |data| == |body| + 4 && data[..|body|] == body && Get(data, |body|, 4) == c
  {
    Powers();
    var data := body + LE(c, 4);
    assert data[|body|..|body| + 4] == LE(c, 4);
    GetIs(data, |body|, 4, c);
  }

  /** `restore(encode(b))` is `b`: every level, every slot, the free list and the index. */
  lemma RestoreImage(cfg: Config, st: State, v: View, crc: Crc)
    requires Inv(st, v) && Untouched(st, cfg.blank) && SameConfig(cfg, st) && InRange(st) && CountsFit(st)
    ensures Decode(Image(st, crc), cfg, crc) == Ok(st)
  {
    InvRestorable(st, v, cfg.blank);
    ImageLaid(st, crc, Image(st, crc), |Body(st)|);
    BodyReadBack(Image(st, crc), |Body(st)|, cfg, st);
    DecodesBody(Image(st, crc), |Body(st)|, cfg, crc);
  }

  /** A restored book and the original have the same future: every later run ends in the same image. */
  lemma ReplayAgrees(cfg: Config, st: State, v: View, crc: Crc, ops: seq<Op>)
    requires Inv(st, v) && Untouched(st, cfg.blank) && SameConfig(cfg, st) && InRange(st) && CountsFit(st)
    requires LegalRun(st, ops)
    ensures Decode(Image(st, crc), cfg, crc).Ok?
    ensures var cold := Decode(Image(st, crc), cfg, crc).st;
            && LegalRun(cold, ops) && Run(cold, ops).hwm <= |Run(cold, ops).pool|
            && Run(st, ops).hwm <= |Run(st, ops).pool| && Image(Run(cold, ops), crc) == Image(Run(st, ops), crc)
  {
    RestoreImage(cfg, st, v, crc);
    var v' := RunInv(st, v, cfg.blank, ops);
  }

  /** Distinct restorable books have distinct images. */
  lemma ImageInjective(cfg: Config, st1: State, v1: View, st2: State, v2: View, crc: Crc)
    requires Inv(st1, v1) && Untouched(st1, cfg.blank) && SameConfig(cfg, st1) && InRange(st1) && CountsFit(st1)
    requires Inv(st2, v2) && Untouched(st2, cfg.blank) && SameConfig(cfg, st2) && InRange(st2) && CountsFit(st2)
    requires Image(st1, crc) == Image(st2, crc)
    ensures st1 == st2
  {
    RestoreImage(cfg, st1, v1, crc);
    RestoreImage(cfg, st2, v2, crc);
  }
}
