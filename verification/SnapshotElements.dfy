/** What decoding makes of the repeating groups of any image, well-formed or not: the
    strides are the block lengths the image announces, the last element that names a
    level or a slot wins, and what no element names stays as in a new book.
 */
module SnapshotElements {
  import opened BookSpec
  import opened Wire
  import opened SbeFlyweight
  import opened SnapshotCodec
  import opened SnapshotLayout

  // ---------- levels ----------

  ghost predicate NamesLevel(take: nat -> Option<Entry>, off: nat, side: Side, t: nat) {
    take(off).Some? && take(off).value.side == side && take(off).value.t == t
  }

  function LaneOf(lanes: Lanes, side: Side): seq<Level> {
    if side == 0 then lanes.bids else lanes.asks
  }

  /** Element `i` is the last of the first `n` that name the level, and shows `l`. */
  ghost predicate LevelFrom(take: nat -> Option<Entry>, pos: nat, block: nat, n: nat, side: Side, t: nat, l: Level, i: nat) {
    && i < n && NamesLevel(take, ElementAt(pos, block, i), side, t) && l == take(ElementAt(pos, block, i)).value.level
    && forall j :: i < j < n ==> !NamesLevel(take, ElementAt(pos, block, j), side, t)
  }

  /** `l` is what the last of the first `n` elements naming the level shows, or `init` when none names it. */
  ghost predicate LastLevel(take: nat -> Option<Entry>, pos: nat, block: nat, n: nat, side: Side, t: nat, l: Level, init: Level) {
    || (exists i :: LevelFrom(take, pos, block, n, side, t, l, i))
    || (l == init && forall i :: 0 <= i < n ==> !NamesLevel(take, ElementAt(pos, block, i), side, t))
  }

  lemma LastLevelNext(take: nat -> Option<Entry>, pos: nat, block: nat, n: nat, side: Side, t: nat, l: Level, l': Level, init: Level)
    requires LastLevel(take, pos, block, n, side, t, l, init)
    requires var e := take(ElementAt(pos, block, n));
             e.Some? && l' == if e.value.side == side && e.value.t == t then e.value.level else l
    ensures LastLevel(take, pos, block, n + 1, side, t, l', init)
  {
    if NamesLevel(take, ElementAt(pos, block, n), side, t) {
      assert LevelFrom(take, pos, block, n + 1, side, t, l', n);
    } else if i :| LevelFrom(take, pos, block, n, side, t, l, i) {
      assert LevelFrom(take, pos, block, n + 1, side, t, l', i);
    }
  }

  lemma {:induction false} LevelsSay(take: nat -> Option<Entry>, pos: nat, block: nat, n: nat, empty: Lanes, side: Side, t: nat)
    requires ReadLevels(take, pos, block, n, empty).Some? && t < |LaneOf(empty, side)|
    ensures var lanes := ReadLevels(take, pos, block, n, empty).value;
            && |lanes.bids| == |empty.bids| && |lanes.asks| == |empty.asks|
            && LastLevel(take, pos, block, n, side, t, LaneOf(lanes, side)[t], LaneOf(empty, side)[t])
    ensures forall i :: 0 <= i < n ==> take(ElementAt(pos, block, i)).Some?
  {
    if n > 0 {
      LevelsSay(take, pos, block, n - 1, empty, side, t);
      var lanes := ReadLevels(take, pos, block, n - 1, empty).value;
      var lanes' := ReadLevels(take, pos, block, n, empty).value;
      LastLevelNext(take, pos, block, n - 1, side, t, LaneOf(lanes, side)[t], LaneOf(lanes', side)[t], LaneOf(empty, side)[t]);
    }
  }

  // ---------- orders ----------

  ghost predicate NamesSlot(take: nat -> Option<SlotOrder>, off: nat, slot: nat) {
    take(off).Some? && take(off).value.slot == slot
  }

  ghost predicate OrderFrom(take: nat -> Option<SlotOrder>, pos: nat, block: nat, n: nat, slot: nat, o: Order, i: nat) {
    && i < n && NamesSlot(take, ElementAt(pos, block, i), slot) && o == take(ElementAt(pos, block, i)).value.o
    && forall j :: i < j < n ==> !NamesSlot(take, ElementAt(pos, block, j), slot)
  }

  /** The same for a slot and its order. */
  ghost predicate LastOrder(take: nat -> Option<SlotOrder>, pos: nat, block: nat, n: nat, slot: nat, o: Order, blank: Order) {
    || (exists i :: OrderFrom(take, pos, block, n, slot, o, i))
    || (o == blank && forall i :: 0 <= i < n ==> !NamesSlot(take, ElementAt(pos, block, i), slot))
  }

  lemma LastOrderNext(take: nat -> Option<SlotOrder>, pos: nat, block: nat, n: nat, slot: nat, o: Order, o': Order, blank: Order)
    requires LastOrder(take, pos, block, n, slot, o, blank)
    requires var e := take(ElementAt(pos, block, n));
             e.Some? && o' == if e.value.slot == slot then e.value.o else o
    ensures LastOrder(take, pos, block, n + 1, slot, o', blank)
  {
    if NamesSlot(take, ElementAt(pos, block, n), slot) {
      assert OrderFrom(take, pos, block, n + 1, slot, o', n);
    } else if i :| OrderFrom(take, pos, block, n, slot, o, i) {
      assert OrderFrom(take, pos, block, n + 1, slot, o', i);
    }
  }

  lemma {:induction false} OrdersSay(take: nat -> Option<SlotOrder>, pos: nat, block: nat, n: nat, blank: seq<Order>, slot: nat)
    requires ReadOrders(take, pos, block, n, blank).Some? && slot < |blank|
    ensures |ReadOrders(take, pos, block, n, blank).value| == |blank|
    ensures LastOrder(take, pos, block, n, slot, ReadOrders(take, pos, block, n, blank).value[slot], blank[slot])
    ensures forall i :: 0 <= i < n ==> take(ElementAt(pos, block, i)).Some?
  {
    if n > 0 {
      OrdersSay(take, pos, block, n - 1, blank, slot);
      var pool := ReadOrders(take, pos, block, n - 1, blank).value;
      var pool' := ReadOrders(take, pos, block, n, blank).value;
      LastOrderNext(take, pos, block, n - 1, slot, pool[slot], pool'[slot], blank[slot]);
    }
  }

  // ---------- the index ----------

  /** Every nonzero id in the first `n` slots is indexed, by the last slot that carries it; nothing else is. */
  lemma {:induction false} IndexSays(pool: seq<Order>, n: nat, id: int)
    requires n <= |pool|
    ensures var ids := RebuildIds(pool, n);
            && (id in ids <==> id != 0 && exists s :: 0 <= s < n && pool[s].id == id)
            && (id in ids ==> ids[id] < n && pool[ids[id]].id == id && forall s :: ids[id] < s < n ==> pool[s].id != id)
  {
    if n > 0 { IndexSays(pool, n - 1, id); }
  }

  // ---------- the whole image ----------

  /** Where the groups of an image are: start, element size and count, by its own numbers. */
  datatype Groups = Groups(levels: nat, levelSize: nat, levelCount: nat, orders: nat, orderSize: nat, orderCount: nat)

  /** The groups as the announced sizes place them, all of them before `limit`. */
  ghost predicate Placed(data: seq<Byte>, limit: nat, g: Groups) {
    && 8 <= limit <= |data|
    && g.levels == 8 + Get(data, 0, 2) + 4 <= limit
    && g.levelSize == Get(data, g.levels - 4, 2) && g.levelCount == Get(data, g.levels - 2, 2)
    && g.orders == g.levels + g.levelSize * g.levelCount + 4 <= limit
    && g.orderSize == Get(data, g.orders - 4, 2) && g.orderCount == Get(data, g.orders - 2, 2)
  }

  /** The groups whose dimensions are at `pos` and `pos2`. */
  ghost function At(data: seq<Byte>, pos: nat, pos2: nat): (g: Groups)
    requires pos + 4 <= |data| && pos2 + 4 <= |data|
  {
    Groups(pos + 4, Get(data, pos, 2), Get(data, pos + 2, 2), pos2 + 4, Get(data, pos2, 2), Get(data, pos2 + 2, 2))
  }

  lemma GroupsOk(root: RootFields, data: seq<Byte>, limit: nat, cfg: Config, pos: nat, block: nat, n: nat)
    returns (pos2: nat, lanes: Lanes, pool: seq<Order>)
    requires limit <= |data| && DecodeGroups(root, data, limit, cfg, pos, block, n).Ok?
    ensures pos2 == ElementAt(pos, block, n) && pos2 + 4 <= limit
    ensures ReadLevels(TakeLevel(data, limit, block), pos, block, n, NoLevels(cfg.levels)) == Some(lanes)
    ensures ReadOrders(TakeOrder(data, limit, Get(data, pos2, 2)), pos2 + 4, Get(data, pos2, 2), Get(data, pos2 + 2, 2), NoOrders(cfg)) == Some(pool)
    ensures DecodeGroups(root, data, limit, cfg, pos, block, n) == Rebuild(root, lanes, pool)
  {
    pos2 := ElementAt(pos, block, n);
    lanes := ReadLevels(TakeLevel(data, limit, block), pos, block, n, NoLevels(cfg.levels)).value;
    pool := ReadOrders(TakeOrder(data, limit, Get(data, pos2, 2)), pos2 + 4, Get(data, pos2, 2), Get(data, pos2 + 2, 2), NoOrders(cfg)).value;
  }

  /** An accepted image led to its groups. */
  lemma GroupsReached(data: seq<Byte>, cfg: Config, crc: Crc)
    requires Decode(data, cfg, crc).Ok?
    ensures var limit, pos := |data| - 4, 8 + Get(data, 0, 2);
            && 8 <= limit && |data| >= 48 && pos + 4 <= limit
            && Decode(data, cfg, crc) == DecodeGroups(ReadRoot(data), data, limit, cfg, pos + 4, Get(data, pos, 2), Get(data, pos + 2, 2))
  {
  }

  /** Both groups could be read to their ends. */
  lemma GroupsRead(data: seq<Byte>, limit: nat, cfg: Config, root: RootFields) returns (g: Groups, lanes: Lanes, pool: seq<Order>)
    requires 8 <= limit <= |data| && 8 + Get(data, 0, 2) + 4 <= limit
    requires var pos := 8 + Get(data, 0, 2); DecodeGroups(root, data, limit, cfg, pos + 4, Get(data, pos, 2), Get(data, pos + 2, 2)).Ok?
    ensures Placed(data, limit, g)
    ensures ReadLevels(TakeLevel(data, limit, g.levelSize), g.levels, g.levelSize, g.levelCount, NoLevels(cfg.levels)) == Some(lanes)
    ensures ReadOrders(TakeOrder(data, limit, g.orderSize), g.orders, g.orderSize, g.orderCount, NoOrders(cfg)) == Some(pool)
    ensures var pos := 8 + Get(data, 0, 2);
            DecodeGroups(root, data, limit, cfg, pos + 4, Get(data, pos, 2), Get(data, pos + 2, 2)) == Rebuild(root, lanes, pool)
  {
    var pos := 8 + Get(data, 0, 2);
    var b1, n1 := Get(data, pos, 2), Get(data, pos + 2, 2);
    var pos2;
    pos2, lanes, pool := GroupsOk(root, data, limit, cfg, pos + 4, b1, n1);
    ElementIs(pos + 4, b1, n1);
    g := At(data, pos, pos2);
  }

  /** Level `t`, slot `slot` and id `id` of what the groups of an image restore to. */
  ghost predicate Restores(data: seq<Byte>, limit: nat, cfg: Config, g: Groups, st: State, side: Side, t: nat, slot: nat, id: int)
    requires limit <= |data|
  {
    && t < |st.Lane(side)| == cfg.levels && slot < |st.pool| == cfg.cap && st.hwm <= |st.pool|
    && LastLevel(TakeLevel(data, limit, g.levelSize), g.levels, g.levelSize, g.levelCount, side, t, st.Lane(side)[t], EMPTY_LEVEL)
    && LastOrder(TakeOrder(data, limit, g.orderSize), g.orders, g.orderSize, g.orderCount, slot, st.pool[slot], cfg.blank)
    && (id in st.ids <==> id != 0 && exists s :: 0 <= s < st.hwm && st.pool[s].id == id)
    && (id in st.ids ==> st.ids[id] < st.hwm && st.pool[st.ids[id]].id == id
                         && forall s :: st.ids[id] < s < st.hwm ==> st.pool[s].id != id)
  }

  lemma GatheredSays(data: seq<Byte>, limit: nat, cfg: Config, g: Groups, root: RootFields, lanes: Lanes, pool: seq<Order>,
                     side: Side, t: nat, slot: nat, id: int)
    requires limit <= |data| && t < cfg.levels && slot < cfg.cap && Rebuild(root, lanes, pool).Ok?
    requires ReadLevels(TakeLevel(data, limit, g.levelSize), g.levels, g.levelSize, g.levelCount, NoLevels(cfg.levels)) == Some(lanes)
    requires ReadOrders(TakeOrder(data, limit, g.orderSize), g.orders, g.orderSize, g.orderCount, NoOrders(cfg)) == Some(pool)
    ensures Restores(data, limit, cfg, g, Rebuild(root, lanes, pool).st, side, t, slot, id)
  {
    LevelsSay(TakeLevel(data, limit, g.levelSize), g.levels, g.levelSize, g.levelCount, NoLevels(cfg.levels), side, t);
    OrdersSay(TakeOrder(data, limit, g.orderSize), g.orders, g.orderSize, g.orderCount, NoOrders(cfg), slot);
    IndexSays(pool, root.hwm, id);
  }

  lemma GroupsSay(data: seq<Byte>, limit: nat, cfg: Config, root: RootFields, st: State, side: Side, t: nat, slot: nat, id: int) returns (g: Groups)
    requires 8 <= limit <= |data| && 8 + Get(data, 0, 2) + 4 <= limit && t < cfg.levels && slot < cfg.cap
    requires var pos := 8 + Get(data, 0, 2); DecodeGroups(root, data, limit, cfg, pos + 4, Get(data, pos, 2), Get(data, pos + 2, 2)) == Ok(st)
    ensures Placed(data, limit, g) && Restores(data, limit, cfg, g, st, side, t, slot, id)
  {
    var lanes, pool;
    g, lanes, pool := GroupsRead(data, limit, cfg, root);
    GatheredSays(data, limit, cfg, g, root, lanes, pool, side, t, slot, id);
  }

  /** Whatever image is accepted: each level and each slot holds what the last element naming it
      shows, or its initial value; the index is that of the restored pool up to the high-water mark. */
  lemma RestoreSays(data: seq<Byte>, cfg: Config, crc: Crc, st: State, side: Side, t: nat, slot: nat, id: int) returns (g: Groups)
    requires Decode(data, cfg, crc) == Ok(st) && t < cfg.levels && slot < cfg.cap
    ensures |data| >= 4 && Placed(data, |data| - 4, g) && Restores(data, |data| - 4, cfg, g, st, side, t, slot, id)
  {
    GroupsReached(data, cfg, crc);
    g := GroupsSay(data, |data| - 4, cfg, ReadRoot(data), st, side, t, slot, id);
  }

  /** The element at `off`: there before the trailer as long as its announced size, and shown field by field. */
  lemma TakeSays(data: seq<Byte>, limit: nat, block: nat, off: nat)
    requires limit <= |data|
    ensures TakeLevel(data, limit, block)(off).Some? <==> off + block <= limit && off + 25 <= |data|
    ensures TakeLevel(data, limit, block)(off).Some? ==>
              var e := TakeLevel(data, limit, block)(off).value;
              && (e.side == 1 <==> data[off] == 1) && Shows(data, off + 1, 4, e.t)
              && Shows(data, off + 5, 8, e.level.qtyTotal) && Shows(data, off + 13, 4, e.level.count)
              && Shows(data, off + 17, 4, e.level.head) && Shows(data, off + 21, 4, e.level.tail)
    ensures TakeOrder(data, limit, block)(off).Some? <==> off + block <= limit && off + 45 <= |data|
    ensures TakeOrder(data, limit, block)(off).Some? ==>
              var e := TakeOrder(data, limit, block)(off).value;
              && Shows(data, off, 4, e.slot) && Shows(data, off + 4, 8, e.o.id) && Shows(data, off + 12, 8, e.o.price)
              && Shows(data, off + 20, 8, e.o.qty) && Shows(data, off + 28, 8, e.o.filled) && (e.o.side == 1 <==> data[off + 36] == 1)
              && Shows(data, off + 37, 4, e.o.next) && Shows(data, off + 41, 4, e.o.prev)
  {
    if off + 25 <= |data| { LevelRead(data, off); }
    if off + 45 <= |data| {
      GetShows(data, off, 4);
      OrderRead(data, off);
    }
  }
}
