/** The order book as a value: the entities of the flat book and, for every
    operation, the exact state it leaves behind.  The three imperative books
    (`RustBook`, `GoBook`, `CowBook`) are proved to compute these functions;
    what the functions promise is proved in `BookInvariant` and `PriceTime`.
 */
module BookSpec {

  /** Empty head or tail, link end, "no slot". */
  const NIL: nat := 0xFFFF_FFFF

  const WORD32: nat := 0x1_0000_0000

  /** 0 = bid, 1 = ask. */
  type Side = s: nat | s < 2

  datatype Order = Order(id: int, price: int, qty: int, filled: int, next: nat, prev: nat, side: Side)
  {
    function Remaining(): int { qty - filled }
  }

  datatype Level = Level(head: nat, tail: nat, qtyTotal: int, count: int)

  const EMPTY_LEVEL := Level(NIL, NIL, 0, 0)

  /** The configuration the books are built from; `blank` is what an untouched
      pool slot holds (the Rust and Go books differ there). */
  datatype Config = Config(cap: nat, levels: nat, tick: int, priceMin: int, blank: Order)
  {
    predicate Valid() {
      0 < levels <= 65535 && 0 < tick && cap <= NIL && blank.id == 0
    }
  }

  datatype State = State(
    priceMin: int, tick: int, nLevels: nat,
    bids: seq<Level>, asks: seq<Level>, pool: seq<Order>,
    hwm: nat, bestBid: int, bestAsk: int, freeHead: nat,
    ids: map<int, nat>)
  {
    function Lane(side: Side): seq<Level> {
      if side == 0 then bids else asks
    }

    function SetLevel(side: Side, t: nat, l: Level): State
      requires t < |Lane(side)|
    {
      if side == 0 then this.(bids := bids[t := l]) else this.(asks := asks[t := l])
    }

    function SetOrder(slot: nat, o: Order): State
      requires slot < |pool|
    {
      this.(pool := pool[slot := o])
    }

    function Best(side: Side): int {
      if side == 0 then bestBid else bestAsk
    }

    function SetBest(side: Side, b: int): State {
      if side == 0 then this.(bestBid := b) else this.(bestAsk := b)
    }

    predicate SlotOk(slot: nat) {
      slot == NIL || slot < |pool|
    }

    /** Every handle stored anywhere is NIL or a pool index. */
    ghost predicate Bounded() {
      && |bids| == |asks| == nLevels <= 65535
      && hwm <= |pool| <= NIL
      && tick > 0
      && SlotOk(freeHead)
      && (forall t :: 0 <= t < |bids| ==> SlotOk(bids[t].tail))
      && (forall t :: 0 <= t < |asks| ==> SlotOk(asks[t].tail))
      && (forall s :: 0 <= s < hwm ==> SlotOk(pool[s].next) && SlotOk(pool[s].prev))
      && (forall id :: id in ids ==> ids[id] < hwm)
    }

    /** A fresh slot can be handed out: the free list or the bump region has one. */
    predicate CanAlloc() {
      freeHead != NIL || hwm < |pool|
    }
  }

  /** Integer division that truncates toward zero, as both source languages do. */
  function Trunc(a: int, b: int): int
    requires b > 0
  {
    if a >= 0 then a / b else -((-a) / b)
  }

  /** `((price - price_min) / tick) as u32`: the cast keeps the low 32 bits. */
  function TickOf(priceMin: int, tick: int, price: int): (t: nat)
    requires tick > 0
  {
    Trunc(price - priceMin, tick) % WORD32
  }

  function Empty(cfg: Config): State
    requires cfg.Valid()
  {
    State(cfg.priceMin, cfg.tick, cfg.levels,
          seq(cfg.levels, _ => EMPTY_LEVEL), seq(cfg.levels, _ => EMPTY_LEVEL),
          seq(cfg.cap, _ => cfg.blank),
          0, -1, -1, NIL, map[])
  }

  // ---------- slot allocation ----------

  function AllocSlot(st: State): nat {
    if st.freeHead != NIL then st.freeHead else st.hwm
  }

  function AfterAlloc(st: State): State
    requires st.SlotOk(st.freeHead)
  {
    if st.freeHead != NIL then st.(freeHead := st.pool[st.freeHead].next) else st.(hwm := st.hwm + 1)
  }

  /** The freed record: marked with id 0 and chained to the old free-list head. */
  function FreedOrder(o: Order, freeHead: nat): Order {
    o.(id := 0, next := freeHead, prev := NIL)
  }

  function FreeSlot(st: State, slot: nat): State
    requires slot < |st.pool|
  {
    st.SetOrder(slot, FreedOrder(st.pool[slot], st.freeHead)).(freeHead := slot)
  }

  // ---------- operations ----------

  function BetterBest(side: Side, best: int, t: nat): int {
    if best < 0 || (side == 0 && t > best) || (side == 1 && t < best) then t else best
  }

  /** Write `o` to `slot`, then point the old tail (if any) at it. */
  function LinkBehind(pool: seq<Order>, slot: nat, o: Order, tail: nat): seq<Order>
    requires slot < |pool| && (tail == NIL || tail < |pool|)
  {
    var p1 := pool[slot := o];
    if tail != NIL then p1[tail := p1[tail].(next := slot)] else p1
  }

  function PushedLevel(l: Level, slot: nat, qty: int): Level {
    Level(if l.tail == NIL then slot else l.head, slot, l.qtyTotal + qty, l.count + 1)
  }

  /** The order `o`, already carrying its level's old tail as `prev`, joins level `t` from `slot`. */
  function Place(st: State, slot: nat, t: nat, o: Order): State
    requires slot < |st.pool| && (o.prev == NIL || o.prev < |st.pool|) && t < |st.Lane(o.side)|
  {
    st.(pool := LinkBehind(st.pool, slot, o, o.prev), ids := st.ids[o.id := slot])
      .SetLevel(o.side, t, PushedLevel(st.Lane(o.side)[t], slot, o.qty))
      .SetBest(o.side, BetterBest(o.side, st.Best(o.side), t))
  }

  function Insert(st: State, id: int, price: int, qty: int, side: Side): State
    requires st.Bounded() && st.CanAlloc() && TickOf(st.priceMin, st.tick, price) < st.nLevels
  {
    var t := TickOf(st.priceMin, st.tick, price);
    Place(AfterAlloc(st), AllocSlot(st), t, Order(id, price, qty, 0, NIL, st.Lane(side)[t].tail, side))
  }

  function Min(a: int, b: int): int {
    if a < b then a else b
  }

  /** The slot and the level of a resting order that an operation addresses. */
  ghost predicate Addresses(st: State, id: int) {
    && st.Bounded()
    && id in st.ids
    && TickOf(st.priceMin, st.tick, st.pool[st.ids[id]].price) < st.nLevels
  }

  function Update(st: State, id: int, fillQty: int): State
    requires Addresses(st, id)
  {
    var slot := st.ids[id];
    var o := st.pool[slot];
    var add := Min(fillQty, o.Remaining());
    var s1 := st.SetOrder(slot, o.(filled := o.filled + add));
    var t := TickOf(st.priceMin, st.tick, o.price);
    var lvl := s1.Lane(o.side)[t];
    s1.SetLevel(o.side, t, Debited(lvl, add))
  }

  function Debited(l: Level, add: int): Level {
    Level(l.head, l.tail, l.qtyTotal - add, l.count)
  }

  ghost predicate Linkable(pool: seq<Order>, slot: nat) {
    && slot < |pool|
    && (pool[slot].prev == NIL || pool[slot].prev < |pool|)
    && (pool[slot].next == NIL || pool[slot].next < |pool|)
  }

  /** Make the neighbours of `slot` point past it. */
  function UnlinkedPool(pool: seq<Order>, slot: nat): seq<Order>
    requires Linkable(pool, slot)
  {
    var prev, next := pool[slot].prev, pool[slot].next;
    var p1 := if prev != NIL then pool[prev := pool[prev].(next := next)] else pool;
    if next != NIL then p1[next := p1[next].(prev := prev)] else p1
  }

  function UnlinkedLevel(l: Level, slot: nat, prev: nat, next: nat, rem: int): Level {
    Level(if l.head == slot then next else l.head, if l.tail == slot then prev else l.tail,
          l.qtyTotal - rem, l.count - 1)
  }

  function Unlink(st: State, slot: nat, side: Side, t: nat, rem: int): State
    requires Linkable(st.pool, slot) && t < |st.Lane(side)|
  {
    st.(pool := UnlinkedPool(st.pool, slot))
      .SetLevel(side, t, UnlinkedLevel(st.Lane(side)[t], slot, st.pool[slot].prev, st.pool[slot].next, rem))
  }

  /** Highest occupied level in `0..n`, or -1. */
  function ScanDown(lane: seq<Level>, n: nat): (b: int)
    requires n <= |lane|
    ensures -1 <= b < n
    ensures b >= 0 ==> lane[b].head != NIL
    ensures forall t :: b < t < n ==> lane[t].head == NIL
  {
    if n == 0 then -1 else if lane[n - 1].head != NIL then n - 1 else ScanDown(lane, n - 1)
  }

  /** Lowest occupied level in `t..|lane|`, or -1. */
  function ScanUp(lane: seq<Level>, t: nat): (b: int)
    requires t <= |lane|
    ensures b == -1 || t <= b < |lane|
    ensures b >= 0 ==> lane[b].head != NIL
    ensures forall u :: t <= u < |lane| && (b >= 0 ==> u < b) ==> lane[u].head == NIL
    decreases |lane| - t
  {
    if t == |lane| then -1 else if lane[t].head != NIL then t else ScanUp(lane, t + 1)
  }

  /** The cached best after a removal at level `t`: rescanned only if `t` was the best and is now empty. */
  function RepairedBest(side: Side, lane: seq<Level>, best: int, t: nat): int
    requires t < |lane|
  {
    if best != t || lane[t].head != NIL then best
    else if side == 0 then ScanDown(lane, t + 1) else ScanUp(lane, t)
  }

  function RepairBest(st: State, side: Side, t: nat): State
    requires t < |st.Lane(side)|
  {
    st.SetBest(side, RepairedBest(side, st.Lane(side), st.Best(side), t))
  }

  /** Unlink `slot` from its level, put it on the free list, repair the best. */
  function Depart(st: State, slot: nat, side: Side, t: nat, rem: int): State
    requires Linkable(st.pool, slot) && t < |st.Lane(side)|
  {
    RepairBest(FreeSlot(Unlink(st, slot, side, t, rem), slot), side, t)
  }

  function Cancel(st: State, id: int): State
    requires Addresses(st, id)
  {
    var slot := st.ids[id];
    var o := st.pool[slot];
    Depart(st.(ids := st.ids - {id}), slot, o.side, TickOf(st.priceMin, st.tick, o.price), o.Remaining())
  }

  function Fill(st: State, id: int): State
    requires Addresses(st, id)
  {
    var slot := st.ids[id];
    var o := st.pool[slot];
    var s1 := st.(ids := st.ids - {id}).SetOrder(slot, o.(filled := o.qty));
    Depart(s1, slot, o.side, TickOf(st.priceMin, st.tick, o.price), o.Remaining())
  }

  // ---------- operation streams ----------

  datatype Op =
    | OpInsert(id: int, price: int, qty: int, side: Side)
    | OpUpdate(id: int, fillQty: int)
    | OpCancel(id: int)
    | OpFill(id: int)

  /** What the source demands of an insert: a nonzero fresh id and a price on the ladder. */
  ghost predicate InsertOk(st: State, id: int, price: int) {
    && st.Bounded()
    && id != 0 && id !in st.ids
    && TickOf(st.priceMin, st.tick, price) < st.nLevels
  }

  /** The operation is in the domain and does not panic. */
  ghost predicate Legal(st: State, op: Op) {
    match op
    case OpInsert(id, price, _, _) => InsertOk(st, id, price) && st.CanAlloc()
    case OpUpdate(id, _) => Addresses(st, id)
    case OpCancel(id) => Addresses(st, id)
    case OpFill(id) => Addresses(st, id)
  }

  function Apply(st: State, op: Op): State
    requires Legal(st, op)
  {
    match op
    case OpInsert(id, price, qty, side) => Insert(st, id, price, qty, side)
    case OpUpdate(id, fillQty) => Update(st, id, fillQty)
    case OpCancel(id) => Cancel(st, id)
    case OpFill(id) => Fill(st, id)
  }

  ghost predicate LegalRun(st: State, ops: seq<Op>)
    decreases |ops|
  {
    ops == [] || (Legal(st, ops[0]) && LegalRun(Apply(st, ops[0]), ops[1..]))
  }

  function Run(st: State, ops: seq<Op>): State
    requires LegalRun(st, ops)
    decreases |ops|
  {
    if ops == [] then st else Run(Apply(st, ops[0]), ops[1..])
  }
}
