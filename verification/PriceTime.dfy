/** The book as its users see it: one first-in-first-out queue of orders per
    price level, no slots, no links, no index.  The slot-level operations are
    proved to be the obvious operations on these queues.
 */
module PriceTime {
  import opened BookSpec
  import opened BookInvariant
  import opened InsertKeeps
  import opened DepartKeeps
  import opened BookRuns

  datatype Rec = Rec(id: int, price: int, qty: int, filled: int, side: Side)

  datatype Queues = Queues(priceMin: int, tick: int, bids: seq<seq<Rec>>, asks: seq<seq<Rec>>)
  {
    function Lane(side: Side): seq<seq<Rec>> {
      if side == 0 then bids else asks
    }
  }

  // ---------- the reference operations ----------

  function Drop(q: seq<Rec>, id: int): seq<Rec> {
    if q == [] then []
    else if q[0].id == id then Drop(q[1..], id)
    else [q[0]] + Drop(q[1..], id)
  }

  function FillBy(r: Rec, fillQty: int): Rec {
    r.(filled := r.filled + Min(fillQty, r.qty - r.filled))
  }

  function Touch(q: seq<Rec>, id: int, fillQty: int): seq<Rec> {
    seq(|q|, i requires 0 <= i < |q| => if q[i].id == id then FillBy(q[i], fillQty) else q[i])
  }

  function DropAll(lane: seq<seq<Rec>>, id: int): seq<seq<Rec>> {
    seq(|lane|, t requires 0 <= t < |lane| => Drop(lane[t], id))
  }

  function TouchAll(lane: seq<seq<Rec>>, id: int, fillQty: int): seq<seq<Rec>> {
    seq(|lane|, t requires 0 <= t < |lane| => Touch(lane[t], id, fillQty))
  }

  predicate OnLadder(a: Queues, op: Op) {
    a.tick > 0 && (op.OpInsert? ==> TickOf(a.priceMin, a.tick, op.price) < |a.Lane(op.side)|)
  }

  /** Insert joins the back of one queue, cancel and fill take one order out,
      update fills one order in place. */
  function Serve(a: Queues, op: Op): Queues
    requires OnLadder(a, op)
  {
    match op
    case OpInsert(id, price, qty, side) =>
      var t := TickOf(a.priceMin, a.tick, price);
      var q := a.Lane(side)[t] + [Rec(id, price, qty, 0, side)];
      if side == 0 then a.(bids := a.bids[t := q]) else a.(asks := a.asks[t := q])
    case OpUpdate(id, fillQty) =>
      a.(bids := TouchAll(a.bids, id, fillQty), asks := TouchAll(a.asks, id, fillQty))
    case OpCancel(id) => a.(bids := DropAll(a.bids, id), asks := DropAll(a.asks, id))
    case OpFill(id) => a.(bids := DropAll(a.bids, id), asks := DropAll(a.asks, id))
  }

  // ---------- abstraction ----------

  function RecOf(o: Order): Rec {
    Rec(o.id, o.price, o.qty, o.filled, o.side)
  }

  ghost function Recs(pool: seq<Order>, q: seq<nat>): (r: seq<Rec>)
    requires forall i :: 0 <= i < |q| ==> q[i] < |pool|
  {
    seq(|q|, i requires 0 <= i < |q| => RecOf(pool[q[i]]))
  }

  ghost predicate InPool(pool: seq<Order>, lane: seq<seq<nat>>) {
    forall t, i :: 0 <= t < |lane| && 0 <= i < |lane[t]| ==> lane[t][i] < |pool|
  }

  ghost function LaneRecs(pool: seq<Order>, lane: seq<seq<nat>>): (r: seq<seq<Rec>>)
    requires InPool(pool, lane)
  {
    seq(|lane|, t requires 0 <= t < |lane| => Recs(pool, lane[t]))
  }

  ghost function Abs(st: State, v: View): Queues
    requires Inv(st, v)
  {
    LaneInPool(st, v, 0);
    LaneInPool(st, v, 1);
    Queues(st.priceMin, st.tick, LaneRecs(st.pool, v.bids), LaneRecs(st.pool, v.asks))
  }

  lemma LaneInPool(st: State, v: View, side: Side)
    requires st.tick > 0 && LaneOk(st, side, v.Lane(side))
    ensures InPool(st.pool, v.Lane(side))
  {
    var lane := v.Lane(side);
    forall t, i | 0 <= t < |lane| && 0 <= i < |lane[t]| ensures lane[t][i] < |st.pool| {
      assert LevelOk(st, side, t, st.Lane(side)[t], lane[t]);
    }
  }

  // ---------- sequence facts ----------

  lemma {:induction false} DropAbsent(q: seq<Rec>, id: int)
    requires forall i :: 0 <= i < |q| ==> q[i].id != id
    ensures Drop(q, id) == q
  {
    if q != [] { DropAbsent(q[1..], id); }
  }

  lemma {:induction false} DropOne(q: seq<Rec>, k: nat, id: int)
    requires k < |q| && forall i :: 0 <= i < |q| ==> (q[i].id == id <==> i == k)
    ensures Drop(q, id) == q[..k] + q[k + 1..]
  {
    if k == 0 {
      DropAbsent(q[1..], id);
    } else {
      DropOne(q[1..], k - 1, id);
      assert q[1..][..k - 1] == q[1..k] && q[1..][k..] == q[k + 1..];
      assert q[..k] == [q[0]] + q[1..k];
    }
  }

  /** On a level, the only record carrying a live id is the one at its slot. */
  lemma IdAt(st: State, side: Side, t: nat, l: Level, q: seq<nat>, id: int, i: nat)
    requires st.tick > 0 && IndexOk(st) && st.hwm <= |st.pool| && id in st.ids
    requires LevelOk(st, side, t, l, q) && i < |q|
    ensures st.pool[q[i]].id == id <==> q[i] == st.ids[id]
  {
    assert q[i] < st.hwm && RestsAt(st, st.pool[q[i]], side, t);
  }

  // ---------- insert appends ----------

  lemma PushRecs(pool: seq<Order>, pool': seq<Order>, q: seq<nat>, tail: nat, slot: nat, o: Order)
    requires slot < |pool| == |pool'| && pool'[slot] == o
    requires forall s :: 0 <= s < |pool| && s != slot ==>
               pool'[s] == if s == tail then pool[s].(next := slot) else pool[s]
    requires forall i :: 0 <= i < |q| ==> q[i] < |pool| && q[i] != slot
    ensures Recs(pool', q) == Recs(pool, q)
    ensures Recs(pool', q + [slot]) == Recs(pool, q) + [RecOf(o)]
  {
    assert forall i :: 0 <= i < |q| ==> RecOf(pool'[q[i]]) == RecOf(pool[q[i]]);
  }

  /** One level across an insert. */
  lemma InsertLevel(st: State, v: View, st': State, slot: nat, t: nat, o: Order, side: Side, u: nat)
    requires st.tick > 0 && st.hwm <= |st.pool| <= NIL && slot == AllocSlot(st) && Fresh(st, v, slot)
    requires LaneOk(st, side, v.Lane(side)) && t < |v.Lane(o.side)| && t < |st.Lane(o.side)|
    requires Inserted(st, st', slot, t, o) && u < |v.Lane(side)|
    ensures var q, q' := v.Lane(side)[u], InsertView(st, v, t, o.side).Lane(side)[u];
            && q' == (if side == o.side && u == t then q + [slot] else q)
            && (forall i :: 0 <= i < |q| ==> q[i] < |st.pool|) && (forall i :: 0 <= i < |q'| ==> q'[i] < |st'.pool|)
            && Recs(st'.pool, q') == if side == o.side && u == t then Recs(st.pool, q) + [RecOf(o)] else Recs(st.pool, q)
  {
    var q := v.Lane(side)[u];
    assert LevelOk(st, side, u, st.Lane(side)[u], q);
    Apart(st, side, u, st.Lane(side)[u], q, slot);
    PushRecs(st.pool, st'.pool, q, st.Lane(o.side)[t].tail, slot, o);
  }

  lemma InsertLane(st: State, v: View, st': State, slot: nat, t: nat, o: Order, side: Side)
    requires st.tick > 0 && st.hwm <= |st.pool| <= NIL && slot == AllocSlot(st) && Fresh(st, v, slot)
    requires LaneOk(st, side, v.Lane(side)) && t < |v.Lane(o.side)| && t < |st.Lane(o.side)|
    requires Inserted(st, st', slot, t, o)
    ensures InPool(st.pool, v.Lane(side)) && InPool(st'.pool, InsertView(st, v, t, o.side).Lane(side))
    ensures LaneRecs(st'.pool, InsertView(st, v, t, o.side).Lane(side)) ==
            if side == o.side then LaneRecs(st.pool, v.Lane(side))[t := Recs(st.pool, v.Lane(side)[t]) + [RecOf(o)]]
            else LaneRecs(st.pool, v.Lane(side))
  {
    LaneInPool(st, v, side);
    var lane, lane' := v.Lane(side), InsertView(st, v, t, o.side).Lane(side);
    forall u | 0 <= u < |lane|
      ensures lane'[u] == if side == o.side && u == t then lane[u] + [slot] else lane[u]
      ensures forall i :: 0 <= i < |lane'[u]| ==> lane'[u][i] < |st'.pool|
      ensures Recs(st'.pool, lane'[u]) ==
              if side == o.side && u == t then Recs(st.pool, lane[u]) + [RecOf(o)] else Recs(st.pool, lane[u])
    {
      InsertLevel(st, v, st', slot, t, o, side, u);
    }
  }

  lemma InsertedRefines(st: State, v: View, st': State, slot: nat, t: nat, o: Order)
    requires Inv(st, v) && Fresh(st, v, slot) && slot == AllocSlot(st)
    requires t == TickOf(st.priceMin, st.tick, o.price) < st.nLevels && o.filled == 0
    requires Inserted(st, st', slot, t, o) && Inv(st', InsertView(st, v, t, o.side))
    ensures t < |Abs(st, v).Lane(o.side)|
    ensures Abs(st', InsertView(st, v, t, o.side)) == Serve(Abs(st, v), OpInsert(o.id, o.price, o.qty, o.side))
  {
    InsertLane(st, v, st', slot, t, o, 0);
    InsertLane(st, v, st', slot, t, o, 1);
  }

  lemma InsertRefines(st: State, v: View, id: int, price: int, qty: int, side: Side)
    requires Inv(st, v) && InsertOk(st, id, price) && st.CanAlloc()
    ensures var t := TickOf(st.priceMin, st.tick, price);
            var st' := Insert(st, id, price, qty, side);
            var v' := InsertView(st, v, t, side);
            && Inv(st', v') && t < |Abs(st, v).Lane(side)|
            && Abs(st', v') == Serve(Abs(st, v), OpInsert(id, price, qty, side))
  {
    var t := TickOf(st.priceMin, st.tick, price);
    InsertInv(st, v, id, price, qty, side);
    InsertEffects(st, v, id, price, qty, side);
    InsertedRefines(st, v, Insert(st, id, price, qty, side), AllocSlot(st), t, NewOrder(st, id, price, qty, side, t));
  }

  // ---------- cancel and fill remove ----------

  lemma RemoveRecs(pool: seq<Order>, pool': seq<Order>, q: seq<nat>, slot: nat, freeHead: nat, f: int)
    requires slot < |pool| && Removed(pool, pool', slot, freeHead, f)
    requires forall i :: 0 <= i < |q| ==> q[i] < |pool| && q[i] != slot
    ensures Recs(pool', q) == Recs(pool, q)
  {
    assert forall i :: 0 <= i < |q| ==> RecOf(pool'[q[i]]) == RecOf(pool[q[i]]);
  }

  lemma DropAt(pool: seq<Order>, q: seq<nat>, k: nat, id: int)
    requires k < |q| && forall i :: 0 <= i < |q| ==> q[i] < |pool| && (pool[q[i]].id == id <==> i == k)
    ensures forall i :: 0 <= i < |q| - 1 ==> Without(q, k)[i] < |pool|
    ensures Recs(pool, Without(q, k)) == Drop(Recs(pool, q), id)
  {
    DropOne(Recs(pool, q), k, id);
    assert Recs(pool, Without(q, k)) == Recs(pool, q)[..k] + Recs(pool, q)[k + 1..];
  }

  lemma DropLevel(st: State, st': State, side: Side, t: nat, l: Level, q: seq<nat>, id: int, f: int)
    requires st.tick > 0 && st.hwm <= |st.pool| && IndexOk(st) && id in st.ids && LevelOk(st, side, t, l, q)
    requires Removed(st.pool, st'.pool, st.ids[id], st.freeHead, f)
    ensures var q' := if st.ids[id] in q then Without(q, IndexOf(q, st.ids[id])) else q;
            (forall i :: 0 <= i < |q'| ==> q'[i] < |st'.pool|) && Recs(st'.pool, q') == Drop(Recs(st.pool, q), id)
  {
    var slot := st.ids[id];
    forall i | 0 <= i < |q| ensures st.pool[q[i]].id == id <==> q[i] == slot { IdAt(st, side, t, l, q, id, i); }
    if slot in q {
      var k := IndexOf(q, slot);
      DropAt(st.pool, q, k, id);
      OthersRemain(q, k);
      RemoveRecs(st.pool, st'.pool, Without(q, k), slot, st.freeHead, f);
    } else {
      RemoveRecs(st.pool, st'.pool, q, slot, st.freeHead, f);
      DropAbsent(Recs(st.pool, q), id);
    }
  }

  lemma OthersRemain(q: seq<nat>, k: nat)
    requires k < |q| && NoDup(q)
    ensures forall i :: 0 <= i < |Without(q, k)| ==> Without(q, k)[i] != q[k]
  {
  }

  lemma DropLane(st: State, v: View, st': State, id: int, t: nat, f: int, side: Side)
    requires st.tick > 0 && st.hwm <= |st.pool| && IndexOk(st) && id in st.ids
    requires LaneOk(st, side, v.Lane(side)) && st.ids[id] < |st.pool|
    requires t < |v.Lane(st.pool[st.ids[id]].side)| && st.ids[id] in v.Lane(st.pool[st.ids[id]].side)[t]
    requires RestsAt(st, st.pool[st.ids[id]], st.pool[st.ids[id]].side, t)
    requires Removed(st.pool, st'.pool, st.ids[id], st.freeHead, f)
    ensures var lane' := DepartView(v, st.pool[st.ids[id]].side, t, st.ids[id]).Lane(side);
            && InPool(st.pool, v.Lane(side)) && InPool(st'.pool, lane')
            && LaneRecs(st'.pool, lane') == DropAll(LaneRecs(st.pool, v.Lane(side)), id)
  {
    LaneInPool(st, v, side);
    var slot := st.ids[id];
    var o := st.pool[slot];
    var lane, lane' := v.Lane(side), DepartView(v, o.side, t, slot).Lane(side);
    forall u | 0 <= u < |lane|
      ensures forall i :: 0 <= i < |lane'[u]| ==> lane'[u][i] < |st'.pool|
      ensures Recs(st'.pool, lane'[u]) == Drop(Recs(st.pool, lane[u]), id)
    {
      assert LevelOk(st, side, u, st.Lane(side)[u], lane[u]);
      if side != o.side || u != t { Apart(st, side, u, st.Lane(side)[u], lane[u], slot); }
      DropLevel(st, st', side, u, st.Lane(side)[u], lane[u], id, f);
    }
  }

  lemma LeftRefines(st: State, v: View, id: int, f: int)
    requires Inv(st, v) && Addresses(st, id)
    ensures Inv(Left(st, id, f), LeftView(st, v, id))
    ensures Abs(Left(st, id, f), LeftView(st, v, id)) == Serve(Abs(st, v), OpCancel(id))
  {
    LeftInv(st, v, id, f);
    var slot := st.ids[id];
    var o := st.pool[slot];
    var t := TickOf(st.priceMin, st.tick, o.price);
    SlotHome(st, v, slot);
    NeighboursRest(st, o.side, t, st.Lane(o.side)[t], v.Lane(o.side)[t], slot);
    LeftWrites(st, id, f);
    DropLane(st, v, Left(st, id, f), id, t, f, 0);
    DropLane(st, v, Left(st, id, f), id, t, f, 1);
  }

  // ---------- update fills in place ----------

  lemma TouchLane(st: State, v: View, st': State, id: int, fillQty: int, side: Side)
    requires st.tick > 0 && st.hwm <= |st.pool| && IndexOk(st) && id in st.ids
    requires LaneOk(st, side, v.Lane(side)) && st.ids[id] < |st.pool|
    requires var o := st.pool[st.ids[id]];
             st'.pool == st.pool[st.ids[id] := o.(filled := o.filled + Min(fillQty, o.Remaining()))]
    ensures InPool(st.pool, v.Lane(side)) && InPool(st'.pool, v.Lane(side))
    ensures LaneRecs(st'.pool, v.Lane(side)) == TouchAll(LaneRecs(st.pool, v.Lane(side)), id, fillQty)
  {
    LaneInPool(st, v, side);
    var lane := v.Lane(side);
    forall u | 0 <= u < |lane| ensures Recs(st'.pool, lane[u]) == Touch(Recs(st.pool, lane[u]), id, fillQty) {
      assert LevelOk(st, side, u, st.Lane(side)[u], lane[u]);
      forall i | 0 <= i < |lane[u]| ensures Recs(st'.pool, lane[u])[i] == Touch(Recs(st.pool, lane[u]), id, fillQty)[i] {
        IdAt(st, side, u, st.Lane(side)[u], lane[u], id, i);
      }
    }
  }

  lemma UpdateRefines(st: State, v: View, id: int, fillQty: int)
    requires Inv(st, v) && Addresses(st, id)
    ensures Inv(Update(st, id, fillQty), v)
    ensures Abs(Update(st, id, fillQty), v) == Serve(Abs(st, v), OpUpdate(id, fillQty))
  {
    UpdateInv(st, v, id, fillQty);
    UpdateWrites(st, id, fillQty);
    TouchLane(st, v, Update(st, id, fillQty), id, fillQty, 0);
    TouchLane(st, v, Update(st, id, fillQty), id, fillQty, 1);
  }

  // ---------- the refinement ----------

  /** Every slot-level operation is the reference operation on the queues. */
  lemma ApplyRefines(st: State, v: View, op: Op)
    requires Inv(st, v) && Legal(st, op)
    ensures Inv(Apply(st, op), NextView(st, v, op))
    ensures OnLadder(Abs(st, v), op)
    ensures Abs(Apply(st, op), NextView(st, v, op)) == Serve(Abs(st, v), op)
  {
    match op
    case OpInsert(id, price, qty, side) => InsertRefines(st, v, id, price, qty, side);
    case OpUpdate(id, fillQty) => UpdateRefines(st, v, id, fillQty);
    case OpCancel(id) => CancelIsLeft(st, id); LeftRefines(st, v, id, st.pool[st.ids[id]].filled);
    case OpFill(id) => CancelIsLeft(st, id); LeftRefines(st, v, id, st.pool[st.ids[id]].qty);
  }

  ghost predicate RunOnLadder(a: Queues, ops: seq<Op>)
    decreases |ops|
  {
    ops == [] || (OnLadder(a, ops[0]) && RunOnLadder(Serve(a, ops[0]), ops[1..]))
  }

  ghost function ServeRun(a: Queues, ops: seq<Op>): Queues
    requires RunOnLadder(a, ops)
    decreases |ops|
  {
    if ops == [] then a else ServeRun(Serve(a, ops[0]), ops[1..])
  }

  /** A whole run of the slot-level book is the same run of the queues. */
  lemma {:induction false} RunRefines(st: State, v: View, ops: seq<Op>) returns (v': View)
    requires Inv(st, v) && LegalRun(st, ops)
    ensures Inv(Run(st, ops), v') && RunOnLadder(Abs(st, v), ops)
    ensures Abs(Run(st, ops), v') == ServeRun(Abs(st, v), ops)
    decreases |ops|
  {
    if ops == [] {
      v' := v;
    } else {
      ApplyRefines(st, v, ops[0]);
      v' := RunRefines(Apply(st, ops[0]), NextView(st, v, ops[0]), ops[1..]);
    }
  }

  // ---------- what the cached fields mean ----------

  function SumLeft(q: seq<Rec>): int {
    if q == [] then 0 else SumLeft(q[..|q| - 1]) + (q[|q| - 1].qty - q[|q| - 1].filled)
  }

  lemma {:induction false} SumLeftIs(pool: seq<Order>, q: seq<nat>)
    requires forall i :: 0 <= i < |q| ==> q[i] < |pool|
    ensures SumLeft(Recs(pool, q)) == SumRemaining(pool, q)
  {
    if q != [] {
      SumLeftIs(pool, q[..|q| - 1]);
      assert Recs(pool, q)[..|q| - 1] == Recs(pool, q[..|q| - 1]);
    }
  }

  /** Level aggregates and cached best prices are those of the queues. */
  lemma CachesAgree(st: State, v: View, side: Side, t: nat)
    requires Inv(st, v) && t < st.nLevels
    ensures var a := Abs(st, v);
            && |a.Lane(side)| == st.nLevels
            && st.Lane(side)[t].count == |a.Lane(side)[t]|
            && st.Lane(side)[t].qtyTotal == SumLeft(a.Lane(side)[t])
            && (a.Lane(side)[t] == [] ==> st.Lane(side)[t] == EMPTY_LEVEL)
            && (a.Lane(side)[t] != [] ==> 0 <= st.Best(side) && (if side == 0 then t <= st.Best(side) else st.Best(side) <= t))
            && (st.Best(side) == t ==> a.Lane(side)[t] != [])
            && (st.Best(side) >= 0 ==> st.Best(side) < st.nLevels)
  {
    var q := v.Lane(side)[t];
    assert LevelOk(st, side, t, st.Lane(side)[t], q);
    LaneInPool(st, v, side);
    SumLeftIs(st.pool, q);
  }

  // ---------- fills stay within the order ----------

  ghost predicate WithinQty(q: seq<Rec>) {
    forall i :: 0 <= i < |q| ==> 0 <= q[i].filled <= q[i].qty
  }

  ghost predicate AllWithin(a: Queues) {
    forall side: Side, t :: 0 <= t < |a.Lane(side)| ==> WithinQty(a.Lane(side)[t])
  }

  lemma {:induction false} DropWithin(q: seq<Rec>, id: int)
    requires WithinQty(q)
    ensures WithinQty(Drop(q, id))
  {
    if q != [] { DropWithin(q[1..], id); }
  }

  /** No operation fills an order past its quantity or below zero. */
  lemma ServeWithin(a: Queues, op: Op)
    requires OnLadder(a, op) && AllWithin(a)
    requires op.OpInsert? ==> op.qty >= 0
    requires op.OpUpdate? ==> op.fillQty >= 0
    ensures AllWithin(Serve(a, op))
  {
    var b := Serve(a, op);
    forall side: Side, t | 0 <= t < |b.Lane(side)| ensures WithinQty(b.Lane(side)[t]) {
      assert WithinQty(a.Lane(side)[t]);
      if op.OpCancel? || op.OpFill? { DropWithin(a.Lane(side)[t], op.id); }
    }
  }

  /** The quantities a caller passes. */
  ghost predicate Positive(op: Op) {
    (op.OpInsert? ==> op.qty >= 0) && (op.OpUpdate? ==> op.fillQty >= 0)
  }

  lemma {:induction false} ServeRunWithin(a: Queues, ops: seq<Op>)
    requires RunOnLadder(a, ops) && AllWithin(a) && forall i :: 0 <= i < |ops| ==> Positive(ops[i])
    ensures AllWithin(ServeRun(a, ops))
    decreases |ops|
  {
    if ops != [] {
      assert Positive(ops[0]);
      ServeWithin(a, ops[0]);
      ServeRunWithin(Serve(a, ops[0]), ops[1..]);
    }
  }

  lemma EmptyWithin(cfg: Config, v: View)
    requires cfg.Valid() && v == View(seq(cfg.levels, _ => []), seq(cfg.levels, _ => []), [])
    ensures Inv(Empty(cfg), v) && AllWithin(Abs(Empty(cfg), v))
  {
    EmptyInv(cfg);
  }

  lemma {:induction false} RunWithinFrom(st: State, v0: View, ops: seq<Op>, v: View)
    requires Inv(st, v0) && LegalRun(st, ops) && Inv(Run(st, ops), v)
    requires AllWithin(Abs(st, v0)) && forall i :: 0 <= i < |ops| ==> Positive(ops[i])
    ensures AllWithin(Abs(Run(st, ops), v))
  {
    var v' := RunRefines(st, v0, ops);
    ServeRunWithin(Abs(st, v0), ops);
    ViewUnique(Run(st, ops), v, v');
  }

  /** Over every run from an empty book, no resting order is ever filled past its quantity or below zero. */
  lemma RunWithin(cfg: Config, ops: seq<Op>, v: View)
    requires cfg.Valid() && LegalRun(Empty(cfg), ops) && forall i :: 0 <= i < |ops| ==> Positive(ops[i])
    requires Inv(Run(Empty(cfg), ops), v)
    ensures AllWithin(Abs(Run(Empty(cfg), ops), v))
  {
    var v0 := View(seq(cfg.levels, _ => []), seq(cfg.levels, _ => []), []);
    EmptyWithin(cfg, v0);
    RunWithinFrom(Empty(cfg), v0, ops, v);
  }

  /** A departure keeps the relative order of everyone else on the level. */
  lemma {:induction false} DropKeepsOrder(q: seq<Rec>, id: int, i: nat, j: nat) returns (i': nat, j': nat)
    requires i < j < |q| && q[i].id != id && q[j].id != id
    ensures i' < j' < |Drop(q, id)| && Drop(q, id)[i'] == q[i] && Drop(q, id)[j'] == q[j]
  {
    if q[0].id == id {
      i', j' := DropKeepsOrder(q[1..], id, i - 1, j - 1);
    } else if i > 0 {
      i', j' := DropKeepsOrder(q[1..], id, i - 1, j - 1);
      i', j' := i' + 1, j' + 1;
    } else {
      j' := DropKeeps(q[1..], id, j - 1);
      i', j' := 0, j' + 1;
    }
  }

  lemma {:induction false} DropKeeps(q: seq<Rec>, id: int, j: nat) returns (j': nat)
    requires j < |q| && q[j].id != id
    ensures j' < |Drop(q, id)| && Drop(q, id)[j'] == q[j]
  {
    if j == 0 {
      j' := 0;
    } else {
      j' := DropKeeps(q[1..], id, j - 1);
      if q[0].id != id { j' := j' + 1; }
    }
  }
}
