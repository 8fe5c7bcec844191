/** Insert keeps the representation invariant. */
module InsertKeeps {
  import opened BookSpec
  import opened BookInvariant

  /** The new order joins the back of its level; its slot leaves the front of the free list. */
  function InsertView(st: State, v: View, t: nat, side: Side): View
    requires t < |v.Lane(side)|
  {
    v.SetQueue(side, t, v.Lane(side)[t] + [AllocSlot(st)]).(free := if v.free == [] then [] else v.free[1..])
  }

  /** What `Insert` writes, field by field. */
  ghost predicate Inserted(st: State, st': State, slot: nat, t: nat, o: Order)
    requires slot < |st.pool| && t < |st.Lane(o.side)|
  {
    var l := st.Lane(o.side)[t];
    && st'.priceMin == st.priceMin && st'.tick == st.tick && st'.nLevels == st.nLevels
    && |st'.pool| == |st.pool|
    && st'.pool[slot] == o
    && (forall s :: 0 <= s < |st.pool| && s != slot ==>
          st'.pool[s] == if s == l.tail then st.pool[s].(next := slot) else st.pool[s])
    && st'.Lane(o.side) == st.Lane(o.side)[t := PushedLevel(l, slot, o.qty)]
    && st'.Lane(1 - o.side) == st.Lane(1 - o.side)
    && st'.Best(o.side) == BetterBest(o.side, st.Best(o.side), t)
    && st'.Best(1 - o.side) == st.Best(1 - o.side)
    && st'.ids == st.ids[o.id := slot]
    && st'.hwm == (if st.freeHead != NIL then st.hwm else st.hwm + 1)
    && st'.freeHead == (if st.freeHead < |st.pool| then st.pool[st.freeHead].next else NIL)
  }

  lemma InsertWrites(st: State, id: int, price: int, qty: int, side: Side)
    requires InsertOk(st, id, price) && st.CanAlloc()
    requires st.Lane(side)[TickOf(st.priceMin, st.tick, price)].tail != AllocSlot(st)
    ensures var t := TickOf(st.priceMin, st.tick, price);
            Inserted(st, Insert(st, id, price, qty, side), AllocSlot(st), t,
                     Order(id, price, qty, 0, NIL, st.Lane(side)[t].tail, side))
  {
  }

  /** A slot that may be handed out: it rests in no queue and heads the free list, or lies past every used slot. */
  ghost predicate Fresh(st: State, v: View, slot: nat) {
    && slot < |st.pool| <= NIL
    && if v.free != [] then slot == v.free[0] == st.freeHead < st.hwm && st.pool[slot].id == 0
       else slot == st.hwm && st.freeHead == NIL
  }

  lemma AllocFresh(st: State, v: View)
    requires st.hwm <= |st.pool| <= NIL && FreeOk(st, v.free) && st.CanAlloc()
    ensures Fresh(st, v, AllocSlot(st))
  {

  }

  /** Writing `o` to `slot` behind the queue `q`, whose last member now points at it. */
  ghost predicate Pushed(pool: seq<Order>, pool': seq<Order>, q: seq<nat>, slot: nat, o: Order) {
    && |pool'| == |pool| <= NIL && slot < |pool|
    && pool'[slot] == o
    && (forall s :: 0 <= s < |pool| && s != slot ==>
          pool'[s] == if s == LastOf(q) then pool[s].(next := slot) else pool[s])
  }

  lemma PushLinks(pool: seq<Order>, pool': seq<Order>, q: seq<nat>, slot: nat, o: Order)
    requires NoDup(q) && Linked(pool, q) && Pushed(pool, pool', q, slot, o)
    requires forall i :: 0 <= i < |q| ==> q[i] != slot && q[i] < |pool|
    requires o.next == NIL && o.prev == LastOf(q)
    ensures NoDup(q + [slot]) && Linked(pool', q + [slot])
    ensures SumRemaining(pool', q + [slot]) == SumRemaining(pool, q) + o.Remaining()
  {
    var q' := q + [slot];
    forall i | 0 <= i < |q'| ensures LinkAt(pool', q', i) {
      if i < |q| { assert LinkAt(pool, q, i); }
    }
    SumAppend(pool', q, slot);
    SumFrame(pool, pool', q);
  }

  /** Appending to a queue keeps its level good. */
  lemma PushLevel(st: State, st': State, t: nat, l: Level, l': Level, q: seq<nat>, slot: nat, o: Order)
    requires st.tick > 0 && st'.tick == st.tick && st'.priceMin == st.priceMin
    requires LevelOk(st, o.side, t, l, q)
    requires st.hwm <= st'.hwm && slot < st'.hwm
    requires forall i :: 0 <= i < |q| ==> q[i] != slot
    requires RestsAt(st, o, o.side, t) && o.next == NIL && o.prev == LastOf(q)
    requires Pushed(st.pool, st'.pool, q, slot, o)
    requires l' == PushedLevel(l, slot, o.Remaining())
    ensures LevelOk(st', o.side, t, l', q + [slot])
  {
    PushLinks(st.pool, st'.pool, q, slot, o);
    var q' := q + [slot];
    forall i | 0 <= i < |q'| ensures q'[i] < st'.hwm && RestsAt(st', st'.pool[q'[i]], o.side, t) {
      if i < |q| { assert RestsAt(st, st.pool[q[i]], o.side, t); }
    }
  }

  lemma TouchedLevel(st: State, st': State, slot: nat, t: nat, o: Order, q: seq<nat>)
    requires st.tick > 0 && t < |st.Lane(o.side)| && slot < |st.pool| <= NIL
    requires LevelOk(st, o.side, t, st.Lane(o.side)[t], q)
    requires slot >= st.hwm || st.pool[slot].id == 0
    requires RestsAt(st, o, o.side, t) && o.next == NIL && o.prev == LastOf(q) && o.filled == 0
    requires Inserted(st, st', slot, t, o) && slot < st'.hwm
    ensures LevelOk(st', o.side, t, st'.Lane(o.side)[t], q + [slot])
  {
    Apart(st, o.side, t, st.Lane(o.side)[t], q, slot);
    PushLevel(st, st', t, st.Lane(o.side)[t], st'.Lane(o.side)[t], q, slot, o);
  }

  lemma OtherLevel(st: State, st': State, slot: nat, t: nat, o: Order, q: seq<nat>, side2: Side, t2: nat, l2: Level, q2: seq<nat>)
    requires st.tick > 0 && t < |st.Lane(o.side)| && slot < |st.pool| <= NIL
    requires LevelOk(st, o.side, t, st.Lane(o.side)[t], q)
    requires LevelOk(st, side2, t2, l2, q2) && (side2 != o.side || t2 != t)
    requires slot >= st.hwm || st.pool[slot].id == 0
    requires Inserted(st, st', slot, t, o)
    ensures LevelOk(st', side2, t2, l2, q2)
  {
    Apart(st, side2, t2, l2, q2, slot);
    if q != [] {
      assert RestsAt(st, st.pool[q[|q| - 1]], o.side, t);
      Apart(st, side2, t2, l2, q2, q[|q| - 1]);
    }
    LevelFrame(st, st', side2, t2, l2, q2);
  }

  lemma LevelsKept(st: State, v: View, st': State, slot: nat, t: nat, o: Order, side2: Side, t2: nat)
    requires st.tick > 0 && st.hwm <= |st.pool| <= NIL
    requires LaneOk(st, o.side, v.Lane(o.side)) && LaneOk(st, side2, v.Lane(side2))
    requires Fresh(st, v, slot) && slot == AllocSlot(st) && t < st.nLevels && t2 < st.nLevels
    requires RestsAt(st, o, o.side, t) && o.next == NIL && o.prev == st.Lane(o.side)[t].tail && o.filled == 0
    requires Inserted(st, st', slot, t, o)
    ensures LevelOk(st', side2, t2, st'.Lane(side2)[t2], InsertView(st, v, t, o.side).Lane(side2)[t2])
  {
    var q := v.Lane(o.side)[t];
    assert LevelOk(st, o.side, t, st.Lane(o.side)[t], q);
    if side2 == o.side && t2 == t {
      TouchedLevel(st, st', slot, t, o, q);
    } else {
      OtherLevel(st, st', slot, t, o, q, side2, t2, st.Lane(side2)[t2], v.Lane(side2)[t2]);
    }
  }

  lemma FreeKept(st: State, v: View, st': State, slot: nat, t: nat, o: Order)
    requires st.tick > 0 && st.hwm <= |st.pool| <= NIL
    requires FreeOk(st, v.free) && Fresh(st, v, slot) && t < |st.Lane(o.side)|
    requires Inserted(st, st', slot, t, o)
    requires st.Lane(o.side)[t].tail == NIL || (st.Lane(o.side)[t].tail < |st.pool| && st.pool[st.Lane(o.side)[t].tail].id != 0)
    ensures FreeOk(st', if v.free == [] then [] else v.free[1..])
  {
    if v.free != [] {
      var free' := v.free[1..];
      assert FreeLinkAt(st.pool, v.free, 0);
      forall i | 0 <= i < |free'| ensures FreeLinkAt(st'.pool, free', i) {
        assert FreeLinkAt(st.pool, v.free, i + 1);
      }
    }
  }

  lemma CoverKept(st: State, v: View, st': State, v': View, slot: nat, t: nat, o: Order)
    requires st.tick > 0 && st.hwm <= |st.pool| && Covered(st, v) && Fresh(st, v, slot)
    requires t < |st.Lane(o.side)| && t < |v.Lane(o.side)|
    requires RestsAt(st, o, o.side, t)
    requires Inserted(st, st', slot, t, o)
    requires v' == v.SetQueue(o.side, t, v.Lane(o.side)[t] + [slot]).(free := if v.free == [] then [] else v.free[1..])
    ensures Covered(st', v')
  {
    forall s | 0 <= s < st'.hwm ensures HasHome(st', v', s) {
      if s == slot {
        assert (v.Lane(o.side)[t] + [slot])[|v.Lane(o.side)[t]|] == slot;
      } else {
        assert s < st.hwm;
        assert HasHome(st, v, s);
        if st.pool[s].id == 0 {
          var i :| 0 <= i < |v.free| && v.free[i] == s;
          assert v'.free[i - 1] == s;
        }
      }
    }
  }

  lemma IndexKept(st: State, v: View, st': State, slot: nat, t: nat, o: Order)
    requires IndexOk(st) && st.hwm <= |st.pool| && Fresh(st, v, slot) && t < |st.Lane(o.side)|
    requires v.free != [] ==> st.freeHead != NIL
    requires o.id != 0 && o.id !in st.ids
    requires Inserted(st, st', slot, t, o)
    ensures IndexOk(st')
  {
    forall s | 0 <= s < st'.hwm && s != slot ensures s < st.hwm && st'.pool[s].id == st.pool[s].id {
    }
  }

  lemma LaneKept(st: State, v: View, st': State, slot: nat, t: nat, o: Order, side2: Side)
    requires st.tick > 0 && st.hwm <= |st.pool| <= NIL
    requires LaneOk(st, 0, v.bids) && LaneOk(st, 1, v.asks)
    requires Fresh(st, v, slot) && t < st.nLevels && slot == AllocSlot(st)
    requires RestsAt(st, o, o.side, t) && o.next == NIL && o.prev == st.Lane(o.side)[t].tail && o.filled == 0
    requires Inserted(st, st', slot, t, o)
    ensures LaneOk(st', side2, InsertView(st, v, t, o.side).Lane(side2))
  {
    var lane' := InsertView(st, v, t, o.side).Lane(side2);
    forall u | 0 <= u < |lane'| ensures LevelOk(st', side2, u, st'.Lane(side2)[u], lane'[u]) {
      LevelsKept(st, v, st', slot, t, o, side2, u);
    }
  }

  /** The record an insert writes. */
  function NewOrder(st: State, id: int, price: int, qty: int, side: Side, t: nat): Order
    requires t < |st.Lane(side)|
  {
    Order(id, price, qty, 0, NIL, st.Lane(side)[t].tail, side)
  }

  lemma InsertEffects(st: State, v: View, id: int, price: int, qty: int, side: Side)
    requires Inv(st, v) && InsertOk(st, id, price) && st.CanAlloc()
    ensures Fresh(st, v, AllocSlot(st))
    ensures var t := TickOf(st.priceMin, st.tick, price);
            && LevelOk(st, side, t, st.Lane(side)[t], v.Lane(side)[t])
            && Inserted(st, Insert(st, id, price, qty, side), AllocSlot(st), t, NewOrder(st, id, price, qty, side, t))
  {
    var t := TickOf(st.priceMin, st.tick, price);
    AllocFresh(st, v);
    assert LevelOk(st, side, t, st.Lane(side)[t], v.Lane(side)[t]);
    InsertWrites(st, id, price, qty, side);
  }

  lemma InsertInv(st: State, v: View, id: int, price: int, qty: int, side: Side)
    requires Inv(st, v) && InsertOk(st, id, price) && st.CanAlloc()
    ensures Inv(Insert(st, id, price, qty, side), InsertView(st, v, TickOf(st.priceMin, st.tick, price), side))
  {
    var t := TickOf(st.priceMin, st.tick, price);
    InsertEffects(st, v, id, price, qty, side);
    InsertedInv(st, v, Insert(st, id, price, qty, side), AllocSlot(st), t, NewOrder(st, id, price, qty, side, t));
  }

  lemma InsertedInv(st: State, v: View, st': State, slot: nat, t: nat, o: Order)
    requires Inv(st, v) && Fresh(st, v, slot) && slot == AllocSlot(st) && t < st.nLevels
    requires LevelOk(st, o.side, t, st.Lane(o.side)[t], v.Lane(o.side)[t])
    requires RestsAt(st, o, o.side, t) && o.next == NIL && o.prev == st.Lane(o.side)[t].tail && o.filled == 0 && o.id !in st.ids
    requires Inserted(st, st', slot, t, o)
    ensures Inv(st', InsertView(st, v, t, o.side))
  {
    LaneKept(st, v, st', slot, t, o, 0);
    LaneKept(st, v, st', slot, t, o, 1);
    FreeKept(st, v, st', slot, t, o);
    CoverKept(st, v, st', InsertView(st, v, t, o.side), slot, t, o);
    IndexKept(st, v, st', slot, t, o);
    BestKept(st, st', slot, t, o);
  }

  lemma BestKept(st: State, st': State, slot: nat, t: nat, o: Order)
    requires slot < |st.pool| <= NIL && t < |st.Lane(o.side)| <= 65535
    requires BestOk(0, st.bids, st.bestBid) && BestOk(1, st.asks, st.bestAsk)
    requires st.Lane(o.side)[t].tail != NIL ==> st.Lane(o.side)[t].head != NIL
    requires Inserted(st, st', slot, t, o)
    ensures BestOk(0, st'.bids, st'.bestBid) && BestOk(1, st'.asks, st'.bestAsk)
  {
    BestAfterPush(o.side, st.Lane(o.side), st.Best(o.side), t, st'.Lane(o.side)[t]);
  }

  lemma BestAfterPush(side: Side, lane: seq<Level>, best: int, t: nat, l: Level)
    requires t < |lane| && l.head != NIL && BestOk(side, lane, best)
    ensures BestOk(side, lane[t := l], BetterBest(side, best, t))
  {
  }

  lemma InsertUntouched(st: State, v: View, blank: Order, id: int, price: int, qty: int, side: Side)
    requires Inv(st, v) && Untouched(st, blank) && InsertOk(st, id, price) && st.CanAlloc()
    ensures Untouched(Insert(st, id, price, qty, side), blank)
  {
    InsertEffects(st, v, id, price, qty, side);
  }
}
