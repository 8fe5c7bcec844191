/** What each operation does, said outright: the numbers a caller can check on
    the book and on its queues, without the functions that compute them.
 */
module BookEffects {
  import opened Arith
  import opened BookSpec
  import opened BookInvariant
  import opened InsertKeeps
  import opened DepartKeeps
  import opened BookRuns
  import opened PriceTime

  /** No level but one, and nothing of the configuration, changed. */
  ghost predicate OnlyLevel(st: State, st': State, side: Side, t: nat) {
    && st'.priceMin == st.priceMin && st'.tick == st.tick && st'.nLevels == st.nLevels && |st'.pool| == |st.pool|
    && |st.Lane(0)| == |st'.Lane(0)| == |st.Lane(1)| == |st'.Lane(1)| == st.nLevels
    && forall s: Side, u :: 0 <= u < st.nLevels && (s != side || u != t) ==> st'.Lane(s)[u] == st.Lane(s)[u]
  }

  /** A partial fill adds the fill quantity while the order has that much left, and completes it
      otherwise; the level loses exactly what the order gained; nothing else changes. */
  lemma UpdateSays(st: State, v: View, id: int, fillQty: int)
    requires Inv(st, v) && Legal(st, OpUpdate(id, fillQty))
    ensures var st', slot := Apply(st, OpUpdate(id, fillQty)), st.ids[id];
            var o, o' := st.pool[slot], st'.pool[slot];
            var t := TickOf(st.priceMin, st.tick, o.price);
            && OnlyLevel(st, st', o.side, t)
            && (fillQty <= o.qty - o.filled ==> o'.filled == o.filled + fillQty)
            && (fillQty > o.qty - o.filled ==> o'.filled == o.qty)
            && o' == o.(filled := o'.filled)
            && (forall s :: 0 <= s < |st.pool| && s != slot ==> st'.pool[s] == st.pool[s])
            && st'.Lane(o.side)[t] == st.Lane(o.side)[t].(qtyTotal := st.Lane(o.side)[t].qtyTotal - (o'.filled - o.filled))
            && st'.ids == st.ids && st'.hwm == st.hwm && st'.freeHead == st.freeHead
            && st'.bestBid == st.bestBid && st'.bestAsk == st.bestAsk
  {
    UpdateWrites(st, id, fillQty);
  }

  /** The slot the next insert takes: the most recently freed one, or the next never used. */
  function NextSlot(st: State): nat {
    if st.freeHead != NIL then st.freeHead else st.hwm
  }

  /** Record and level of a new order, in `slot`. */
  ghost predicate Joins(st: State, st': State, id: int, price: int, qty: int, side: Side, t: nat, slot: nat)
    requires t < |st.Lane(side)| && t < |st'.Lane(side)| && |st.pool| == |st'.pool|
  {
    var l := st.Lane(side)[t];
    && slot < |st.pool| && st'.ids == st.ids[id := slot]
    && st'.pool[slot] == Order(id, price, qty, 0, NIL, l.tail, side)
    && (forall s :: 0 <= s < |st.pool| && s != slot && s != l.tail ==> st'.pool[s] == st.pool[s])
    && (l.tail != NIL ==> l.tail < |st.pool| && l.tail != slot && st'.pool[l.tail] == st.pool[l.tail].(next := slot))
    && st'.Lane(side)[t] == Level(if l.count == 0 then slot else l.head, slot, l.qtyTotal + qty, l.count + 1)
  }

  /** The allocator and the best prices across an insert. */
  ghost predicate Allocates(st: State, st': State, side: Side, t: nat) {
    var best := st.Best(side);
    && (st.freeHead != NIL ==> st.freeHead < |st.pool| && st'.freeHead == st.pool[st.freeHead].next && st'.hwm == st.hwm)
    && (st.freeHead == NIL ==> st'.freeHead == NIL && st'.hwm == st.hwm + 1)
    && st'.Best(1 - side) == st.Best(1 - side)
    && (best >= 0 && (if side == 0 then best >= t else best <= t) ==> st'.Best(side) == best)
    && (best < 0 || (if side == 0 then best < t else best > t) ==> st'.Best(side) == t)
  }

  lemma InsertedJoins(st: State, st': State, slot: nat, t: nat, o: Order)
    requires slot < |st.pool| <= NIL && t < st.nLevels == |st.Lane(0)| == |st.Lane(1)| && o.filled == 0 && o.next == NIL
    requires Inserted(st, st', slot, t, o) && o.prev == st.Lane(o.side)[t].tail
    requires var l := st.Lane(o.side)[t]; (l.count == 0 <==> l.tail == NIL) && (l.tail != NIL ==> l.tail < |st.pool| && l.tail != slot)
    ensures OnlyLevel(st, st', o.side, t) && Joins(st, st', o.id, o.price, o.qty, o.side, t, slot)
  {
  }

  lemma InsertedAllocates(st: State, st': State, slot: nat, t: nat, o: Order)
    requires slot < |st.pool| <= NIL && t < |st.Lane(o.side)| && Inserted(st, st', slot, t, o)
    requires st.SlotOk(st.freeHead)
    ensures Allocates(st, st', o.side, t)
  {
  }

  /** A new order is unfilled and last on its level, which gains its quantity; the slot is the
      most recently freed one, or the next never used; the best price moves only for the better. */
  lemma InsertSays(st: State, v: View, id: int, price: int, qty: int, side: Side)
    requires Inv(st, v) && Legal(st, OpInsert(id, price, qty, side))
    ensures var st', t := Apply(st, OpInsert(id, price, qty, side)), TickOf(st.priceMin, st.tick, price);
            && OnlyLevel(st, st', side, t)
            && Joins(st, st', id, price, qty, side, t, NextSlot(st)) && Allocates(st, st', side, t)
  {
    var t := TickOf(st.priceMin, st.tick, price);
    var st', slot, o := Insert(st, id, price, qty, side), AllocSlot(st), NewOrder(st, id, price, qty, side, t);
    InsertEffects(st, v, id, price, qty, side);
    TailRests(st, side, t, st.Lane(side)[t], v.Lane(side)[t], slot);
    InsertedJoins(st, st', slot, t, o);
    InsertedAllocates(st, st', slot, t, o);
  }

  /** The last slot of a level is a live one. */
  lemma TailRests(st: State, side: Side, t: nat, l: Level, q: seq<nat>, slot: nat)
    requires st.tick > 0 && |st.pool| <= NIL && LevelOk(st, side, t, l, q)
    requires slot < |st.pool| && (slot >= st.hwm || st.pool[slot].id == 0)
    ensures l.count == 0 <==> l.tail == NIL
    ensures l.tail != NIL ==> l.tail < |st.pool| && l.tail != slot
  {
    Apart(st, side, t, l, q, slot);
  }

  /** A departure that leaves `f` in the freed record. */
  ghost predicate Departs(st: State, st': State, id: int, slot: nat, t: nat, o: Order, f: int)
    requires t < |st.Lane(o.side)| && t < |st'.Lane(o.side)| && slot < |st.pool| == |st'.pool|
  {
    && st'.ids == st.ids - {id} && st'.hwm == st.hwm && st'.freeHead == slot
    && st'.pool[slot] == Order(0, o.price, o.qty, f, st.freeHead, NIL, o.side)
    && (forall s :: 0 <= s < |st.pool| && s != slot ==>
          st'.pool[s] == st.pool[s].(next := st'.pool[s].next, prev := st'.pool[s].prev))
    && st'.Lane(o.side)[t].qtyTotal == st.Lane(o.side)[t].qtyTotal - (o.qty - o.filled)
    && st'.Lane(o.side)[t].count == st.Lane(o.side)[t].count - 1
    && st'.Best(1 - o.side) == st.Best(1 - o.side)
  }

  lemma DepartedSays(st: State, st': State, id: int, t: nat, f: int)
    requires Addresses(st, id) && st.pool[st.ids[id]].id == id && t < st.nLevels
    requires Departed(st, st', st.ids[id], t, f)
    ensures OnlyLevel(st, st', st.pool[st.ids[id]].side, t) && Departs(st, st', id, st.ids[id], t, st.pool[st.ids[id]], f)
  {
  }

  /** A departing order leaves the index and its level, which loses what the order had left; its
      record is marked free at the head of the free list, completed by a fill, as it was by a
      cancel; no other record changes but in its links. */
  lemma DepartSays(st: State, v: View, op: Op)
    requires Inv(st, v) && Legal(st, op) && (op.OpCancel? || op.OpFill?)
    ensures var st', slot := Apply(st, op), st.ids[op.id];
            var o := st.pool[slot];
            var t := TickOf(st.priceMin, st.tick, o.price);
            && OnlyLevel(st, st', o.side, t)
            && Departs(st, st', op.id, slot, t, o, if op.OpFill? then o.qty else o.filled)
  {
    var id := op.id;
    var o := st.pool[st.ids[id]];
    var t := TickOf(st.priceMin, st.tick, o.price);
    var f := if op.OpFill? then o.qty else o.filled;
    DepartWrites(st, v, id, f);
    CancelIsLeft(st, id);
    DepartedSays(st, Left(st, id, f), id, t, f);
  }

  lemma DepartWrites(st: State, v: View, id: int, f: int)
    requires Inv(st, v) && Addresses(st, id)
    ensures st.pool[st.ids[id]].id == id
    ensures Departed(st, Left(st, id, f), st.ids[id], TickOf(st.priceMin, st.tick, st.pool[st.ids[id]].price), f)
  {
    var o := st.pool[st.ids[id]];
    var t := TickOf(st.priceMin, st.tick, o.price);
    SlotHome(st, v, st.ids[id]);
    NeighboursRest(st, o.side, t, st.Lane(o.side)[t], v.Lane(o.side)[t], st.ids[id]);
    LeftWrites(st, id, f);
  }

  // ---------- the same of the queues ----------

  /** The queues other than one are as they were. */
  ghost predicate OnlyQueue(a: Queues, a': Queues, side: Side, t: nat) {
    && a'.priceMin == a.priceMin && a'.tick == a.tick && |a'.bids| == |a.bids| && |a'.asks| == |a.asks|
    && forall s: Side, u :: 0 <= u < |a.Lane(s)| && (s != side || u != t) ==> a'.Lane(s)[u] == a.Lane(s)[u]
  }

  lemma ServeInsertSays(a: Queues, id: int, price: int, qty: int, side: Side)
    requires OnLadder(a, OpInsert(id, price, qty, side))
    ensures var a', t := Serve(a, OpInsert(id, price, qty, side)), TickOf(a.priceMin, a.tick, price);
            && OnlyQueue(a, a', side, t)
            && a'.Lane(side)[t] == a.Lane(side)[t] + [Rec(id, price, qty, 0, side)]
  {
  }

  /** An order across a partial fill. */
  ghost predicate FilledBy(r: Rec, r': Rec, fillQty: int) {
    && r' == r.(filled := r'.filled)
    && (fillQty <= r.qty - r.filled ==> r'.filled == r.filled + fillQty)
    && (fillQty > r.qty - r.filled ==> r'.filled == r.qty)
  }

  lemma ServeUpdateSays(a: Queues, id: int, fillQty: int)
    requires OnLadder(a, OpUpdate(id, fillQty))
    ensures var a' := Serve(a, OpUpdate(id, fillQty));
            && a'.priceMin == a.priceMin && a'.tick == a.tick && |a'.bids| == |a.bids| && |a'.asks| == |a.asks|
            && (forall side: Side, t :: 0 <= t < |a.Lane(side)| ==> |a'.Lane(side)[t]| == |a.Lane(side)[t]|)
            && forall side: Side, t, i :: 0 <= t < |a.Lane(side)| && 0 <= i < |a.Lane(side)[t]| ==>
                 var r, r' := a.Lane(side)[t][i], a'.Lane(side)[t][i];
                 if r.id == id then FilledBy(r, r', fillQty) else r' == r
  {
  }

  lemma {:induction false} DropSays(q: seq<Rec>, id: int, r: Rec)
    ensures r in Drop(q, id) <==> r in q && r.id != id
  {
    if q != [] {
      DropSays(q[1..], id, r);
      assert q == [q[0]] + q[1..];
    }
  }

  lemma ServeDepartSays(a: Queues, op: Op, side: Side, t: nat, r: Rec)
    requires (op.OpCancel? || op.OpFill?) && OnLadder(a, op) && t < |a.Lane(side)|
    ensures var a' := Serve(a, op);
            && a'.priceMin == a.priceMin && a'.tick == a.tick && |a'.bids| == |a.bids| && |a'.asks| == |a.asks|
            && (r in a'.Lane(side)[t] <==> r in a.Lane(side)[t] && r.id != op.id)
  {
    DropSays(a.Lane(side)[t], op.id, r);
  }

  // ---------- prices and levels ----------

  /** A price from the ladder's lowest up rests on the level whose band of one tick holds it; a
      price less than a tick below the lowest rests on level 0, the division truncating toward
      zero; any lower one wraps around the 32 bits of the cast. */
  lemma TickSays(priceMin: int, tick: int, price: int, t: nat)
    requires tick > 0 && t < 0x1_0000_0000
    ensures price >= priceMin ==> (tick * t <= price - priceMin < tick * (t + 1) ==> TickOf(priceMin, tick, price) == t)
    ensures -tick < price - priceMin < 0 ==> TickOf(priceMin, tick, price) == 0
    ensures t > 0 && tick * t <= priceMin - price < tick * (t + 1) ==> TickOf(priceMin, tick, price) == 0x1_0000_0000 - t
  {
    var d := if price >= priceMin then price - priceMin else priceMin - price;
    if tick * t <= d < tick * (t + 1) {
      DivModIs(d, tick, t, d - tick * t);
      if price >= priceMin {
        SmallMod(t, WORD32);
      } else if t > 0 {
        SmallMod(WORD32 - t, WORD32);
        AddMod(-(t as int), WORD32);
      }
    }
    if 0 < priceMin - price < tick { SmallMod(priceMin - price, tick); }
  }
}
