/** Update, cancel and fill keep the representation invariant. */
module DepartKeeps {
  import opened BookSpec
  import opened BookInvariant

  // ---------- update ----------

  /** What `Update` writes, field by field. */
  ghost predicate Updated(st: State, st': State, slot: nat, t: nat, add: int)
    requires slot < |st.pool| && t < |st.Lane(st.pool[slot].side)|
  {
    var o := st.pool[slot];
    var l := st.Lane(o.side)[t];
    && st'.priceMin == st.priceMin && st'.tick == st.tick && st'.nLevels == st.nLevels
    && st'.pool == st.pool[slot := o.(filled := o.filled + add)]
    && st'.Lane(o.side) == st.Lane(o.side)[t := Debited(l, add)]
    && st'.Lane(1 - o.side) == st.Lane(1 - o.side)
    && st'.bestBid == st.bestBid && st'.bestAsk == st.bestAsk
    && st'.ids == st.ids && st'.hwm == st.hwm && st'.freeHead == st.freeHead
  }

  lemma UpdateWrites(st: State, id: int, fillQty: int)
    requires Addresses(st, id)
    ensures var o := st.pool[st.ids[id]];
            Updated(st, Update(st, id, fillQty), st.ids[id], TickOf(st.priceMin, st.tick, o.price), Min(fillQty, o.Remaining()))
  {
  }

  lemma {:induction false} SumFilled(pool: seq<Order>, q: seq<nat>, k: nat, o: Order)
    requires k < |q| && NoDup(q) && forall i :: 0 <= i < |q| ==> q[i] < |pool|
    ensures SumRemaining(pool[q[k] := o], q) == SumRemaining(pool, q) - pool[q[k]].Remaining() + o.Remaining()
  {
    var n := |q| - 1;
    if k == n {
      SumFrame(pool, pool[q[k] := o], q[..n]);
    } else {
      SumFilled(pool, q[..n], k, o);
    }
  }

  lemma FilledLinks(pool: seq<Order>, q: seq<nat>, slot: nat, f: int)
    requires slot < |pool| && Linked(pool, q)
    ensures Linked(pool[slot := pool[slot].(filled := f)], q)
  {
    var pool' := pool[slot := pool[slot].(filled := f)];
    forall i | 0 <= i < |q| ensures LinkAt(pool', q, i) {
      assert LinkAt(pool, q, i);
    }
  }

  /** A level whose order at `slot` was filled by `add`, the total debited. */
  lemma UpdatedLevel(st: State, st': State, slot: nat, side: Side, t: nat, add: int, l: Level, q: seq<nat>)
    requires st.tick > 0 && slot < |st.pool| && slot in q
    requires st'.tick == st.tick && st'.priceMin == st.priceMin && st'.hwm == st.hwm
    requires LevelOk(st, side, t, l, q)
    requires st'.pool == st.pool[slot := st.pool[slot].(filled := st.pool[slot].filled + add)]
    ensures LevelOk(st', side, t, Debited(l, add), q)
  {
    var o := st.pool[slot];
    FilledLinks(st.pool, q, slot, o.filled + add);
    forall i | 0 <= i < |q| ensures RestsAt(st', st'.pool[q[i]], side, t) {
      assert RestsAt(st, st.pool[q[i]], side, t);
    }
    var k :| 0 <= k < |q| && q[k] == slot;
    SumFilled(st.pool, q, k, o.(filled := o.filled + add));
  }

  lemma UpdatedLane(st: State, v: View, st': State, slot: nat, t: nat, add: int, side2: Side)
    requires st.tick > 0 && slot < st.hwm && slot < |st.pool| && t < st.nLevels
    requires RestsAt(st, st.pool[slot], st.pool[slot].side, t)
    requires LaneOk(st, 0, v.bids) && LaneOk(st, 1, v.asks)
    requires slot in v.Lane(st.pool[slot].side)[t]
    requires Updated(st, st', slot, t, add)
    ensures LaneOk(st', side2, v.Lane(side2))
  {
    var o := st.pool[slot];
    forall u | 0 <= u < st.nLevels ensures LevelOk(st', side2, u, st'.Lane(side2)[u], v.Lane(side2)[u]) {
      var q2 := v.Lane(side2)[u];
      assert LevelOk(st, side2, u, st.Lane(side2)[u], q2);
      if side2 == o.side && u == t {
        UpdatedLevel(st, st', slot, side2, u, add, st.Lane(side2)[u], q2);
      } else {
        Apart(st, side2, u, st.Lane(side2)[u], q2, slot);
        LevelFrame(st, st', side2, u, st.Lane(side2)[u], q2);
      }
    }
  }

  /** Only `filled` of one order changed: free list, homes and index read the same. */
  lemma UpdatedRest(st: State, v: View, st': State, slot: nat, t: nat, add: int)
    requires st.tick > 0 && slot < |st.pool| && st.hwm <= |st.pool| && t < |st.Lane(st.pool[slot].side)|
    requires FreeOk(st, v.free) && Covered(st, v) && IndexOk(st) && st.pool[slot].id != 0
    requires Updated(st, st', slot, t, add)
    ensures FreeOk(st', v.free) && Covered(st', v) && IndexOk(st')
  {
    forall i | 0 <= i < |v.free| ensures FreeLinkAt(st'.pool, v.free, i) {
      assert FreeLinkAt(st.pool, v.free, i);
    }
    forall s | 0 <= s < st'.hwm ensures HasHome(st', v, s) {
      assert HasHome(st, v, s);
    }
  }

  /** The best price depends only on which levels are occupied. */
  lemma SameHeadsBest(side: Side, lane: seq<Level>, lane': seq<Level>, best: int)
    requires BestOk(side, lane, best) && |lane| == |lane'|
    requires forall t :: 0 <= t < |lane| ==> lane'[t].head == lane[t].head
    ensures BestOk(side, lane', best)
  {
  }

  lemma UpdateInv(st: State, v: View, id: int, fillQty: int)
    requires Inv(st, v) && id in st.ids
    ensures Addresses(st, id)
    ensures Inv(Update(st, id, fillQty), v)
  {
    InvBounded(st, v);
    var slot := st.ids[id];
    var o := st.pool[slot];
    var t := TickOf(st.priceMin, st.tick, o.price);
    var add := Min(fillQty, o.Remaining());
    var st' := Update(st, id, fillQty);
    UpdateWrites(st, id, fillQty);
    SlotHome(st, v, slot);
    UpdatedLane(st, v, st', slot, t, add, 0);
    UpdatedLane(st, v, st', slot, t, add, 1);
    UpdatedRest(st, v, st', slot, t, add);
    SameHeadsBest(0, st.bids, st'.bids, st.bestBid);
    SameHeadsBest(1, st.asks, st'.asks, st.bestAsk);
  }

  lemma UpdateUntouched(st: State, blank: Order, id: int, fillQty: int)
    requires Addresses(st, id) && Untouched(st, blank)
    ensures Untouched(Update(st, id, fillQty), blank)
  {
    UpdateWrites(st, id, fillQty);
  }

  // ---------- cancel and fill ----------

  /** What a departure writes, field by field; `f` is the freed record's `filled`. */
  ghost predicate Departed(st: State, st': State, slot: nat, t: nat, f: int)
    requires slot < |st.pool| && t < |st.Lane(st.pool[slot].side)|
  {
    var o := st.pool[slot];
    var l := st.Lane(o.side)[t];
    && st'.priceMin == st.priceMin && st'.tick == st.tick && st'.nLevels == st.nLevels
    && Removed(st.pool, st'.pool, slot, st.freeHead, f)
    && st'.Lane(o.side) == st.Lane(o.side)[t := UnlinkedLevel(l, slot, o.prev, o.next, o.Remaining())]
    && st'.Lane(1 - o.side) == st.Lane(1 - o.side)
    && st'.hwm == st.hwm && st'.freeHead == slot
    && st'.ids == st.ids - {o.id}
    && st'.Best(1 - o.side) == st.Best(1 - o.side)
    && st'.Best(o.side) == RepairedBest(o.side, st'.Lane(o.side), st.Best(o.side), t)
  }

  ghost predicate Removed(pool: seq<Order>, pool': seq<Order>, slot: nat, freeHead: nat, f: int)
    requires slot < |pool|
  {
    var o := pool[slot];
    && |pool'| == |pool|
    && pool'[slot] == o.(id := 0, next := freeHead, prev := NIL, filled := f)
    && forall s :: 0 <= s < |pool| && s != slot ==>
         pool'[s] == pool[s].(next := if s == o.prev then o.next else pool[s].next,
                              prev := if s == o.next then o.prev else pool[s].prev)
  }

  /** Departing from `st` after the index entry went and `filled` became `f`. */
  function Left(st: State, id: int, f: int): State
    requires Addresses(st, id)
  {
    var slot := st.ids[id];
    var o := st.pool[slot];
    Depart(st.(ids := st.ids - {id}).SetOrder(slot, o.(filled := f)), slot, o.side,
           TickOf(st.priceMin, st.tick, o.price), o.Remaining())
  }

  lemma CancelIsLeft(st: State, id: int)
    requires Addresses(st, id)
    ensures Cancel(st, id) == Left(st, id, st.pool[st.ids[id]].filled)
    ensures Fill(st, id) == Left(st, id, st.pool[st.ids[id]].qty)
  {
    var slot := st.ids[id];
    assert st.pool[slot := st.pool[slot].(filled := st.pool[slot].filled)] == st.pool;
  }

  lemma RemovedWrites(pool: seq<Order>, slot: nat, freeHead: nat, f: int)
    requires Linkable(pool, slot) && |pool| <= NIL && pool[slot].prev != slot && pool[slot].next != slot
    ensures var p1 := pool[slot := pool[slot].(filled := f)];
            Linkable(p1, slot)
            && var p2 := UnlinkedPool(p1, slot);
               |p2| == |pool| && Removed(pool, p2[slot := FreedOrder(p2[slot], freeHead)], slot, freeHead, f)
  {
  }

  lemma LeftWrites(st: State, id: int, f: int)
    requires Addresses(st, id) && st.pool[st.ids[id]].id == id
    requires st.pool[st.ids[id]].prev != st.ids[id] && st.pool[st.ids[id]].next != st.ids[id]
    ensures Departed(st, Left(st, id, f), st.ids[id], TickOf(st.priceMin, st.tick, st.pool[st.ids[id]].price), f)
  {
    RemovedWrites(st.pool, st.ids[id], st.freeHead, f);
  }

  /** Position of `s` in a queue that holds it. */
  function IndexOf(q: seq<nat>, s: nat): (i: nat)
    requires s in q
    ensures i < |q| && q[i] == s
  {
    if q[0] == s then 0 else 1 + IndexOf(q[1..], s)
  }

  /** The departing slot leaves its queue (the others keep their order) and heads the free list. */
  function DepartView(v: View, side: Side, t: nat, slot: nat): View
    requires t < |v.Lane(side)| && slot in v.Lane(side)[t]
  {
    var q := v.Lane(side)[t];
    v.SetQueue(side, t, Without(q, IndexOf(q, slot))).(free := [slot] + v.free)
  }

  lemma RemovedLinkAt(pool: seq<Order>, pool': seq<Order>, q: seq<nat>, k: nat, freeHead: nat, f: int, q': seq<nat>, i: nat, j: nat)
    requires k < |q| && |pool| <= NIL && NoDup(q) && Linked(pool, q) && q[k] < |pool|
    requires Removed(pool, pool', q[k], freeHead, f)
    requires q' == Without(q, k) && i < |q'| && j == if i < k then i else i + 1
    ensures q'[i] == q[j] != q[k]
    ensures LinkAt(pool', q', i) && pool'[q'[i]].Remaining() == pool[q'[i]].Remaining()
  {
    assert LinkAt(pool, q, k) && LinkAt(pool, q, j);
    assert i > 0 ==> q'[i - 1] == q[if i - 1 < k then i - 1 else i];
    assert i + 1 < |q'| ==> q'[i + 1] == q[if i + 1 < k then i + 1 else i + 2];
  }

  lemma RemovedLinks(pool: seq<Order>, pool': seq<Order>, q: seq<nat>, k: nat, freeHead: nat, f: int)
    requires k < |q| && |pool| <= NIL && NoDup(q) && Linked(pool, q)
    requires forall i :: 0 <= i < |q| ==> q[i] < |pool|
    requires Removed(pool, pool', q[k], freeHead, f)
    ensures NoDup(Without(q, k)) && Linked(pool', Without(q, k))
    ensures SumRemaining(pool', Without(q, k)) == SumRemaining(pool, q) - pool[q[k]].Remaining()
  {
    var q' := Without(q, k);
    forall i | 0 <= i < |q'| ensures LinkAt(pool', q', i) && pool'[q'[i]].Remaining() == pool[q'[i]].Remaining() {
      RemovedLinkAt(pool, pool', q, k, freeHead, f, q', i, if i < k then i else i + 1);
    }
    SumWithout(pool, q, k);
    SumFrame(pool, pool', q');
  }

  lemma DepartedLevel(st: State, st': State, side: Side, t: nat, l: Level, q: seq<nat>, k: nat, freeHead: nat, f: int)
    requires st.tick > 0 && st'.tick == st.tick && st'.priceMin == st.priceMin && st'.hwm == st.hwm
    requires |st.pool| <= NIL && k < |q| && LevelOk(st, side, t, l, q)
    requires Removed(st.pool, st'.pool, q[k], freeHead, f)
    ensures var o := st.pool[q[k]];
            LevelOk(st', side, t, UnlinkedLevel(l, q[k], o.prev, o.next, o.Remaining()), Without(q, k))
  {
    RemovedLinks(st.pool, st'.pool, q, k, freeHead, f);
    var q' := Without(q, k);
    assert LinkAt(st.pool, q, k);
    forall i | 0 <= i < |q'|
      ensures q'[i] < st'.hwm && q'[i] < |st'.pool| && RestsAt(st', st'.pool[q'[i]], side, t)
    {
      var j := if i < k then i else i + 1;
      assert q'[i] == q[j] != q[k];
      assert RestsAt(st, st.pool[q[j]], side, t);
    }
  }

  /** Levels the departing order does not rest on are not written. */
  lemma DepartedOther(st: State, st': State, side: Side, t: nat, l: Level, q: seq<nat>, k: nat, freeHead: nat, f: int,
                      side2: Side, t2: nat, l2: Level, q2: seq<nat>)
    requires st.tick > 0 && st'.tick == st.tick && st'.priceMin == st.priceMin && st'.hwm == st.hwm
    requires |st.pool| <= NIL && k < |q| && LevelOk(st, side, t, l, q) && LevelOk(st, side2, t2, l2, q2)
    requires side2 != side || t2 != t
    requires Removed(st.pool, st'.pool, q[k], freeHead, f)
    ensures LevelOk(st', side2, t2, l2, q2)
  {
    assert LinkAt(st.pool, q, k);
    assert RestsAt(st, st.pool[q[k]], side, t);
    Apart(st, side2, t2, l2, q2, q[k]);
    if k > 0 {
      assert RestsAt(st, st.pool[q[k - 1]], side, t);
      Apart(st, side2, t2, l2, q2, q[k - 1]);
    }
    if k + 1 < |q| {
      assert RestsAt(st, st.pool[q[k + 1]], side, t);
      Apart(st, side2, t2, l2, q2, q[k + 1]);
    }
    LevelFrame(st, st', side2, t2, l2, q2);
  }

  lemma DepartedLane(st: State, v: View, st': State, slot: nat, t: nat, f: int, side2: Side)
    requires st.tick > 0 && slot < |st.pool| <= NIL && t < st.nLevels
    requires LaneOk(st, st.pool[slot].side, v.Lane(st.pool[slot].side)) && LaneOk(st, side2, v.Lane(side2))
    requires slot in v.Lane(st.pool[slot].side)[t]
    requires Departed(st, st', slot, t, f)
    ensures LaneOk(st', side2, DepartView(v, st.pool[slot].side, t, slot).Lane(side2))
  {
    var o := st.pool[slot];
    var q := v.Lane(o.side)[t];
    var k := IndexOf(q, slot);
    assert LevelOk(st, o.side, t, st.Lane(o.side)[t], q);
    var lane' := DepartView(v, o.side, t, slot).Lane(side2);
    forall u | 0 <= u < |lane'| ensures LevelOk(st', side2, u, st'.Lane(side2)[u], lane'[u]) {
      assert LevelOk(st, side2, u, st.Lane(side2)[u], v.Lane(side2)[u]);
      if side2 == o.side && u == t {
        DepartedLevel(st, st', o.side, t, st.Lane(o.side)[t], q, k, st.freeHead, f);
      } else {
        DepartedOther(st, st', o.side, t, st.Lane(o.side)[t], q, k, st.freeHead, f,
                      side2, u, st.Lane(side2)[u], v.Lane(side2)[u]);
      }
    }
  }

  /** The freed slot heads the free list; no freed slot was a neighbour of it. */
  lemma DepartedFree(st: State, st': State, free: seq<nat>, slot: nat, t: nat, f: int)
    requires slot < st.hwm <= |st.pool| <= NIL && st.pool[slot].id != 0 && t < |st.Lane(st.pool[slot].side)|
    requires FreeOk(st, free) && Departed(st, st', slot, t, f)
    requires st.pool[slot].prev < |st.pool| ==> st.pool[st.pool[slot].prev].id != 0
    requires st.pool[slot].next < |st.pool| ==> st.pool[st.pool[slot].next].id != 0
    ensures FreeOk(st', [slot] + free)
  {
    var free' := [slot] + free;
    forall i | 0 <= i < |free'| ensures FreeLinkAt(st'.pool, free', i) {
      if i > 0 { assert FreeLinkAt(st.pool, free, i - 1); }
    }
  }

  lemma DepartedCover(st: State, v: View, st': State, slot: nat, t: nat, f: int)
    requires st.tick > 0 && slot < st.hwm <= |st.pool| && Covered(st, v)
    requires t < |st.Lane(st.pool[slot].side)| && Departed(st, st', slot, t, f)
    requires RestsAt(st, st.pool[slot], st.pool[slot].side, t)
    requires t < |v.Lane(st.pool[slot].side)| && slot in v.Lane(st.pool[slot].side)[t]
    ensures Covered(st', DepartView(v, st.pool[slot].side, t, slot))
  {
    var o := st.pool[slot];
    var q := v.Lane(o.side)[t];
    var k := IndexOf(q, slot);
    var v' := DepartView(v, o.side, t, slot);
    forall s | 0 <= s < st'.hwm ensures HasHome(st', v', s) {
      if s == slot {
        assert v'.free[0] == slot;
      } else {
        assert HasHome(st, v, s);
        if s in v.free { StillIn([slot], v.free, s); }
        if s in q { StillInWithout(q, k, s); }
      }
    }
  }

  lemma StillIn(a: seq<nat>, b: seq<nat>, s: nat)
    requires s in b
    ensures s in a + b
  {
  }

  lemma StillInWithout(q: seq<nat>, k: nat, s: nat)
    requires k < |q| && s in q && s != q[k]
    ensures s in Without(q, k)
  {
    var i :| 0 <= i < |q| && q[i] == s;
    assert Without(q, k)[if i < k then i else i - 1] == s;
  }

  lemma DepartedIndex(st: State, st': State, slot: nat, t: nat, f: int)
    requires slot < st.hwm <= |st.pool| && t < |st.Lane(st.pool[slot].side)|
    requires IndexOk(st) && st.pool[slot].id != 0 && Departed(st, st', slot, t, f)
    ensures IndexOk(st')
  {
  }

  /** The rescan finds the extreme occupied level; without it the old best still is. */
  lemma RepairedOk(side: Side, lane: seq<Level>, best: int, t: nat, l: Level)
    requires t < |lane| && BestOk(side, lane, best) && lane[t].head != NIL
    ensures BestOk(side, lane[t := l], RepairedBest(side, lane[t := l], best, t))
  {
  }

  lemma LeftInv(st: State, v: View, id: int, f: int)
    requires Inv(st, v) && id in st.ids
    ensures Addresses(st, id)
    ensures var o := st.pool[st.ids[id]];
            var t := TickOf(st.priceMin, st.tick, o.price);
            && st.ids[id] in v.Lane(o.side)[t]
            && Inv(Left(st, id, f), DepartView(v, o.side, t, st.ids[id]))
  {
    InvBounded(st, v);
    var slot := st.ids[id];
    var o := st.pool[slot];
    var t := TickOf(st.priceMin, st.tick, o.price);
    SlotHome(st, v, slot);
    NeighboursRest(st, o.side, t, st.Lane(o.side)[t], v.Lane(o.side)[t], slot);
    LeftWrites(st, id, f);
    DepartedInv(st, v, Left(st, id, f), slot, t, f);
  }

  /** The neighbours of a resting order are other resting orders. */
  lemma NeighboursRest(st: State, side: Side, t: nat, l: Level, q: seq<nat>, slot: nat)
    requires st.tick > 0 && |st.pool| <= NIL && LevelOk(st, side, t, l, q) && slot in q
    ensures slot < |st.pool| && l.head != NIL
    ensures var o := st.pool[slot];
            && o.prev != slot && o.next != slot
            && (o.prev < |st.pool| ==> st.pool[o.prev].id != 0)
            && (o.next < |st.pool| ==> st.pool[o.next].id != 0)
  {
    var k := IndexOf(q, slot);
    assert LinkAt(st.pool, q, k);
  }

  lemma DepartedInv(st: State, v: View, st': State, slot: nat, t: nat, f: int)
    requires Inv(st, v) && slot < st.hwm && t < st.nLevels
    requires RestsAt(st, st.pool[slot], st.pool[slot].side, t) && slot in v.Lane(st.pool[slot].side)[t]
    requires Departed(st, st', slot, t, f)
    ensures Inv(st', DepartView(v, st.pool[slot].side, t, slot))
  {
    var o := st.pool[slot];
    NeighboursRest(st, o.side, t, st.Lane(o.side)[t], v.Lane(o.side)[t], slot);
    DepartedLane(st, v, st', slot, t, f, 0);
    DepartedLane(st, v, st', slot, t, f, 1);
    DepartedFree(st, st', v.free, slot, t, f);
    DepartedCover(st, v, st', slot, t, f);
    DepartedIndex(st, st', slot, t, f);
    RepairedOk(o.side, st.Lane(o.side), st.Best(o.side), t, st'.Lane(o.side)[t]);
  }

  lemma LeftUntouched(st: State, v: View, blank: Order, id: int, f: int)
    requires Inv(st, v) && Addresses(st, id) && Untouched(st, blank)
    ensures Untouched(Left(st, id, f), blank)
  {
    var slot := st.ids[id];
    var o := st.pool[slot];
    var t := TickOf(st.priceMin, st.tick, o.price);
    SlotHome(st, v, slot);
    var q := v.Lane(o.side)[t];
    NeighboursRest(st, o.side, t, st.Lane(o.side)[t], q, slot);
    assert LinkAt(st.pool, q, IndexOf(q, slot));
    LeftWrites(st, id, f);
  }
}
