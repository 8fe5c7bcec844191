/** The operations one memory access at a time, in the order the copy-on-write
    book makes them: a chunk is made the writer's own before it is written, and
    every scalar is an access of its own.
 */
module BookAccess {
  import opened BookSpec

  datatype Access =
    | OwnOrder(slot: nat)
    | PutOrder(slot: nat, o: Order)
    | OwnLevel(side: Side, t: nat)
    | PutLevel(side: Side, t: nat, l: Level)
    | PutBest(side: Side, best: int)
    | PutIndex(ids: map<int, nat>)
    | PutFreeHead(slot: nat)
    | PutHwm(hwm: nat)

  predicate Fits(st: State, a: Access) {
    match a
    case OwnOrder(slot) => slot < |st.pool|
    case PutOrder(slot, _) => slot < |st.pool|
    case OwnLevel(side, t) => t < |st.Lane(side)|
    case PutLevel(side, t, _) => t < |st.Lane(side)|
    case _ => true
  }

  /** Owning a chunk shows nowhere. */
  function After(st: State, a: Access): State
    requires Fits(st, a)
  {
    match a
    case OwnOrder(_) => st
    case PutOrder(slot, o) => st.SetOrder(slot, o)
    case OwnLevel(_, _) => st
    case PutLevel(side, t, l) => st.SetLevel(side, t, l)
    case PutBest(side, best) => st.SetBest(side, best)
    case PutIndex(ids) => st.(ids := ids)
    case PutFreeHead(slot) => st.(freeHead := slot)
    case PutHwm(hwm) => st.(hwm := hwm)
  }

  ghost predicate FitAll(st: State, xs: seq<Access>)
    decreases |xs|
  {
    xs == [] || (Fits(st, xs[0]) && FitAll(After(st, xs[0]), xs[1..]))
  }

  function AfterAll(st: State, xs: seq<Access>): State
    requires FitAll(st, xs)
    decreases |xs|
  {
    if xs == [] then st else AfterAll(After(st, xs[0]), xs[1..])
  }

  // ---------- the accesses of each operation ----------

  /** `order_mut` and the write through it. */
  function WriteOrder(slot: nat, o: Order): seq<Access> {
    [OwnOrder(slot), PutOrder(slot, o)]
  }

  function WriteLevel(side: Side, t: nat, l: Level): seq<Access> {
    [OwnLevel(side, t), PutLevel(side, t, l)]
  }

  function MoveBest(side: Side, was: int, best: int): seq<Access> {
    if best == was then [] else [PutBest(side, best)]
  }

  /** Point the `next` of a neighbour elsewhere; NIL has no record to write. */
  function WriteNext(pool: seq<Order>, slot: nat, next: nat): seq<Access>
    requires slot == NIL || slot < |pool|
  {
    if slot == NIL then [] else WriteOrder(slot, pool[slot].(next := next))
  }

  function WritePrev(pool: seq<Order>, slot: nat, prev: nat): seq<Access>
    requires slot == NIL || slot < |pool|
  {
    if slot == NIL then [] else WriteOrder(slot, pool[slot].(prev := prev))
  }

  function AllocAccesses(st: State): seq<Access>
    requires st.SlotOk(st.freeHead)
  {
    if st.freeHead != NIL then [PutFreeHead(st.pool[st.freeHead].next)] else [PutHwm(st.hwm + 1)]
  }

  ghost function PlaceAccesses(st: State, slot: nat, t: nat, o: Order): seq<Access>
    requires slot < |st.pool| && (o.prev == NIL || o.prev < |st.pool|) && t < |st.Lane(o.side)|
  {
    WriteOrder(slot, o)
    + WriteLevel(o.side, t, PushedLevel(st.Lane(o.side)[t], slot, o.qty))
    + WriteNext(st.pool[slot := o], o.prev, slot)
    + [PutIndex(st.ids[o.id := slot])]
    + MoveBest(o.side, st.Best(o.side), BetterBest(o.side, st.Best(o.side), t))
  }

  ghost function UnlinkAccesses(st: State, slot: nat, side: Side, t: nat, rem: int): seq<Access>
    requires Linkable(st.pool, slot) && t < |st.Lane(side)|
  {
    var o := st.pool[slot];
    var p1 := if o.prev != NIL then st.pool[o.prev := st.pool[o.prev].(next := o.next)] else st.pool;
    WriteNext(st.pool, o.prev, o.next)
    + WritePrev(p1, o.next, o.prev)
    + WriteLevel(side, t, UnlinkedLevel(st.Lane(side)[t], slot, o.prev, o.next, rem))
  }

  ghost function DepartAccesses(st: State, slot: nat, side: Side, t: nat, rem: int): seq<Access>
    requires Linkable(st.pool, slot) && t < |st.Lane(side)|
  {
    var s1 := Unlink(st, slot, side, t, rem);
    UnlinkAccesses(st, slot, side, t, rem)
    + WriteOrder(slot, FreedOrder(s1.pool[slot], st.freeHead))
    + [PutFreeHead(slot)]
    + MoveBest(side, st.Best(side), RepairedBest(side, s1.Lane(side), st.Best(side), t))
  }

  ghost function Accesses(st: State, op: Op): seq<Access>
    requires Legal(st, op)
  {
    match op
    case OpInsert(id, price, qty, side) =>
      var t := TickOf(st.priceMin, st.tick, price);
      AllocAccesses(st)
      + PlaceAccesses(AfterAlloc(st), AllocSlot(st), t, Order(id, price, qty, 0, NIL, st.Lane(side)[t].tail, side))
    case OpUpdate(id, fillQty) =>
      var slot := st.ids[id];
      var o := st.pool[slot];
      var t, add := TickOf(st.priceMin, st.tick, o.price), Min(fillQty, o.Remaining());
      WriteOrder(slot, o.(filled := o.filled + add))
      + WriteLevel(o.side, t, Debited(st.Lane(o.side)[t], add))
    case OpCancel(id) =>
      var o := st.pool[st.ids[id]];
      [PutIndex(st.ids - {id})]
      + DepartAccesses(st.(ids := st.ids - {id}), st.ids[id], o.side, TickOf(st.priceMin, st.tick, o.price), o.Remaining())
    case OpFill(id) =>
      var slot := st.ids[id];
      var o := st.pool[slot];
      [PutIndex(st.ids - {id})]
      + WriteOrder(slot, o.(filled := o.qty))
      + DepartAccesses(st.(ids := st.ids - {id}).SetOrder(slot, o.(filled := o.qty)), slot, o.side,
                       TickOf(st.priceMin, st.tick, o.price), o.Remaining())
  }

  // ---------- together they are the operation ----------

  /** `xs` can be made one after the other and lead to `end`. */
  ghost predicate Leads(st: State, xs: seq<Access>, end: State) {
    FitAll(st, xs) && AfterAll(st, xs) == end
  }

  lemma {:induction false} LeadsOn(st: State, xs: seq<Access>, mid: State, ys: seq<Access>, end: State)
    requires Leads(st, xs, mid) && Leads(mid, ys, end)
    ensures Leads(st, xs + ys, end)
    decreases |xs|
  {
    if xs == [] {
      assert xs + ys == ys;
    } else {
      assert (xs + ys)[0] == xs[0] && (xs + ys)[1..] == xs[1..] + ys;
      LeadsOn(After(st, xs[0]), xs[1..], mid, ys, end);
    }
  }

  lemma OneLeads(st: State, a: Access)
    requires Fits(st, a)
    ensures Leads(st, [a], After(st, a))
  {
    assert [a][1..] == [];
  }

  lemma WriteOrderLeads(st: State, slot: nat, o: Order)
    requires slot < |st.pool|
    ensures Leads(st, WriteOrder(slot, o), st.SetOrder(slot, o))
  {
    OneLeads(st, OwnOrder(slot));
    OneLeads(st, PutOrder(slot, o));
    LeadsOn(st, [OwnOrder(slot)], st, [PutOrder(slot, o)], st.SetOrder(slot, o));
    assert [OwnOrder(slot)] + [PutOrder(slot, o)] == WriteOrder(slot, o);
  }

  lemma WriteLevelLeads(st: State, side: Side, t: nat, l: Level)
    requires t < |st.Lane(side)|
    ensures Leads(st, WriteLevel(side, t, l), st.SetLevel(side, t, l))
  {
    OneLeads(st, OwnLevel(side, t));
    OneLeads(st, PutLevel(side, t, l));
    LeadsOn(st, [OwnLevel(side, t)], st, [PutLevel(side, t, l)], st.SetLevel(side, t, l));
    assert [OwnLevel(side, t)] + [PutLevel(side, t, l)] == WriteLevel(side, t, l);
  }

  lemma MoveBestLeads(st: State, side: Side, best: int)
    ensures Leads(st, MoveBest(side, st.Best(side), best), st.SetBest(side, best))
  {
    if best != st.Best(side) { OneLeads(st, PutBest(side, best)); }
  }

  lemma WriteNextLeads(st: State, slot: nat, next: nat)
    requires slot == NIL || slot < |st.pool|
    ensures Leads(st, WriteNext(st.pool, slot, next),
                  if slot == NIL then st else st.SetOrder(slot, st.pool[slot].(next := next)))
  {
    if slot != NIL { WriteOrderLeads(st, slot, st.pool[slot].(next := next)); }
  }

  lemma WritePrevLeads(st: State, slot: nat, prev: nat)
    requires slot == NIL || slot < |st.pool|
    ensures Leads(st, WritePrev(st.pool, slot, prev),
                  if slot == NIL then st else st.SetOrder(slot, st.pool[slot].(prev := prev)))
  {
    if slot != NIL { WriteOrderLeads(st, slot, st.pool[slot].(prev := prev)); }
  }

  lemma PlaceLeads(st: State, slot: nat, t: nat, o: Order)
    requires slot < |st.pool| && (o.prev == NIL || o.prev < |st.pool|) && t < |st.Lane(o.side)|
    ensures Leads(st, PlaceAccesses(st, slot, t, o), Place(st, slot, t, o))
  {
    var l := PushedLevel(st.Lane(o.side)[t], slot, o.qty);
    var s1 := st.SetOrder(slot, o);
    var s2 := s1.SetLevel(o.side, t, l);
    var s3 := if o.prev == NIL then s2 else s2.SetOrder(o.prev, s2.pool[o.prev].(next := slot));
    var s4 := s3.(ids := st.ids[o.id := slot]);
    var a1, a2, a3 := WriteOrder(slot, o), WriteLevel(o.side, t, l), WriteNext(st.pool[slot := o], o.prev, slot);
    WriteOrderLeads(st, slot, o);
    WriteLevelLeads(s1, o.side, t, l);
    LeadsOn(st, a1, s1, a2, s2);
    WriteNextLeads(s2, o.prev, slot);
    LeadsOn(st, a1 + a2, s2, a3, s3);
    OneLeads(s3, PutIndex(st.ids[o.id := slot]));
    LeadsOn(st, a1 + a2 + a3, s3, [PutIndex(st.ids[o.id := slot])], s4);
    var best := BetterBest(o.side, st.Best(o.side), t);
    MoveBestLeads(s4, o.side, best);
    LeadsOn(st, a1 + a2 + a3 + [PutIndex(st.ids[o.id := slot])], s4, MoveBest(o.side, st.Best(o.side), best), s4.SetBest(o.side, best));
  }

  lemma UnlinkLeads(st: State, slot: nat, side: Side, t: nat, rem: int)
    requires Linkable(st.pool, slot) && t < |st.Lane(side)|
    ensures Leads(st, UnlinkAccesses(st, slot, side, t, rem), Unlink(st, slot, side, t, rem))
  {
    var o := st.pool[slot];
    var l := UnlinkedLevel(st.Lane(side)[t], slot, o.prev, o.next, rem);
    var s1 := if o.prev == NIL then st else st.SetOrder(o.prev, st.pool[o.prev].(next := o.next));
    var s2 := if o.next == NIL then s1 else s1.SetOrder(o.next, s1.pool[o.next].(prev := o.prev));
    WriteNextLeads(st, o.prev, o.next);
    WritePrevLeads(s1, o.next, o.prev);
    LeadsOn(st, WriteNext(st.pool, o.prev, o.next), s1, WritePrev(s1.pool, o.next, o.prev), s2);
    WriteLevelLeads(s2, side, t, l);
    LeadsOn(st, WriteNext(st.pool, o.prev, o.next) + WritePrev(s1.pool, o.next, o.prev), s2,
            WriteLevel(side, t, l), s2.SetLevel(side, t, l));
  }

  lemma FreeLeads(st: State, slot: nat)
    requires slot < |st.pool|
    ensures Leads(st, WriteOrder(slot, FreedOrder(st.pool[slot], st.freeHead)) + [PutFreeHead(slot)], FreeSlot(st, slot))
  {
    var o := FreedOrder(st.pool[slot], st.freeHead);
    WriteOrderLeads(st, slot, o);
    OneLeads(st.SetOrder(slot, o), PutFreeHead(slot));
    LeadsOn(st, WriteOrder(slot, o), st.SetOrder(slot, o), [PutFreeHead(slot)], FreeSlot(st, slot));
  }

  lemma DepartLeads(st: State, slot: nat, side: Side, t: nat, rem: int)
    requires Linkable(st.pool, slot) && t < |st.Lane(side)|
    ensures Leads(st, DepartAccesses(st, slot, side, t, rem), Depart(st, slot, side, t, rem))
  {
    var s1 := Unlink(st, slot, side, t, rem);
    var s2 := FreeSlot(s1, slot);
    var a1 := UnlinkAccesses(st, slot, side, t, rem);
    var a2 := WriteOrder(slot, FreedOrder(s1.pool[slot], st.freeHead));
    var best := RepairedBest(side, s1.Lane(side), st.Best(side), t);
    UnlinkLeads(st, slot, side, t, rem);
    FreeLeads(s1, slot);
    LeadsOn(st, a1, s1, a2 + [PutFreeHead(slot)], s2);
    assert a1 + (a2 + [PutFreeHead(slot)]) == a1 + a2 + [PutFreeHead(slot)];
    MoveBestLeads(s2, side, best);
    LeadsOn(st, a1 + a2 + [PutFreeHead(slot)], s2, MoveBest(side, st.Best(side), best), s2.SetBest(side, best));
  }

  lemma InsertLeads(st: State, id: int, price: int, qty: int, side: Side)
    requires InsertOk(st, id, price) && st.CanAlloc()
    ensures Leads(st, Accesses(st, OpInsert(id, price, qty, side)), Insert(st, id, price, qty, side))
  {
    var t := TickOf(st.priceMin, st.tick, price);
    var o := Order(id, price, qty, 0, NIL, st.Lane(side)[t].tail, side);
    var s1 := AfterAlloc(st);
    OneLeads(st, AllocAccesses(st)[0]);
    assert AllocAccesses(st) == [AllocAccesses(st)[0]];
    PlaceLeads(s1, AllocSlot(st), t, o);
    LeadsOn(st, AllocAccesses(st), s1, PlaceAccesses(s1, AllocSlot(st), t, o), Insert(st, id, price, qty, side));
  }

  lemma UpdateLeads(st: State, id: int, fillQty: int)
    requires Addresses(st, id)
    ensures Leads(st, Accesses(st, OpUpdate(id, fillQty)), Update(st, id, fillQty))
  {
    var slot := st.ids[id];
    var o := st.pool[slot];
    var t, add := TickOf(st.priceMin, st.tick, o.price), Min(fillQty, o.Remaining());
    var o' := o.(filled := o.filled + add);
    var l := Debited(st.Lane(o.side)[t], add);
    WriteOrderLeads(st, slot, o');
    WriteLevelLeads(st.SetOrder(slot, o'), o.side, t, l);
    LeadsOn(st, WriteOrder(slot, o'), st.SetOrder(slot, o'), WriteLevel(o.side, t, l), Update(st, id, fillQty));
  }

  lemma CancelLeads(st: State, id: int)
    requires Addresses(st, id)
    ensures Leads(st, Accesses(st, OpCancel(id)), Cancel(st, id))
  {
    var o := st.pool[st.ids[id]];
    var s1 := st.(ids := st.ids - {id});
    var t := TickOf(st.priceMin, st.tick, o.price);
    OneLeads(st, PutIndex(s1.ids));
    DepartLeads(s1, st.ids[id], o.side, t, o.Remaining());
    LeadsOn(st, [PutIndex(s1.ids)], s1, DepartAccesses(s1, st.ids[id], o.side, t, o.Remaining()), Cancel(st, id));
  }

  lemma FillLeads(st: State, id: int)
    requires Addresses(st, id)
    ensures Leads(st, Accesses(st, OpFill(id)), Fill(st, id))
  {
    var slot := st.ids[id];
    var o := st.pool[slot];
    var s1 := st.(ids := st.ids - {id});
    var s2 := s1.SetOrder(slot, o.(filled := o.qty));
    var t := TickOf(st.priceMin, st.tick, o.price);
    OneLeads(st, PutIndex(s1.ids));
    WriteOrderLeads(s1, slot, o.(filled := o.qty));
    LeadsOn(st, [PutIndex(s1.ids)], s1, WriteOrder(slot, o.(filled := o.qty)), s2);
    DepartLeads(s2, slot, o.side, t, o.Remaining());
    LeadsOn(st, [PutIndex(s1.ids)] + WriteOrder(slot, o.(filled := o.qty)), s2,
            DepartAccesses(s2, slot, o.side, t, o.Remaining()), Fill(st, id));
  }

  /** The accesses of an operation, made one after the other, are the operation. */
  lemma AccessesAre(st: State, op: Op)
    requires Legal(st, op)
    ensures Leads(st, Accesses(st, op), Apply(st, op))
  {
    match op
    case OpInsert(id, price, qty, side) => InsertLeads(st, id, price, qty, side);
    case OpUpdate(id, fillQty) => UpdateLeads(st, id, fillQty);
    case OpCancel(id) => CancelLeads(st, id);
    case OpFill(id) => FillLeads(st, id);
  }

  /** The accesses of a run. */
  ghost function RunAccesses(st: State, ops: seq<Op>): seq<Access>
    requires LegalRun(st, ops)
    decreases |ops|
  {
    if ops == [] then [] else Accesses(st, ops[0]) + RunAccesses(Apply(st, ops[0]), ops[1..])
  }

  lemma {:induction false} RunAccessesAre(st: State, ops: seq<Op>)
    requires LegalRun(st, ops)
    ensures Leads(st, RunAccesses(st, ops), Run(st, ops))
    decreases |ops|
  {
    if ops != [] {
      var s1 := Apply(st, ops[0]);
      AccessesAre(st, ops[0]);
      RunAccessesAre(s1, ops[1..]);
      LeadsOn(st, Accesses(st, ops[0]), s1, RunAccesses(s1, ops[1..]), Run(st, ops));
    }
  }
}
