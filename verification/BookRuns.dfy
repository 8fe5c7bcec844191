/** Whole runs of the book: the invariant over every operation stream, the
    uniqueness of the view, and what the allocator promises over a run.
 */
module BookRuns {
  import opened BookSpec
  import opened BookInvariant
  import opened InsertKeeps
  import opened DepartKeeps

  function NextView(st: State, v: View, op: Op): View
    requires Inv(st, v) && Legal(st, op)
  {
    match op
    case OpInsert(_, price, _, side) => InsertView(st, v, TickOf(st.priceMin, st.tick, price), side)
    case OpUpdate(_, _) => v
    case OpCancel(id) => LeftView(st, v, id)
    case OpFill(id) => LeftView(st, v, id)
  }

  function LeftView(st: State, v: View, id: int): View
    requires Inv(st, v) && Addresses(st, id)
  {
    SlotHome(st, v, st.ids[id]);
    var o := st.pool[st.ids[id]];
    DepartView(v, o.side, TickOf(st.priceMin, st.tick, o.price), st.ids[id])
  }

  /** Both departures of a live id are well-defined and keep the invariant. */
  lemma DepartInv(st: State, v: View, id: int)
    requires Inv(st, v) && id in st.ids
    ensures Addresses(st, id)
    ensures Inv(Cancel(st, id), LeftView(st, v, id)) && Inv(Fill(st, id), LeftView(st, v, id))
  {
    InvBounded(st, v);
    CancelIsLeft(st, id);
    LeftInv(st, v, id, st.pool[st.ids[id]].filled);
    LeftInv(st, v, id, st.pool[st.ids[id]].qty);
  }

  /** The view after a departure, with the invariant it satisfies. */
  lemma Departing(st: State, v: View, id: int, fill: bool) returns (v': View)
    requires Inv(st, v) && id in st.ids
    ensures Addresses(st, id)
    ensures Inv(if fill then Fill(st, id) else Cancel(st, id), v')
  {
    DepartInv(st, v, id);
    v' := LeftView(st, v, id);
  }

  /** The view after an insert that finds a slot, with the invariant it satisfies. */
  lemma Inserting(st: State, v: View, id: int, price: int, qty: int, side: Side) returns (v': View)
    requires Inv(st, v) && InsertOk(st, id, price)
    ensures !st.CanAlloc() ==> v' == v
    ensures st.CanAlloc() ==>
      && AllocSlot(st) < |st.pool|
      && st.Lane(side)[TickOf(st.priceMin, st.tick, price)].tail != AllocSlot(st)
      && Inv(Insert(st, id, price, qty, side), v')
  {
    v' := v;
    if st.CanAlloc() {
      InsertEffects(st, v, id, price, qty, side);
      InsertInv(st, v, id, price, qty, side);
      v' := InsertView(st, v, TickOf(st.priceMin, st.tick, price), side);
    }
  }

  lemma UpdateKeeps(st: State, v: View, id: int, fillQty: int)
    requires Inv(st, v) && id in st.ids
    ensures Addresses(st, id) && Inv(Update(st, id, fillQty), v)
  {
    InvBounded(st, v);
    UpdateInv(st, v, id, fillQty);
  }

  /** What the source asks of its callers; an unknown id or a full pool panics instead. */
  ghost predicate InDomain(st: State, op: Op)
    requires st.tick > 0
  {
    op.OpInsert? ==> op.id != 0 && op.id !in st.ids && TickOf(st.priceMin, st.tick, op.price) < st.nLevels
  }

  predicate Panics(st: State, op: Op) {
    if op.OpInsert? then !st.CanAlloc() else op.id !in st.ids
  }

  lemma LegalIff(st: State, v: View, op: Op)
    requires Inv(st, v)
    ensures Legal(st, op) <==> InDomain(st, op) && !Panics(st, op)
  {
    InvBounded(st, v);
  }

  /** Every operation keeps the full book invariant. */
  lemma ApplyInv(st: State, v: View, op: Op)
    requires Inv(st, v) && Legal(st, op)
    ensures Inv(Apply(st, op), NextView(st, v, op))
  {
    match op
    case OpInsert(id, price, qty, side) => InsertInv(st, v, id, price, qty, side);
    case OpUpdate(id, fillQty) => UpdateInv(st, v, id, fillQty);
    case OpCancel(id) => DepartInv(st, v, id);
    case OpFill(id) => DepartInv(st, v, id);
  }

  lemma ApplyUntouched(st: State, v: View, blank: Order, op: Op)
    requires Inv(st, v) && Legal(st, op) && Untouched(st, blank)
    ensures Untouched(Apply(st, op), blank)
  {
    match op
    case OpInsert(id, price, qty, side) => InsertUntouched(st, v, blank, id, price, qty, side);
    case OpUpdate(id, fillQty) => UpdateUntouched(st, blank, id, fillQty);
    case OpCancel(id) => CancelIsLeft(st, id); LeftUntouched(st, v, blank, id, st.pool[st.ids[id]].filled);
    case OpFill(id) => CancelIsLeft(st, id); LeftUntouched(st, v, blank, id, st.pool[st.ids[id]].qty);
  }

  /** No operation changes the configuration. */
  lemma ApplyShape(st: State, op: Op)
    requires Legal(st, op)
    ensures var st' := Apply(st, op);
            st'.nLevels == st.nLevels && |st'.pool| == |st.pool| && st'.tick == st.tick && st'.priceMin == st.priceMin
  {
  }

  /** ... and so does every run. */
  lemma {:induction false} RunInv(st: State, v: View, blank: Order, ops: seq<Op>) returns (v': View)
    requires Inv(st, v) && Untouched(st, blank) && LegalRun(st, ops)
    ensures Inv(Run(st, ops), v') && Untouched(Run(st, ops), blank)
    ensures Run(st, ops).nLevels == st.nLevels && |Run(st, ops).pool| == |st.pool|
    decreases |ops|
  {
    if ops == [] {
      v' := v;
    } else {
      ApplyInv(st, v, ops[0]);
      ApplyUntouched(st, v, blank, ops[0]);
      ApplyShape(st, ops[0]);
      v' := RunInv(Apply(st, ops[0]), NextView(st, v, ops[0]), blank, ops[1..]);
    }
  }

  /** Reachable from the empty book by operations in the domain that do not panic. */
  ghost predicate Reachable(cfg: Config, st: State)
    requires cfg.Valid()
  {
    exists ops :: LegalRun(Empty(cfg), ops) && st == Run(Empty(cfg), ops)
  }

  /** Everything a reachable book satisfies. */
  lemma ReachableKeeps(cfg: Config, st: State) returns (v: View)
    requires cfg.Valid() && Reachable(cfg, st)
    ensures Inv(st, v) && Untouched(st, cfg.blank)
    ensures st.nLevels == cfg.levels && |st.pool| == cfg.cap
  {
    var ops :| LegalRun(Empty(cfg), ops) && st == Run(Empty(cfg), ops);
    EmptyInv(cfg);
    v := RunInv(Empty(cfg), View(seq(cfg.levels, _ => []), seq(cfg.levels, _ => []), []), cfg.blank, ops);
  }

  // ---------- the view is a function of the state ----------

  lemma {:induction false} QueueUnique(pool: seq<Order>, q1: seq<nat>, q2: seq<nat>, i: nat)
    requires Linked(pool, q1) && Linked(pool, q2) && |q1| == |q2| && HeadOf(q1) == HeadOf(q2) && i < |q1|
    ensures q1[i] == q2[i]
  {
    if i > 0 {
      QueueUnique(pool, q1, q2, i - 1);
      assert LinkAt(pool, q1, i - 1) && LinkAt(pool, q2, i - 1);
    }
  }

  lemma {:induction false} FreeUnique(st: State, f1: seq<nat>, f2: seq<nat>, i: nat)
    requires |st.pool| <= NIL && FreeOk(st, f1) && FreeOk(st, f2) && i < |f1|
    ensures i < |f2| && f1[i] == f2[i]
  {
    if i > 0 {
      FreeUnique(st, f1, f2, i - 1);
      assert FreeLinkAt(st.pool, f1, i - 1) && FreeLinkAt(st.pool, f2, i - 1);
    }
  }

  lemma ViewUnique(st: State, v1: View, v2: View)
    requires Inv(st, v1) && Inv(st, v2)
    ensures v1 == v2
  {
    forall side: Side, t | 0 <= t < st.nLevels ensures v1.Lane(side)[t] == v2.Lane(side)[t] {
      var q1, q2 := v1.Lane(side)[t], v2.Lane(side)[t];
      assert LevelOk(st, side, t, st.Lane(side)[t], q1) && LevelOk(st, side, t, st.Lane(side)[t], q2);
      forall i | 0 <= i < |q1| ensures q1[i] == q2[i] { QueueUnique(st.pool, q1, q2, i); }
    }
    assert v1.Lane(0) == v2.Lane(0) && v1.Lane(1) == v2.Lane(1);
    if |v1.free| > |v2.free| { FreeUnique(st, v1.free, v2.free, |v2.free|); }
    if |v2.free| > |v1.free| { FreeUnique(st, v2.free, v1.free, |v1.free|); }
    forall i | 0 <= i < |v1.free| ensures v1.free[i] == v2.free[i] { FreeUnique(st, v1.free, v2.free, i); }
  }

  // ---------- the allocator ----------

  /** Live orders and free slots together are the allocated slots. */
  ghost predicate Counted(st: State, v: View) {
    |st.ids| + |v.free| == st.hwm
  }

  lemma {:induction false} ListCount(q: seq<nat>, elems: set<nat>)
    requires NoDup(q) && forall s :: s in elems <==> s in q
    ensures |elems| == |q|
  {
    if q != [] {
      var n := |q| - 1;
      assert forall s :: s in q <==> s in q[..n] || s == q[n];
      ListCount(q[..n], elems - {q[n]});
    } else {
      assert elems == {};
    }
  }

  lemma {:induction false} BelowCount(n: nat, below: set<nat>)
    requires forall s: nat :: s in below <==> s < n
    ensures |below| == n
  {
    if n > 0 {
      BelowCount(n - 1, below - {n - 1});
    } else {
      assert below == {};
    }
  }

  /** An index with distinct slots has as many slots as ids. */
  lemma {:induction false} IndexCount(ids: map<int, nat>, slots: set<nat>)
    requires forall k :: k in ids ==> ids[k] in slots
    requires forall s :: s in slots ==> exists k :: k in ids && ids[k] == s
    requires forall a, b :: a in ids && b in ids && ids[a] == ids[b] ==> a == b
    ensures |slots| == |ids|
  {
    if s :| s in slots {
      var k :| k in ids && ids[k] == s;
      var rest := ids - {k};
      assert ids.Keys == rest.Keys + {k};
      forall x | x in slots - {s} ensures exists y :: y in rest && rest[y] == x {
        var y :| y in ids && ids[y] == x;
        assert y in rest;
      }
      IndexCount(rest, slots - {s});
    } else {
      assert forall k :: k !in ids;
      assert ids == map[];
    }
  }

  /** The slots that hold live orders. */
  ghost function LiveSlots(st: State): set<nat> {
    set k | k in st.ids :: st.ids[k]
  }

  lemma LiveCount(st: State)
    requires IndexOk(st)
    ensures |LiveSlots(st)| == |st.ids|
  {
    IndexCount(st.ids, LiveSlots(st));
  }

  /** The allocated slots split into the indexed ones and the free ones. */
  lemma Partition(st: State, v: View, s: nat)
    requires Inv(st, v)
    ensures s < st.hwm <==> s in LiveSlots(st) || s in v.free
    ensures !(s in LiveSlots(st) && s in v.free)
  {
    if s < st.hwm {
      assert HasHome(st, v, s);
      if st.pool[s].id != 0 { assert st.ids[st.pool[s].id] == s; }
    }
  }

  ghost function FreeSlots(v: View): set<nat> {
    set s | s in v.free
  }

  lemma SlotSets(st: State, v: View, all: set<nat>)
    requires Inv(st, v) && all == LiveSlots(st) + FreeSlots(v)
    ensures (forall s: nat :: s in all <==> s < st.hwm) && LiveSlots(st) !! FreeSlots(v)
  {
    forall s: nat ensures s in all <==> s < st.hwm { Partition(st, v, s); }
    forall s | s in LiveSlots(st) ensures s !in FreeSlots(v) { Partition(st, v, s); }
  }

  lemma InvCounted(st: State, v: View)
    requires Inv(st, v)
    ensures Counted(st, v)
  {
    var all := LiveSlots(st) + FreeSlots(v);
    SlotSets(st, v, all);
    BelowCount(st.hwm, all);
    LiveCount(st);
    ListCount(v.free, FreeSlots(v));
  }

  lemma ApplyCounted(st: State, v: View, op: Op)
    requires Inv(st, v) && Legal(st, op)
    ensures Apply(st, op).hwm == (if |Apply(st, op).ids| > st.hwm then |Apply(st, op).ids| else st.hwm)
  {
    InvCounted(st, v);
    match op
    case OpInsert(id, price, qty, side) =>
      AllocFresh(st, v);
      InsertInv(st, v, id, price, qty, side);
      InsertWritesIds(st, v, id, price, qty, side);
    case OpUpdate(id, fillQty) => UpdateWrites(st, id, fillQty);
    case OpCancel(id) => CancelIsLeft(st, id); LeftWritesIds(st, v, id, st.pool[st.ids[id]].filled);
    case OpFill(id) => CancelIsLeft(st, id); LeftWritesIds(st, v, id, st.pool[st.ids[id]].qty);
  }

  lemma InsertWritesIds(st: State, v: View, id: int, price: int, qty: int, side: Side)
    requires Inv(st, v) && InsertOk(st, id, price) && st.CanAlloc()
    ensures var st' := Insert(st, id, price, qty, side);
            st'.ids == st.ids[id := AllocSlot(st)] && st'.hwm == if v.free == [] then st.hwm + 1 else st.hwm
  {
    InsertEffects(st, v, id, price, qty, side);
  }

  lemma LeftWritesIds(st: State, v: View, id: int, f: int)
    requires Inv(st, v) && Addresses(st, id)
    ensures Left(st, id, f).ids == st.ids - {id} && Left(st, id, f).hwm == st.hwm
    ensures |Left(st, id, f).ids| == |st.ids| - 1
  {
    var slot := st.ids[id];
    var o := st.pool[slot];
    var t := TickOf(st.priceMin, st.tick, o.price);
    SlotHome(st, v, slot);
    NeighboursRest(st, o.side, t, st.Lane(o.side)[t], v.Lane(o.side)[t], slot);
    LeftWrites(st, id, f);
    assert (st.ids - {id}).Keys == st.ids.Keys - {id};
  }

  /** Allocation fails exactly when as many orders rest as the pool has slots;
      otherwise it hands out the most recently freed slot, or bumps when none is free. */
  lemma AllocExact(st: State, v: View)
    requires Inv(st, v)
    ensures st.CanAlloc() <==> |st.ids| < |st.pool|
    ensures AllocSlot(st) == if v.free == [] then st.hwm else v.free[0]
  {
    InvCounted(st, v);
  }

  /** A slot freed by `op` is the very next one handed out. */
  lemma FreedFirst(st: State, v: View, op: Op)
    requires Inv(st, v) && Legal(st, op) && (op.OpCancel? || op.OpFill?)
    ensures AllocSlot(Apply(st, op)) == st.ids[op.id]
    ensures NextView(st, v, op).free == [st.ids[op.id]] + v.free
  {
    ApplyInv(st, v, op);
  }

  /** The largest number of orders ever resting at once along a run. */
  ghost function PeakLive(st: State, ops: seq<Op>): nat
    requires LegalRun(st, ops)
    decreases |ops|
  {
    if ops == [] then |st.ids|
    else
      var rest := PeakLive(Apply(st, ops[0]), ops[1..]);
      if rest > |st.ids| then rest else |st.ids|
  }

  lemma {:induction false} HwmIsPeak(st: State, v: View, ops: seq<Op>)
    requires Inv(st, v) && LegalRun(st, ops)
    ensures Run(st, ops).hwm == if PeakLive(st, ops) > st.hwm then PeakLive(st, ops) else st.hwm
    decreases |ops|
  {
    InvCounted(st, v);
    if ops != [] {
      ApplyInv(st, v, ops[0]);
      ApplyCounted(st, v, ops[0]);
      HwmIsPeak(Apply(st, ops[0]), NextView(st, v, ops[0]), ops[1..]);
    }
  }

  /** From an empty book the high-water mark is exactly the peak number of live orders. */
  lemma HwmFromEmpty(cfg: Config, ops: seq<Op>)
    requires cfg.Valid() && LegalRun(Empty(cfg), ops)
    ensures Run(Empty(cfg), ops).hwm == PeakLive(Empty(cfg), ops)
  {
    EmptyInv(cfg);
    HwmIsPeak(Empty(cfg), View(seq(cfg.levels, _ => []), seq(cfg.levels, _ => []), []), ops);
  }
}
