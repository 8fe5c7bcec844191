/** The churn driver: a stream of inserts and departures drawn from an arbitrary
    random stream, and what it promises the book it drives.
 */
module Churn {
  import opened Arith
  import opened BookSpec
  import opened BookInvariant
  import opened BookRuns
  import opened RustBook

  ghost predicate NoDuplicates(s: seq<int>) {
    forall a, b :: 0 <= a < b < |s| ==> s[a] != s[b]
  }

  /** `Vec::swap_remove`: the last element takes the place of element `v`. */
  function SwapRemove(s: seq<int>, v: nat): seq<int>
    requires v < |s|
  {
    s[v := s[|s| - 1]][..|s| - 1]
  }

  /** It removes exactly the element at `v`. */
  lemma SwapRemoves(s: seq<int>, v: nat)
    requires v < |s| && NoDuplicates(s)
    ensures NoDuplicates(SwapRemove(s, v))
    ensures forall x :: x in SwapRemove(s, v) <==> x in s && x != s[v]
  {
    var s', n := SwapRemove(s, v), |s| - 1;
    forall x | x in s && x != s[v] ensures x in s' {
      var k :| 0 <= k < |s| && s[k] == x;
      assert s'[if k == n then v else k] == x;
    }
  }

  lemma Appends(s: seq<int>, x: int)
    requires NoDuplicates(s) && x !in s
    ensures NoDuplicates(s + [x])
  {
  }

  /** A level's own price maps back to the level. */
  lemma LadderPrice(priceMin: int, tick: int, t: nat)
    requires tick > 0 && t < WORD32
    ensures TickOf(priceMin, tick, priceMin + t * tick) == t
  {
    DivModIs(t * tick, tick, t, 0);
    SmallMod(t, WORD32);
  }

  class Churn {
    const draws: nat -> nat
    const otrBps: nat
    const levels: nat
    const tick: int
    const priceMin: int
    var pos: nat
    var live: seq<int>
    var i: nat

    constructor (cfg: Config, otrBps: nat, draws: nat -> nat)
      requires cfg.Valid()
      ensures Valid() && i == 0 && live == [] && levels == cfg.levels && tick == cfg.tick && priceMin == cfg.priceMin
      ensures pos == 0 && this.draws == draws && this.otrBps == otrBps
    {
      this.draws, this.otrBps := draws, otrBps;
      levels, tick, priceMin := cfg.levels, cfg.tick, cfg.priceMin;
      pos, live, i := 0, [], 0;
    }

    ghost predicate Valid()
      reads this
    {
      && 0 < levels <= 65535 && tick > 0
      && NoDuplicates(live) && forall x :: x in live ==> 0 < x <= i
    }

    method Draw() returns (u: nat)
      modifies `pos
      ensures u == draws(old(pos)) && pos == old(pos) + 1
    {
      u := draws(pos);
      pos := pos + 1;
    }

    /** The insert that the two draws from `at` on give: level and side from the first, quantity from the second. */
    ghost predicate Inserts(op: Op, id: int, at: nat)
      requires levels > 0
    {
      op == OpInsert(id, priceMin + (draws(at) % levels) * tick, 1 + draws(at + 1) % 1000, (draws(at) / 0x1_0000_0000) % 2)
    }

    /** The departure that they give: the victim from the first, fill or cancel from the second. */
    ghost predicate Departs(op: Op, ids: seq<int>, at: nat)
      requires ids != []
    {
      op == if draws(at + 1) % 10_000 < otrBps then OpFill(ids[draws(at) % |ids|]) else OpCancel(ids[draws(at) % |ids|])
    }

    /** An insert with a fresh id and a price on the ladder. */
    method InsertOp() returns (op: Op)
      requires Valid()
      modifies this
      ensures Valid() && i == old(i) + 1 && op.OpInsert? && live == old(live) + [op.id]
      ensures op.id == i && op.id !in old(live) && op.qty >= 1
      ensures TickOf(priceMin, tick, op.price) < levels
      ensures Inserts(op, old(i) + 1, old(pos)) && pos == old(pos) + 2
    {
      var r1 := Draw();
      var r2 := Draw();
      var t := r1 % levels;
      var side: Side := (r1 / WORD32) % 2;
      LadderPrice(priceMin, tick, t);
      op := OpInsert(i + 1, priceMin + t * tick, 1 + r2 % 1000, side);
      Appends(live, i + 1);
      i := i + 1;
      live := live + [op.id];
    }

    /** Even index inserts, odd index departs; a departure always names a live id and retires it.
        Which op it is, the two next draws say. */
    method NextOp() returns (op: Op)
      requires Valid()
      modifies this
      ensures Valid() && i == old(i) + 1 && !op.OpUpdate?
      ensures op.OpInsert? == (old(i) % 2 == 0 || old(live) == [])
      ensures op.OpInsert? ==> live == old(live) + [op.id] && op.id == i && op.id !in old(live) && op.qty >= 1
      ensures op.OpInsert? ==> TickOf(priceMin, tick, op.price) < levels
      ensures !op.OpInsert? ==> op.id in old(live) && |live| == |old(live)| - 1
      ensures !op.OpInsert? ==> forall x :: x in live <==> x in old(live) && x != op.id
      ensures pos == old(pos) + 2
      ensures if old(i) % 2 == 0 || old(live) == [] then Inserts(op, old(i) + 1, old(pos)) else Departs(op, old(live), old(pos))
      ensures !op.OpInsert? ==>
                var v, n := draws(old(pos)) % |old(live)|, |old(live)| - 1;
                forall k :: 0 <= k < n ==> live[k] == old(live)[if k == v then n else k]
    {
      if i % 2 == 0 || live == [] {
        op := InsertOp();
        return;
      }
      i := i + 1;
      var d := Draw();
      var v := d % |live|;
      var id := live[v];
      var f := Draw();
      SwapRemoves(live, v);
      live := SwapRemove(live, v);
      op := if f % 10000 < otrBps then OpFill(id) else OpCancel(id);
    }
  }

  // ---------- driving a book ----------

  /** `live` lists exactly the indexed ids. */
  ghost predicate ListsIds(live: seq<int>, ids: map<int, nat>) {
    |live| == |ids| && forall x :: x in live <==> x in ids
  }

  /** The driver's live ids are exactly the resting orders. */
  ghost predicate Tracks(c: Churn, st: State)
    reads c
  {
    && c.Valid() && ListsIds(c.live, st.ids)
    && c.levels == st.nLevels && c.tick == st.tick && c.priceMin == st.priceMin
  }

  /** Inserts and departures alternate around the steady size. */
  ghost predicate Balanced(c: Churn, steady: nat)
    reads c
  {
    |c.live| == 2 * (steady / 2) + c.i % 2
  }

  lemma InsertIds(st: State, id: int, price: int, qty: int, side: Side)
    requires InsertOk(st, id, price) && st.CanAlloc()
    ensures Insert(st, id, price, qty, side).ids.Keys == st.ids.Keys + {id}
    ensures |Insert(st, id, price, qty, side).ids| == |st.ids| + 1
  {
    ApplyShape(st, OpInsert(id, price, qty, side));
    assert Insert(st, id, price, qty, side).ids == st.ids[id := AllocSlot(st)];
  }

  lemma LeaveIds(st: State, id: int)
    requires Addresses(st, id)
    ensures Cancel(st, id).ids.Keys == Fill(st, id).ids.Keys == st.ids.Keys - {id}
    ensures |Cancel(st, id).ids| == |Fill(st, id).ids| == |st.ids| - 1
  {
    assert Cancel(st, id).ids == Fill(st, id).ids == st.ids - {id};
    assert (st.ids - {id}).Keys == st.ids.Keys - {id};
  }

  ghost predicate SameShape(st: State, st': State) {
    st'.nLevels == st.nLevels && |st'.pool| == |st.pool| && st'.tick == st.tick && st'.priceMin == st.priceMin
  }

  /** `apply` of an insert: with a slot to spare the pool is never exhausted. */
  method ApplyInsert(b: Book, op: Op, ghost live: seq<int>) returns (ok: bool)
    requires b.Valid() && op.OpInsert? && ListsIds(live, b.model.ids) && op.id > 0 && op.id !in live && |live| < |b.model.pool|
    requires b.model.tick > 0 && TickOf(b.model.priceMin, b.model.tick, op.price) < b.model.nLevels
    modifies b, b.flat, b.flat.bids, b.flat.asks, b.flat.pool
    ensures ok && b.Valid() && SameShape(old(b.model), b.model) && ListsIds(live + [op.id], b.model.ids)
    ensures Legal(old(b.model), op) && b.model == Apply(old(b.model), op)
  {
    InvBounded(b.model, b.view);
    AllocExact(b.model, b.view);
    InsertIds(b.model, op.id, op.price, op.qty, op.side);
    ApplyShape(b.model, op);
    ok := b.Insert(op.id, op.price, op.qty, op.side);
  }

  /** `apply` of a departure: a live id always hits. */
  method ApplyLeave(b: Book, op: Op, ghost live: seq<int>, ghost live': seq<int>) returns (ok: bool)
    requires b.Valid() && (op.OpCancel? || op.OpFill?) && ListsIds(live, b.model.ids) && op.id in live
    requires |live'| == |live| - 1 && forall x :: x in live' <==> x in live && x != op.id
    modifies b, b.flat, b.flat.bids, b.flat.asks, b.flat.pool
    ensures ok && b.Valid() && SameShape(old(b.model), b.model) && ListsIds(live', b.model.ids)
    ensures Legal(old(b.model), op) && b.model == Apply(old(b.model), op)
  {
    InvBounded(b.model, b.view);
    LeaveIds(b.model, op.id);
    ApplyShape(b.model, op);
    if op.OpFill? { ok := b.Fill(op.id); } else { ok := b.Cancel(op.id); }
  }

  /** `live'` is `live` after `op`, which the book described by `st` can take. */
  ghost predicate Follows(op: Op, live: seq<int>, live': seq<int>, st: State) {
    match op
    case OpInsert(id, price, _, _) =>
      live' == live + [id] && id > 0 && id !in live && |live| < |st.pool|
      && st.tick > 0 && TickOf(st.priceMin, st.tick, price) < st.nLevels
    case OpUpdate(_, _) => false
    case OpCancel(id) => Retired(id, live, live')
    case OpFill(id) => Retired(id, live, live')
  }

  ghost predicate Retired(id: int, live: seq<int>, live': seq<int>) {
    id in live && |live'| == |live| - 1 && forall x :: x in live' <==> x in live && x != id
  }

  method ApplyOp(b: Book, op: Op, ghost live: seq<int>, ghost live': seq<int>) returns (ok: bool)
    requires b.Valid() && ListsIds(live, b.model.ids) && Follows(op, live, live', b.model)
    modifies b, b.flat, b.flat.bids, b.flat.asks, b.flat.pool
    ensures ok && b.Valid() && SameShape(old(b.model), b.model) && ListsIds(live', b.model.ids)
    ensures Legal(old(b.model), op) && b.model == Apply(old(b.model), op)
  {
    if op.OpInsert? { ok := ApplyInsert(b, op, live); } else { ok := ApplyLeave(b, op, live, live'); }
  }

  /** The op that the stream gives a driver about to draw at `at`, its `i`-th, with the ids `live`. */
  ghost predicate Given(c: Churn, op: Op, i: nat, live: seq<int>, at: nat)
    requires c.levels > 0
  {
    if i % 2 == 0 || live == [] then c.Inserts(op, i + 1, at) else c.Departs(op, live, at)
  }

  /** One op of the stream, generated and applied: the book takes exactly the op that the draws give. */
  method Advance(c: Churn, b: Book, steady: nat) returns (ok: bool, ghost op: Op)
    requires b.Valid() && Tracks(c, b.model) && Balanced(c, steady) && |b.model.pool| >= steady + 1
    modifies c, b, b.flat, b.flat.bids, b.flat.asks, b.flat.pool
    ensures ok && b.Valid() && Tracks(c, b.model) && Balanced(c, steady) && c.i == old(c.i) + 1
    ensures SameShape(old(b.model), b.model)
    ensures Given(c, op, old(c.i), old(c.live), old(c.pos)) && c.pos == old(c.pos) + 2
    ensures Legal(old(b.model), op) && b.model == Apply(old(b.model), op)
  {
    var next := Generate(c, b.model, steady);
    op := next;
    ok := ApplyOp(b, next, old(c.live), c.live);
  }

  /** The next op is one the tracked book can take. */
  method Generate(c: Churn, ghost st: State, steady: nat) returns (op: Op)
    requires Tracks(c, st) && Balanced(c, steady) && |st.pool| >= steady + 1
    modifies c
    ensures c.Valid() && Follows(op, old(c.live), c.live, st) && Balanced(c, steady) && c.i == old(c.i) + 1
    ensures Given(c, op, old(c.i), old(c.live), old(c.pos)) && c.pos == old(c.pos) + 2
  {
    op := c.NextOp();
  }

  // ---------- runs ----------

  /** A run and one more operation. */
  lemma {:induction false} RunMore(st: State, ops: seq<Op>, op: Op)
    requires LegalRun(st, ops) && Legal(Run(st, ops), op)
    ensures LegalRun(st, ops + [op]) && Run(st, ops + [op]) == Apply(Run(st, ops), op)
    decreases |ops|
  {
    if ops == [] {
      assert [] + [op] == [op] && [op][1..] == [];
    } else {
      assert (ops + [op])[0] == ops[0] && (ops + [op])[1..] == ops[1..] + [op];
      RunMore(Apply(st, ops[0]), ops[1..], op);
    }
  }

  /** `ops` took the book from `st` to `st'`. */
  ghost predicate Took(st: State, ops: seq<Op>, st': State) {
    LegalRun(st, ops) && Run(st, ops) == st'
  }

  /** One insert, generated and applied. */
  method PrebuildOne(c: Churn, b: Book, ghost start: State, ghost ops: seq<Op>) returns (ok: bool, ghost op: Op)
    requires b.Valid() && Tracks(c, b.model) && |c.live| < |b.model.pool| && Took(start, ops, b.model)
    modifies c, b, b.flat, b.flat.bids, b.flat.asks, b.flat.pool
    ensures ok && b.Valid() && Tracks(c, b.model) && SameShape(old(b.model), b.model)
    ensures c.i == old(c.i) + 1 && |c.live| == |old(c.live)| + 1 && c.pos == old(c.pos) + 2
    ensures c.Inserts(op, old(c.i) + 1, old(c.pos)) && Took(start, ops + [op], b.model)
  {
    ghost var live := c.live;
    var next := c.InsertOp();
    op := next;
    ok := ApplyInsert(b, next, live);
    RunMore(start, ops, op);
  }

  /** Inserts only, up to the steady size; two draws each. */
  method Prebuild(c: Churn, b: Book, steady: nat) returns (ok: bool, ghost ops: seq<Op>)
    requires b.Valid() && Tracks(c, b.model) && c.i == 0 && c.live == [] && |b.model.pool| >= steady
    modifies c, b, b.flat, b.flat.bids, b.flat.asks, b.flat.pool
    ensures ok && b.Valid() && Tracks(c, b.model) && Balanced(c, steady) && c.i == steady == |c.live|
    ensures SameShape(old(b.model), b.model) && c.pos == old(c.pos) + 2 * steady
    ensures |ops| == steady && Took(old(b.model), ops, b.model)
  {
    ok, ops := true, [];
    for k := 0 to steady
      invariant ok && b.Valid() && Tracks(c, b.model) && c.i == k == |c.live| && c.pos == old(c.pos) + 2 * k
      invariant SameShape(old(b.model), b.model)
      invariant |ops| == k && Took(old(b.model), ops, b.model)
    {
      ghost var op;
      ok, op := PrebuildOne(c, b, old(b.model), ops);
      ops := ops + [op];
    }
  }

  /** One op more of a run. */
  method AdvanceRun(c: Churn, b: Book, steady: nat, ghost start: State, ghost ops: seq<Op>) returns (ok: bool, ghost op: Op)
    requires b.Valid() && Tracks(c, b.model) && Balanced(c, steady) && |b.model.pool| >= steady + 1
    requires Took(start, ops, b.model)
    modifies c, b, b.flat, b.flat.bids, b.flat.asks, b.flat.pool
    ensures ok && b.Valid() && Tracks(c, b.model) && Balanced(c, steady) && c.i == old(c.i) + 1 && c.pos == old(c.pos) + 2
    ensures SameShape(old(b.model), b.model) && Took(start, ops + [op], b.model)
    ensures Given(c, op, old(c.i), old(c.live), old(c.pos))
  {
    ok, op := Advance(c, b, steady);
    RunMore(start, ops, op);
  }

  /** `n` more ops, two draws each. */
  method Continue(c: Churn, b: Book, steady: nat, n: nat) returns (ok: bool, ghost ops: seq<Op>)
    requires b.Valid() && Tracks(c, b.model) && Balanced(c, steady) && |b.model.pool| >= steady + 1
    modifies c, b, b.flat, b.flat.bids, b.flat.asks, b.flat.pool
    ensures ok && b.Valid() && Tracks(c, b.model) && Balanced(c, steady) && c.i == old(c.i) + n && c.pos == old(c.pos) + 2 * n
    ensures |ops| == n && Took(old(b.model), ops, b.model)
  {
    ok, ops := true, [];
    for k := 0 to n
      invariant ok && b.Valid() && Tracks(c, b.model) && Balanced(c, steady) && c.i == old(c.i) + k && c.pos == old(c.pos) + 2 * k
      invariant |b.model.pool| >= steady + 1
      invariant |ops| == k && Took(old(b.model), ops, b.model)
    {
      ghost var op;
      ok, op := AdvanceRun(c, b, steady, old(b.model), ops);
      ops := ops + [op];
    }
  }

  method Fresh(cfg: Config, otrBps: nat, draws: nat -> nat) returns (b: Book, c: Churn, ghost start: State)
    requires cfg.Valid()
    ensures b.Valid() && Tracks(c, b.model) && c.i == 0 && c.live == [] && |b.model.pool| == cfg.cap
    ensures b.model == start == Empty(cfg) && c.pos == 0 && c.draws == draws && c.otrBps == otrBps
    ensures fresh(c) && fresh({b, b.flat, b.flat.bids, b.flat.asks, b.flat.pool})
  {
    b := new Book(cfg);
    c := new Churn(cfg, otrBps, draws);
    start := b.model;
  }

  lemma {:induction false} TookBoth(st: State, a: seq<Op>, mid: State, b: seq<Op>, end: State)
    requires Took(st, a, mid) && Took(mid, b, end)
    ensures Took(st, a + b, end)
    decreases |a|
  {
    if a == [] {
      assert a + b == b;
    } else {
      assert (a + b)[0] == a[0] && (a + b)[1..] == a[1..] + b;
      TookBoth(Apply(st, a[0]), a[1..], mid, b, end);
    }
  }

  /** Prebuild, then `n` ops. */
  method DriveOn(c: Churn, b: Book, steady: nat, n: nat) returns (ok: bool, ghost ops: seq<Op>, ghost mid: State, ghost more: seq<Op>)
    requires b.Valid() && Tracks(c, b.model) && c.i == 0 && c.live == [] && |b.model.pool| >= steady + 1
    modifies c, b, b.flat, b.flat.bids, b.flat.asks, b.flat.pool
    ensures ok && b.Valid() && Tracks(c, b.model) && Balanced(c, steady) && c.i == steady + n && c.pos == old(c.pos) + 2 * steady + 2 * n
    ensures |ops| == steady && |more| == n && Took(old(b.model), ops, mid) && Took(mid, more, b.model)
  {
    ok, ops := Prebuild(c, b, steady);
    mid := b.model;
    ok, more := Continue(c, b, steady, n);
  }

  /** ... as one run. */
  method DriveRun(c: Churn, b: Book, steady: nat, n: nat) returns (ok: bool, ghost ops: seq<Op>)
    requires b.Valid() && Tracks(c, b.model) && c.i == 0 && c.live == [] && |b.model.pool| >= steady + 1
    modifies c, b, b.flat, b.flat.bids, b.flat.asks, b.flat.pool
    ensures ok && b.Valid() && Tracks(c, b.model) && Balanced(c, steady) && c.i == steady + n && c.pos == old(c.pos) + 2 * steady + 2 * n
    ensures |ops| == steady + n && Took(old(b.model), ops, b.model)
  {
    ghost var start, first, mid, more := b.model, [], b.model, [];
    ok, first, mid, more := DriveOn(c, b, steady, n);
    TookBoth(start, first, mid, more, b.model);
    ops := first + more;
  }

  /** A balanced driver stays within one of `steady`. */
  lemma Around(c: Churn, steady: nat)
    requires Balanced(c, steady)
    ensures steady - 1 <= |c.live| <= steady + 1
  {
  }

  /** For every random stream: prebuild to `steady`, then any number of ops, two draws each.  With
      `steady + 1` slots nothing panics, the book ends where the generated ops take the empty one, the
      driver's ids stay exactly the resting ones, and their number stays within one of `steady`. */
  method Drive(cfg: Config, otrBps: nat, draws: nat -> nat, steady: nat, n: nat)
    returns (c: Churn, b: Book, ok: bool, ghost start: State, ghost ops: seq<Op>)
    requires cfg.Valid() && cfg.cap >= steady + 1
    ensures ok && b.Valid() && Tracks(c, b.model) && c.i == steady + n && c.pos == 2 * steady + 2 * n
    ensures Balanced(c, steady) && steady - 1 <= |c.live| <= steady + 1
    ensures |ops| == steady + n && start == Empty(cfg) && Took(start, ops, b.model)
  {
    b, c, start := Fresh(cfg, otrBps, draws);
    ok, ops := DriveRun(c, b, steady, n);
    Around(c, steady);
  }
}
