/** The representation invariant of the flat book, and the proof that every
    operation keeps it.  A `View` names the order of the slots on every level
    and on the free list; `Inv` says that the links, the aggregates, the cached
    best prices and the id index all agree with it.
 */
module BookInvariant {
  import opened BookSpec

  /** Slots per level, front of the queue first, and slots of the free list, head first. */
  datatype View = View(bids: seq<seq<nat>>, asks: seq<seq<nat>>, free: seq<nat>)
  {
    function Lane(side: Side): seq<seq<nat>> {
      if side == 0 then bids else asks
    }

    function SetQueue(side: Side, t: nat, q: seq<nat>): View
      requires t < |Lane(side)|
    {
      if side == 0 then this.(bids := bids[t := q]) else this.(asks := asks[t := q])
    }
  }

  function NextIn(q: seq<nat>, i: nat): nat
    requires i < |q|
  {
    if i + 1 < |q| then q[i + 1] else NIL
  }

  function PrevIn(q: seq<nat>, i: nat): nat
    requires i < |q|
  {
    if i > 0 then q[i - 1] else NIL
  }

  function HeadOf(q: seq<nat>): nat { if q == [] then NIL else q[0] }
  function LastOf(q: seq<nat>): nat { if q == [] then NIL else q[|q| - 1] }

  ghost predicate NoDup(q: seq<nat>) {
    forall i, j :: 0 <= i < j < |q| ==> q[i] != q[j]
  }

  predicate LinkAt(pool: seq<Order>, q: seq<nat>, i: nat)
    requires i < |q|
  {
    q[i] < |pool| && pool[q[i]].next == NextIn(q, i) && pool[q[i]].prev == PrevIn(q, i)
  }

  /** The `next`/`prev` links of `q` are exactly those of a doubly-linked list. */
  ghost predicate Linked(pool: seq<Order>, q: seq<nat>) {
    forall i :: 0 <= i < |q| ==> LinkAt(pool, q, i)
  }

  function SumRemaining(pool: seq<Order>, q: seq<nat>): int
    requires forall i :: 0 <= i < |q| ==> q[i] < |pool|
  {
    if q == [] then 0 else SumRemaining(pool, q[..|q| - 1]) + pool[q[|q| - 1]].Remaining()
  }

  /** `o` is a resting order of level `t` on `side`. */
  predicate RestsAt(st: State, o: Order, side: Side, t: nat)
    requires st.tick > 0
  {
    o.id != 0 && o.side == side && TickOf(st.priceMin, st.tick, o.price) == t
  }

  ghost predicate LevelOk(st: State, side: Side, t: nat, l: Level, q: seq<nat>)
    requires st.tick > 0
  {
    && NoDup(q)
    && Linked(st.pool, q)
    && (forall i :: 0 <= i < |q| ==> q[i] < st.hwm && q[i] < |st.pool| && RestsAt(st, st.pool[q[i]], side, t))
    && l == Level(HeadOf(q), LastOf(q), SumRemaining(st.pool, q), |q|)
  }

  ghost predicate LaneOk(st: State, side: Side, lane: seq<seq<nat>>)
    requires st.tick > 0
  {
    && |st.Lane(side)| == |lane| == st.nLevels
    && forall t :: 0 <= t < |lane| ==> LevelOk(st, side, t, st.Lane(side)[t], lane[t])
  }

  predicate FreeLinkAt(pool: seq<Order>, free: seq<nat>, i: nat)
    requires i < |free|
  {
    free[i] < |pool| && pool[free[i]].next == NextIn(free, i) && pool[free[i]].prev == NIL
  }

  /** The free list: a chain through `next`, every slot marked freed. */
  ghost predicate FreeOk(st: State, free: seq<nat>) {
    && NoDup(free)
    && st.freeHead == HeadOf(free)
    && (forall i :: 0 <= i < |free| ==> free[i] < st.hwm && free[i] < |st.pool| && st.pool[free[i]].id == 0)
    && (forall i :: 0 <= i < |free| ==> FreeLinkAt(st.pool, free, i))
  }

  ghost predicate HasHome(st: State, v: View, s: nat)
    requires st.tick > 0 && s < |st.pool|
  {
    var o := st.pool[s];
    if o.id == 0 then s in v.free
    else
      var t := TickOf(st.priceMin, st.tick, o.price);
      t < |v.Lane(o.side)| && s in v.Lane(o.side)[t]
  }

  /** Every allocated slot is on the free list or in the queue its order names. */
  ghost predicate Covered(st: State, v: View)
    requires st.tick > 0
  {
    forall s :: 0 <= s < st.hwm && s < |st.pool| ==> HasHome(st, v, s)
  }

  /** The id index is exactly the live orders. */
  ghost predicate IndexOk(st: State) {
    && (forall id :: id in st.ids ==> id != 0 && st.ids[id] < st.hwm && st.ids[id] < |st.pool| && st.pool[st.ids[id]].id == id)
    && (forall s :: 0 <= s < st.hwm && s < |st.pool| && st.pool[s].id != 0 ==>
          st.pool[s].id in st.ids && st.ids[st.pool[s].id] == s)
  }

  /** `best` is the extreme occupied level of the lane, or -1 when it is empty. */
  ghost predicate BestOk(side: Side, lane: seq<Level>, best: int) {
    if best < 0 then best == -1 && forall t :: 0 <= t < |lane| ==> lane[t].head == NIL
    else
      && best < |lane| && lane[best].head != NIL
      && forall t :: 0 <= t < |lane| && (if side == 0 then t > best else t < best) ==> lane[t].head == NIL
  }

  /** Slots that were never handed out still hold the initial record. */
  ghost predicate Untouched(st: State, blank: Order) {
    forall s :: st.hwm <= s < |st.pool| ==> st.pool[s] == blank
  }

  ghost predicate Inv(st: State, v: View) {
    && st.tick > 0 && 0 < st.nLevels <= 65535
    && st.hwm <= |st.pool| <= NIL
    && LaneOk(st, 0, v.bids)
    && LaneOk(st, 1, v.asks)
    && FreeOk(st, v.free)
    && Covered(st, v)
    && IndexOk(st)
    && BestOk(0, st.bids, st.bestBid)
    && BestOk(1, st.asks, st.bestAsk)
  }

  // ---------- consequences ----------

  lemma InvBounded(st: State, v: View)
    requires Inv(st, v)
    ensures st.Bounded()
    ensures forall id :: id in st.ids ==> Addresses(st, id)
  {
    forall t | 0 <= t < |st.bids| ensures st.SlotOk(st.bids[t].tail) {
      assert LevelOk(st, 0, t, st.Lane(0)[t], v.bids[t]);
    }
    forall t | 0 <= t < |st.asks| ensures st.SlotOk(st.asks[t].tail) {
      assert LevelOk(st, 1, t, st.Lane(1)[t], v.asks[t]);
    }
    forall s | 0 <= s < st.hwm
      ensures st.SlotOk(st.pool[s].next) && st.SlotOk(st.pool[s].prev)
      ensures st.pool[s].id != 0 ==> TickOf(st.priceMin, st.tick, st.pool[s].price) < st.nLevels
    {
      SlotHome(st, v, s);
    }
  }

  /** Where an allocated slot lives, and its links there. */
  lemma SlotHome(st: State, v: View, s: nat)
    requires Inv(st, v) && s < st.hwm
    ensures st.SlotOk(st.pool[s].next) && st.SlotOk(st.pool[s].prev)
    ensures var o := st.pool[s];
            var t := TickOf(st.priceMin, st.tick, o.price);
            o.id != 0 ==>
              && t < st.nLevels && s in v.Lane(o.side)[t]
              && LevelOk(st, o.side, t, st.Lane(o.side)[t], v.Lane(o.side)[t])
  {
    var o := st.pool[s];
    assert HasHome(st, v, s);
    if o.id == 0 {
      var i :| 0 <= i < |v.free| && v.free[i] == s;
      assert FreeLinkAt(st.pool, v.free, i);
    } else {
      var t := TickOf(st.priceMin, st.tick, o.price);
      var q := v.Lane(o.side)[t];
      assert LevelOk(st, o.side, t, st.Lane(o.side)[t], q);
      var i :| 0 <= i < |q| && q[i] == s;
      assert LinkAt(st.pool, q, i);
    }
  }

  lemma EmptyInv(cfg: Config)
    requires cfg.Valid()
    ensures Inv(Empty(cfg), View(seq(cfg.levels, _ => []), seq(cfg.levels, _ => []), []))
    ensures Untouched(Empty(cfg), cfg.blank)
    ensures var st := Empty(cfg);
            && st.priceMin == cfg.priceMin && st.tick == cfg.tick && st.nLevels == cfg.levels && |st.pool| == cfg.cap
            && st.hwm == 0 && st.bestBid == st.bestAsk == -1 && st.freeHead == NIL && st.ids == map[]
            && forall side: Side, t :: 0 <= t < cfg.levels ==> st.Lane(side)[t] == Level(NIL, NIL, 0, 0)
  {
  }

  // ---------- sums over a queue ----------

  lemma {:induction false} SumFrame(pool: seq<Order>, pool': seq<Order>, q: seq<nat>)
    requires forall i :: 0 <= i < |q| ==> q[i] < |pool| && q[i] < |pool'|
    requires forall i :: 0 <= i < |q| ==> pool[q[i]].Remaining() == pool'[q[i]].Remaining()
    ensures SumRemaining(pool, q) == SumRemaining(pool', q)
  {
    if q != [] { SumFrame(pool, pool', q[..|q| - 1]); }
  }

  lemma SumAppend(pool: seq<Order>, q: seq<nat>, s: nat)
    requires s < |pool| && forall i :: 0 <= i < |q| ==> q[i] < |pool|
    ensures SumRemaining(pool, q + [s]) == SumRemaining(pool, q) + pool[s].Remaining()
  {
    assert (q + [s])[..|q|] == q;
  }

  function Without(q: seq<nat>, i: nat): seq<nat>
    requires i < |q|
  {
    q[..i] + q[i + 1..]
  }

  lemma {:induction false} SumWithout(pool: seq<Order>, q: seq<nat>, k: nat)
    requires k < |q| && forall i :: 0 <= i < |q| ==> q[i] < |pool|
    ensures SumRemaining(pool, Without(q, k)) == SumRemaining(pool, q) - pool[q[k]].Remaining()
  {
    var n := |q| - 1;
    if k == n {
      assert Without(q, k) == q[..n];
    } else {
      SumWithout(pool, q[..n], k);
      assert Without(q, k) == Without(q[..n], k) + [q[n]];
      SumAppend(pool, Without(q[..n], k), q[n]);
    }
  }

  // ---------- frames ----------

  /** A level none of whose slots changed is still good. */
  lemma LevelFrame(st: State, st': State, side: Side, t: nat, l: Level, q: seq<nat>)
    requires st.tick > 0 && st'.tick == st.tick && st'.priceMin == st.priceMin
    requires LevelOk(st, side, t, l, q)
    requires |st'.pool| == |st.pool| && st.hwm <= st'.hwm
    requires forall i :: 0 <= i < |q| ==> st'.pool[q[i]] == st.pool[q[i]]
    ensures LevelOk(st', side, t, l, q)
  {
    forall i | 0 <= i < |q| ensures LinkAt(st'.pool, q, i) {
      assert LinkAt(st.pool, q, i);
    }
    SumFrame(st.pool, st'.pool, q);
  }

  /** Members of a queue differ from a slot that rests elsewhere. */
  lemma Apart(st: State, side: Side, t: nat, l: Level, q: seq<nat>, s: nat)
    requires st.tick > 0 && LevelOk(st, side, t, l, q)
    requires s < |st.pool| && (s >= st.hwm || !RestsAt(st, st.pool[s], side, t))
    ensures forall i :: 0 <= i < |q| ==> q[i] != s
  {
  }
}
