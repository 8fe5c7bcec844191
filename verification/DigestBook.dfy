/** Computing the digest: collect the live orders slot by slot and sort them by
    id, then walk every occupied level along its `next` links.  The flat book and
    a captured root give the digest of the same queues.
 */
module DigestBook {
  import opened BookSpec
  import opened BookInvariant
  import opened BookRuns
  import opened PriceTime
  import opened Wire
  import opened DigestSpec
  import opened FlatLadder
  import opened CowBook
  import SnapshotRoundTrip

  // ---------- the live orders ----------

  function LiveRecs(pool: seq<Order>, n: nat): seq<Rec>
    requires n <= |pool|
  {
    if n == 0 then []
    else LiveRecs(pool, n - 1) + if pool[n - 1].id != 0 then [RecOf(pool[n - 1])] else []
  }

  ghost predicate DistinctIds(rs: seq<Rec>) {
    forall i, j :: 0 <= i < j < |rs| ==> rs[i].id != rs[j].id
  }

  lemma {:induction false} LiveRecsAre(st: State, n: nat)
    requires IndexOk(st) && n <= st.hwm <= |st.pool|
    ensures forall r :: r in LiveRecs(st.pool, n) ==> r.id in st.ids && st.ids[r.id] < n && r == RecOf(st.pool[st.ids[r.id]])
    ensures forall s :: 0 <= s < n && st.pool[s].id != 0 ==> RecOf(st.pool[s]) in LiveRecs(st.pool, n)
    ensures DistinctIds(LiveRecs(st.pool, n))
  {
    if n > 0 { LiveRecsAre(st, n - 1); }
  }

  lemma LiveRestsThere(st: State, v: View, s: nat)
    requires Inv(st, v) && s < st.hwm && st.pool[s].id != 0
    ensures Rests(Abs(st, v), RecOf(st.pool[s]))
  {
    SlotHome(st, v, s);
    var o := st.pool[s];
    var t := TickOf(st.priceMin, st.tick, o.price);
    var q := v.Lane(o.side)[t];
    var i :| 0 <= i < |q| && q[i] == s;
    LaneInPool(st, v, o.side);
    assert Abs(st, v).Lane(o.side)[t] == Recs(st.pool, q);
    assert Recs(st.pool, q)[i] == RecOf(o);
  }

  lemma RestingIsLive(st: State, v: View, side: Side, t: nat, i: nat)
    requires Inv(st, v) && t < |v.Lane(side)| && i < |v.Lane(side)[t]|
    ensures v.Lane(side)[t][i] < st.hwm && st.pool[v.Lane(side)[t][i]].id != 0
  {
    assert LevelOk(st, side, t, st.Lane(side)[t], v.Lane(side)[t]);
  }

  /** The slot-order list holds exactly the resting orders. */
  lemma LiveRests(st: State, v: View, r: Rec)
    requires Inv(st, v)
    ensures r in LiveRecs(st.pool, st.hwm) <==> Rests(Abs(st, v), r)
  {
    LiveRecsAre(st, st.hwm);
    if r in LiveRecs(st.pool, st.hwm) { LiveRestsThere(st, v, st.ids[r.id]); }
    if Rests(Abs(st, v), r) { RestsLive(st, v, r); }
  }

  /** A resting order sits in a live slot. */
  lemma RestsLive(st: State, v: View, r: Rec)
    requires Inv(st, v) && Rests(Abs(st, v), r)
    ensures exists s :: 0 <= s < st.hwm && st.pool[s].id != 0 && r == RecOf(st.pool[s])
  {
    var a := Abs(st, v);
    var side: Side, t :| 0 <= t < |a.Lane(side)| && r in a.Lane(side)[t];
    var i :| 0 <= i < |a.Lane(side)[t]| && a.Lane(side)[t][i] == r;
    LevelShows(st, v, side, t);
    RestingIsLive(st, v, side, t, i);
    assert r == Recs(st.pool, v.Lane(side)[t])[i] == RecOf(st.pool[v.Lane(side)[t][i]]);
  }

  // ---------- sorting ----------

  /** Insert by id into an ascending list. */
  function InsertById(rs: seq<Rec>, r: Rec): seq<Rec> {
    if rs == [] then [r]
    else if r.id < rs[|rs| - 1].id then InsertById(rs[..|rs| - 1], r) + [rs[|rs| - 1]]
    else rs + [r]
  }

  function SortById(rs: seq<Rec>): seq<Rec> {
    if rs == [] then [] else InsertById(SortById(rs[..|rs| - 1]), rs[|rs| - 1])
  }

  lemma {:induction false} InsertSorts(rs: seq<Rec>, r: Rec)
    requires Ascending(rs) && forall i :: 0 <= i < |rs| ==> rs[i].id != r.id
    ensures Ascending(InsertById(rs, r)) && |InsertById(rs, r)| == |rs| + 1
    ensures forall x :: x in InsertById(rs, r) <==> x in rs || x == r
  {
    if rs != [] && r.id < rs[|rs| - 1].id {
      var n := |rs| - 1;
      InsertSorts(rs[..n], r);
      assert forall x :: x in rs <==> x in rs[..n] || x == rs[n];
      var front := InsertById(rs[..n], r);
      forall i | 0 <= i < |front| ensures front[i].id < rs[n].id {
        assert front[i] in front;
      }
    }
  }

  lemma {:induction false} SortSorts(rs: seq<Rec>)
    requires DistinctIds(rs)
    ensures Ascending(SortById(rs)) && |SortById(rs)| == |rs| && forall x :: x in SortById(rs) <==> x in rs
  {
    if rs != [] {
      var n := |rs| - 1;
      SortSorts(rs[..n]);
      var s := SortById(rs[..n]);
      forall i | 0 <= i < |s| ensures s[i].id != rs[n].id {
        assert s[i] in rs[..n];
      }
      InsertSorts(s, rs[n]);
      assert forall x :: x in rs <==> x in rs[..n] || x == rs[n];
    }
  }

  /** Sorting the live orders gives the list the digest names. */
  lemma LiveListed(st: State, v: View)
    requires Inv(st, v)
    ensures Lists(Abs(st, v), SortById(LiveRecs(st.pool, st.hwm)))
  {
    LiveRecsAre(st, st.hwm);
    SortSorts(LiveRecs(st.pool, st.hwm));
    forall r ensures r in SortById(LiveRecs(st.pool, st.hwm)) <==> Rests(Abs(st, v), r) { LiveRests(st, v, r); }
  }

  /** `sort_unstable`: ids are distinct, so they alone decide the order. */
  method Sort(rs: seq<Rec>) returns (sorted: seq<Rec>)
    requires DistinctIds(rs)
    ensures Ascending(sorted) && |sorted| == |rs| && forall x :: x in sorted <==> x in rs
    ensures sorted == SortById(rs)
  {
    SortSorts(rs);
    sorted := [];
    var i := 0;
    while i < |rs|
      invariant i <= |rs| && sorted == SortById(rs[..i])
    {
      assert rs[..i + 1][..i] == rs[..i];
      sorted := InsertById(sorted, rs[i]);
      i := i + 1;
    }
    assert rs[..|rs|] == rs;
  }

  method PutOrders(sorted: seq<Rec>) returns (out: seq<Byte>)
    ensures out == RecsBytes(sorted)
  {
    out := [];
    var i := 0;
    while i < |sorted|
      invariant i <= |sorted| && out == RecsBytes(sorted[..i])
    {
      assert sorted[..i + 1][..i] == sorted[..i];
      out := out + RecBytes(sorted[i]);
      i := i + 1;
    }
    assert sorted[..|sorted|] == sorted;
  }

  // ---------- levels and best prices ----------

  lemma {:induction false} TopIs(lane: seq<seq<Rec>>, n: nat, b: int)
    requires n <= |lane| && -1 <= b < n && (b >= 0 ==> lane[b] != [])
    requires forall t :: b < t < n ==> lane[t] == []
    ensures TopOf(lane, n) == b
  {
    if n > 0 && lane[n - 1] == [] { TopIs(lane, n - 1, b); }
  }

  lemma {:induction false} BottomIs(lane: seq<seq<Rec>>, t: nat, b: int)
    requires t <= |lane| && (b == -1 || t <= b < |lane|) && (b >= 0 ==> lane[b] != [])
    requires forall u :: t <= u < |lane| && (b >= 0 ==> u < b) ==> lane[u] == []
    ensures BottomOf(lane, t) == b
    decreases |lane| - t
  {
    if t < |lane| && lane[t] == [] { BottomIs(lane, t + 1, b); }
  }

  /** What a level of the book says about its queue. */
  lemma LevelShows(st: State, v: View, side: Side, t: nat)
    requires Inv(st, v) && t < st.nLevels
    ensures |v.Lane(side)| == |st.Lane(side)| == |Abs(st, v).Lane(side)| == st.nLevels
    ensures var q, l := v.Lane(side)[t], st.Lane(side)[t];
            && Linked(st.pool, q) && (forall i :: 0 <= i < |q| ==> q[i] < |st.pool|)
            && Abs(st, v).Lane(side)[t] == Recs(st.pool, q)
            && l.head == HeadOf(q) && l.count == |q| && l.qtyTotal == SumLeft(Recs(st.pool, q))
            && (l.head == NIL <==> q == [])
  {
    LaneInPool(st, v, side);
    CachesAgree(st, v, side, t);
    assert LevelOk(st, side, t, st.Lane(side)[t], v.Lane(side)[t]);
  }

  /** The cached best of a side is its extreme occupied level. */
  lemma BestIs(st: State, v: View, side: Side)
    requires Inv(st, v)
    ensures var lane, b := Abs(st, v).Lane(side), st.Best(side);
            && |lane| == st.nLevels && -1 <= b < st.nLevels && (b >= 0 ==> lane[b] != [])
            && forall t :: 0 <= t < |lane| && (b >= 0 ==> if side == 0 then b < t else t < b) ==> lane[t] == []
  {
    LevelShows(st, v, side, 0);
    var lane, b := Abs(st, v).Lane(side), st.Best(side);
    forall t | 0 <= t < |lane| && (b >= 0 ==> if side == 0 then b < t else t < b) ensures lane[t] == [] {
      CachesAgree(st, v, side, t);
    }
    if b >= 0 { CachesAgree(st, v, side, b); }
  }

  lemma BestsShow(st: State, v: View)
    requires Inv(st, v)
    ensures var a := Abs(st, v); st.bestBid == TopOf(a.bids, |a.bids|) && st.bestAsk == BottomOf(a.asks, 0)
  {
    BestIs(st, v, 0);
    BestIs(st, v, 1);
    TopIs(Abs(st, v).bids, st.nLevels, st.bestBid);
    BottomIs(Abs(st, v).asks, 0, st.bestAsk);
  }

  lemma Assoc(a: seq<Byte>, b: seq<Byte>, c: seq<Byte>)
    ensures a + (b + c) == a + b + c
  {
  }

  lemma {:induction false} LevsAppend(xs: seq<Lev>, ys: seq<Lev>)
    ensures LevsBytes(xs + ys) == LevsBytes(xs) + LevsBytes(ys)
  {
    if xs == [] {
      assert xs + ys == ys;
    } else {
      LevsAppend(xs[1..], ys);
      assert (xs + ys)[0] == xs[0] && (xs + ys)[1..] == xs[1..] + ys;
      var first := LevBytes(xs[0]);
      Assoc(first, LevsBytes(xs[1..]), LevsBytes(ys));
    }
  }

  lemma LevsOne(l: Lev)
    ensures LevsBytes([l]) == LevBytes(l)
  {
    assert [l][1..] == [];
    assert LevsBytes([l]) == LevBytes(l) + LevsBytes([]);
  }

  function TickBytes(side: Side, t: nat, q: seq<Rec>): seq<Byte> {
    if q == [] then [] else LevBytes(LevOf(side, t, q))
  }

  /** One more tick of a lane. */
  lemma LaneNext(side: Side, lane: seq<seq<Rec>>, n: nat)
    requires 0 < n <= |lane|
    ensures LevsBytes(LaneLevs(side, lane, n)) == LevsBytes(LaneLevs(side, lane, n - 1)) + TickBytes(side, n - 1, lane[n - 1])
  {
    if lane[n - 1] == [] {
      assert LaneLevs(side, lane, n) == LaneLevs(side, lane, n - 1) + [];
      assert LaneLevs(side, lane, n - 1) + [] == LaneLevs(side, lane, n - 1);
    } else {
      LevsAppend(LaneLevs(side, lane, n - 1), [LevOf(side, n - 1, lane[n - 1])]);
      LevsOne(LevOf(side, n - 1, lane[n - 1]));
    }
  }

  /** The bytes of every tick of a lane. */
  ghost function Ticks(side: Side, lane: seq<seq<Rec>>): (ticks: seq<seq<Byte>>)
    ensures |ticks| == |lane|
  {
    seq(|lane|, t requires 0 <= t < |lane| => TickBytes(side, t, lane[t]))
  }

  function Cat(parts: seq<seq<Byte>>, n: nat): seq<Byte>
    requires n <= |parts|
  {
    if n == 0 then [] else Cat(parts, n - 1) + parts[n - 1]
  }

  lemma CatNext(parts: seq<seq<Byte>>, n: nat)
    requires 0 < n <= |parts|
    ensures Cat(parts, n) == Cat(parts, n - 1) + parts[n - 1]
  {
  }

  lemma CatMore(parts: seq<seq<Byte>>, n: nat)
    requires n < |parts|
    ensures Cat(parts, n + 1) == Cat(parts, n) + parts[n]
  {
  }

  lemma NoLevs(side: Side, lane: seq<seq<Rec>>)
    ensures LevsBytes(LaneLevs(side, lane, 0)) == []
  {
  }

  lemma {:induction false} CatIsLevs(side: Side, lane: seq<seq<Rec>>, n: nat)
    requires n <= |lane|
    ensures Cat(Ticks(side, lane), n) == LevsBytes(LaneLevs(side, lane, n))
  {
    if n == 0 {
      NoLevs(side, lane);
    } else {
      var ticks := Ticks(side, lane);
      var done, tick := Cat(ticks, n - 1), ticks[n - 1];
      CatIsLevs(side, lane, n - 1);
      assert tick == TickBytes(side, n - 1, lane[n - 1]);
      LaneNext(side, lane, n);
      assert LevsBytes(LaneLevs(side, lane, n)) == done + tick;
      CatNext(ticks, n);
    }
  }

  /** The two lanes one after the other. */
  lemma LanesCat(a: Queues)
    ensures LevsBytes(Levs(a)) == Cat(Ticks(0, a.bids), |a.bids|) + Cat(Ticks(1, a.asks), |a.asks|)
  {
    CatIsLevs(0, a.bids, |a.bids|);
    CatIsLevs(1, a.asks, |a.asks|);
    LevsAppend(LaneLevs(0, a.bids, |a.bids|), LaneLevs(1, a.asks, |a.asks|));
  }

  function PutLevel(side: Side, t: nat, l: Level, ids: seq<Byte>): seq<Byte>
    requires l.count >= 0
  {
    LevHead(side, t, l.qtyTotal, l.count) + ids
  }

  /** One more id behind the first `k` of a queue. */
  lemma IdsNext(pool: seq<Order>, q: seq<nat>, k: nat)
    requires k < |q| && forall i :: 0 <= i < |q| ==> q[i] < |pool|
    ensures |Ids(Recs(pool, q))| == |q|
    ensures IdBytes(Ids(Recs(pool, q))[..k + 1]) == IdBytes(Ids(Recs(pool, q))[..k]) + SLE(pool[q[k]].id, 8)
  {
    var ids := Ids(Recs(pool, q));
    assert ids[..k + 1][..k] == ids[..k];
  }

  /** Entry `t` of `ticks` is the bytes of that tick's queue. */
  ghost predicate TickShown(st: State, v: View, side: Side, ticks: seq<seq<Byte>>, t: nat) {
    && Inv(st, v) && t < st.nLevels
    && t < |ticks| && t < |Abs(st, v).Lane(side)| && ticks[t] == TickBytes(side, t, Abs(st, v).Lane(side)[t])
  }

  lemma TicksShow(st: State, v: View, side: Side) returns (ticks: seq<seq<Byte>>)
    requires Inv(st, v)
    ensures ticks == Ticks(side, Abs(st, v).Lane(side)) && |ticks| == st.nLevels
    ensures forall t :: 0 <= t < st.nLevels ==> TickShown(st, v, side, ticks, t)
  {
    LevelShows(st, v, side, 0);
    ticks := Ticks(side, Abs(st, v).Lane(side));
  }

  // ---------- the flat book ----------

  method Collect(b: Ladder, ghost st: State) returns (live: seq<Rec>)
    requires b.State(st.ids) == st && st.hwm <= |st.pool|
    ensures live == LiveRecs(st.pool, st.hwm)
  {
    live := [];
    var slot := 0;
    while slot < b.hwm
      invariant slot <= b.hwm && live == LiveRecs(st.pool, slot)
    {
      if b.pool[slot].id != 0 { live := live + [RecOf(b.pool[slot])]; }
      slot := slot + 1;
    }
  }

  /** The ids of a level, along the `next` links. */
  method Walk(b: Ladder, head: nat, ghost st: State, ghost q: seq<nat>) returns (out: seq<Byte>)
    requires b.State(st.ids) == st && |st.pool| <= NIL
    requires Linked(st.pool, q) && head == HeadOf(q) && forall i :: 0 <= i < |q| ==> q[i] < |st.pool|
    ensures out == IdBytes(Ids(Recs(st.pool, q)))
  {
    out := [];
    var s := head;
    ghost var k := 0;
    ghost var ids := Ids(Recs(st.pool, q));
    while s != NIL
      invariant k <= |q| && s == (if k < |q| then q[k] else NIL) && out == IdBytes(ids[..k])
      decreases |q| - k
    {
      assert LinkAt(st.pool, q, k);
      IdsNext(st.pool, q, k);
      out := out + SLE(b.pool[s].id, 8);
      s := b.pool[s].next;
      k := k + 1;
    }
    assert ids[..|q|] == ids;
  }

  /** The bytes of one tick, none if it is empty. */
  method PutTick(b: Ladder, side: Side, t: nat, ghost st: State, ghost v: View, ghost ticks: seq<seq<Byte>>) returns (out: seq<Byte>)
    requires b.State(st.ids) == st && TickShown(st, v, side, ticks, t)
    ensures t < |ticks| && out == ticks[t]
  {
    LevelShows(st, v, side, t);
    var l := b.Lane(side)[t];
    assert l == st.Lane(side)[t];
    if l.head == NIL { return []; }
    var ids := Walk(b, l.head, st, v.Lane(side)[t]);
    out := PutLevel(side, t, l, ids);
  }

  method PutLane(b: Ladder, side: Side, ghost st: State, ghost v: View, ghost ticks: seq<seq<Byte>>) returns (out: seq<Byte>)
    requires b.State(st.ids) == st && |ticks| == st.nLevels
    requires forall t :: 0 <= t < st.nLevels ==> TickShown(st, v, side, ticks, t)
    ensures out == Cat(ticks, |ticks|)
  {
    out := [];
    for t := 0 to b.nLevels
      invariant out == Cat(ticks, t)
    {
      var bytes := PutTick(b, side, t, st, v, ticks);
      CatMore(ticks, t);
      out := out + bytes;
    }
  }

  /** `digest_book`: the digest of the book's queues. */
  method DigestFlat(b: Ladder, ghost st: State, ghost v: View) returns (out: seq<Byte>)
    requires b.State(st.ids) == st && Inv(st, v)
    ensures Lists(Abs(st, v), SortById(LiveRecs(st.pool, st.hwm)))
    ensures out == Digest(Abs(st, v), SortById(LiveRecs(st.pool, st.hwm)))
  {
    var live := Collect(b, st);
    LiveRecsAre(st, st.hwm);
    LiveListed(st, v);
    BestsShow(st, v);
    ghost var bidTicks := TicksShow(st, v, 0);
    ghost var askTicks := TicksShow(st, v, 1);
    var bids := PutLane(b, 0, st, v, bidTicks);
    var asks := PutLane(b, 1, st, v, askTicks);
    var sorted := Sort(live);
    var orders := PutOrders(sorted);
    LanesCat(Abs(st, v));
    out := Head(b.bestBid, b.bestAsk, |sorted|) + (bids + asks) + orders;
  }

  // ---------- a captured root ----------

  method CollectRoot(r: Root) returns (live: seq<Rec>)
    requires r.Intact() && r.contents.hwm <= |r.contents.pool|
    ensures live == LiveRecs(r.contents.pool, r.contents.hwm)
  {
    live := [];
    var slot := 0;
    while slot < r.hwm
      invariant slot <= r.hwm && live == LiveRecs(r.contents.pool, slot)
    {
      var o := r.OrderAt(slot);
      if o.id != 0 { live := live + [RecOf(o)]; }
      slot := slot + 1;
    }
  }

  method WalkRoot(r: Root, head: nat, ghost q: seq<nat>) returns (out: seq<Byte>)
    requires r.Intact() && |r.contents.pool| <= NIL
    requires Linked(r.contents.pool, q) && head == HeadOf(q) && forall i :: 0 <= i < |q| ==> q[i] < |r.contents.pool|
    ensures out == IdBytes(Ids(Recs(r.contents.pool, q)))
  {
    out := [];
    var s := head;
    ghost var k := 0;
    ghost var ids := Ids(Recs(r.contents.pool, q));
    while s != NIL
      invariant k <= |q| && s == (if k < |q| then q[k] else NIL) && out == IdBytes(ids[..k])
      decreases |q| - k
    {
      assert LinkAt(r.contents.pool, q, k);
      IdsNext(r.contents.pool, q, k);
      var o := r.OrderAt(s);
      out := out + SLE(o.id, 8);
      s := o.next;
      k := k + 1;
    }
    assert ids[..|q|] == ids;
  }

  method PutTickRoot(r: Root, side: Side, t: nat, ghost v: View, ghost ticks: seq<seq<Byte>>) returns (out: seq<Byte>)
    requires r.Intact() && TickShown(r.contents, v, side, ticks, t)
    ensures t < |ticks| && out == ticks[t]
  {
    LevelShows(r.contents, v, side, t);
    var l := r.LevelAt(side, t);
    if l.head == NIL { return []; }
    var ids := WalkRoot(r, l.head, v.Lane(side)[t]);
    out := PutLevel(side, t, l, ids);
  }

  method PutLaneRoot(r: Root, side: Side, ghost v: View, ghost ticks: seq<seq<Byte>>) returns (out: seq<Byte>)
    requires r.Intact() && |ticks| == r.contents.nLevels
    requires forall t :: 0 <= t < r.contents.nLevels ==> TickShown(r.contents, v, side, ticks, t)
    ensures out == Cat(ticks, |ticks|)
  {
    out := [];
    for t := 0 to r.nLevels
      invariant out == Cat(ticks, t)
    {
      var bytes := PutTickRoot(r, side, t, v, ticks);
      CatMore(ticks, t);
      out := out + bytes;
    }
  }

  /** `digest_root`: the digest of the queues at the capture. */
  method DigestRoot(r: Root, ghost v: View) returns (out: seq<Byte>)
    requires r.Intact() && Inv(r.contents, v)
    ensures Lists(Abs(r.contents, v), SortById(LiveRecs(r.contents.pool, r.contents.hwm)))
    ensures out == Digest(Abs(r.contents, v), SortById(LiveRecs(r.contents.pool, r.contents.hwm)))
  {
    ghost var st := r.contents;
    var live := CollectRoot(r);
    LiveRecsAre(st, st.hwm);
    LiveListed(st, v);
    BestsShow(st, v);
    ghost var bidTicks := TicksShow(st, v, 0);
    ghost var askTicks := TicksShow(st, v, 1);
    var bids := PutLaneRoot(r, 0, v, bidTicks);
    var asks := PutLaneRoot(r, 1, v, askTicks);
    var sorted := Sort(live);
    var orders := PutOrders(sorted);
    LanesCat(Abs(st, v));
    out := Head(r.bestBid, r.bestAsk, |sorted|) + (bids + asks) + orders;
  }

  // ---------- states ----------

  ghost function DigestOf(st: State, v: View): seq<Byte>
    requires Inv(st, v)
  {
    Digest(Abs(st, v), SortById(LiveRecs(st.pool, st.hwm)))
  }

  lemma {:induction false} LiveRecsFit(st: State, n: nat)
    requires SnapshotRoundTrip.InRange(st) && n <= st.hwm <= |st.pool|
    ensures |LiveRecs(st.pool, n)| <= n
    ensures forall r :: r in LiveRecs(st.pool, n) ==> RecFits(r)
  {
    if n > 0 { LiveRecsFit(st, n - 1); }
  }

  lemma SortedFit(st: State)
    requires SnapshotRoundTrip.InRange(st) && IndexOk(st) && st.hwm <= |st.pool|
    ensures var s := SortById(LiveRecs(st.pool, st.hwm));
            |s| < Pow256(4) && forall i :: 0 <= i < |s| ==> RecFits(s[i])
  {
    Powers();
    LiveRecsAre(st, st.hwm);
    LiveRecsFit(st, st.hwm);
    SortSorts(LiveRecs(st.pool, st.hwm));
  }

  /** The ids of a level are those of orders in the pool. */
  lemma IdsFit(st: State, v: View, side: Side, t: nat)
    requires Inv(st, v) && SnapshotRoundTrip.InRange(st) && t < st.nLevels
    ensures t < |Abs(st, v).Lane(side)| && AllFit(Ids(Abs(st, v).Lane(side)[t]))
  {
    LevelShows(st, v, side, t);
    var q := v.Lane(side)[t];
    forall i | 0 <= i < |q| ensures FitsSigned(Ids(Abs(st, v).Lane(side)[t])[i], 8) {
      RestingIsLive(st, v, side, t, i);
      assert SnapshotRoundTrip.OrderFits(st.pool[q[i]]);
    }
  }

  lemma LevelFits(st: State, v: View, side: Side, t: nat)
    requires Inv(st, v) && SnapshotRoundTrip.InRange(st) && t < st.nLevels
    ensures t < |Abs(st, v).Lane(side)| && LevFits(LevOf(side, t, Abs(st, v).Lane(side)[t]))
  {
    Powers();
    IdsFit(st, v, side, t);
    LevelShows(st, v, side, t);
    assert SnapshotRoundTrip.LevelFits(st.Lane(side)[t]);
  }

  /** A book whose stored fields are in the ranges of their machine types has queues the digest can show. */
  lemma InRangeFits(st: State, v: View)
    requires Inv(st, v) && SnapshotRoundTrip.InRange(st)
    ensures Fits(Abs(st, v), SortById(LiveRecs(st.pool, st.hwm)))
  {
    var a := Abs(st, v);
    Powers();
    SortedFit(st);
    LevelShows(st, v, 0, 0);
    LevelShows(st, v, 1, 0);
    LaneLevsAre(0, a.bids, |a.bids|);
    LaneLevsAre(1, a.asks, |a.asks|);
    forall i | 0 <= i < |Levs(a)| ensures LevFits(Levs(a)[i]) {
      var l := Levs(a)[i];
      assert l in LaneLevs(0, a.bids, |a.bids|) || l in LaneLevs(1, a.asks, |a.asks|);
      LevelFits(st, v, l.side, l.t);
    }
  }

  /** A book and a root, or any two books on the same ladder: equal digests exactly when
      every level queues the same orders, however the slots are numbered and the free lists run. */
  lemma SameDigestIffSameQueues(s1: State, v1: View, s2: State, v2: View)
    requires Inv(s1, v1) && Inv(s2, v2) && s1.priceMin == s2.priceMin && s1.tick == s2.tick && s1.nLevels == s2.nLevels
    requires SnapshotRoundTrip.InRange(s1) && SnapshotRoundTrip.InRange(s2)
    ensures DigestOf(s1, v1) == DigestOf(s2, v2) <==> Abs(s1, v1) == Abs(s2, v2)
  {
    InRangeFits(s1, v1);
    InRangeFits(s2, v2);
    LiveListed(s1, v1);
    LiveListed(s2, v2);
    DigestIffContents(Abs(s1, v1), SortById(LiveRecs(s1.pool, s1.hwm)), Abs(s2, v2), SortById(LiveRecs(s2.pool, s2.hwm)));
  }
}
