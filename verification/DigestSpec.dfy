/** The canonical digest of a book, and what it identifies: two books have the
    same digest exactly when their queues hold the same orders, whatever slots
    the orders sit in.
 */
module DigestSpec {
  import opened BookSpec
  import opened BookInvariant
  import opened PriceTime
  import opened Wire

  /** An occupied level as the digest shows it. */
  datatype Lev = Lev(side: Side, t: nat, total: int, ids: seq<int>)

  function Ids(q: seq<Rec>): seq<int> {
    seq(|q|, i requires 0 <= i < |q| => q[i].id)
  }

  function LevOf(side: Side, t: nat, q: seq<Rec>): Lev {
    Lev(side, t, SumLeft(q), Ids(q))
  }

  /** The occupied levels among the first `n` ticks of a lane. */
  function LaneLevs(side: Side, lane: seq<seq<Rec>>, n: nat): seq<Lev>
    requires n <= |lane|
  {
    if n == 0 then []
    else LaneLevs(side, lane, n - 1) + if lane[n - 1] == [] then [] else [LevOf(side, n - 1, lane[n - 1])]
  }

  function Levs(a: Queues): seq<Lev> {
    LaneLevs(0, a.bids, |a.bids|) + LaneLevs(1, a.asks, |a.asks|)
  }

  /** Highest occupied bid among the first `n`, lowest occupied ask from `t` on; -1 if none. */
  function TopOf(lane: seq<seq<Rec>>, n: nat): int
    requires n <= |lane|
  {
    if n == 0 then -1 else if lane[n - 1] != [] then n - 1 else TopOf(lane, n - 1)
  }

  function BottomOf(lane: seq<seq<Rec>>, t: nat): int
    requires t <= |lane|
    decreases |lane| - t
  {
    if t == |lane| then -1 else if lane[t] != [] then t else BottomOf(lane, t + 1)
  }

  // ---------- bytes ----------

  function IdBytes(ids: seq<int>): seq<Byte> {
    if ids == [] then [] else IdBytes(ids[..|ids| - 1]) + SLE(ids[|ids| - 1], 8)
  }

  function LevHead(side: Side, t: nat, total: int, count: nat): (s: seq<Byte>)
    ensures |s| == 17
  {
    [side] + LE(t, 4) + SLE(total, 8) + LE(count, 4)
  }

  function LevBytes(l: Lev): seq<Byte> {
    LevHead(l.side, l.t, l.total, |l.ids|) + IdBytes(l.ids)
  }

  function LevsBytes(ls: seq<Lev>): seq<Byte> {
    if ls == [] then [] else LevBytes(ls[0]) + LevsBytes(ls[1..])
  }

  function RecBytes(r: Rec): (s: seq<Byte>)
    ensures |s| == 33
  {
    SLE(r.id, 8) + SLE(r.price, 8) + SLE(r.qty, 8) + SLE(r.filled, 8) + [r.side]
  }

  function RecsBytes(rs: seq<Rec>): seq<Byte> {
    if rs == [] then [] else RecsBytes(rs[..|rs| - 1]) + RecBytes(rs[|rs| - 1])
  }

  function Head(bid: int, ask: int, n: nat): (s: seq<Byte>)
    ensures |s| == 12
  {
    SLE(bid, 4) + SLE(ask, 4) + LE(n, 4)
  }

  /** The digest, given the resting orders sorted by id. */
  function Digest(a: Queues, sorted: seq<Rec>): seq<Byte> {
    Head(TopOf(a.bids, |a.bids|), BottomOf(a.asks, 0), |sorted|) + LevsBytes(Levs(a)) + RecsBytes(sorted)
  }

  ghost predicate Rests(a: Queues, r: Rec) {
    exists side: Side, t :: 0 <= t < |a.Lane(side)| && r in a.Lane(side)[t]
  }

  ghost predicate Ascending(rs: seq<Rec>) {
    forall i, j :: 0 <= i < j < |rs| ==> rs[i].id < rs[j].id
  }

  /** `sorted` lists the resting orders by ascending id. */
  ghost predicate Lists(a: Queues, sorted: seq<Rec>) {
    Ascending(sorted) && forall r :: r in sorted <==> Rests(a, r)
  }

  // ---------- the sorted list is determined ----------

  /** The first `k` of two ascending lists with the same members agree. */
  lemma {:induction false} SortedAgree(xs: seq<Rec>, ys: seq<Rec>, k: nat)
    requires Ascending(xs) && Ascending(ys) && (forall r :: r in xs <==> r in ys) && k <= |xs|
    ensures k <= |ys| && xs[..k] == ys[..k]
  {
    if k > 0 {
      SortedAgree(xs, ys, k - 1);
      forall m | 0 <= m < k - 1 ensures xs[m] == ys[m] {
        assert xs[..k - 1][m] == ys[..k - 1][m];
      }
      assert xs[k - 1] in ys;
      var j :| 0 <= j < |ys| && ys[j] == xs[k - 1];
      assert j >= k - 1;
      assert ys[k - 1] in xs;
      var i :| 0 <= i < |xs| && xs[i] == ys[k - 1];
      assert i >= k - 1;
      assert xs[..k] == xs[..k - 1] + [xs[k - 1]] && ys[..k] == ys[..k - 1] + [ys[k - 1]];
    }
  }

  lemma SortedUnique(xs: seq<Rec>, ys: seq<Rec>)
    requires Ascending(xs) && Ascending(ys) && forall r :: r in xs <==> r in ys
    ensures xs == ys
  {
    SortedAgree(xs, ys, |xs|);
    SortedAgree(ys, xs, |ys|);
    assert xs[..|xs|] == xs && ys[..|ys|] == ys;
  }

  // ---------- the bytes determine the contents ----------

  lemma Split(a: seq<Byte>, b: seq<Byte>, c: seq<Byte>, d: seq<Byte>)
    requires a + b == c + d && |a| == |c|
    ensures a == c && b == d
  {
    assert a == (a + b)[..|a|] && c == (c + d)[..|c|];
    assert b == (a + b)[|a|..] && d == (c + d)[|c|..];
  }

  lemma LEInjective(v: nat, w: nat, n: nat)
    requires v < Pow256(n) && w < Pow256(n) && LE(v, n) == LE(w, n)
    ensures v == w
  {
    LERoundTrip(v, n);
    LERoundTrip(w, n);
  }

  lemma SLEInjective(v: int, w: int, n: nat)
    requires FitsSigned(v, n) && FitsSigned(w, n) && SLE(v, n) == SLE(w, n)
    ensures v == w
  {
    SignedRoundTrip(v, n);
    SignedRoundTrip(w, n);
    LEInjective(ToUnsigned(v, n), ToUnsigned(w, n), n);
  }

  ghost predicate AllFit(ids: seq<int>) {
    forall i :: 0 <= i < |ids| ==> FitsSigned(ids[i], 8)
  }

  ghost predicate LevFits(l: Lev) {
    l.t < Pow256(4) && FitsSigned(l.total, 8) && |l.ids| < Pow256(4) && AllFit(l.ids)
  }

  ghost predicate RecFits(r: Rec) {
    FitsSigned(r.id, 8) && FitsSigned(r.price, 8) && FitsSigned(r.qty, 8) && FitsSigned(r.filled, 8)
  }

  lemma {:induction false} IdsInjective(x: seq<int>, y: seq<int>)
    requires |x| == |y| && AllFit(x) && AllFit(y)
    ensures |IdBytes(x)| == |IdBytes(y)|
    ensures IdBytes(x) == IdBytes(y) ==> x == y
  {
    if x != [] {
      var n := |x| - 1;
      IdsInjective(x[..n], y[..n]);
      if IdBytes(x) == IdBytes(y) {
        Split(IdBytes(x[..n]), SLE(x[n], 8), IdBytes(y[..n]), SLE(y[n], 8));
        SLEInjective(x[n], y[n], 8);
        assert x == x[..n] + [x[n]] && y == y[..n] + [y[n]];
      }
    }
  }

  lemma HeadInjective(x: Lev, y: Lev)
    requires LevFits(x) && LevFits(y)
    requires LevHead(x.side, x.t, x.total, |x.ids|) == LevHead(y.side, y.t, y.total, |y.ids|)
    ensures x.side == y.side && x.t == y.t && x.total == y.total && |x.ids| == |y.ids|
  {
    Split([x.side] + LE(x.t, 4) + SLE(x.total, 8), LE(|x.ids|, 4), [y.side] + LE(y.t, 4) + SLE(y.total, 8), LE(|y.ids|, 4));
    Split([x.side] + LE(x.t, 4), SLE(x.total, 8), [y.side] + LE(y.t, 4), SLE(y.total, 8));
    Split([x.side], LE(x.t, 4), [y.side], LE(y.t, 4));
    assert [x.side][0] == [y.side][0];
    LEInjective(|x.ids|, |y.ids|, 4);
    LEInjective(x.t, y.t, 4);
    SLEInjective(x.total, y.total, 8);
  }

  /** A level's bytes end where they say: nothing after them can be mistaken for part of it. */
  lemma LevInjective(x: Lev, y: Lev, r: seq<Byte>, s: seq<Byte>)
    requires LevFits(x) && LevFits(y) && LevBytes(x) + r == LevBytes(y) + s
    ensures x == y && r == s
  {
    var hx, hy := LevHead(x.side, x.t, x.total, |x.ids|), LevHead(y.side, y.t, y.total, |y.ids|);
    assert LevBytes(x) + r == hx + (IdBytes(x.ids) + r) && LevBytes(y) + s == hy + (IdBytes(y.ids) + s);
    Split(hx, IdBytes(x.ids) + r, hy, IdBytes(y.ids) + s);
    HeadInjective(x, y);
    IdsInjective(x.ids, y.ids);
    Split(IdBytes(x.ids), r, IdBytes(y.ids), s);
  }

  lemma {:induction false} LevsInjective(xs: seq<Lev>, ys: seq<Lev>)
    requires (forall i :: 0 <= i < |xs| ==> LevFits(xs[i])) && (forall i :: 0 <= i < |ys| ==> LevFits(ys[i]))
    requires LevsBytes(xs) == LevsBytes(ys)
    ensures xs == ys
  {
    if xs != [] && ys != [] {
      LevInjective(xs[0], ys[0], LevsBytes(xs[1..]), LevsBytes(ys[1..]));
      LevsInjective(xs[1..], ys[1..]);
      assert xs == [xs[0]] + xs[1..] && ys == [ys[0]] + ys[1..];
    }
  }

  lemma RecInjective(x: Rec, y: Rec)
    requires RecFits(x) && RecFits(y) && RecBytes(x) == RecBytes(y)
    ensures x == y
  {
    var x4, y4 := SLE(x.id, 8) + SLE(x.price, 8) + SLE(x.qty, 8) + SLE(x.filled, 8), SLE(y.id, 8) + SLE(y.price, 8) + SLE(y.qty, 8) + SLE(y.filled, 8);
    Split(x4, [x.side], y4, [y.side]);
    assert [x.side][0] == [y.side][0];
    Split(SLE(x.id, 8) + SLE(x.price, 8) + SLE(x.qty, 8), SLE(x.filled, 8), SLE(y.id, 8) + SLE(y.price, 8) + SLE(y.qty, 8), SLE(y.filled, 8));
    Split(SLE(x.id, 8) + SLE(x.price, 8), SLE(x.qty, 8), SLE(y.id, 8) + SLE(y.price, 8), SLE(y.qty, 8));
    Split(SLE(x.id, 8), SLE(x.price, 8), SLE(y.id, 8), SLE(y.price, 8));
    SLEInjective(x.id, y.id, 8);
    SLEInjective(x.price, y.price, 8);
    SLEInjective(x.qty, y.qty, 8);
    SLEInjective(x.filled, y.filled, 8);
  }

  lemma {:induction false} RecsInjective(xs: seq<Rec>, ys: seq<Rec>)
    requires |xs| == |ys| && (forall i :: 0 <= i < |xs| ==> RecFits(xs[i])) && (forall i :: 0 <= i < |ys| ==> RecFits(ys[i]))
    ensures |RecsBytes(xs)| == |RecsBytes(ys)|
    ensures RecsBytes(xs) == RecsBytes(ys) ==> xs == ys
  {
    if xs != [] {
      var n := |xs| - 1;
      RecsInjective(xs[..n], ys[..n]);
      if RecsBytes(xs) == RecsBytes(ys) {
        Split(RecsBytes(xs[..n]), RecBytes(xs[n]), RecsBytes(ys[..n]), RecBytes(ys[n]));
        RecInjective(xs[n], ys[n]);
        assert xs == xs[..n] + [xs[n]] && ys == ys[..n] + [ys[n]];
      }
    }
  }

  // ---------- occupied levels ----------

  lemma {:induction false} LaneLevsAre(side: Side, lane: seq<seq<Rec>>, n: nat)
    requires n <= |lane|
    ensures forall l :: l in LaneLevs(side, lane, n) ==> l.side == side && l.t < n && lane[l.t] != [] && l == LevOf(side, l.t, lane[l.t])
    ensures forall t :: 0 <= t < n && lane[t] != [] ==> LevOf(side, t, lane[t]) in LaneLevs(side, lane, n)
  {
    if n > 0 { LaneLevsAre(side, lane, n - 1); }
  }

  lemma LevsAre(a: Queues, side: Side, t: nat)
    requires t < |a.Lane(side)|
    ensures a.Lane(side)[t] != [] ==> LevOf(side, t, a.Lane(side)[t]) in Levs(a)
    ensures forall l :: l in Levs(a) && l.side == side && l.t == t ==> a.Lane(side)[t] != [] && l == LevOf(side, t, a.Lane(side)[t])
  {
    LaneLevsAre(0, a.bids, |a.bids|);
    LaneLevsAre(1, a.asks, |a.asks|);
    assert Levs(a) == LaneLevs(0, a.bids, |a.bids|) + LaneLevs(1, a.asks, |a.asks|);
  }

  // ---------- the theorem ----------

  ghost predicate Fits(a: Queues, sorted: seq<Rec>) {
    && |a.bids| < Pow256(4) && |a.asks| < Pow256(4) && |sorted| < Pow256(4)
    && (forall i :: 0 <= i < |sorted| ==> RecFits(sorted[i]))
    && (forall i :: 0 <= i < |Levs(a)| ==> LevFits(Levs(a)[i]))
  }

  lemma DigestSplits(ha: seq<Byte>, hb: seq<Byte>, la: seq<Byte>, lb: seq<Byte>, ra: seq<Byte>, rb: seq<Byte>)
    requires |ha| == |hb| && ha + la + ra == hb + lb + rb
    ensures ha == hb && la + ra == lb + rb && |la| + |ra| == |lb| + |rb|
  {
    assert ha + la + ra == ha + (la + ra) && hb + lb + rb == hb + (lb + rb);
    Split(ha, la + ra, hb, lb + rb);
    assert |la + ra| == |lb + rb|;
  }

  lemma HeadsAgree(bid1: int, ask1: int, n1: nat, bid2: int, ask2: int, n2: nat)
    requires Head(bid1, ask1, n1) == Head(bid2, ask2, n2) && n1 < Pow256(4) && n2 < Pow256(4)
    ensures n1 == n2
  {
    Split(SLE(bid1, 4) + SLE(ask1, 4), LE(n1, 4), SLE(bid2, 4) + SLE(ask2, 4), LE(n2, 4));
    LEInjective(n1, n2, 4);
  }

  /** Equal digests: the same sorted orders and the same occupied levels. */
  lemma PartsAgree(a: Queues, sa: seq<Rec>, b: Queues, sb: seq<Rec>)
    requires Fits(a, sa) && Fits(b, sb) && Digest(a, sa) == Digest(b, sb)
    ensures sa == sb && Levs(a) == Levs(b)
  {
    var bid1, ask1, bid2, ask2 := TopOf(a.bids, |a.bids|), BottomOf(a.asks, 0), TopOf(b.bids, |b.bids|), BottomOf(b.asks, 0);
    var ha, hb := Head(bid1, ask1, |sa|), Head(bid2, ask2, |sb|);
    DigestSplits(ha, hb, LevsBytes(Levs(a)), LevsBytes(Levs(b)), RecsBytes(sa), RecsBytes(sb));
    HeadsAgree(bid1, ask1, |sa|, bid2, ask2, |sb|);
    RecsInjective(sa, sb);
    Split(LevsBytes(Levs(a)), RecsBytes(sa), LevsBytes(Levs(b)), RecsBytes(sb));
    LevsInjective(Levs(a), Levs(b));
  }

  /** The same level in both. */
  lemma LevelAgrees(a: Queues, b: Queues, s: seq<Rec>, side: Side, t: nat)
    requires Lists(a, s) && Lists(b, s) && Levs(a) == Levs(b) && t < |a.Lane(side)| == |b.Lane(side)|
    ensures a.Lane(side)[t] == b.Lane(side)[t]
  {
    var qa, qb := a.Lane(side)[t], b.Lane(side)[t];
    LevsAre(a, side, t);
    LevsAre(b, side, t);
    if qa != [] { assert LevOf(side, t, qa) in Levs(b); }
    if qb != [] { assert LevOf(side, t, qb) in Levs(a); }
    assert qa != [] || qb != [] ==> Ids(qa) == Ids(qb);
    assert |qa| == |qb| by { assert |Ids(qa)| == |qa| && |Ids(qb)| == |qb|; }
    forall i | 0 <= i < |qa| ensures qa[i] == qb[i] {
      assert Ids(qa)[i] == qa[i].id && Ids(qb)[i] == qb[i].id;
      assert Rests(a, qa[i]) && Rests(b, qb[i]);
      assert qa[i] in s && qb[i] in s;
    }
  }

  /** Two books over the same ladder have equal digests exactly when their contents are
      equal, whatever their slots and free lists. */
  lemma DigestIffContents(a: Queues, sa: seq<Rec>, b: Queues, sb: seq<Rec>)
    requires Lists(a, sa) && Lists(b, sb) && Fits(a, sa) && Fits(b, sb)
    requires a.priceMin == b.priceMin && a.tick == b.tick && |a.bids| == |b.bids| && |a.asks| == |b.asks|
    ensures Digest(a, sa) == Digest(b, sb) <==> a == b
  {
    if a == b { SortedUnique(sa, sb); }
    if Digest(a, sa) == Digest(b, sb) {
      PartsAgree(a, sa, b, sb);
      forall t | 0 <= t < |a.bids| ensures a.bids[t] == b.bids[t] { LevelAgrees(a, b, sa, 0, t); }
      forall t | 0 <= t < |a.asks| ensures a.asks[t] == b.asks[t] { LevelAgrees(a, b, sa, 1, t); }
      assert a.bids == b.bids && a.asks == b.asks;
    }
  }
}
