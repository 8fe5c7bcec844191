/** The digest byte by byte: best prices and number of orders, then every occupied
    level with its ids front to back, then the orders by ascending id.
 */
module DigestLayout {
  import opened BookSpec
  import opened BookInvariant
  import opened PriceTime
  import opened Wire
  import opened DigestSpec
  import opened DigestBook

  ghost predicate LevShown(data: seq<Byte>, off: nat, l: Lev) {
    && off + 17 <= |data| && data[off] == l.side && Shows(data, off + 1, 4, l.t)
    && Shows(data, off + 5, 8, l.total) && Shows(data, off + 13, 4, |l.ids|)
    && forall i :: 0 <= i < |l.ids| ==> Shows(data, off + 17 + 8 * i, 8, l.ids[i])
  }

  ghost predicate RecShown(data: seq<Byte>, off: nat, r: Rec) {
    && off + 33 <= |data| && Shows(data, off, 8, r.id) && Shows(data, off + 8, 8, r.price)
    && Shows(data, off + 16, 8, r.qty) && Shows(data, off + 24, 8, r.filled) && data[off + 32] == r.side
  }

  /** Bytes of the first `k` levels. */
  ghost function LevsSize(ls: seq<Lev>, k: nat): nat
    requires k <= |ls|
  {
    if k == 0 then 0 else LevsSize(ls, k - 1) + 17 + 8 * |ls[k - 1].ids|
  }

  /** The occupied levels of the queues, bids before asks, each side by ascending level. */
  ghost predicate Listed(a: Queues, ls: seq<Lev>) {
    && (forall k :: 0 <= k < |ls| ==> ls[k].t < |a.Lane(ls[k].side)|)
    && (forall k :: 0 <= k < |ls| ==> IsLevel(ls[k], a.Lane(ls[k].side)[ls[k].t]))
    && (forall j, k :: 0 <= j < k < |ls| ==> ls[j].side < ls[k].side || (ls[j].side == ls[k].side && ls[j].t < ls[k].t))
    && (forall side: Side, t :: 0 <= t < |a.Lane(side)| && a.Lane(side)[t] != [] ==> exists k :: 0 <= k < |ls| && ls[k].side == side && ls[k].t == t)
  }

  ghost predicate IsLevel(l: Lev, q: seq<Rec>) {
    q != [] && l.total == SumLeft(q) && |l.ids| == |q| && forall i :: 0 <= i < |q| ==> l.ids[i] == q[i].id
  }

  /** `ls` are levels of `lane`, all of `side`, ascending. */
  ghost predicate OfLane(side: Side, lane: seq<seq<Rec>>, n: nat, ls: seq<Lev>)
    requires n <= |lane|
  {
    && (forall k :: 0 <= k < |ls| ==> ls[k].side == side && ls[k].t < n && IsLevel(ls[k], lane[ls[k].t]))
    && (forall j, k :: 0 <= j < k < |ls| ==> ls[j].t < ls[k].t)
  }

  lemma {:induction false} LaneLevsSorted(side: Side, lane: seq<seq<Rec>>, n: nat)
    requires n <= |lane|
    ensures OfLane(side, lane, n, LaneLevs(side, lane, n))
  {
    if n > 0 {
      LaneLevsSorted(side, lane, n - 1);
      var ls, ls' := LaneLevs(side, lane, n - 1), LaneLevs(side, lane, n);
      if lane[n - 1] == [] {
        assert ls' == ls;
      } else {
        assert ls' == ls + [LevOf(side, n - 1, lane[n - 1])];
        assert IsLevel(LevOf(side, n - 1, lane[n - 1]), lane[n - 1]);
      }
    }
  }

  lemma LevsSorted(a: Queues, x: seq<Lev>, y: seq<Lev>, ls: seq<Lev>)
    requires OfLane(0, a.bids, |a.bids|, x) && OfLane(1, a.asks, |a.asks|, y) && ls == x + y
    ensures forall k :: 0 <= k < |ls| ==> ls[k].t < |a.Lane(ls[k].side)|
    ensures forall k :: 0 <= k < |ls| ==> IsLevel(ls[k], a.Lane(ls[k].side)[ls[k].t])
    ensures forall j, k :: 0 <= j < k < |ls| ==> ls[j].side < ls[k].side || (ls[j].side == ls[k].side && ls[j].t < ls[k].t)
  {
    forall k | 0 <= k < |ls| ensures ls[k] == if k < |x| then x[k] else y[k - |x|] { }
  }

  /** The levels a digest shows are the occupied ones in order. */
  lemma LevsListed(a: Queues)
    ensures Listed(a, Levs(a))
  {
    LaneLevsSorted(0, a.bids, |a.bids|);
    LaneLevsSorted(1, a.asks, |a.asks|);
    var ls := Levs(a);
    LevsSorted(a, LaneLevs(0, a.bids, |a.bids|), LaneLevs(1, a.asks, |a.asks|), ls);
    forall side: Side, t | 0 <= t < |a.Lane(side)| && a.Lane(side)[t] != [] ensures exists k :: 0 <= k < |ls| && ls[k].side == side && ls[k].t == t {
      LevsAre(a, side, t);
      InLevs(ls, LevOf(side, t, a.Lane(side)[t]));
    }
  }

  lemma InLevs(ls: seq<Lev>, l: Lev)
    requires l in ls
    ensures exists k :: 0 <= k < |ls| && ls[k].side == l.side && ls[k].t == l.t
  {
  }

  // ---------- pieces ----------

  /** `data` has `piece` at `off`. */
  ghost predicate Lies(data: seq<Byte>, off: nat, piece: seq<Byte>) {
    off + |piece| <= |data| && data[off..off + |piece|] == piece
  }

  lemma LiesIn(data: seq<Byte>, off: nat, front: seq<Byte>, mid: seq<Byte>, rest: seq<Byte>)
    requires Lies(data, off, front + mid + rest)
    ensures Lies(data, off + |front|, mid)
  {
    SubBlock(data, off, front + mid + rest, |front|, mid);
  }

  lemma HeadShows(data: seq<Byte>, bid: int, ask: int, n: nat)
    requires Lies(data, 0, Head(bid, ask, n))
    ensures Shows(data, 0, 4, bid) && Shows(data, 4, 4, ask) && Shows(data, 8, 4, n)
  {
    assert Head(bid, ask, n) == [] + SLE(bid, 4) + (SLE(ask, 4) + LE(n, 4)) == SLE(bid, 4) + SLE(ask, 4) + LE(n, 4);
    assert Head(bid, ask, n) == SLE(bid, 4) + SLE(ask, 4) + LE(n, 4) + [];
    LiesIn(data, 0, [], SLE(bid, 4), SLE(ask, 4) + LE(n, 4));
    LiesIn(data, 0, SLE(bid, 4), SLE(ask, 4), LE(n, 4));
    LiesIn(data, 0, SLE(bid, 4) + SLE(ask, 4), LE(n, 4), []);
    SFieldShown(data, 0, SLE(bid, 4), 0, 4, bid);
    SFieldShown(data, 4, SLE(ask, 4), 0, 4, ask);
    FieldShown(data, 8, LE(n, 4), 0, 4, n);
  }

  lemma {:induction false} IdsSize(ids: seq<int>)
    ensures |IdBytes(ids)| == 8 * |ids|
  {
    if ids != [] { IdsSize(ids[..|ids| - 1]); }
  }

  lemma {:induction false} IdsShow(data: seq<Byte>, off: nat, ids: seq<int>, i: nat)
    requires Lies(data, off, IdBytes(ids)) && i < |ids|
    ensures Shows(data, off + 8 * i, 8, ids[i])
  {
    var n := |ids| - 1;
    IdsSize(ids[..n]);
    if i < n {
      assert IdBytes(ids) == [] + IdBytes(ids[..n]) + SLE(ids[n], 8);
      LiesIn(data, off, [], IdBytes(ids[..n]), SLE(ids[n], 8));
      IdsShow(data, off, ids[..n], i);
    } else {
      assert IdBytes(ids) == IdBytes(ids[..n]) + SLE(ids[n], 8) + [];
      LiesIn(data, off, IdBytes(ids[..n]), SLE(ids[n], 8), []);
      SFieldShown(data, off + 8 * n, SLE(ids[n], 8), 0, 8, ids[n]);
    }
  }

  lemma LevHeadShows(data: seq<Byte>, off: nat, side: Side, t: nat, total: int, count: nat)
    requires Lies(data, off, LevHead(side, t, total, count))
    ensures off + 17 <= |data| && data[off] == side && Shows(data, off + 1, 4, t) && Shows(data, off + 5, 8, total) && Shows(data, off + 13, 4, count)
  {
    var s: seq<Byte> := [side];
    var h := LevHead(side, t, total, count);
    assert h == s + LE(t, 4) + (SLE(total, 8) + LE(count, 4)) == s + LE(t, 4) + SLE(total, 8) + LE(count, 4);
    assert h == s + LE(t, 4) + SLE(total, 8) + LE(count, 4) + [];
    assert data[off] == data[off..off + 17][0];
    LiesIn(data, off, s, LE(t, 4), SLE(total, 8) + LE(count, 4));
    LiesIn(data, off, s + LE(t, 4), SLE(total, 8), LE(count, 4));
    LiesIn(data, off, s + LE(t, 4) + SLE(total, 8), LE(count, 4), []);
    FieldShown(data, off + 1, LE(t, 4), 0, 4, t);
    SFieldShown(data, off + 5, SLE(total, 8), 0, 8, total);
    FieldShown(data, off + 13, LE(count, 4), 0, 4, count);
  }

  lemma LevShows(data: seq<Byte>, off: nat, l: Lev)
    requires Lies(data, off, LevBytes(l))
    ensures LevShown(data, off, l)
  {
    var h := LevHead(l.side, l.t, l.total, |l.ids|);
    assert LevBytes(l) == [] + h + IdBytes(l.ids) == h + IdBytes(l.ids) + [];
    LiesIn(data, off, [], h, IdBytes(l.ids));
    LiesIn(data, off, h, IdBytes(l.ids), []);
    LevHeadShows(data, off, l.side, l.t, l.total, |l.ids|);
    forall i | 0 <= i < |l.ids| ensures Shows(data, off + 17 + 8 * i, 8, l.ids[i]) { IdsShow(data, off + 17, l.ids, i); }
  }

  lemma {:induction false} LevsSizeIs(ls: seq<Lev>, k: nat)
    requires k <= |ls|
    ensures |LevsBytes(ls[..k])| == LevsSize(ls, k)
  {
    if k > 0 {
      LevsSizeIs(ls, k - 1);
      assert ls[..k] == ls[..k - 1] + [ls[k - 1]];
      LevsAppend(ls[..k - 1], [ls[k - 1]]);
      LevsOne(ls[k - 1]);
      IdsSize(ls[k - 1].ids);
    }
  }

  lemma LevsCut(ls: seq<Lev>, k: nat) returns (front: seq<Byte>, rest: seq<Byte>)
    requires k < |ls|
    ensures LevsBytes(ls) == front + LevBytes(ls[k]) + rest && |front| == LevsSize(ls, k)
  {
    front, rest := LevsBytes(ls[..k]), LevsBytes(ls[k..][1..]);
    assert ls == ls[..k] + ls[k..];
    LevsAppend(ls[..k], ls[k..]);
    LevsSizeIs(ls, k);
    Assoc(front, LevBytes(ls[k]), rest);
  }

  lemma LevsLie(ls: seq<Lev>, k: nat)
    requires k < |ls|
    ensures Lies(LevsBytes(ls), LevsSize(ls, k), LevBytes(ls[k]))
  {
    var front, rest := LevsCut(ls, k);
    Middle(LevsBytes(ls), front, LevBytes(ls[k]), rest);
  }

  lemma Middle(data: seq<Byte>, front: seq<Byte>, mid: seq<Byte>, rest: seq<Byte>)
    requires data == front + mid + rest
    ensures Lies(data, |front|, mid)
  {
  }

  lemma RecShows(data: seq<Byte>, off: nat, r: Rec)
    requires Lies(data, off, RecBytes(r))
    ensures RecShown(data, off, r)
  {
    var a, b, c, d, s: seq<Byte> := SLE(r.id, 8), SLE(r.price, 8), SLE(r.qty, 8), SLE(r.filled, 8), [r.side];
    assert RecBytes(r) == [] + a + (b + c + d + s) == a + b + (c + d + s) == a + b + c + (d + s) == a + b + c + d + s;
    assert data[off + 32] == data[off..off + 33][32];
    LiesIn(data, off, [], a, b + c + d + s);
    LiesIn(data, off, a, b, c + d + s);
    LiesIn(data, off, a + b, c, d + s);
    LiesIn(data, off, a + b + c, d, s);
    SFieldShown(data, off, SLE(r.id, 8), 0, 8, r.id);
    SFieldShown(data, off + 8, SLE(r.price, 8), 0, 8, r.price);
    SFieldShown(data, off + 16, SLE(r.qty, 8), 0, 8, r.qty);
    SFieldShown(data, off + 24, SLE(r.filled, 8), 0, 8, r.filled);
  }

  lemma {:induction false} RecsSize(rs: seq<Rec>)
    ensures |RecsBytes(rs)| == 33 * |rs|
  {
    if rs != [] { RecsSize(rs[..|rs| - 1]); }
  }

  lemma {:induction false} RecsLie(rs: seq<Rec>, i: nat)
    requires i < |rs|
    ensures Lies(RecsBytes(rs), 33 * i, RecBytes(rs[i]))
  {
    var n := |rs| - 1;
    RecsSize(rs[..n]);
    if i < n {
      RecsLie(rs[..n], i);
      LiesLonger(RecsBytes(rs[..n]), RecBytes(rs[n]), 33 * i, RecBytes(rs[i]));
    }
  }

  lemma LiesLonger(data: seq<Byte>, more: seq<Byte>, off: nat, piece: seq<Byte>)
    requires Lies(data, off, piece)
    ensures Lies(data + more, off, piece)
  {
    assert (data + more)[off..off + |piece|] == data[off..off + |piece|];
  }

  // ---------- the whole digest ----------

  lemma ThreePieces(data: seq<Byte>, h: seq<Byte>, l: seq<Byte>, r: seq<Byte>)
    requires data == h + l + r
    ensures Lies(data, 0, h) && Lies(data, |h|, l) && Lies(data, |h| + |l|, r)
  {
  }

  /** Where the three parts of a digest lie. */
  lemma PartsLie(data: seq<Byte>, bid: int, ask: int, ls: seq<Lev>, rs: seq<Rec>)
    requires data == Head(bid, ask, |rs|) + LevsBytes(ls) + RecsBytes(rs)
    ensures |data| == 12 + LevsSize(ls, |ls|) + 33 * |rs|
    ensures Lies(data, 0, Head(bid, ask, |rs|)) && Lies(data, 12, LevsBytes(ls)) && Lies(data, 12 + LevsSize(ls, |ls|), RecsBytes(rs))
  {
    assert ls[..|ls|] == ls;
    LevsSizeIs(ls, |ls|);
    RecsSize(rs);
    ThreePieces(data, Head(bid, ask, |rs|), LevsBytes(ls), RecsBytes(rs));
  }

  /** The orders as the digest lists them. */
  ghost function Sorted(st: State): seq<Rec>
    requires st.hwm <= |st.pool|
  {
    SortById(LiveRecs(st.pool, st.hwm))
  }

  lemma ScalarsShow(data: seq<Byte>, bid: int, ask: int, ls: seq<Lev>, rs: seq<Rec>)
    requires data == Head(bid, ask, |rs|) + LevsBytes(ls) + RecsBytes(rs)
    ensures |data| == 12 + LevsSize(ls, |ls|) + 33 * |rs|
    ensures Shows(data, 0, 4, bid) && Shows(data, 4, 4, ask) && Shows(data, 8, 4, |rs|)
  {
    PartsLie(data, bid, ask, ls, rs);
    HeadShows(data, bid, ask, |rs|);
  }

  lemma Later(data: seq<Byte>, front: seq<Byte>, tail: seq<Byte>, at: nat, piece: seq<Byte>)
    requires data == front + tail && Lies(tail, at, piece)
    ensures Lies(data, |front| + at, piece)
  {
    assert tail == tail[..at] + piece + tail[at + |piece|..];
    assert data == front + tail[..at] + piece + tail[at + |piece|..];
  }

  lemma LevelShown(data: seq<Byte>, front: seq<Byte>, levels: seq<Byte>, tail: seq<Byte>, at: nat, l: Lev, off: nat)
    requires data == front + levels + tail && Lies(levels, at, LevBytes(l)) && off == |front| + at
    ensures LevShown(data, off, l)
  {
    Later(front + levels, front, levels, at, LevBytes(l));
    LiesLonger(front + levels, tail, off, LevBytes(l));
    LevShows(data, off, l);
  }

  lemma OrderShown(data: seq<Byte>, front: seq<Byte>, tail: seq<Byte>, i: nat, r: Rec, off: nat)
    requires data == front + tail && off == |front| + 33 * i
    requires Lies(tail, 33 * i, RecBytes(r))
    ensures RecShown(data, off, r)
  {
    Later(data, front, tail, 33 * i, RecBytes(r));
    RecShows(data, off, r);
  }

  lemma FrontSize(bid: int, ask: int, ls: seq<Lev>, n: nat)
    ensures |Head(bid, ask, n) + LevsBytes(ls)| == 12 + LevsSize(ls, |ls|)
  {
    assert ls[..|ls|] == ls;
    LevsSizeIs(ls, |ls|);
  }

  lemma LevelDisplayed(data: seq<Byte>, h: seq<Byte>, ls: seq<Lev>, tail: seq<Byte>, k: nat, off: nat)
    requires data == h + LevsBytes(ls) + tail && k < |ls| && off == |h| + LevsSize(ls, k)
    ensures LevShown(data, off, ls[k])
  {
    LevsLie(ls, k);
    LevelShown(data, h, LevsBytes(ls), tail, LevsSize(ls, k), ls[k], off);
  }

  lemma OrderDisplayed(data: seq<Byte>, front: seq<Byte>, rs: seq<Rec>, i: nat, off: nat)
    requires data == front + RecsBytes(rs) && i < |rs| && off == |front| + 33 * i
    ensures RecShown(data, off, rs[i])
  {
    RecsLie(rs, i);
    OrderShown(data, front, RecsBytes(rs), i, rs[i], off);
  }

  lemma DigestParts(st: State, v: View)
    requires Inv(st, v)
    ensures DigestOf(st, v) == Head(st.bestBid, st.bestAsk, |Sorted(st)|) + LevsBytes(Levs(Abs(st, v))) + RecsBytes(Sorted(st))
  {
    BestsShow(st, v);
  }

  /** The digest of a book shows its cached best prices and the number of its orders; it is as long
      as its occupied levels, each with its ids, and its resting orders, listed by ascending id, make it. */
  lemma DigestShows(st: State, v: View)
    requires Inv(st, v)
    ensures Listed(Abs(st, v), Levs(Abs(st, v))) && Lists(Abs(st, v), Sorted(st))
    ensures var data, ls, rs := DigestOf(st, v), Levs(Abs(st, v)), Sorted(st);
            && |data| == 12 + LevsSize(ls, |ls|) + 33 * |rs|
            && Shows(data, 0, 4, st.bestBid) && Shows(data, 4, 4, st.bestAsk) && Shows(data, 8, 4, |rs|)
  {
    LevsListed(Abs(st, v));
    LiveListed(st, v);
    DigestParts(st, v);
    ScalarsShow(DigestOf(st, v), st.bestBid, st.bestAsk, Levs(Abs(st, v)), Sorted(st));
  }

  /** Every occupied level of the queues is shown behind those before it: side, tick, total,
      count, ids front to back. */
  lemma DigestShowsLevel(a: Queues, rs: seq<Rec>, k: nat)
    requires k < |Levs(a)|
    ensures LevShown(Digest(a, rs), 12 + LevsSize(Levs(a), k), Levs(a)[k])
  {
    var h := Head(TopOf(a.bids, |a.bids|), BottomOf(a.asks, 0), |rs|);
    LevelDisplayed(Digest(a, rs), h, Levs(a), RecsBytes(rs), k, 12 + LevsSize(Levs(a), k));
  }

  /** Every order is shown behind the levels: id, price, quantity, filled, side. */
  lemma DigestShowsOrder(a: Queues, rs: seq<Rec>, i: nat)
    requires i < |rs|
    ensures RecShown(Digest(a, rs), 12 + LevsSize(Levs(a), |Levs(a)|) + 33 * i, rs[i])
  {
    var bid, ask := TopOf(a.bids, |a.bids|), BottomOf(a.asks, 0);
    FrontSize(bid, ask, Levs(a), |rs|);
    OrderDisplayed(Digest(a, rs), Head(bid, ask, |rs|) + LevsBytes(Levs(a)), rs, i, 12 + LevsSize(Levs(a), |Levs(a)|) + 33 * i);
  }
}
