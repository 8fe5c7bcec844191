/** The Go book's id index: an open-addressing table with linear probing and
    backward-shift deletion, proved to be a finite map for every hash function.
    Key 0 marks an empty cell.
 */
module IdMap {
  import opened Arith
  import opened BookSpec

  // ---------- cyclic positions ----------

  /** Steps from `from` forward to `to` around a ring of `n` cells: `(to - from) & mask`. */
  function Gap(n: nat, from: nat, to: nat): (g: nat)
    requires from < n && to < n
    ensures g < n
  {
    if to >= from then to - from else to + n - from
  }

  function Succ(n: nat, i: nat): (j: nat)
    requires i < n
    ensures j < n
  {
    if i + 1 == n then 0 else i + 1
  }

  /** The source masks a wrapping 64-bit difference; over a ring of `n` cells that is the remainder. */
  lemma GapIsMasked(n: nat, from: nat, to: nat)
    requires from < n && to < n
    ensures Gap(n, from, to) == (to - from) % n
  {
    if to >= from { SmallMod(to - from, n); }
    else { SmallMod(to + n - from, n); AddMod(to - from, n); }
  }

  // ---------- the table invariant ----------

  function Ideal(hash: int -> nat, n: nat, k: int): (h: nat)
    requires n > 0
    ensures h < n
  {
    hash(k) % n
  }

  /** No cell on the probe path of the key in cell `m` is empty, except possibly `hole`. */
  ghost predicate Reaches(hash: int -> nat, ks: seq<int>, m: nat, hole: int)
    requires m < |ks|
  {
    var n := |ks|;
    var h := Ideal(hash, n, ks[m]);
    forall p :: 0 <= p < n && Gap(n, h, p) < Gap(n, h, m) && p != hole ==> ks[p] != 0
  }

  ghost predicate Probed(hash: int -> nat, ks: seq<int>, hole: int) {
    forall m :: 0 <= m < |ks| && ks[m] != 0 ==> Reaches(hash, ks, m, hole)
  }

  ghost predicate Unique(ks: seq<int>) {
    forall a, b :: 0 <= a < b < |ks| && ks[a] != 0 ==> ks[a] != ks[b]
  }

  ghost predicate Holds(ks: seq<int>, vs: seq<nat>, contents: map<int, nat>)
    requires |ks| == |vs|
  {
    && (forall i :: 0 <= i < |ks| && ks[i] != 0 ==> ks[i] in contents && contents[ks[i]] == vs[i])
    && (forall k :: k in contents ==> k != 0 && k in ks)
  }

  /** More cells than keys, so some cell is empty. */
  lemma {:induction false} EmptyCell(ks: seq<int>, keys: set<int>)
    requires Unique(ks) && |keys| < |ks| && forall i :: 0 <= i < |ks| && ks[i] != 0 ==> ks[i] in keys
    ensures exists e :: 0 <= e < |ks| && ks[e] == 0
  {
    var last := |ks| - 1;
    if ks[last] != 0 {
      EmptyCell(ks[..last], keys - {ks[last]});
      var e :| 0 <= e < last && ks[..last][e] == 0;
      assert ks[e] == 0;
    }
  }

  /** A probe that stops at an empty cell has seen every cell where the key could be. */
  lemma AbsentAt(hash: int -> nat, ks: seq<int>, k: int, i: nat)
    requires k != 0 && i < |ks| && ks[i] == 0 && Probed(hash, ks, -1)
    requires var h := Ideal(hash, |ks|, k);
             forall p :: 0 <= p < |ks| && Gap(|ks|, h, p) < Gap(|ks|, h, i) ==> ks[p] != k
    ensures k !in ks
  {
    if k in ks {
      var m :| 0 <= m < |ks| && ks[m] == k;
      assert Reaches(hash, ks, m, -1);
      assert Gap(|ks|, Ideal(hash, |ks|, k), m) >= Gap(|ks|, Ideal(hash, |ks|, k), i);
      assert m != i;
      GapInjective(|ks|, Ideal(hash, |ks|, k), i, m);
      assert false;
    }
  }

  lemma GapInjective(n: nat, from: nat, a: nat, b: nat)
    requires from < n && a < n && b < n && a != b
    ensures Gap(n, from, a) != Gap(n, from, b)
  {
  }

  ghost predicate IsPow2(n: nat)
  {
    n == 1 || (n > 1 && n % 2 == 0 && IsPow2(n / 2))
  }

  /** The smallest power of two at least `2 * capacity`. */
  method TableSize(capacity: nat) returns (n: nat)
    ensures n > 0 && n >= 2 * capacity && IsPow2(n)
    ensures n > 1 ==> n / 2 < 2 * capacity
  {
    n := 1;
    while n < capacity * 2
      invariant n > 0 && IsPow2(n) && (n > 1 ==> n / 2 < 2 * capacity)
      decreases capacity * 2 - n
    {
      assert IsPow2(2 * n);
      n := 2 * n;
    }
  }

  lemma EmptyTable(hash: int -> nat, ks: seq<int>, vs: seq<nat>)
    requires |ks| == |vs| && forall i :: 0 <= i < |ks| ==> ks[i] == 0
    ensures Unique(ks) && Probed(hash, ks, -1) && Holds(ks, vs, map[])
  {
  }

  class Table {
    const hash: int -> nat
    const keys: array<int>
    const vals: array<nat>
    ghost var contents: map<int, nat>

    ghost predicate Valid()
      reads this, keys, vals
    {
      && keys.Length == vals.Length && keys.Length > 0
      && Unique(keys[..])
      && Probed(hash, keys[..], -1)
      && Holds(keys[..], vals[..], contents)
      && |contents| < keys.Length
    }

    /** At most half the cells are ever used. */
    constructor (capacity: nat, hash: int -> nat)
      ensures Valid() && contents == map[] && fresh(keys) && fresh(vals)
      ensures this.hash == hash
      ensures keys.Length >= 2 * capacity && IsPow2(keys.Length)
    {
      var n := TableSize(capacity);
      this.hash := hash;
      keys := new int[n](_ => 0);
      vals := new nat[n](_ => 0);
      contents := map[];
      new;
      EmptyTable(hash, keys[..], vals[..]);
    }

    /** First cell of the probe path of `k` that is empty or holds `k`. */
    method Probe(k: int) returns (i: nat)
      requires Valid() && k != 0
      ensures i < keys.Length && (keys[i] == 0 || keys[i] == k)
      ensures keys[i] == 0 <==> k !in contents
      ensures var h := Ideal(hash, keys.Length, k);
              forall p :: 0 <= p < keys.Length && Gap(keys.Length, h, p) < Gap(keys.Length, h, i) ==> keys[p] != 0 && keys[p] != k
    {
      ghost var n := keys.Length;
      ghost var h := Ideal(hash, keys.Length, k);
      EmptyCell(keys[..], contents.Keys);
      ghost var e :| 0 <= e < n && keys[..][e] == 0;
      i := Ideal(hash, keys.Length, k);
      while keys[i] != 0 && keys[i] != k
        invariant i < n
        invariant forall p :: 0 <= p < n && Gap(n, h, p) < Gap(n, h, i) ==> keys[p] != 0 && keys[p] != k
        decreases n - Gap(n, h, i)
      {
        assert Gap(n, h, e) >= Gap(n, h, i);
        GapInjective(n, h, e, i);
        GapStep(n, h, i);
        i := Succ(keys.Length, i);
      }
      if keys[i] == 0 {
        AbsentAt(hash, keys[..], k, i);
      }
    }

    /** Bind `k` to `v`; one cell must stay empty, as it does while at most `capacity` keys are live. */
    method Put(k: int, v: nat)
      requires Valid() && k != 0 && |contents[k := v]| < keys.Length
      modifies keys, vals, `contents
      ensures Valid() && contents == old(contents)[k := v]
    {
      ghost var was := keys[..];
      var i := Probe(k);
      PutProbed(hash, keys[..], i, k);
      PutHolds(keys[..], vals[..], contents, i, k, v);
      keys[i] := k;
      vals[i] := v;
      contents := contents[k := v];
      assert keys[..] == was[i := k];
      assert vals[..] == old(vals[..])[i := v];
    }

    method Get(k: int) returns (v: nat)
      requires Valid()
      ensures v == if k in contents then contents[k] else NIL
    {
      if k == 0 { return NIL; }
      var i := Probe(k);
      return if keys[i] == 0 then NIL else vals[i];
    }

    /** A table whose only broken probe paths run through the empty cell `i`,
        with the cells from `i` through `j` already known not to need it. */
    ghost predicate Shifting(i: nat, j: nat)
      reads this, keys, vals
    {
      && keys.Length == vals.Length
      && i < keys.Length && j < keys.Length && keys[i] == 0
      && Unique(keys[..]) && Holds(keys[..], vals[..], contents)
      && Probed(hash, keys[..], i) && Settled(hash, keys[..], i, j)
    }

    /** Remove `k` and pull back every key whose probe path crossed the hole. */
    method Del(k: int)
      requires Valid() && k != 0
      modifies keys, vals, `contents
      ensures Valid() && contents == old(contents) - {k}
    {
      var i := Probe(k);
      if keys[i] == 0 {
        assert contents - {k} == contents;
        return;
      }
      EmptyCell(keys[..], contents.Keys);
      ghost var e :| 0 <= e < keys.Length && keys[..][e] == 0;
      ghost var was := keys[..];
      HoleAt(hash, keys[..], vals[..], contents, i);
      keys[i] := 0;
      assert keys[..] == was[i := 0];
      contents := contents - {k};
      assert contents.Keys == old(contents.Keys) - {k};
      ShiftBack(i, e);
    }

    /** The shift loop of `del`: walk forward from the hole until an empty cell. */
    method ShiftBack(hole: nat, ghost e: nat)
      requires Shifting(hole, hole) && e < keys.Length && e != hole && keys[e] == 0 && |contents| < keys.Length
      modifies keys, vals
      ensures Valid()
    {
      var i, j := hole, hole;
      while true
        invariant Shifting(i, j)
        invariant keys[e] == 0 && Gap(keys.Length, i, j) < Gap(keys.Length, i, e)
        decreases Gap(keys.Length, j, e)
      {
        ghost var j0 := j;
        j := Succ(keys.Length, j);
        GapNext(keys.Length, i, j0, e);
        if keys[j] == 0 {
          HoleHealed(hash, keys[..], i, j0);
          return;
        }
        var h := Ideal(hash, keys.Length, keys[j]);
        if Gap(keys.Length, h, j) >= Gap(keys.Length, i, j) {
          Pull(i, j, j0);
          i := j;
        } else {
          Settles(hash, keys[..], i, j0);
        }
      }
    }

    /** Move the entry of cell `j` into the hole at `i`; the hole is then `j`. */
    method Pull(i: nat, j: nat, ghost j0: nat)
      requires Shifting(i, j0) && j < keys.Length && j != i && keys[j] != 0
      requires Gap(keys.Length, Ideal(hash, keys.Length, keys[j]), j) >= Gap(keys.Length, i, j)
      modifies keys, vals
      ensures Shifting(j, j)
      ensures forall p :: 0 <= p < keys.Length && old(keys[p]) == 0 && p != i ==> keys[p] == 0
    {
      ghost var ks, vs := keys[..], vals[..];
      MoveReaches(hash, ks, i, j);
      MoveHolds(ks, vs, contents, i, j);
      keys[i] := keys[j];
      vals[i] := vals[j];
      keys[j] := 0;
      assert keys[..] == Moved(ks, i, j, 0);
      assert vals[..] == vs[i := vs[j]];
    }
  }

  /** One step forward is one cell further, as long as the ring is not exhausted. */
  lemma GapStep(n: nat, h: nat, i: nat)
    requires h < n && i < n
    ensures Gap(n, h, i) + 1 < n ==> Gap(n, h, Succ(n, i)) == Gap(n, h, i) + 1
    ensures forall p :: 0 <= p < n && Gap(n, h, p) <= Gap(n, h, i) && p != i ==> Gap(n, h, p) < Gap(n, h, i)
  {
  }

  // ---------- put ----------

  lemma PutProbed(hash: int -> nat, ks: seq<int>, i: nat, k: int)
    requires i < |ks| && k != 0 && (ks[i] == 0 || ks[i] == k) && Probed(hash, ks, -1)
    requires var h := Ideal(hash, |ks|, k);
             forall p :: 0 <= p < |ks| && Gap(|ks|, h, p) < Gap(|ks|, h, i) ==> ks[p] != 0
    ensures Probed(hash, ks[i := k], -1)
  {
    var ks' := ks[i := k];
    forall m | 0 <= m < |ks'| && ks'[m] != 0 ensures Reaches(hash, ks', m, -1) {
      if m != i { assert Reaches(hash, ks, m, -1); }
    }
  }

  lemma PutHolds(ks: seq<int>, vs: seq<nat>, contents: map<int, nat>, i: nat, k: int, v: nat)
    requires |ks| == |vs| && i < |ks| && k != 0 && (ks[i] == 0 || ks[i] == k)
    requires ks[i] == 0 <==> k !in contents
    requires Unique(ks) && Holds(ks, vs, contents)
    ensures Unique(ks[i := k]) && Holds(ks[i := k], vs[i := v], contents[k := v])
  {
    var ks' := ks[i := k];
    forall x | x in contents[k := v] ensures x != 0 && x in ks' {
      if x == k { assert ks'[i] == k; }
      else {
        var m :| 0 <= m < |ks| && ks[m] == x;
        assert ks'[m] == x;
      }
    }
  }

  // ---------- delete ----------

  /** Cell `i` is not on the probe path of the key in cell `m`. */
  ghost predicate Clear(hash: int -> nat, ks: seq<int>, m: nat, i: nat)
    requires m < |ks| && i < |ks|
  {
    Gap(|ks|, Ideal(hash, |ks|, ks[m]), i) >= Gap(|ks|, Ideal(hash, |ks|, ks[m]), m)
  }

  /** The scanned cells after the hole no longer depend on it. */
  ghost predicate Settled(hash: int -> nat, ks: seq<int>, i: nat, j: nat)
    requires i < |ks| && j < |ks|
  {
    forall m :: 0 <= m < |ks| && ks[m] != 0 && Gap(|ks|, i, m) <= Gap(|ks|, i, j) ==> Clear(hash, ks, m, i)
  }

  lemma HoleAt(hash: int -> nat, ks: seq<int>, vs: seq<nat>, contents: map<int, nat>, i: nat)
    requires |ks| == |vs| && i < |ks| && ks[i] != 0
    requires Unique(ks) && Probed(hash, ks, -1) && Holds(ks, vs, contents)
    ensures Unique(ks[i := 0]) && Probed(hash, ks[i := 0], i) && Holds(ks[i := 0], vs, contents - {ks[i]})
    ensures Settled(hash, ks[i := 0], i, i)
  {
    var ks' := ks[i := 0];
    forall m | 0 <= m < |ks'| && ks'[m] != 0 ensures Reaches(hash, ks', m, i) {
      assert Reaches(hash, ks, m, -1);
    }
    forall x | x in contents - {ks[i]} ensures x != 0 && x in ks' {
      var m :| 0 <= m < |ks| && ks[m] == x;
      assert ks'[m] == x;
    }
  }

  lemma GapNext(n: nat, i: nat, j: nat, e: nat)
    requires i < n && j < n && e < n && Gap(n, i, j) < Gap(n, i, e)
    ensures Gap(n, i, Succ(n, j)) == Gap(n, i, j) + 1
    ensures Gap(n, j, e) > 0 && Gap(n, Succ(n, j), e) == Gap(n, j, e) - 1
    ensures Succ(n, j) != e ==> Gap(n, i, Succ(n, j)) < Gap(n, i, e)
  {
  }

  /** Going forward from `h`: if `i` comes before `m`, and `j` lies between `i` and `m`, then `j` comes before `m`. */
  lemma Between(n: nat, h: nat, i: nat, j: nat, m: nat)
    requires h < n && i < n && j < n && m < n
    requires Gap(n, h, i) < Gap(n, h, m) && Gap(n, i, j) < Gap(n, i, m)
    ensures Gap(n, h, j) < Gap(n, h, m)
  {
  }

  /** An empty cell right behind the settled stretch ends the search: nothing depends on the hole any more. */
  lemma HoleHealed(hash: int -> nat, ks: seq<int>, i: nat, j: nat)
    requires i < |ks| && j < |ks| && ks[i] == 0
    requires Gap(|ks|, i, Succ(|ks|, j)) == Gap(|ks|, i, j) + 1 && ks[Succ(|ks|, j)] == 0
    requires Probed(hash, ks, i) && Settled(hash, ks, i, j)
    ensures Probed(hash, ks, -1)
  {
    var n := |ks|;
    var j' := Succ(n, j);
    forall m | 0 <= m < n && ks[m] != 0 ensures Reaches(hash, ks, m, -1) {
      assert Reaches(hash, ks, m, i);
      var h := Ideal(hash, n, ks[m]);
      if Gap(n, i, m) <= Gap(n, i, j) {
        assert Clear(hash, ks, m, i);
      } else if Gap(n, h, i) < Gap(n, h, m) {
        GapInjective(n, i, m, j');
        Between(n, h, i, j', m);
        assert false;
      }
    }
  }

  function Moved<T>(s: seq<T>, i: nat, j: nat, empty: T): seq<T>
    requires i < |s| && j < |s|
  {
    s[i := s[j]][j := empty]
  }

  /** The key at `j` may move into the hole at `i`: the hole lies on its probe path. */
  lemma MoveReaches(hash: int -> nat, ks: seq<int>, i: nat, j: nat)
    requires i < |ks| && j < |ks| && i != j && ks[i] == 0 && ks[j] != 0
    requires Probed(hash, ks, i)
    requires Gap(|ks|, Ideal(hash, |ks|, ks[j]), j) >= Gap(|ks|, i, j)
    ensures Probed(hash, Moved(ks, i, j, 0), j) && Settled(hash, Moved(ks, i, j, 0), j, j)
  {
    var ks' := Moved(ks, i, j, 0);
    forall m | 0 <= m < |ks'| && ks'[m] != 0 ensures Reaches(hash, ks', m, j) {
      if m == i {
        assert Reaches(hash, ks, j, i);
        MovedPath(|ks|, Ideal(hash, |ks|, ks[j]), i, j);
      } else {
        assert Reaches(hash, ks, m, i);
      }
    }
    assert forall m :: 0 <= m < |ks'| && Gap(|ks'|, j, m) <= Gap(|ks'|, j, j) ==> m == j;
  }

  lemma MoveHolds(ks: seq<int>, vs: seq<nat>, contents: map<int, nat>, i: nat, j: nat)
    requires |ks| == |vs| && i < |ks| && j < |ks| && i != j && ks[i] == 0 && ks[j] != 0
    requires Unique(ks) && Holds(ks, vs, contents)
    ensures Unique(Moved(ks, i, j, 0)) && Holds(Moved(ks, i, j, 0), vs[i := vs[j]], contents)
  {
    var ks' := Moved(ks, i, j, 0);
    forall x | x in contents ensures x != 0 && x in ks' {
      var m :| 0 <= m < |ks| && ks[m] == x;
      assert ks'[if m == j then i else m] == x;
    }
  }

  lemma MovedPath(n: nat, h: nat, i: nat, j: nat)
    requires h < n && i < n && j < n && i != j && Gap(n, h, j) >= Gap(n, i, j)
    ensures Gap(n, h, i) < Gap(n, h, j)
  {
  }

  /** The key at the next cell stays: the hole is not on its path. */
  lemma Settles(hash: int -> nat, ks: seq<int>, i: nat, j: nat)
    requires i < |ks| && j < |ks|
    requires Gap(|ks|, i, Succ(|ks|, j)) == Gap(|ks|, i, j) + 1
    requires Gap(|ks|, Ideal(hash, |ks|, ks[Succ(|ks|, j)]), Succ(|ks|, j)) < Gap(|ks|, i, Succ(|ks|, j))
    requires Settled(hash, ks, i, j)
    ensures Settled(hash, ks, i, Succ(|ks|, j))
  {
    var n := |ks|;
    var j' := Succ(n, j);
    forall m | 0 <= m < n && ks[m] != 0 && Gap(n, i, m) <= Gap(n, i, j') ensures Clear(hash, ks, m, i) {
      if m != j' {
        GapInjective(n, i, m, j');
        assert Gap(n, i, m) <= Gap(n, i, j);
      }
    }
  }
}
