/** Whole calls of the multi-producer ring: what a `drain` hands out and when it
    stops, and what a `batch_publish` leaves in the ring.
 */
module MpscCalls {
  import opened Mpsc
  import opened MpscProgress

  // ---------- drain ----------

  /** The steps of a `drain` behind its entry. */
  predicate InDrain(step: Step) {
    step.Check? || step.Take? || step.EndDrain?
  }

  /** Nothing more to take: `max` tokens were handed out, or the next sequence is unpublished. */
  ghost predicate Done(r: Ring, count: nat, max: nat) {
    count == max || r.cons !in r.published
  }

  /** A `drain(max)` in progress. */
  ghost predicate Draining(r: Ring, max: nat) {
    match r.pc
    case Away => false
    case Scanning(count, m) => m == max && count <= max
    case Taking(count, m) => m == max && count < max
    case Ending(count) => count <= max && Done(r, count, max)
  }

  /** The drain that began at `r.head` has returned in `r'` and nothing else happened: it handed
      out the published sequences up to the first unpublished one, or `max` of them. */
  ghost predicate DrainedFrom(r: Ring, r': Ring, max: nat) {
    && r.cons <= r'.cons <= r.Claim()
    && (forall s: nat :: r.head <= s < r'.cons ==> s in r.published)
    && r'.cons - r.head <= max
    && (r'.cons - r.head == max || r'.cons !in r.published)
    && r' == r.(delivered := r.claimed[..r'.cons], cons := r'.cons, head := r'.cons, pc := Away)
  }

  /** One step of a drain: it goes on, or has returned. */
  lemma DrainStep(r: Ring, step: Step, max: nat)
    requires Good(r) && Draining(r, max) && InDrain(step) && Enabled(r, step)
    ensures Good(Next(r, step))
    ensures if r.pc.Ending? then DrainedFrom(r, Next(r, step), max) else Draining(Next(r, step), max)
    ensures Next(r, step).claimed == r.claimed && Next(r, step).published == r.published
    ensures !r.pc.Ending? ==> Next(r, step).head == r.head && r.cons <= Next(r, step).cons
    ensures !r.pc.Ending? ==> Next(r, step) == r.(delivered := Next(r, step).delivered, cons := Next(r, step).cons, pc := Next(r, step).pc)
  {
    StepKeeps(r, step);
    ReadyIsPublished(r);
  }

  /** Outside a drain none of its steps is possible. */
  lemma NothingAway(r: Ring, steps: seq<Step>)
    requires Sized(r) && r.pc.Away? && LegalRun(r, steps) && forall i :: 0 <= i < |steps| ==> InDrain(steps[i])
    ensures steps == []
  {
  }

  /** However the consumer runs, undisturbed: once the drain has returned it handed out exactly
      what was published and not yet handed out, up to `max`. */
  lemma {:induction false} DrainHandsOut(r: Ring, steps: seq<Step>, max: nat)
    requires Good(r) && Draining(r, max) && LegalRun(r, steps) && forall i :: 0 <= i < |steps| ==> InDrain(steps[i])
    requires Run(r, steps).pc.Away?
    ensures DrainedFrom(r, Run(r, steps), max)
    decreases |steps|
  {
    assert InDrain(steps[0]);
    DrainStep(r, steps[0], max);
    if r.pc.Ending? {
      NothingAway(Next(r, steps[0]), steps[1..]);
    } else {
      DrainHandsOut(Next(r, steps[0]), steps[1..], max);
    }
  }

  /** What the drain still has to do. */
  function ToDo(r: Ring): nat {
    match r.pc
    case Away => 0
    case Scanning(count, max) => if count > max then 2 else 2 * (max - count) + 2
    case Taking(count, max) => if count > max then 1 else 2 * (max - count) + 1
    case Ending(_) => 1
  }

  /** It returns. */
  lemma {:induction false} DrainReturns(r: Ring, max: nat) returns (steps: seq<Step>)
    requires Good(r) && Draining(r, max)
    ensures LegalRun(r, steps) && (forall i :: 0 <= i < |steps| ==> InDrain(steps[i])) && Run(r, steps).pc.Away?
    decreases ToDo(r)
  {
    var step := if r.pc.Scanning? then Check else if r.pc.Taking? then Take else EndDrain;
    DrainStep(r, step, max);
    var r1 := Next(r, step);
    if r.pc.Ending? {
      steps := [step];
      assert steps[1..] == [];
    } else {
      var rest := DrainReturns(r1, max);
      steps := [step] + rest;
      assert steps[1..] == rest;
    }
  }

  /** From every reachable ring an undisturbed `drain(max)` returns, and whatever its steps it
      hands out exactly `k` tokens, those of the next `k` sequences: all of them are published,
      and `k` is `max` or sequence `cons + k` is not. */
  lemma DrainTakesPublished(r: Ring, max: nat) returns (steps: seq<Step>, k: nat)
    requires Good(r) && r.pc.Away?
    ensures steps != [] && steps[0] == StartDrain(max) && (forall i :: 1 <= i < |steps| ==> InDrain(steps[i])) && LegalRun(r, steps)
    ensures k <= max && (forall s :: r.cons <= s < r.cons + k ==> s in r.published) && (k == max || r.cons + k !in r.published)
    ensures r.cons + k <= r.Claim()
    ensures Run(r, steps) == r.(delivered := r.delivered + r.claimed[r.cons..r.cons + k], cons := r.cons + k, head := r.cons + k)
  {
    StepKeeps(r, StartDrain(max));
    var r1 := Next(r, StartDrain(max));
    var rest := DrainReturns(r1, max);
    DrainHandsOut(r1, rest, max);
    steps := [StartDrain(max)] + rest;
    assert steps[1..] == rest;
    k := Run(r1, rest).cons - r.cons;
    assert r.claimed[..r.cons] + r.claimed[r.cons..r.cons + k] == r.claimed[..r.cons + k];
  }

  // ---------- ... under any interleaving ----------

  /** A drain in progress has handed out at most its `max`. */
  predicate WithinMax(r: Ring) {
    r.pc.Scanning? ==> r.pc.count <= r.pc.max
  }

  lemma {:induction false} RunWithinMax(r: Ring, steps: seq<Step>)
    requires Good(r) && WithinMax(r) && LegalRun(r, steps)
    ensures Good(Run(r, steps)) && WithinMax(Run(r, steps))
    decreases |steps|
  {
    if steps != [] {
      StepKeeps(r, steps[0]);
      RunWithinMax(Next(r, steps[0]), steps[1..]);
    }
  }

  /** Under every interleaving with the producers, the step that ends a drain's scan is taken
      only when `max` tokens were handed out or the next sequence is unpublished. */
  lemma ScanEndsWhenDry(cap: nat, zero: seq<Token>, steps: seq<Step>, step: Step)
    requires cap > 0 && |zero| == cap && LegalRun(Start(cap, zero), steps)
    requires var r := Run(Start(cap, zero), steps); Sized(r) && r.pc.Scanning? && Enabled(r, step) && Next(r, step).pc.Ending?
    ensures var r := Run(Start(cap, zero), steps); r.pc.count == r.pc.max || r.cons !in r.published
  {
    StartGood(cap, zero);
    RunWithinMax(Start(cap, zero), steps);
    ReadyIsPublished(Run(Start(cap, zero), steps));
  }

  // ---------- batch_publish ----------

  /** A step of producer `p`. */
  predicate Of(p: nat, step: Step) {
    match step
    case Reload(q) => q == p
    case Pass(q) => q == p
    case Store(q) => q == p
    case Publish(q) => q == p
    case Finish(q) => q == p
    case _ => false
  }

  /** Producer `p` is out of `batch_publish`; what it owed is published, and nothing else changed
      but the slots. */
  ghost predicate BurstOut(r: Ring, r': Ring, p: nat)
    requires p < |r.prods|
  {
    && |r'.prods| == |r.prods| && r'.prods[p].pc.Idle?
    && (forall q :: 0 <= q < |r.prods| && q != p ==> r'.prods[q] == r.prods[q])
    && r'.claimed == r.claimed && r'.cap == r.cap
    && r'.head == r.head && r'.cons == r.cons && r'.pc == r.pc && r'.delivered == r.delivered
    && forall s: nat :: s in r'.published <==> s in r.published || r.prods[p].pc.Lo() <= s < r.prods[p].pc.Hi()
  }

  /** The next step of a burst that has room. */
  function NextOf(r: Ring, p: nat): Step
    requires p < |r.prods|
  {
    var pr := r.prods[p];
    if pr.pc.Waiting? then (if pr.cached + r.cap < pr.pc.Hi() then Reload(p) else Pass(p))
    else if pr.pc.Filling? && pr.pc.k < |pr.pc.toks| then (if pr.pc.stored then Publish(p) else Store(p))
    else Finish(p)
  }

  lemma BurstStep(r: Ring, p: nat)
    requires Good(r) && p < |r.prods| && !r.prods[p].pc.Idle? && r.prods[p].pc.Hi() <= r.head + r.cap
    ensures Enabled(r, NextOf(r, p)) && Of(p, NextOf(r, p))
    ensures var r1 := Next(r, NextOf(r, p));
            && Good(r1) && |r1.prods| == |r.prods| && Work(r.cap, r1.prods[p]) < Work(r.cap, r.prods[p])
            && (NextOf(r, p).Finish? ==> BurstOut(r, r1, p))
            && (!NextOf(r, p).Finish? ==> !r1.prods[p].pc.Idle? && r1.prods[p].pc.Hi() == r.prods[p].pc.Hi() && r1.head == r.head && r1.cap == r.cap)
  {
    assert RangeOk(r, r.prods[p]);
    StepKeeps(r, NextOf(r, p));
  }

  /** What the rest of the burst leaves, the whole burst leaves. */
  lemma BurstOn(r: Ring, r': Ring, p: nat)
    requires Good(r) && p < |r.prods| && !r.prods[p].pc.Idle? && Enabled(r, NextOf(r, p)) && !NextOf(r, p).Finish?
    requires BurstOut(Next(r, NextOf(r, p)), r', p)
    ensures BurstOut(r, r', p)
  {
    assert RangeOk(r, r.prods[p]);
  }

  /** A burst that has room finishes on its own. */
  lemma {:induction false} BurstFinishes(r: Ring, p: nat) returns (steps: seq<Step>)
    requires Good(r) && p < |r.prods| && !r.prods[p].pc.Idle? && r.prods[p].pc.Hi() <= r.head + r.cap
    ensures LegalRun(r, steps) && (forall i :: 0 <= i < |steps| ==> Of(p, steps[i]))
    ensures Good(Run(r, steps)) && BurstOut(r, Run(r, steps), p)
    decreases Work(r.cap, r.prods[p])
  {
    BurstStep(r, p);
    var step := NextOf(r, p);
    if step.Finish? {
      steps := [step];
      assert steps[1..] == [];
    } else {
      var rest := BurstFinishes(Next(r, step), p);
      steps := [step] + rest;
      assert steps[1..] == rest;
      BurstOn(r, Run(r, steps), p);
    }
  }

  /** Where the ring has room for it, however stale the producer's view, an undisturbed
      `batch_publish` returns: it claimed the next sequences, published exactly those, and each
      of their slots shows its fill value under its round. */
  lemma PublishFills(r: Ring, p: nat, toks: seq<Token>) returns (steps: seq<Step>)
    requires Good(r) && p < |r.prods| && r.prods[p].pc.Idle? && |toks| <= r.cap && r.Claim() + |toks| <= r.head + r.cap
    ensures steps != [] && steps[0] == ClaimRange(p, toks) && (forall i :: 1 <= i < |steps| ==> Of(p, steps[i])) && LegalRun(r, steps)
    ensures var r' := Run(r, steps);
            && Sized(r') && r'.cap == r.cap && |r'.prods| == |r.prods| && r'.prods[p].pc.Idle?
            && (forall q :: 0 <= q < |r.prods| && q != p ==> r'.prods[q] == r.prods[q])
            && r'.claimed == r.claimed + toks
            && (forall s: nat :: s in r'.published <==> s in r.published || r.Claim() <= s < r.Claim() + |toks|)
            && r'.head == r.head && r'.cons == r.cons && r'.pc == r.pc && r'.delivered == r.delivered
            && forall k :: 0 <= k < |toks| ==> Shown(r', r.Claim() + k, toks[k])
  {
    StepKeeps(r, ClaimRange(p, toks));
    var r1 := Next(r, ClaimRange(p, toks));
    var rest := BurstFinishes(r1, p);
    steps := [ClaimRange(p, toks)] + rest;
    assert steps[1..] == rest;
    var r' := Run(r1, rest);
    forall k | 0 <= k < |toks| ensures Shown(r', r.Claim() + k, toks[k]) { assert Visible(r', r.Claim() + k); }
  }

  /** The slot of sequence `s` holds `tok` under its round number. */
  ghost predicate Shown(r: Ring, s: nat, tok: Token)
    requires Sized(r)
  {
    r.buf[s % r.cap] == tok && r.avail[s % r.cap] == s / r.cap
  }

  /** Where it has not, the producer waits: whatever it does, nothing is stored or published. */
  lemma {:induction false} PublishWaits(r: Ring, p: nat, steps: seq<Step>)
    requires Good(r) && p < |r.prods| && r.prods[p].pc.Waiting? && r.prods[p].pc.Hi() > r.head + r.cap
    requires LegalRun(r, steps) && forall i :: 0 <= i < |steps| ==> Of(p, steps[i])
    ensures var r' := Run(r, steps);
            |r'.prods| == |r.prods| && r' == r.(prods := r.prods[p := Producer(r.prods[p].pc, r'.prods[p].cached)])
    decreases |steps|
  {
    if steps != [] {
      assert RangeOk(r, r.prods[p]) && Of(p, steps[0]);
      StepKeeps(r, steps[0]);
      var r1 := Next(r, steps[0]);
      PublishWaits(r1, p, steps[1..]);
      assert r1.prods == r.prods[p := r1.prods[p]];
      assert r1.prods[p := Run(r, steps).prods[p]] == r.prods[p := Run(r, steps).prods[p]];
    } else {
      assert r.prods[p := r.prods[p]] == r.prods;
    }
  }
}
