/** The multi-producer ring does not get stuck: while anything claimed is
    undelivered some thread has a step that is not a spin, and such steps alone
    deliver everything.  One `drain` hands out at most a lap.
 */
module MpscProgress {
  import opened Mpsc

  /** Steps a producer still has to take for its burst; a stale cached head costs one more. */
  function Work(cap: nat, pr: Producer): nat {
    match pr.pc
    case Idle => 0
    case Waiting(_, toks) => 2 * |toks| + 2 + if pr.cached + cap < pr.pc.Hi() then 1 else 0
    case Filling(_, toks, k, stored) => if k > |toks| then 0 else 2 * (|toks| - k) + 1 - if stored && k < |toks| then 1 else 0
  }

  function AllWork(cap: nat, prods: seq<Producer>): nat {
    if prods == [] then 0 else AllWork(cap, prods[..|prods| - 1]) + Work(cap, prods[|prods| - 1])
  }

  lemma {:induction false} WorkUpdate(cap: nat, prods: seq<Producer>, p: nat, pr: Producer)
    requires p < |prods|
    ensures AllWork(cap, prods[p := pr]) == AllWork(cap, prods) - Work(cap, prods[p]) + Work(cap, pr)
  {
    var n := |prods| - 1;
    if p < n {
      WorkUpdate(cap, prods[..n], p, pr);
      assert prods[p := pr][..n] == prods[..n][p := pr];
    } else {
      assert prods[p := pr][..n] == prods[..n];
    }
  }

  /** How far the consumer is from its next delivery, or from giving up the drain. */
  function Rank(r: Ring): nat
    requires Sized(r)
  {
    match r.pc
    case Away => 3
    case Scanning(count, max) => if count < max && NextReady(r) then 2 else 6
    case Taking(_, _) => 1
    case Ending(_) => 5
  }

  function Measure(r: Ring): int
    requires Sized(r)
  {
    8 * (r.Claim() - r.cons) + Rank(r) + AllWork(r.cap, r.prods)
  }

  /** No new burst is claimed and no handle cloned. */
  predicate Settling(step: Step) {
    !step.ClaimRange? && !step.Clone?
  }

  lemma ReadyIsPublished(r: Ring)
    requires Good(r)
    ensures NextReady(r) <==> r.cons in r.published
  {
    if NextReady(r) { assert Marked(r, r.cons); }
    if r.cons in r.published { assert Visible(r, r.cons); }
  }

  /** The consumer's turn: it is in a drain, or has something to take. */
  lemma ConsumerMoves(r: Ring) returns (step: Step)
    requires Good(r) && (r.cons in r.published || !r.pc.Away?)
    ensures Settling(step) && Enabled(r, step) && Measure(Next(r, step)) < Measure(r)
  {
    ReadyIsPublished(r);
    step := match r.pc case Away => StartDrain(1) case Scanning(_, _) => Check case Taking(_, _) => Take case Ending(_) => EndDrain;
  }

  /** The turn of the producer that owes the next sequence. */
  lemma ProducerMoves(r: Ring, p: nat) returns (step: Step)
    requires Good(r) && r.cons !in r.published && r.pc.Away?
    requires p < |r.prods| && r.prods[p].pc.Lo() <= r.cons < r.prods[p].pc.Hi()
    ensures Settling(step) && Enabled(r, step) && Measure(Next(r, step)) < Measure(r)
  {
    assert RangeOk(r, r.prods[p]);
    var pc := r.prods[p].pc;
    step := match pc
      case Waiting(_, _) => if pc.Hi() <= r.prods[p].cached + r.cap then Pass(p) else Reload(p)
      case Filling(_, _, _, stored) => if stored then Publish(p) else Store(p);
    WorkUpdate(r.cap, r.prods, p, Next(r, step).prods[p]);
  }

  /** While a claimed sequence is undelivered, some step that is not a spin is enabled. */
  lemma Progress(r: Ring) returns (step: Step)
    requires Good(r) && r.cons < r.Claim()
    ensures Settling(step) && Enabled(r, step) && Measure(Next(r, step)) < Measure(r)
  {
    if r.cons in r.published || !r.pc.Away? {
      step := ConsumerMoves(r);
    } else {
      assert Owed(r, r.cons);
      var p :| 0 <= p < |r.prods| && r.prods[p].pc.Lo() <= r.cons < r.prods[p].pc.Hi();
      step := ProducerMoves(r, p);
    }
  }

  /** From every reachable state all that is claimed can be delivered, with no further claim. */
  lemma {:induction false} CanDeliverAll(r: Ring) returns (steps: seq<Step>)
    requires Good(r)
    ensures LegalRun(r, steps) && (forall i :: 0 <= i < |steps| ==> Settling(steps[i]))
    ensures Run(r, steps).delivered == Run(r, steps).claimed == r.claimed
    decreases Measure(r)
  {
    if r.cons == r.Claim() {
      steps := [];
    } else {
      var step := Progress(r);
      StepKeeps(r, step);
      var rest := CanDeliverAll(Next(r, step));
      steps := [step] + rest;
      assert steps[1..] == rest;
    }
  }

  /** One `drain`, whatever its `max`, hands out at most `cap` tokens. */
  lemma DrainBounded(r: Ring)
    requires Good(r) && !r.pc.Away?
    ensures r.pc.count <= r.cap
  {
    if r.cons > 0 { assert r.cons - 1 in r.published; }
  }
}
