/** The live-capture handshake as interleaved steps: the writer captures and
    sends only when the `busy` flag is clear, the serializer clears it after it
    has recorded the snapshot.  Captures are numbered in the order they are sent;
    number 0 is the warm one.
 */
module Handshake {
  import Arith

  datatype WriterPc =
    | WarmMark | WarmSend | WarmWait
    | Looping(k: nat) | Deciding(k: nat) | Marking(k: nat) | Sending(k: nat)
    | Dropped | Joined

  datatype SerializerPc = Receiving | Encoding(root: nat) | Clearing | Exited

  datatype Live = Live(
    iters: nat, every: nat,
    wpc: WriterPc, spc: SerializerPc, busy: bool, channel: seq<nat>,
    sends: nat, skipped: nat, durations: seq<nat>)

  datatype Step = Writer | Serializer

  function Start(iters: nat, every: nat): Live {
    Live(iters, every, WarmMark, Receiving, false, [], 0, 0, [])
  }

  /** The channel holds one message; a send into a full channel, a receive from an
      empty open one, the warm spin and the join wait. */
  predicate Enabled(s: Live, step: Step) {
    match step
    case Writer =>
      (match s.wpc
       case WarmSend => |s.channel| < 1
       case WarmWait => !s.busy
       case Sending(_) => |s.channel| < 1
       case Dropped => s.spc.Exited?
       case Joined => false
       case _ => s.every > 0)
    case Serializer =>
      match s.spc
      case Receiving => s.channel != [] || s.wpc.Dropped?
      case Exited => false
      case _ => true
  }

  function Next(s: Live, step: Step): Live
    requires Enabled(s, step)
  {
    match step
    case Writer =>
      (match s.wpc
       case WarmMark => s.(busy := true, wpc := WarmSend)
       case WarmSend => s.(channel := s.channel + [s.sends], sends := s.sends + 1, wpc := WarmWait)
       case WarmWait => s.(wpc := Looping(0))
       case Looping(k) =>
         if k >= s.iters then s.(wpc := Dropped)
         else if k % s.every == 0 then s.(wpc := Deciding(k))
         else s.(wpc := Looping(k + 1))
       case Deciding(k) => if s.busy then s.(skipped := s.skipped + 1, wpc := Looping(k + 1)) else s.(wpc := Marking(k))
       case Marking(k) => s.(busy := true, wpc := Sending(k))
       case Sending(k) => s.(channel := s.channel + [s.sends], sends := s.sends + 1, wpc := Looping(k + 1))
       case Dropped => s.(wpc := Joined)
       case Joined => s)
    case Serializer =>
      match s.spc
      case Receiving =>
        if s.channel == [] then s.(spc := Exited) else s.(channel := s.channel[1..], spc := Encoding(s.channel[0]))
      case Encoding(root) => s.(durations := s.durations + [root], spc := Clearing)
      case Clearing => s.(busy := false, spc := Receiving)
      case Exited => s
  }

  // ---------- the invariant ----------

  /** Captured roots the serializer has not finished with. */
  function InFlight(s: Live): nat {
    |s.channel| + if s.spc.Encoding? || s.spc.Clearing? then 1 else 0
  }

  predicate AboutToSend(s: Live) {
    s.wpc.WarmSend? || s.wpc.Sending?
  }

  /** Trigger iterations among the first `k`. */
  function Triggers(every: nat, k: nat): nat
    requires every > 0
  {
    if k == 0 then 0 else Triggers(every, k - 1) + if (k - 1) % every == 0 then 1 else 0
  }

  lemma {:induction false} TriggersAre(every: nat, k: nat)
    requires every > 0
    ensures Triggers(every, k) == (k + every - 1) / every
  {
    if k == 0 {
      Arith.SmallMod(every - 1, every);
    } else {
      TriggersAre(every, k - 1);
      StepOver(every, k - 1);
    }
  }

  lemma StepOver(n: nat, k: nat)
    requires n > 0
    ensures (k + 1 + n - 1) / n == (k + n - 1) / n + if k % n == 0 then 1 else 0
  {
    var q, r := k / n, k % n;
    assert k == n * q + r;
    assert n * (q + 1) == n * q + n;
    Arith.DivModIs(k + n, n, q + 1, r);
    if r == 0 {
      Arith.DivModIs(k + n - 1, n, q, n - 1);
    } else {
      Arith.DivModIs(k + n - 1, n, q + 1, r - 1);
    }
  }

  /** Loop iterations that have been decided. */
  function Decided(s: Live): nat {
    match s.wpc
    case Looping(k) => k
    case Deciding(k) => k
    case Marking(k) => k
    case Sending(k) => k
    case Dropped => s.iters
    case Joined => s.iters
    case _ => 0
  }

  predicate Warm(s: Live) {
    s.wpc.WarmMark? || s.wpc.WarmSend?
  }

  /** The trigger under decision, if any. */
  predicate Firing(s: Live) {
    s.wpc.Deciding? || s.wpc.Marking? || s.wpc.Sending?
  }

  /** Roots the serializer has taken off the channel. */
  function Taken(s: Live): nat {
    |s.durations| + if s.spc.Encoding? then 1 else 0
  }

  /** Captures 0, 1, 2, ... */
  ghost predicate InOrder(ids: seq<nat>) {
    forall i :: 0 <= i < |ids| ==> ids[i] == i
  }

  ghost predicate Good(s: Live) {
    && s.every > 0
    && InFlight(s) <= 1
    && (s.busy <==> (InFlight(s) == 1 || AboutToSend(s)))
    && (AboutToSend(s) || s.wpc.Marking? ==> InFlight(s) == 0)
    && (s.wpc.WarmMark? ==> s.sends == 0)
    && Decided(s) <= s.iters
    && (Firing(s) ==> Decided(s) < s.iters && Decided(s) % s.every == 0)
    && (s.spc.Exited? ==> (s.wpc.Dropped? || s.wpc.Joined?) && s.channel == [])
    && (s.wpc.Joined? ==> s.spc.Exited?)
    && s.sends == Taken(s) + |s.channel|
    && InOrder(s.durations)
    && (s.spc.Clearing? ==> s.durations != [])
    && (!Warm(s) ==> s.sends >= 1)
    && (s.spc.Encoding? ==> s.spc.root == |s.durations|)
    && (s.channel != [] ==> s.channel == [s.sends - 1])
    && s.sends + s.skipped == (if Warm(s) then 0 else 1) + Triggers(s.every, Decided(s))
  }

  lemma StartGood(iters: nat, every: nat)
    requires every > 0
    ensures Good(Start(iters, every))
  {
  }

  lemma WriterKeeps(s: Live)
    requires Good(s) && Enabled(s, Writer)
    ensures Good(Next(s, Writer))
  {
    var s' := Next(s, Writer);
    assert Decided(s') <= Decided(s) + 1;
    assert Decided(s') == Decided(s) + 1 ==>
      Triggers(s.every, Decided(s')) == Triggers(s.every, Decided(s)) + if Decided(s) % s.every == 0 then 1 else 0;
  }

  lemma SerializerKeeps(s: Live)
    requires Good(s) && Enabled(s, Serializer)
    ensures Good(Next(s, Serializer))
  {
  }

  lemma StepKeeps(s: Live, step: Step)
    requires Good(s) && Enabled(s, step)
    ensures Good(Next(s, step))
  {
    if step == Writer { WriterKeeps(s); } else { SerializerKeeps(s); }
  }

  // ---------- runs ----------

  ghost predicate LegalRun(s: Live, steps: seq<Step>)
    decreases |steps|
  {
    steps == [] || (Enabled(s, steps[0]) && LegalRun(Next(s, steps[0]), steps[1..]))
  }

  function Run(s: Live, steps: seq<Step>): Live
    requires LegalRun(s, steps)
    decreases |steps|
  {
    if steps == [] then s else Run(Next(s, steps[0]), steps[1..])
  }

  lemma {:induction false} RunKeeps(s: Live, steps: seq<Step>)
    requires Good(s) && LegalRun(s, steps)
    ensures Good(Run(s, steps)) && Run(s, steps).iters == s.iters && Run(s, steps).every == s.every
    decreases |steps|
  {
    if steps != [] {
      StepKeeps(s, steps[0]);
      RunKeeps(Next(s, steps[0]), steps[1..]);
    }
  }

  /** Under every schedule at most one root is in flight, and whoever is about to send
      finds the channel empty: the capacity-1 channel is never full at a send. */
  lemma OneInFlight(iters: nat, every: nat, steps: seq<Step>)
    requires every > 0 && LegalRun(Start(iters, every), steps)
    ensures var s := Run(Start(iters, every), steps);
            && InFlight(s) <= 1
            && (AboutToSend(s) ==> s.channel == [] && Enabled(s, Writer))
  {
    StartGood(iters, every);
    RunKeeps(Start(iters, every), steps);
  }

  /** Under every schedule that joins: the samples are those of captures 0, 1, 2, ... in
      order, the warm one first, and the others together with the skips are the triggers. */
  lemma SamplesAndSkips(iters: nat, every: nat, steps: seq<Step>)
    requires every > 0 && LegalRun(Start(iters, every), steps) && Run(Start(iters, every), steps).wpc.Joined?
    ensures var s := Run(Start(iters, every), steps);
            && InOrder(s.durations) && |s.durations| >= 1
            && (|s.durations| - 1) + s.skipped == (iters + every - 1) / every
  {
    StartGood(iters, every);
    RunKeeps(Start(iters, every), steps);
    TriggersAre(every, iters);
  }

  // ---------- progress ----------

  function WriterLeft(s: Live): nat {
    match s.wpc
    case WarmMark => 4 * s.iters + 9
    case WarmSend => 4 * s.iters + 8
    case WarmWait => 4 * s.iters + 4
    case Looping(k) => if k > s.iters then 3 else 4 * (s.iters - k) + 3
    case Deciding(k) => if k > s.iters then 2 else 4 * (s.iters - k) + 2
    case Marking(k) => if k > s.iters then 1 else 4 * (s.iters - k) + 1
    case Sending(k) => if k > s.iters then 0 else 4 * (s.iters - k)
    case Dropped => 1
    case Joined => 0
  }

  function SerializerLeft(s: Live): nat {
    3 * |s.channel| + match s.spc case Receiving => 1 case Encoding(_) => 3 case Clearing => 2 case Exited => 0
  }

  function Left(s: Live): nat {
    8 * WriterLeft(s) + SerializerLeft(s)
  }

  /** Every schedule that has not joined can go on: the warm spin, the send and the join wait all end. */
  lemma NoDeadlock(iters: nat, every: nat, steps: seq<Step>)
    requires every > 0 && LegalRun(Start(iters, every), steps) && !Run(Start(iters, every), steps).wpc.Joined?
    ensures var s := Run(Start(iters, every), steps); Enabled(s, Writer) || Enabled(s, Serializer)
  {
    StartGood(iters, every);
    RunKeeps(Start(iters, every), steps);
  }

  lemma StepDecreases(s: Live, step: Step)
    requires Good(s) && Enabled(s, step)
    ensures Left(Next(s, step)) < Left(s)
  {
  }

  lemma {:induction false} RunDecreases(s: Live, steps: seq<Step>)
    requires Good(s) && LegalRun(s, steps)
    ensures |steps| + Left(Run(s, steps)) <= Left(s)
    decreases |steps|
  {
    if steps != [] {
      StepKeeps(s, steps[0]);
      StepDecreases(s, steps[0]);
      RunDecreases(Next(s, steps[0]), steps[1..]);
    }
  }

  /** Every schedule is finite; as one that has not joined can go on, every maximal one joins. */
  lemma RunBounded(iters: nat, every: nat, steps: seq<Step>)
    requires every > 0 && LegalRun(Start(iters, every), steps)
    ensures |steps| <= 8 * (4 * iters + 9) + 1
  {
    StartGood(iters, every);
    RunDecreases(Start(iters, every), steps);
  }

  // ---------- what is decided at a trigger ----------

  /** Under every schedule, the decision at a trigger: while a root is in flight the trigger is
      skipped, with none in flight it is not; no other step skips. */
  lemma Decides(iters: nat, every: nat, steps: seq<Step>, step: Step)
    requires every > 0 && LegalRun(Start(iters, every), steps) && Enabled(Run(Start(iters, every), steps), step)
    ensures var s := Run(Start(iters, every), steps); var s' := Next(s, step);
            && (s.wpc.Deciding? && step == Writer ==>
                  && s'.skipped == s.skipped + InFlight(s) && s'.sends == s.sends
                  && s'.wpc == if InFlight(s) == 1 then Looping(s.wpc.k + 1) else Marking(s.wpc.k))
            && (s'.skipped != s.skipped ==> s.wpc.Deciding? && step == Writer && InFlight(s) == 1)
  {
    StartGood(iters, every);
    RunKeeps(Start(iters, every), steps);
  }

  /** Between the decision of trigger `k` with nothing in flight and the end of its iteration,
      or past it; `sends` and `skipped` are those at the decision. */
  ghost predicate Sends(s: Live, k: nat, sends: nat, skipped: nat) {
    || (((s.wpc == Deciding(k) && InFlight(s) == 0) || s.wpc == Marking(k) || s.wpc == Sending(k)) && s.sends == sends && s.skipped == skipped)
    || (s.wpc == Looping(k + 1) && s.sends == sends + 1 && s.skipped == skipped)
    || WriterLeft(s) < 4 * (s.iters - k) - 1
  }

  lemma SendsOn(s: Live, k: nat, sends: nat, skipped: nat, step: Step)
    requires Good(s) && k < s.iters && Sends(s, k, sends, skipped) && Enabled(s, step)
    ensures Sends(Next(s, step), k, sends, skipped)
  {
  }

  lemma {:induction false} SendsAlong(s: Live, k: nat, sends: nat, skipped: nat, steps: seq<Step>)
    requires Good(s) && k < s.iters && Sends(s, k, sends, skipped) && LegalRun(s, steps)
    ensures Sends(Run(s, steps), k, sends, skipped) && Run(s, steps).iters == s.iters
    decreases |steps|
  {
    if steps != [] {
      StepKeeps(s, steps[0]);
      SendsOn(s, k, sends, skipped, steps[0]);
      SendsAlong(Next(s, steps[0]), k, sends, skipped, steps[1..]);
    }
  }

  /** A trigger decided with nothing in flight: in however many steps of whichever thread, once its
      iteration is over exactly one more capture has been sent and no trigger skipped; and the writer
      never waits on the way. */
  lemma CapturesWhenIdle(iters: nat, every: nat, steps: seq<Step>, k: nat, more: seq<Step>)
    requires every > 0 && LegalRun(Start(iters, every), steps)
    requires var s := Run(Start(iters, every), steps); s.wpc == Deciding(k) && InFlight(s) == 0 && LegalRun(s, more)
    ensures var s := Run(Start(iters, every), steps); var t := Run(s, more);
            && (t.wpc == Looping(k + 1) ==> t.sends == s.sends + 1 && t.skipped == s.skipped)
            && (t.wpc == Deciding(k) || t.wpc == Marking(k) || t.wpc == Sending(k) ==>
                  t.sends == s.sends && t.skipped == s.skipped && Enabled(t, Writer))
  {
    StartGood(iters, every);
    RunKeeps(Start(iters, every), steps);
    var s := Run(Start(iters, every), steps);
    SendsAlong(s, k, s.sends, s.skipped, more);
    RunKeeps(s, more);
  }

  /** Triggers decided while a root was in flight. */
  function BusyTriggers(s: Live, steps: seq<Step>): nat
    requires LegalRun(s, steps)
    decreases |steps|
  {
    if steps == [] then 0
    else (if s.wpc.Deciding? && steps[0] == Writer && InFlight(s) == 1 then 1 else 0) + BusyTriggers(Next(s, steps[0]), steps[1..])
  }

  lemma {:induction false} SkipsAreBusy(s: Live, steps: seq<Step>)
    requires Good(s) && LegalRun(s, steps)
    ensures Run(s, steps).skipped == s.skipped + BusyTriggers(s, steps)
    decreases |steps|
  {
    if steps != [] {
      StepKeeps(s, steps[0]);
      SkipsAreBusy(Next(s, steps[0]), steps[1..]);
    }
  }

  /** Under every schedule the skips are exactly the triggers that found a root in flight; after the
      join every other trigger is a sample.  With the serializer idle at every trigger none is skipped. */
  lemma SkippedIffBusy(iters: nat, every: nat, steps: seq<Step>)
    requires every > 0 && LegalRun(Start(iters, every), steps)
    ensures var s := Run(Start(iters, every), steps);
            && s.skipped == BusyTriggers(Start(iters, every), steps)
            && (s.wpc.Joined? ==> |s.durations| - 1 == (iters + every - 1) / every - BusyTriggers(Start(iters, every), steps))
  {
    StartGood(iters, every);
    SkipsAreBusy(Start(iters, every), steps);
    if Run(Start(iters, every), steps).wpc.Joined? { SamplesAndSkips(iters, every, steps); }
  }

  /** The serializer is idle whenever a trigger is decided. */
  ghost predicate IdleAtTriggers(s: Live, steps: seq<Step>)
    requires LegalRun(s, steps)
    decreases |steps|
  {
    steps != [] ==>
      && (s.wpc.Deciding? && steps[0] == Writer ==> InFlight(s) == 0)
      && IdleAtTriggers(Next(s, steps[0]), steps[1..])
  }

  lemma {:induction false} IdleNeverBusy(s: Live, steps: seq<Step>)
    requires LegalRun(s, steps) && IdleAtTriggers(s, steps)
    ensures BusyTriggers(s, steps) == 0
    decreases |steps|
  {
    if steps != [] { IdleNeverBusy(Next(s, steps[0]), steps[1..]); }
  }

  /** An idle serializer is never skipped: every trigger is sampled. */
  lemma IdleSamplesAll(iters: nat, every: nat, steps: seq<Step>)
    requires every > 0 && LegalRun(Start(iters, every), steps) && IdleAtTriggers(Start(iters, every), steps)
    requires Run(Start(iters, every), steps).wpc.Joined?
    ensures var s := Run(Start(iters, every), steps);
            s.skipped == 0 && |s.durations| - 1 == (iters + every - 1) / every
  {
    SkippedIffBusy(iters, every, steps);
    IdleNeverBusy(Start(iters, every), steps);
  }
}
