/** The single-producer single-consumer ring with cached indices, as interleaved
    atomic steps.  `push` is a burst of one token; `pop` waits for a token while
    `drain` takes what it can see.
 */
module Spsc {
  import opened Arith

  type Token = nat

  /** Inside `push` or `batch_publish`: waiting for room, then storing token `k`. */
  datatype ProducerPc = Idle | Waiting(toks: seq<Token>) | Storing(toks: seq<Token>, k: nat)

  /** Inside `pop`, or inside `drain`: refreshing the cached tail, then reading token `k` of `take`. */
  datatype ConsumerPc = Away | Popping | Refreshing(max: nat) | Reading(take: nat, k: nat)

  /** `pushed` and `popped` record what was published and what was handed out. */
  datatype Ring = Ring(
    cap: nat, buf: seq<Token>, head: nat, tail: nat,
    ppc: ProducerPc, cachedHead: nat, cpc: ConsumerPc, cachedTail: nat,
    pushed: seq<Token>, popped: seq<Token>)

  datatype Step =
    | Burst(toks: seq<Token>)
    | ReloadHead
    | Room
    | Store
    | Publish
    | Pop
    | ReloadTail
    | Seen
    | Drain(max: nat)
    | Refresh
    | Read
    | Release

  function Start(cap: nat, zero: seq<Token>): Ring {
    Ring(cap, zero, 0, 0, Idle, 0, Away, 0, [], [])
  }

  predicate Sized(r: Ring) {
    r.cap > 0 && |r.buf| == r.cap
  }

  /** The producer's own view leaves room for `n` more tokens. */
  predicate Fits(r: Ring, n: nat) {
    r.tail + n - r.cachedHead <= r.cap
  }

  function Least(a: int, b: nat): nat {
    if a < 0 then 0 else if a < b then a else b
  }

  predicate Enabled(r: Ring, step: Step) {
    match step
    case Burst(toks) => r.ppc.Idle? && |toks| <= r.cap
    case ReloadHead => r.ppc.Waiting? && !Fits(r, |r.ppc.toks|)
    case Room => r.ppc.Waiting? && Fits(r, |r.ppc.toks|)
    case Store => r.ppc.Storing? && r.ppc.k < |r.ppc.toks|
    case Publish => r.ppc.Storing? && r.ppc.k == |r.ppc.toks|
    case Pop => r.cpc.Away?
    case ReloadTail => r.cpc.Popping? && r.head == r.cachedTail
    case Seen => r.cpc.Popping? && r.head != r.cachedTail
    case Drain(_) => r.cpc.Away?
    case Refresh => r.cpc.Refreshing?
    case Read => r.cpc.Reading? && r.cpc.k < r.cpc.take
    case Release => r.cpc.Reading? && r.cpc.k == r.cpc.take
  }

  function Next(r: Ring, step: Step): Ring
    requires Sized(r) && Enabled(r, step)
  {
    match step
    case Burst(toks) => r.(ppc := Waiting(toks))
    case ReloadHead => r.(cachedHead := r.head)
    case Room => r.(ppc := Storing(r.ppc.toks, 0))
    case Store =>
      r.(buf := r.buf[(r.tail + r.ppc.k) % r.cap := r.ppc.toks[r.ppc.k]], ppc := r.ppc.(k := r.ppc.k + 1))
    case Publish => r.(tail := r.tail + |r.ppc.toks|, pushed := r.pushed + r.ppc.toks, ppc := Idle)
    case Pop => r.(cpc := Popping)
    case ReloadTail => r.(cachedTail := r.tail)
    case Seen => r.(cpc := Reading(1, 0))
    case Drain(max) =>
      if r.head == r.cachedTail then r.(cpc := Refreshing(max))
      else r.(cpc := Reading(Least(r.cachedTail - r.head, max), 0))
    case Refresh => r.(cachedTail := r.tail, cpc := Reading(Least(r.tail - r.head, r.cpc.max), 0))
    case Read =>
      r.(popped := r.popped + [r.buf[(r.head + r.cpc.k) % r.cap]], cpc := r.cpc.(k := r.cpc.k + 1))
    case Release => r.(head := r.head + r.cpc.take, cpc := Away)
  }

  // ---------- the invariant ----------

  ghost predicate Holds(r: Ring, s: nat, tok: Token)
    requires Sized(r)
  {
    r.buf[s % r.cap] == tok
  }

  ghost predicate Contents(r: Ring)
    requires Sized(r)
  {
    && |r.pushed| == r.tail
    && (forall s :: r.head <= s < r.tail ==> Holds(r, s, r.pushed[s]))
    && (r.ppc.Storing? ==>
          && r.ppc.k <= |r.ppc.toks| && Fits(r, |r.ppc.toks|)
          && forall j :: 0 <= j < r.ppc.k ==> Holds(r, r.tail + j, r.ppc.toks[j]))
  }

  ghost predicate Good(r: Ring) {
    && Sized(r) && Contents(r)
    && r.cachedHead <= r.head <= r.cachedTail <= r.tail <= r.cachedHead + r.cap
    && (r.ppc.Waiting? ==> |r.ppc.toks| <= r.cap)
    && (r.cpc.Reading? ==> r.cpc.k <= r.cpc.take && r.head + r.cpc.take <= r.cachedTail)
    && (r.cpc.Refreshing? ==> r.head == r.cachedTail)
    && r.popped == r.pushed[..Handed(r)]
  }

  /** Tokens handed out so far. */
  function Handed(r: Ring): nat {
    r.head + if r.cpc.Reading? then r.cpc.k else 0
  }

  lemma StartGood(cap: nat, zero: seq<Token>)
    requires cap > 0 && |zero| == cap
    ensures Good(Start(cap, zero))
  {
  }

  /** The slot of token `k` of the burst is no other pending one's. */
  lemma FreshSlot(r: Ring, s: nat)
    requires Good(r) && Enabled(r, Store) && r.head <= s < r.tail + |r.ppc.toks| && s != r.tail + r.ppc.k
    ensures s % r.cap != (r.tail + r.ppc.k) % r.cap
  {
    if s % r.cap == (r.tail + r.ppc.k) % r.cap { CloseSameMod(s, r.tail + r.ppc.k, r.cap); }
  }

  lemma StoreKeeps(r: Ring)
    requires Good(r) && Enabled(r, Store)
    ensures Good(Next(r, Store))
  {
    var r' := Next(r, Store);
    forall s | r'.head <= s < r'.tail ensures Holds(r', s, r'.pushed[s]) {
      assert Holds(r, s, r.pushed[s]);
      FreshSlot(r, s);
    }
    forall j | 0 <= j < r'.ppc.k ensures Holds(r', r'.tail + j, r'.ppc.toks[j]) {
      if j < r.ppc.k {
        assert Holds(r, r.tail + j, r.ppc.toks[j]);
        FreshSlot(r, r.tail + j);
      }
    }
  }

  lemma PublishKeeps(r: Ring)
    requires Good(r) && Enabled(r, Publish)
    ensures Good(Next(r, Publish))
  {
    var r' := Next(r, Publish);
    forall s | r'.head <= s < r'.tail ensures Holds(r', s, r'.pushed[s]) {
      if s < r.tail { assert Holds(r, s, r.pushed[s]); }
      else { assert Holds(r, r.tail + (s - r.tail), r.ppc.toks[s - r.tail]); }
    }
    assert r'.pushed[..Handed(r)] == r.pushed[..Handed(r)];
  }

  /** The slots and the producer as they were. */
  lemma ContentsStay(r: Ring, popped: seq<Token>, cpc: ConsumerPc)
    requires Sized(r) && Contents(r)
    ensures Contents(r.(popped := popped, cpc := cpc))
  {
    var r' := r.(popped := popped, cpc := cpc);
    forall s | r'.head <= s < r'.tail ensures Holds(r', s, r'.pushed[s]) { assert Holds(r, s, r.pushed[s]); }
    if r'.ppc.Storing? {
      forall j | 0 <= j < r'.ppc.k ensures Holds(r', r'.tail + j, r'.ppc.toks[j]) { assert Holds(r, r.tail + j, r.ppc.toks[j]); }
    }
  }

  lemma ReadKeeps(r: Ring)
    requires Good(r) && Enabled(r, Read)
    ensures Good(Next(r, Read))
  {
    ContentsStay(r, Next(r, Read).popped, Next(r, Read).cpc);
    assert Holds(r, Handed(r), r.pushed[Handed(r)]);
    assert r.pushed[..Handed(r) + 1] == r.pushed[..Handed(r)] + [r.pushed[Handed(r)]];
  }

  /** Steps that store no token, publish none and read none. */
  lemma QuietKeeps(r: Ring, step: Step)
    requires Good(r) && Enabled(r, step) && step != Store && step != Publish && step != Read
    ensures Good(Next(r, step))
  {
    var r' := Next(r, step);
    forall s | r'.head <= s < r'.tail ensures Holds(r', s, r'.pushed[s]) { assert Holds(r, s, r.pushed[s]); }
    if r'.ppc.Storing? {
      forall j | 0 <= j < r'.ppc.k ensures Holds(r', r'.tail + j, r'.ppc.toks[j]) { assert Holds(r, r.tail + j, r.ppc.toks[j]); }
    }
  }

  lemma StepKeeps(r: Ring, step: Step)
    requires Good(r) && Enabled(r, step)
    ensures Good(Next(r, step))
  {
    if step == Store { StoreKeeps(r); }
    else if step == Publish { PublishKeeps(r); }
    else if step == Read { ReadKeeps(r); }
    else { QuietKeeps(r, step); }
  }

  ghost predicate LegalRun(r: Ring, steps: seq<Step>)
    requires Sized(r)
    decreases |steps|
  {
    steps == [] || (Enabled(r, steps[0]) && LegalRun(Next(r, steps[0]), steps[1..]))
  }

  function Run(r: Ring, steps: seq<Step>): Ring
    requires Sized(r) && LegalRun(r, steps)
    decreases |steps|
  {
    if steps == [] then r else Run(Next(r, steps[0]), steps[1..])
  }

  lemma {:induction false} RunKeeps(r: Ring, steps: seq<Step>)
    requires Good(r) && LegalRun(r, steps)
    ensures Good(Run(r, steps)) && Run(r, steps).cap == r.cap
    decreases |steps|
  {
    if steps != [] {
      StepKeeps(r, steps[0]);
      RunKeeps(Next(r, steps[0]), steps[1..]);
    }
  }

  /** Under every schedule: what was popped is a prefix of what was pushed, the ring
      never holds more than `cap`, and no cached index passes the real one. */
  lemma BoundedFifo(cap: nat, zero: seq<Token>, steps: seq<Step>)
    requires cap > 0 && |zero| == cap && LegalRun(Start(cap, zero), steps)
    ensures var r := Run(Start(cap, zero), steps);
            && r.popped <= r.pushed && r.tail - r.head <= cap
            && r.cachedHead <= r.head <= r.cachedTail <= r.tail
  {
    StartGood(cap, zero);
    RunKeeps(Start(cap, zero), steps);
  }

  /** `push` tests for a full ring by equality; within the invariant that is the burst test for one token. */
  lemma PushTest(r: Ring)
    requires Good(r)
    ensures (r.tail - r.cachedHead == r.cap) <==> !Fits(r, 1)
  {
  }

  // ---------- progress ----------

  function Measure(r: Ring): int
  {
    (match r.ppc
     case Idle => 0
     case Waiting(toks) => |toks| + 3 + if Fits(r, |toks|) then 0 else 1
     case Storing(toks, k) => |toks| - k + 2)
    + (match r.cpc
       case Away => 0
       case Popping => if r.head == r.cachedTail then 6 else 5
       case Refreshing(_) => r.cap + 3
       case Reading(take, k) => take - k + 2)
  }

  /** A producer and a consumer inside an operation are never both stuck: some step
      that is not a spin is enabled, however large the burst. */
  lemma NeverBothStuck(r: Ring) returns (step: Step)
    requires Good(r) && !r.ppc.Idle? && !r.cpc.Away?
    ensures Enabled(r, step) && Measure(Next(r, step)) < Measure(r)
  {
    if r.ppc.Storing? {
      step := if r.ppc.k < |r.ppc.toks| then Store else Publish;
    } else if r.cpc.Refreshing? {
      step := Refresh;
    } else if r.cpc.Reading? {
      step := if r.cpc.k < r.cpc.take then Read else Release;
    } else if r.tail + |r.ppc.toks| - r.head <= r.cap {
      step := if Fits(r, |r.ppc.toks|) then Room else ReloadHead;
    } else {
      step := if r.head != r.cachedTail then Seen else ReloadTail;
    }
  }

  // ---------- a burst is a run of single tokens ----------

  function Stores(n: nat): seq<Step> {
    if n == 0 then [] else Stores(n - 1) + [Store]
  }

  function Reads(n: nat): seq<Step> {
    if n == 0 then [] else Reads(n - 1) + [Read]
  }

  /** What the producer knows once it is sure of room for `n` tokens: it reloads a
      stale head only when its own view shows too little. */
  function Reloaded(r: Ring, n: nat): Ring {
    if Fits(r, n) then r else r.(cachedHead := r.head)
  }

  /** The same for the consumer, which refreshes its tail only when it sees nothing. */
  function Refreshed(r: Ring): Ring {
    if r.head == r.cachedTail then r.(cachedTail := r.tail) else r
  }

  /** `batch_publish` with nothing in between. */
  function BurstSteps(r: Ring, toks: seq<Token>): seq<Step> {
    [Burst(toks)] + Reload(r, |toks|) + [Room] + Stores(|toks|) + [Publish]
  }

  function Reload(r: Ring, n: nat): seq<Step> {
    if Fits(r, n) then [] else [ReloadHead]
  }

  /** The same tokens one `push` at a time. */
  function PushSteps(r: Ring, toks: seq<Token>): seq<Step>
    requires Sized(r)
  {
    if toks == [] then [] else
      var n := |toks| - 1;
      PushSteps(r, toks[..n]) + BurstSteps(Published(Reloaded(r, n), toks[..n]), [toks[n]])
  }

  /** `drain` with nothing in between. */
  function DrainSteps(r: Ring, max: nat): seq<Step> {
    [Drain(max)] + Refreshes(r) + Reads(TakeOf(r, max)) + [Release]
  }

  function Refreshes(r: Ring): seq<Step> {
    if r.head == r.cachedTail then [Refresh] else []
  }

  /** How many tokens a drain takes. */
  function TakeOf(r: Ring, max: nat): nat {
    Least(Refreshed(r).cachedTail - r.head, max)
  }

  function PopOf(r: Ring): seq<Step> {
    [Pop] + Reloads(r) + [Seen] + Reads(1) + [Release]
  }

  function Reloads(r: Ring): seq<Step> {
    if r.head == r.cachedTail then [ReloadTail] else []
  }

  /** `take` times `pop`. */
  function PopSteps(r: Ring, take: nat): seq<Step>
    requires Sized(r)
  {
    if take == 0 then [] else
      PopSteps(r, take - 1) + PopOf(if take == 1 then r else Consumed(Refreshed(r), take - 1))
  }

  /** The slots after storing `toks` from sequence `from` on. */
  function Stored(buf: seq<Token>, cap: nat, from: nat, toks: seq<Token>): (buf': seq<Token>)
    requires cap > 0 && |buf| == cap
    ensures |buf'| == cap
  {
    if toks == [] then buf
    else Stored(buf, cap, from, toks[..|toks| - 1])[(from + |toks| - 1) % cap := toks[|toks| - 1]]
  }

  function Taken(buf: seq<Token>, cap: nat, from: nat, n: nat): seq<Token>
    requires cap > 0 && |buf| == cap
  {
    if n == 0 then [] else Taken(buf, cap, from, n - 1) + [buf[(from + n - 1) % cap]]
  }

  lemma {:induction false} RunAppend(r: Ring, a: seq<Step>, b: seq<Step>)
    requires Sized(r) && LegalRun(r, a) && Sized(Run(r, a)) && LegalRun(Run(r, a), b)
    ensures LegalRun(r, a + b) && Run(r, a + b) == Run(Run(r, a), b)
    decreases |a|
  {
    if a == [] {
      assert a + b == b;
    } else {
      assert (a + b)[0] == a[0] && (a + b)[1..] == a[1..] + b;
      RunAppend(Next(r, a[0]), a[1..], b);
    }
  }

  lemma OneStep(r: Ring, step: Step)
    requires Sized(r) && Enabled(r, step)
    ensures LegalRun(r, [step]) && Run(r, [step]) == Next(r, step)
  {
    assert [step][1..] == [];
  }

  /** One more store. */
  lemma StoreNext(r: Ring, n: nat)
    requires Sized(r) && r.ppc.Storing? && n < |r.ppc.toks|
    ensures var r1 := r.(buf := Stored(r.buf, r.cap, r.tail, r.ppc.toks[..n]), ppc := r.ppc.(k := n));
            Next(r1, Store) == r.(buf := Stored(r.buf, r.cap, r.tail, r.ppc.toks[..n + 1]), ppc := r.ppc.(k := n + 1))
  {
    assert r.ppc.toks[..n + 1][..n] == r.ppc.toks[..n];
  }

  lemma {:induction false} StoresRun(r: Ring, n: nat)
    requires Sized(r) && r.ppc.Storing? && r.ppc.k == 0 && n <= |r.ppc.toks|
    ensures LegalRun(r, Stores(n))
    ensures Run(r, Stores(n)) == r.(buf := Stored(r.buf, r.cap, r.tail, r.ppc.toks[..n]), ppc := r.ppc.(k := n))
  {
    if n > 0 {
      StoresRun(r, n - 1);
      var r1 := Run(r, Stores(n - 1));
      StoreNext(r, n - 1);
      OneStep(r1, Store);
      RunAppend(r, Stores(n - 1), [Store]);
    }
  }

  /** What a burst or a run of pushes leaves behind. */
  function Published(r: Ring, toks: seq<Token>): Ring
    requires Sized(r)
  {
    r.(buf := Stored(r.buf, r.cap, r.tail, toks), tail := r.tail + |toks|, pushed := r.pushed + toks)
  }

  lemma ReloadRun(r: Ring, n: nat)
    requires Sized(r) && r.ppc.Waiting? && |r.ppc.toks| == n
    ensures LegalRun(r, Reload(r, n)) && Run(r, Reload(r, n)) == Reloaded(r, n)
  {
    if !Fits(r, n) { OneStep(r, ReloadHead); }
  }

  /** Calling, reloading the head if the view is too small, and finding room. */
  lemma RoomRun(r: Ring, toks: seq<Token>)
    requires Sized(r) && r.ppc.Idle? && |toks| <= r.cap && Fits(Reloaded(r, |toks|), |toks|)
    ensures var steps := [Burst(toks)] + Reload(r, |toks|) + [Room];
            LegalRun(r, steps) && Run(r, steps) == Reloaded(r, |toks|).(ppc := Storing(toks, 0))
  {
    var r1 := Next(r, Burst(toks));
    OneStep(r, Burst(toks));
    ReloadRun(r1, |toks|);
    assert Reload(r1, |toks|) == Reload(r, |toks|);
    RunAppend(r, [Burst(toks)], Reload(r, |toks|));
    OneStep(Reloaded(r1, |toks|), Room);
    RunAppend(r, [Burst(toks)] + Reload(r, |toks|), [Room]);
  }

  lemma BurstRun(r: Ring, toks: seq<Token>)
    requires Sized(r) && r.ppc.Idle? && |toks| <= r.cap && Fits(Reloaded(r, |toks|), |toks|)
    ensures LegalRun(r, BurstSteps(r, toks)) && Run(r, BurstSteps(r, toks)) == Published(Reloaded(r, |toks|), toks)
  {
    RoomRun(r, toks);
    var front := [Burst(toks)] + Reload(r, |toks|) + [Room];
    var r2 := Reloaded(r, |toks|).(ppc := Storing(toks, 0));
    StoresRun(r2, |toks|);
    assert toks[..|toks|] == toks;
    RunAppend(r, front, Stores(|toks|));
    OneStep(Run(r2, Stores(|toks|)), Publish);
    RunAppend(r, front + Stores(|toks|), [Publish]);
  }

  lemma StoredOne(buf: seq<Token>, cap: nat, from: nat, v: Token)
    requires cap > 0 && |buf| == cap
    ensures Stored(buf, cap, from, [v]) == buf[from % cap := v]
  {
    assert [v][..0] == [] && Stored(buf, cap, from, []) == buf;
  }

  lemma StoredMore(buf: seq<Token>, cap: nat, from: nat, toks: seq<Token>, v: Token)
    requires cap > 0 && |buf| == cap
    ensures Stored(buf, cap, from, toks + [v]) == Stored(buf, cap, from, toks)[(from + |toks|) % cap := v]
  {
    assert (toks + [v])[..|toks|] == toks;
  }

  lemma PublishedNext(r: Ring, toks: seq<Token>, v: Token)
    requires Sized(r)
    ensures Published(Published(r, toks), [v]) == Published(r, toks + [v])
  {
    StoredOne(Stored(r.buf, r.cap, r.tail, toks), r.cap, r.tail + |toks|, v);
    StoredMore(r.buf, r.cap, r.tail, toks, v);
    assert r.pushed + toks + [v] == r.pushed + (toks + [v]);
  }

  /** After `n` pushes the next one reloads exactly when a burst of `n + 1` would and one of `n` would not. */
  lemma ReloadedNext(r: Ring, toks: seq<Token>, v: Token)
    requires Good(r) && r.tail + |toks| + 1 - r.head <= r.cap
    ensures var r1 := Published(Reloaded(r, |toks|), toks);
            && Fits(Reloaded(r1, 1), 1)
            && Published(Reloaded(r1, 1), [v]) == Published(Reloaded(r, |toks| + 1), toks + [v])
  {
    PublishedNext(Reloaded(r, |toks| + 1), toks, v);
  }

  /** One more `push`. */
  lemma PushNext(r: Ring, toks: seq<Token>, v: Token)
    requires Good(r) && r.ppc.Idle? && r.tail + |toks| + 1 - r.head <= r.cap
    requires LegalRun(r, PushSteps(r, toks)) && Run(r, PushSteps(r, toks)) == Published(Reloaded(r, |toks|), toks)
    ensures var more := toks + [v];
            LegalRun(r, PushSteps(r, more)) && Run(r, PushSteps(r, more)) == Published(Reloaded(r, |more|), more)
  {
    var r1 := Published(Reloaded(r, |toks|), toks);
    assert (toks + [v])[..|toks|] == toks;
    ReloadedNext(r, toks, v);
    BurstRun(r1, [v]);
    RunAppend(r, PushSteps(r, toks), BurstSteps(r1, [v]));
  }

  lemma {:induction false} PushRun(r: Ring, toks: seq<Token>)
    requires Good(r) && r.ppc.Idle? && r.tail + |toks| - r.head <= r.cap
    ensures LegalRun(r, PushSteps(r, toks)) && Run(r, PushSteps(r, toks)) == Published(Reloaded(r, |toks|), toks)
  {
    if toks == [] {
      assert r.pushed + [] == r.pushed;
    } else {
      var front, v := toks[..|toks| - 1], toks[|toks| - 1];
      PushRun(r, front);
      PushNext(r, front, v);
      assert front + [v] == toks;
    }
  }

  /** Where the ring has room, seen or not, `batch_publish` is a run of `push`es: the same
      slots, indices, tokens and cached head, a reload of a stale head included. */
  lemma BurstIsPushes(r: Ring, toks: seq<Token>)
    requires Good(r) && r.ppc.Idle? && r.tail + |toks| - r.head <= r.cap
    ensures LegalRun(r, BurstSteps(r, toks)) && LegalRun(r, PushSteps(r, toks))
    ensures Run(r, BurstSteps(r, toks)) == Run(r, PushSteps(r, toks)) == Published(Reloaded(r, |toks|), toks)
    ensures var r' := Run(r, BurstSteps(r, toks));
            && r'.tail == r.tail + |toks| && r'.pushed == r.pushed + toks && |r'.buf| == r.cap
            && forall k :: 0 <= k < |toks| ==> r'.buf[(r.tail + k) % r.cap] == toks[k]
  {
    BurstRun(r, toks);
    PushRun(r, toks);
    RunKeeps(r, BurstSteps(r, toks));
    var r' := Run(r, BurstSteps(r, toks));
    forall k | 0 <= k < |toks| ensures r'.buf[(r.tail + k) % r.cap] == toks[k] {
      assert Holds(r', r.tail + k, r'.pushed[r.tail + k]);
    }
  }

  predicate OfProducer(step: Step) {
    step.Burst? || step.ReloadHead? || step.Room? || step.Store? || step.Publish?
  }

  /** Where it has not, the producer can only spin until the consumer moves. */
  lemma {:induction false} BurstWaits(r: Ring, steps: seq<Step>)
    requires Good(r) && r.ppc.Waiting? && r.tail + |r.ppc.toks| - r.head > r.cap
    requires LegalRun(r, steps) && forall i :: 0 <= i < |steps| ==> OfProducer(steps[i])
    ensures var r' := Run(r, steps); r'.ppc == r.ppc && r'.tail == r.tail && r'.buf == r.buf
    decreases |steps|
  {
    if steps != [] {
      assert OfProducer(steps[0]) && steps[0] == ReloadHead;
      StepKeeps(r, ReloadHead);
      BurstWaits(Next(r, ReloadHead), steps[1..]);
    }
  }

  lemma {:induction false} ReadsRun(r: Ring, n: nat)
    requires Sized(r) && r.cpc.Reading? && r.cpc.k == 0 && n <= r.cpc.take
    ensures LegalRun(r, Reads(n))
    ensures Run(r, Reads(n)) == r.(popped := r.popped + Taken(r.buf, r.cap, r.head, n), cpc := r.cpc.(k := n))
  {
    if n > 0 {
      ReadsRun(r, n - 1);
      var r1 := Run(r, Reads(n - 1));
      OneStep(r1, Read);
      RunAppend(r, Reads(n - 1), [Read]);
      assert r.popped + Taken(r.buf, r.cap, r.head, n) == r.popped + Taken(r.buf, r.cap, r.head, n - 1) + [r.buf[(r.head + n - 1) % r.cap]];
    }
  }

  function Consumed(r: Ring, n: nat): Ring
    requires Sized(r)
  {
    r.(head := r.head + n, popped := r.popped + Taken(r.buf, r.cap, r.head, n))
  }

  /** From the first read to the release. */
  lemma ReadsRelease(r: Ring, n: nat)
    requires Sized(r) && r.cpc == Reading(n, 0)
    ensures LegalRun(r, Reads(n) + [Release]) && Run(r, Reads(n) + [Release]) == Consumed(r, n).(cpc := Away)
  {
    ReadsRun(r, n);
    OneStep(Run(r, Reads(n)), Release);
    RunAppend(r, Reads(n), [Release]);
  }

  /** A call of `drain` up to its first read. */
  lemma LookRun(r: Ring, max: nat)
    requires Good(r) && r.cpc.Away?
    ensures var steps := [Drain(max)] + Refreshes(r);
            LegalRun(r, steps) && Run(r, steps) == Refreshed(r).(cpc := Reading(TakeOf(r, max), 0))
  {
    OneStep(r, Drain(max));
    if r.head == r.cachedTail { OneStep(Next(r, Drain(max)), Refresh); }
    RunAppend(r, [Drain(max)], Refreshes(r));
  }

  lemma DrainRun(r: Ring, max: nat)
    requires Good(r) && r.cpc.Away?
    ensures LegalRun(r, DrainSteps(r, max))
    ensures Run(r, DrainSteps(r, max)) == Consumed(Refreshed(r), TakeOf(r, max))
  {
    LookRun(r, max);
    var take := TakeOf(r, max);
    ReadsRelease(Refreshed(r).(cpc := Reading(take, 0)), take);
    RunAppend(r, [Drain(max)] + Refreshes(r), Reads(take) + [Release]);
    assert [Drain(max)] + Refreshes(r) + (Reads(take) + [Release]) == DrainSteps(r, max);
  }

  /** A call of `pop` up to its read. */
  lemma SeenRun(r: Ring)
    requires Sized(r) && r.cpc.Away? && r.head < Refreshed(r).cachedTail
    ensures var steps := [Pop] + Reloads(r) + [Seen];
            LegalRun(r, steps) && Run(r, steps) == Refreshed(r).(cpc := Reading(1, 0))
  {
    OneStep(r, Pop);
    if r.head == r.cachedTail { OneStep(Next(r, Pop), ReloadTail); }
    RunAppend(r, [Pop], Reloads(r));
    OneStep(Refreshed(r).(cpc := Popping), Seen);
    RunAppend(r, [Pop] + Reloads(r), [Seen]);
  }

  lemma OnePop(r: Ring)
    requires Sized(r) && r.cpc.Away? && r.head < Refreshed(r).cachedTail
    ensures LegalRun(r, PopOf(r)) && Run(r, PopOf(r)) == Consumed(Refreshed(r), 1)
  {
    SeenRun(r);
    ReadsRelease(Refreshed(r).(cpc := Reading(1, 0)), 1);
    RunAppend(r, [Pop] + Reloads(r) + [Seen], Reads(1) + [Release]);
    assert [Pop] + Reloads(r) + [Seen] + (Reads(1) + [Release]) == PopOf(r);
  }

  lemma ConsumedNext(r: Ring, n: nat)
    requires Sized(r)
    ensures Consumed(Consumed(r, n), 1) == Consumed(r, n + 1)
  {
    var r1 := Consumed(r, n);
    assert Taken(r1.buf, r1.cap, r1.head, 0) == [];
    assert Taken(r1.buf, r1.cap, r1.head, 1) == [r.buf[(r.head + n) % r.cap]];
    assert r1.popped + [r.buf[(r.head + n) % r.cap]] == r.popped + Taken(r.buf, r.cap, r.head, n + 1);
  }

  lemma FirstPop(r: Ring)
    requires Good(r) && r.cpc.Away? && r.head < Refreshed(r).cachedTail
    ensures LegalRun(r, PopSteps(r, 1)) && Run(r, PopSteps(r, 1)) == Consumed(Refreshed(r), 1)
  {
    OnePop(r);
    assert PopSteps(r, 1) == [] + PopOf(r) == PopOf(r);
  }

  /** One more `pop`; the tail has been refreshed by the first. */
  lemma PopNext(r: Ring, n: nat)
    requires Good(r) && r.cpc.Away? && 0 < n && r.head + n < Refreshed(r).cachedTail
    requires LegalRun(r, PopSteps(r, n)) && Run(r, PopSteps(r, n)) == Consumed(Refreshed(r), n)
    ensures LegalRun(r, PopSteps(r, n + 1)) && Run(r, PopSteps(r, n + 1)) == Consumed(Refreshed(r), n + 1)
  {
    var r1 := Consumed(Refreshed(r), n);
    assert Refreshed(r1) == r1;
    OnePop(r1);
    RunAppend(r, PopSteps(r, n), PopOf(r1));
    ConsumedNext(Refreshed(r), n);
    assert PopSteps(r, n + 1) == PopSteps(r, n) + PopOf(r1);
  }

  lemma {:induction false} PopRun(r: Ring, n: nat)
    requires Good(r) && r.cpc.Away? && 0 < n && r.head + n <= Refreshed(r).cachedTail
    ensures LegalRun(r, PopSteps(r, n)) && Run(r, PopSteps(r, n)) == Consumed(Refreshed(r), n)
  {
    if n == 1 {
      FirstPop(r);
    } else {
      PopRun(r, n - 1);
      PopNext(r, n - 1);
    }
  }

  /** Whatever its `max` and however stale its cached tail, a drain that finds a token is as
      many `pop`s, the first of them refreshing the tail; how many is the least of `max` and
      what is visible.  A drain that finds none takes none, and at most learns the tail. */
  lemma DrainIsPops(r: Ring, max: nat)
    requires Good(r) && r.cpc.Away?
    ensures LegalRun(r, DrainSteps(r, max)) && LegalRun(r, PopSteps(r, TakeOf(r, max)))
    ensures Run(r, DrainSteps(r, max)) == Consumed(Refreshed(r), TakeOf(r, max))
    ensures TakeOf(r, max) > 0 <==> r.head < r.tail && max > 0
    ensures if TakeOf(r, max) > 0 then Run(r, PopSteps(r, TakeOf(r, max))) == Run(r, DrainSteps(r, max))
            else Run(r, DrainSteps(r, max)) == Refreshed(r)
  {
    DrainRun(r, max);
    if TakeOf(r, max) > 0 {
      PopRun(r, TakeOf(r, max));
    } else {
      assert r.popped + [] == r.popped;
    }
  }

  /** What a drain hands out: `max` tokens, or everything it sees when that is less - the tokens
      up to the cached tail, or up to the real one when the cached one shows none - and these are
      the next ones pushed. */
  lemma DrainTakes(r: Ring, max: nat)
    requires Good(r) && r.cpc.Away?
    ensures LegalRun(r, DrainSteps(r, max))
    ensures var visible := (if r.head == r.cachedTail then r.tail else r.cachedTail) - r.head;
            var take := if max <= visible then max else visible;
            var r' := Run(r, DrainSteps(r, max));
            && r'.head == r.head + take <= |r.pushed|
            && r'.popped == r.popped + r.pushed[r.head..r.head + take]
  {
    DrainRun(r, max);
    var r' := Run(r, DrainSteps(r, max));
    RunKeeps(r, DrainSteps(r, max));
    PoppedIs(r);
    PoppedIs(r');
    assert r.pushed[..r.head] + r.pushed[r.head..r'.head] == r.pushed[..r'.head];
  }

  lemma PoppedIs(r: Ring)
    requires Good(r) && r.cpc.Away?
    ensures r.popped == r.pushed[..r.head]
  {
  }
}
