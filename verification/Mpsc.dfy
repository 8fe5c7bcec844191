/** The multi-producer ring as interleaved atomic steps: any number of producers
    claim ranges from a shared cursor, fill their slots and publish each through
    the availability buffer; one consumer drains the contiguous published prefix.
 */
module Mpsc {
  import opened Arith

  type Token = nat

  /** Where a producer stands inside `batch_publish`.  `first` is the first claimed
      sequence, `toks` the fill values, `k` the next one, `stored` whether its slot
      has been written and only its publication is missing. */
  datatype Pc =
    | Idle
    | Waiting(first: nat, toks: seq<Token>)
    | Filling(first: nat, toks: seq<Token>, k: nat, stored: bool)
  {
    /** The claimed sequences not yet published: `Lo()..Hi()`. */
    function Lo(): nat {
      match this
      case Idle => 0
      case Waiting(first, _) => first
      case Filling(first, _, k, _) => first + k
    }

    function Hi(): nat {
      match this
      case Idle => 0
      case Waiting(first, toks) => first + |toks|
      case Filling(first, toks, _, _) => first + |toks|
    }
  }

  datatype Producer = Producer(pc: Pc, cached: nat)

  /** Where the consumer stands inside `drain`. */
  datatype ConsumerPc = Away | Scanning(count: nat, max: nat) | Taking(count: nat, max: nat) | Ending(count: nat)

  /** `claimed` records the fill value of every claimed sequence, `published` the
      sequences whose publication has been stored, `delivered` what `drain` has handed out. */
  datatype Ring = Ring(
    cap: nat, buf: seq<Token>, avail: seq<int>, head: nat,
    prods: seq<Producer>, cons: nat, pc: ConsumerPc,
    claimed: seq<Token>, published: set<nat>, delivered: seq<Token>)
  {
    /** The shared claim cursor. */
    function Claim(): nat { |claimed| }
  }

  datatype Step =
    | Clone(p: nat)
    | ClaimRange(p: nat, toks: seq<Token>)
    | Reload(p: nat)
    | Pass(p: nat)
    | Store(p: nat)
    | Publish(p: nat)
    | Finish(p: nat)
    | StartDrain(max: nat)
    | Check
    | Take
    | EndDrain

  function Start(cap: nat, zero: seq<Token>): Ring {
    Ring(cap, zero, seq(cap, _ => -1), 0, [Producer(Idle, 0)], 0, Away, [], {}, [])
  }

  /** The consumer's next sequence carries its round number. */
  predicate NextReady(r: Ring)
    requires r.cap > 0 && |r.avail| == r.cap
  {
    r.avail[r.cons % r.cap] == r.cons / r.cap
  }

  predicate Sized(r: Ring) {
    r.cap > 0 && |r.buf| == |r.avail| == r.cap
  }

  predicate Enabled(r: Ring, step: Step)
    requires Sized(r)
  {
    match step
    case Clone(p) => p < |r.prods| && r.prods[p].pc.Idle?
    case ClaimRange(p, toks) => p < |r.prods| && r.prods[p].pc.Idle? && |toks| <= r.cap
    case Reload(p) => p < |r.prods| && r.prods[p].pc.Waiting? && r.prods[p].cached + r.cap < r.prods[p].pc.Hi()
    case Pass(p) => p < |r.prods| && r.prods[p].pc.Waiting? && r.prods[p].pc.Hi() <= r.prods[p].cached + r.cap
    case Store(p) => p < |r.prods| && r.prods[p].pc.Filling? && r.prods[p].pc.k < |r.prods[p].pc.toks| && !r.prods[p].pc.stored
    case Publish(p) => p < |r.prods| && r.prods[p].pc.Filling? && r.prods[p].pc.k < |r.prods[p].pc.toks| && r.prods[p].pc.stored
    case Finish(p) => p < |r.prods| && r.prods[p].pc.Filling? && r.prods[p].pc.k == |r.prods[p].pc.toks|
    case StartDrain(_) => r.pc.Away?
    case Check => r.pc.Scanning?
    case Take => r.pc.Taking?
    case EndDrain => r.pc.Ending?
  }

  function SetPc(r: Ring, p: nat, pc: Pc): Ring
    requires p < |r.prods|
  {
    r.(prods := r.prods[p := r.prods[p].(pc := pc)])
  }

  function Next(r: Ring, step: Step): Ring
    requires Sized(r) && Enabled(r, step)
  {
    match step
    case Clone(p) => r.(prods := r.prods + [r.prods[p]])
    case ClaimRange(p, toks) =>
      SetPc(r, p, Waiting(r.Claim(), toks)).(claimed := r.claimed + toks)
    case Reload(p) => r.(prods := r.prods[p := r.prods[p].(cached := r.head)])
    case Pass(p) => SetPc(r, p, Filling(r.prods[p].pc.first, r.prods[p].pc.toks, 0, false))
    case Store(p) =>
      var pc := r.prods[p].pc;
      SetPc(r, p, pc.(stored := true)).(buf := r.buf[pc.Lo() % r.cap := pc.toks[pc.k]])
    case Publish(p) =>
      var pc := r.prods[p].pc;
      SetPc(r, p, pc.(k := pc.k + 1, stored := false))
        .(avail := r.avail[pc.Lo() % r.cap := pc.Lo() / r.cap],
          published := r.published + {pc.Lo()})
    case Finish(p) => SetPc(r, p, Idle)
    case StartDrain(max) => r.(pc := Scanning(0, max))
    case Check =>
      if r.pc.count < r.pc.max && NextReady(r) then r.(pc := Taking(r.pc.count, r.pc.max))
      else r.(pc := Ending(r.pc.count))
    case Take =>
      r.(delivered := r.delivered + [r.buf[r.cons % r.cap]], cons := r.cons + 1, pc := Scanning(r.pc.count + 1, r.pc.max))
    case EndDrain => r.(head := if r.pc.count > 0 then r.cons else r.head, pc := Away)
  }

  // ---------- the invariant ----------

  /** A producer's range lies in the claimed sequences, carries its fill values, is
      unpublished, and once past the backpressure fits within `cap` of the head. */
  ghost predicate RangeOk(r: Ring, pr: Producer)
    requires Sized(r)
  {
    && pr.cached <= r.head
    && pr.pc.Hi() <= r.Claim()
    && (pr.pc.Waiting? ==> |pr.pc.toks| <= r.cap && r.claimed[pr.pc.first..pr.pc.Hi()] == pr.pc.toks)
    && (pr.pc.Filling? ==>
          && pr.pc.k <= |pr.pc.toks| && r.claimed[pr.pc.first..pr.pc.Hi()] == pr.pc.toks
          && pr.pc.Hi() <= r.head + r.cap
          && (pr.pc.stored ==> pr.pc.k < |pr.pc.toks| && r.buf[pr.pc.Lo() % r.cap] == r.claimed[pr.pc.Lo()]))
    && forall s :: pr.pc.Lo() <= s < pr.pc.Hi() ==> s !in r.published
  }

  ghost predicate Apart(a: Pc, b: Pc) {
    a.Hi() <= a.Lo() || b.Hi() <= b.Lo() || a.Hi() <= b.Lo() || b.Hi() <= a.Lo()
  }

  /** The slot of sequence `s` holds its token under its round number. */
  ghost predicate Visible(r: Ring, s: nat)
    requires Sized(r)
  {
    s < r.Claim() && r.avail[s % r.cap] == s / r.cap && r.buf[s % r.cap] == r.claimed[s]
  }

  ghost predicate Marked(r: Ring, s: nat)
    requires Sized(r)
  {
    r.avail[s % r.cap] == s / r.cap
  }

  /** Some producer still owes sequence `s`. */
  ghost predicate Owed(r: Ring, s: nat) {
    exists p :: 0 <= p < |r.prods| && r.prods[p].pc.Lo() <= s < r.prods[p].pc.Hi()
  }

  ghost predicate Owing(r: Ring) {
    forall s: nat :: s < r.Claim() && s !in r.published ==> Owed(r, s)
  }

  ghost predicate Ranges(r: Ring)
    requires Sized(r)
  {
    forall p :: 0 <= p < |r.prods| ==> RangeOk(r, r.prods[p])
  }

  ghost predicate Exclusive(r: Ring) {
    forall p, q :: 0 <= p < |r.prods| && 0 <= q < |r.prods| && p != q ==> Apart(r.prods[p].pc, r.prods[q].pc)
  }

  /** The slots: what is published and not yet consumed is there to read, within one
      lap of the head; no slot claims a round that was not published. */
  ghost predicate Slots(r: Ring)
    requires Sized(r)
  {
    && (forall s :: s in r.published ==> s < r.Claim() && s < r.head + r.cap)
    && (forall s :: s in r.published && r.cons <= s ==> Visible(r, s))
    && (forall s: nat :: Marked(r, s) ==> s in r.published)
  }

  /** The consumer has handed out exactly the fill values of `0..cons`. */
  ghost predicate Drained(r: Ring) {
    && r.head <= r.cons <= r.Claim()
    && r.delivered == r.claimed[..r.cons]
    && (forall s: nat :: s < r.cons ==> s in r.published)
    && (r.pc.Taking? ==> r.cons in r.published && r.pc.count < r.pc.max)
    && r.head + (if r.pc.Away? then 0 else r.pc.count) == r.cons
  }

  ghost predicate Good(r: Ring) {
    Sized(r) && Slots(r) && Drained(r) && Owing(r) && Ranges(r) && Exclusive(r)
  }

  lemma StartGood(cap: nat, zero: seq<Token>)
    requires cap > 0 && |zero| == cap
    ensures Good(Start(cap, zero))
  {
  }

  // ---------- every step keeps it ----------

  /** Two unconsumed sequences within a lap of the head have different slots. */
  lemma SlotsDiffer(r: Ring, s: nat, t: nat)
    requires Sized(r) && r.head <= s < r.head + r.cap && r.head <= t < r.head + r.cap && s != t
    ensures s % r.cap != t % r.cap
  {
    if s % r.cap == t % r.cap { CloseSameMod(s, t, r.cap); }
  }

  /** A sequence is determined by slot and round. */
  lemma SlotAndRound(cap: nat, s: nat, t: nat)
    requires cap > 0 && s % cap == t % cap && s / cap == t / cap
    ensures s == t
  {
    assert s == cap * (s / cap) + s % cap && t == cap * (t / cap) + t % cap;
  }

  /** What a producer past the backpressure still owes lies between the consumer and one lap ahead. */
  lemma OwedAhead(r: Ring, p: nat)
    requires Good(r) && p < |r.prods| && r.prods[p].pc.Filling? && r.prods[p].pc.k < |r.prods[p].pc.toks|
    ensures var lo := r.prods[p].pc.Lo(); r.cons <= lo < r.head + r.cap && lo < r.Claim() && lo !in r.published
    ensures r.claimed[r.prods[p].pc.Lo()] == r.prods[p].pc.toks[r.prods[p].pc.k]
  {
    var pc := r.prods[p].pc;
    assert RangeOk(r, r.prods[p]);
    assert pc.Lo() !in r.published;
    assert r.claimed[pc.first..pc.Hi()][pc.k] == r.claimed[pc.Lo()];
  }

  lemma CloneKeeps(r: Ring, p: nat)
    requires Good(r) && Enabled(r, Clone(p))
    ensures Good(Next(r, Clone(p)))
  {
    var r' := Next(r, Clone(p));
    assert RangeOk(r, r.prods[p]);
    forall s: nat | s < r'.Claim() && s !in r'.published ensures Owed(r', s) {
      assert Owed(r, s);
      var q :| 0 <= q < |r.prods| && r.prods[q].pc.Lo() <= s < r.prods[q].pc.Hi();
      assert r'.prods[q] == r.prods[q];
    }
  }

  lemma ClaimRanges(r: Ring, p: nat, toks: seq<Token>)
    requires Good(r) && Enabled(r, ClaimRange(p, toks))
    ensures Ranges(Next(r, ClaimRange(p, toks))) && Exclusive(Next(r, ClaimRange(p, toks)))
  {
    var r' := Next(r, ClaimRange(p, toks));
    forall q | 0 <= q < |r'.prods| ensures RangeOk(r', r'.prods[q]) {
      assert RangeOk(r, r.prods[q]);
      if q != p && !r.prods[q].pc.Idle? {
        assert r'.claimed[r.prods[q].pc.first..r.prods[q].pc.Hi()] == r.claimed[r.prods[q].pc.first..r.prods[q].pc.Hi()];
      }
    }
    forall q, u | 0 <= q < |r'.prods| && 0 <= u < |r'.prods| && q != u ensures Apart(r'.prods[q].pc, r'.prods[u].pc) {
      assert RangeOk(r, r.prods[q]) && RangeOk(r, r.prods[u]) && Apart(r.prods[q].pc, r.prods[u].pc);
    }
  }

  lemma ClaimOwing(r: Ring, p: nat, toks: seq<Token>)
    requires Good(r) && Enabled(r, ClaimRange(p, toks))
    ensures Owing(Next(r, ClaimRange(p, toks)))
  {
    var r' := Next(r, ClaimRange(p, toks));
    forall s: nat | s < r'.Claim() && s !in r'.published ensures Owed(r', s) {
      if s < r.Claim() {
        assert Owed(r, s);
        var q :| 0 <= q < |r.prods| && r.prods[q].pc.Lo() <= s < r.prods[q].pc.Hi();
        assert r'.prods[q] == r.prods[q];
      } else {
        assert r'.prods[p].pc.Lo() <= s < r'.prods[p].pc.Hi();
      }
    }
  }

  lemma ClaimKeeps(r: Ring, p: nat, toks: seq<Token>)
    requires Good(r) && Enabled(r, ClaimRange(p, toks))
    ensures Good(Next(r, ClaimRange(p, toks)))
  {
    var r' := Next(r, ClaimRange(p, toks));
    ClaimRanges(r, p, toks);
    ClaimOwing(r, p, toks);
    assert r'.delivered == r'.claimed[..r'.cons];
    forall s | s in r'.published && r'.cons <= s ensures Visible(r', s) { assert Visible(r, s); }
    forall s: nat | Marked(r', s) ensures s in r'.published { assert Marked(r, s); }
  }

  /** The same pending range, or none in either. */
  predicate SameRange(a: Pc, b: Pc) {
    (a.Lo() == b.Lo() && a.Hi() == b.Hi()) || (a.Hi() <= a.Lo() && b.Hi() <= b.Lo())
  }

  lemma ProducerRanges(r: Ring, p: nat, pr: Producer)
    requires Good(r) && p < |r.prods| && RangeOk(r, pr) && SameRange(pr.pc, r.prods[p].pc)
    ensures var r' := r.(prods := r.prods[p := pr]); Ranges(r') && Exclusive(r')
  {
    var r' := r.(prods := r.prods[p := pr]);
    forall q | 0 <= q < |r'.prods| ensures RangeOk(r', r'.prods[q]) { assert RangeOk(r, if q == p then pr else r.prods[q]); }
    forall q, u | 0 <= q < |r'.prods| && 0 <= u < |r'.prods| && q != u ensures Apart(r'.prods[q].pc, r'.prods[u].pc) {
      assert Apart(r.prods[q].pc, r.prods[u].pc);
    }
  }

  lemma ProducerOwing(r: Ring, p: nat, pr: Producer)
    requires Good(r) && p < |r.prods| && SameRange(pr.pc, r.prods[p].pc)
    ensures Owing(r.(prods := r.prods[p := pr]))
  {
    var r' := r.(prods := r.prods[p := pr]);
    forall s: nat | s < r'.Claim() && s !in r'.published ensures Owed(r', s) {
      assert Owed(r, s);
      var q :| 0 <= q < |r.prods| && r.prods[q].pc.Lo() <= s < r.prods[q].pc.Hi();
      assert r'.prods[q].pc.Lo() <= s < r'.prods[q].pc.Hi();
    }
  }

  /** Steps of producer `p` that leave the ring and the pending range as they were. */
  lemma ProducerOnly(r: Ring, p: nat, pr: Producer)
    requires Good(r) && p < |r.prods| && RangeOk(r, pr)
    requires SameRange(pr.pc, r.prods[p].pc)
    ensures Good(r.(prods := r.prods[p := pr]))
  {
    var r' := r.(prods := r.prods[p := pr]);
    ProducerRanges(r, p, pr);
    ProducerOwing(r, p, pr);
    forall s | s in r'.published && r'.cons <= s ensures Visible(r', s) { assert Visible(r, s); }
    forall s: nat | Marked(r', s) ensures s in r'.published { assert Marked(r, s); }
  }

  /** Whoever owed a sequence still does, or has published it. */
  lemma OwedStays(r: Ring, r': Ring)
    requires Owing(r) && r'.claimed == r.claimed && r.published <= r'.published && |r'.prods| == |r.prods|
    requires forall p :: 0 <= p < |r.prods| ==> Shrinks(r.prods[p].pc, r'.prods[p].pc, r'.published)
    ensures Owing(r')
  {
    forall s: nat | s < r'.Claim() && s !in r'.published ensures Owed(r', s) {
      assert Owed(r, s);
      var q :| 0 <= q < |r.prods| && r.prods[q].pc.Lo() <= s < r.prods[q].pc.Hi();
      assert Shrinks(r.prods[q].pc, r'.prods[q].pc, r'.published);
      assert r'.prods[q].pc.Lo() <= s < r'.prods[q].pc.Hi();
    }
  }

  ghost predicate Shrinks(a: Pc, b: Pc, published: set<nat>) {
    forall s :: a.Lo() <= s < a.Hi() && s !in published ==> b.Lo() <= s < b.Hi()
  }

  /** Ranges that only shrink stay apart. */
  lemma ApartStays(r: Ring, r': Ring)
    requires Exclusive(r) && |r'.prods| == |r.prods|
    requires forall p :: 0 <= p < |r.prods| ==> Inside(r.prods[p].pc, r'.prods[p].pc)
    ensures Exclusive(r')
  {
    forall q, u | 0 <= q < |r'.prods| && 0 <= u < |r'.prods| && q != u ensures Apart(r'.prods[q].pc, r'.prods[u].pc) {
      assert Apart(r.prods[q].pc, r.prods[u].pc) && Inside(r.prods[q].pc, r'.prods[q].pc) && Inside(r.prods[u].pc, r'.prods[u].pc);
    }
  }

  ghost predicate Inside(a: Pc, b: Pc) {
    a.Lo() <= b.Lo() && b.Hi() == a.Hi()
  }

  /** Two producers past the backpressure work on different slots. */
  lemma PendingDiffer(r: Ring, p: nat, q: nat)
    requires Good(r) && p < |r.prods| && q < |r.prods| && p != q
    requires r.prods[p].pc.Filling? && r.prods[p].pc.k < |r.prods[p].pc.toks|
    requires r.prods[q].pc.Filling? && r.prods[q].pc.k < |r.prods[q].pc.toks|
    ensures r.prods[p].pc.Lo() % r.cap != r.prods[q].pc.Lo() % r.cap
  {
    OwedAhead(r, p);
    OwedAhead(r, q);
    assert Apart(r.prods[p].pc, r.prods[q].pc);
    SlotsDiffer(r, r.prods[p].pc.Lo(), r.prods[q].pc.Lo());
  }

  lemma StoreRange(r: Ring, p: nat, q: nat)
    requires Good(r) && Enabled(r, Store(p)) && q < |r.prods|
    ensures RangeOk(Next(r, Store(p)), Next(r, Store(p)).prods[q])
  {
    assert RangeOk(r, r.prods[q]);
    if q == p {
      OwedAhead(r, p);
    } else if r.prods[q].pc.Filling? && r.prods[q].pc.stored {
      PendingDiffer(r, p, q);
    }
  }

  lemma StoreSlots(r: Ring, p: nat)
    requires Good(r) && Enabled(r, Store(p))
    ensures Slots(Next(r, Store(p)))
  {
    var r' := Next(r, Store(p));
    OwedAhead(r, p);
    forall s | s in r'.published && r'.cons <= s ensures Visible(r', s) {
      assert Visible(r, s);
      SlotsDiffer(r, r.prods[p].pc.Lo(), s);
    }
    forall s: nat | Marked(r', s) ensures s in r'.published { assert Marked(r, s); }
  }

  lemma StoreKeeps(r: Ring, p: nat)
    requires Good(r) && Enabled(r, Store(p))
    ensures Good(Next(r, Store(p)))
  {
    var r' := Next(r, Store(p));
    StoreSlots(r, p);
    forall q | 0 <= q < |r'.prods| ensures RangeOk(r', r'.prods[q]) { StoreRange(r, p, q); }
    OwedStays(r, r');
    ApartStays(r, r');
  }

  lemma PublishRange(r: Ring, p: nat, q: nat)
    requires Good(r) && Enabled(r, Publish(p)) && q < |r.prods|
    ensures RangeOk(Next(r, Publish(p)), Next(r, Publish(p)).prods[q])
  {
    OwedAhead(r, p);
    assert RangeOk(r, r.prods[q]) && RangeOk(r, r.prods[p]);
    if q != p { assert Apart(r.prods[p].pc, r.prods[q].pc); }
  }

  lemma PublishSlots(r: Ring, p: nat)
    requires Good(r) && Enabled(r, Publish(p))
    ensures Slots(Next(r, Publish(p)))
  {
    var r' := Next(r, Publish(p));
    var lo := r.prods[p].pc.Lo();
    OwedAhead(r, p);
    assert RangeOk(r, r.prods[p]);
    forall s | s in r'.published && r'.cons <= s ensures Visible(r', s) {
      if s != lo {
        assert Visible(r, s);
        SlotsDiffer(r, lo, s);
      }
    }
    forall s: nat | Marked(r', s) ensures s in r'.published {
      if s % r.cap == lo % r.cap { SlotAndRound(r.cap, s, lo); } else { assert Marked(r, s); }
    }
  }

  lemma PublishKeeps(r: Ring, p: nat)
    requires Good(r) && Enabled(r, Publish(p))
    ensures Good(Next(r, Publish(p)))
  {
    var r' := Next(r, Publish(p));
    PublishSlots(r, p);
    forall q | 0 <= q < |r'.prods| ensures RangeOk(r', r'.prods[q]) { PublishRange(r, p, q); }
    OwedStays(r, r');
    ApartStays(r, r');
  }

  /** Consumer steps that leave the ring as it was. */
  lemma ConsumerOnly(r: Ring, pc: ConsumerPc)
    requires Good(r)
    requires pc.Taking? ==> r.cons in r.published && pc.count < pc.max
    requires r.head + (if pc.Away? then 0 else pc.count) == r.cons
    ensures Good(r.(pc := pc))
  {
    var r' := r.(pc := pc);
    forall q | 0 <= q < |r'.prods| ensures RangeOk(r', r'.prods[q]) { assert RangeOk(r, r.prods[q]); }
    forall s: nat | s < r'.Claim() && s !in r'.published ensures Owed(r', s) { assert Owed(r, s); }
    forall s | s in r'.published && r'.cons <= s ensures Visible(r', s) { assert Visible(r, s); }
    forall s: nat | Marked(r', s) ensures s in r'.published { assert Marked(r, s); }
  }

  lemma TakeKeeps(r: Ring)
    requires Good(r) && Enabled(r, Take)
    ensures Good(Next(r, Take))
  {
    var r' := Next(r, Take);
    assert Visible(r, r.cons);
    assert r.claimed[..r.cons + 1] == r.claimed[..r.cons] + [r.claimed[r.cons]];
    forall q | 0 <= q < |r'.prods| ensures RangeOk(r', r'.prods[q]) { assert RangeOk(r, r.prods[q]); }
    forall s: nat | s < r'.Claim() && s !in r'.published ensures Owed(r', s) { assert Owed(r, s); }
    forall s | s in r'.published && r'.cons <= s ensures Visible(r', s) { assert Visible(r, s); }
    forall s: nat | Marked(r', s) ensures s in r'.published { assert Marked(r, s); }
  }

  lemma EndKeeps(r: Ring)
    requires Good(r) && Enabled(r, EndDrain)
    ensures Good(Next(r, EndDrain))
  {
    var r' := Next(r, EndDrain);
    forall q | 0 <= q < |r'.prods| ensures RangeOk(r', r'.prods[q]) { assert RangeOk(r, r.prods[q]); }
    forall s: nat | s < r'.Claim() && s !in r'.published ensures Owed(r', s) { assert Owed(r, s); }
    forall s | s in r'.published && r'.cons <= s ensures Visible(r', s) { assert Visible(r, s); }
    forall s: nat | Marked(r', s) ensures s in r'.published { assert Marked(r, s); }
  }

  /** Every atomic step of every thread keeps the invariant. */
  lemma StepKeeps(r: Ring, step: Step)
    requires Good(r) && Enabled(r, step)
    ensures Good(Next(r, step))
  {
    match step
    case Clone(p) => CloneKeeps(r, p);
    case ClaimRange(p, toks) => ClaimKeeps(r, p, toks);
    case Reload(p) => ProducerSteps(r, p, step);
    case Pass(p) => ProducerSteps(r, p, step);
    case Store(p) => StoreKeeps(r, p);
    case Publish(p) => PublishKeeps(r, p);
    case Finish(p) => ProducerSteps(r, p, step);
    case StartDrain(max) => ConsumerOnly(r, Scanning(0, max));
    case Check =>
      if NextReady(r) { assert Marked(r, r.cons); }
      ConsumerOnly(r, Next(r, Check).pc);
    case Take => TakeKeeps(r);
    case EndDrain => EndKeeps(r);
  }

  lemma ProducerSteps(r: Ring, p: nat, step: Step)
    requires Good(r) && step in {Reload(p), Pass(p), Finish(p)} && Enabled(r, step)
    ensures Good(Next(r, step))
  {
    assert RangeOk(r, r.prods[p]);
    ProducerOnly(r, p, Next(r, step).prods[p]);
  }

  ghost predicate LegalRun(r: Ring, steps: seq<Step>)
    requires Sized(r)
    decreases |steps|
  {
    steps == [] || (Enabled(r, steps[0]) && LegalRun(Next(r, steps[0]), steps[1..]))
  }

  function Run(r: Ring, steps: seq<Step>): Ring
    requires Sized(r) && LegalRun(r, steps)
    decreases |steps|
  {
    if steps == [] then r else Run(Next(r, steps[0]), steps[1..])
  }

  lemma {:induction false} RunKeeps(r: Ring, steps: seq<Step>)
    requires Good(r) && LegalRun(r, steps)
    ensures Good(Run(r, steps))
    decreases |steps|
  {
    if steps != [] {
      StepKeeps(r, steps[0]);
      RunKeeps(Next(r, steps[0]), steps[1..]);
    }
  }

  /** For any number of producers, any bursts up to `cap` and any interleaving: the
      tokens handed out are the fill values of sequences 0, 1, 2, ... in order. */
  lemma ExactlyOnceInOrder(cap: nat, zero: seq<Token>, steps: seq<Step>)
    requires cap > 0 && |zero| == cap && LegalRun(Start(cap, zero), steps)
    ensures var r := Run(Start(cap, zero), steps); r.delivered <= r.claimed && |r.delivered| == r.cons
  {
    StartGood(cap, zero);
    RunKeeps(Start(cap, zero), steps);
  }

  /** A store never hits a slot whose published token has not been consumed. */
  lemma NoOverwrite(r: Ring, p: nat, s: nat)
    requires Good(r) && Enabled(r, Store(p)) && s in r.published && r.cons <= s
    ensures s % r.cap != r.prods[p].pc.Lo() % r.cap
    ensures Next(r, Store(p)).buf[s % r.cap] == r.claimed[s]
  {
    OwedAhead(r, p);
    SlotsDiffer(r, r.prods[p].pc.Lo(), s);
    assert Visible(r, s);
  }
}
