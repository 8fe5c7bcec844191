/** The copy-on-write protocol at the grain of single memory accesses.  Between
    any two accesses of the writer, a serializer may read any item through any
    captured root.  The writer has one guard, `born < gen`; there is no count of
    references.  A heap is a sequence of chunks, an address an index into it.
 */
module CowProtocol {

  datatype Cell<T> = Cell(born: nat, items: seq<T>)

  /** `live` is the writer's chunk table, each root a table shared at a capture. */
  datatype System<T> = System(heap: seq<Cell<T>>, live: seq<nat>, gen: nat, roots: seq<seq<nat>>)

  /** The writer's accesses: make a chunk its own, write one item in place, capture. */
  datatype Step<T> = Own(ci: nat) | Put(ci: nat, j: nat, x: T) | Capture

  /** A write goes through a chunk that the epoch test has let pass. */
  predicate Enabled<T>(s: System<T>, step: Step<T>) {
    match step
    case Own(ci) => ci < |s.live| && s.live[ci] < |s.heap|
    case Put(ci, j, _) =>
      ci < |s.live| && s.live[ci] < |s.heap| && j < |s.heap[s.live[ci]].items| && s.heap[s.live[ci]].born == s.gen
    case Capture => true
  }

  function Next<T>(s: System<T>, step: Step<T>): System<T>
    requires Enabled(s, step)
  {
    match step
    case Own(ci) =>
      var c := s.heap[s.live[ci]];
      if c.born < s.gen then s.(heap := s.heap + [Cell(s.gen, c.items)], live := s.live[ci := |s.heap|]) else s
    case Put(ci, j, x) =>
      var c := s.heap[s.live[ci]];
      s.(heap := s.heap[s.live[ci] := c.(items := c.items[j := x])])
    case Capture => s.(gen := s.gen + 1, roots := s.roots + [s.live])
  }

  /** The live chunks are distinct and no younger than `gen`; whatever a root holds is older. */
  ghost predicate Good<T>(s: System<T>) {
    && (forall i :: 0 <= i < |s.live| ==> s.live[i] < |s.heap| && s.heap[s.live[i]].born <= s.gen)
    && (forall i, j :: 0 <= i < j < |s.live| ==> s.live[i] != s.live[j])
    && (forall r, i :: 0 <= r < |s.roots| && 0 <= i < |s.roots[r]| ==>
          s.roots[r][i] < |s.heap| && s.heap[s.roots[r][i]].born < s.gen)
  }

  ghost predicate Allocated<T>(s: System<T>, table: seq<nat>) {
    forall i :: 0 <= i < |table| ==> table[i] < |s.heap|
  }

  /** What a table shows. */
  function Shown<T>(s: System<T>, table: seq<nat>): seq<seq<T>>
    requires Allocated(s, table)
  {
    seq(|table|, i requires 0 <= i < |table| => s.heap[table[i]].items)
  }

  /** The same step on a book that is never shared. */
  function Plain<T>(flat: seq<seq<T>>, step: Step<T>): seq<seq<T>>
    requires step.Put? ==> step.ci < |flat| && step.j < |flat[step.ci]|
  {
    if step.Put? then flat[step.ci := flat[step.ci][step.j := step.x]] else flat
  }

  /** One step keeps the invariant, acts on the live table as if nothing were shared,
      and changes nothing that can be read through a root. */
  lemma StepKeeps<T>(s: System<T>, step: Step<T>)
    requires Good(s) && Enabled(s, step)
    ensures Good(Next(s, step))
    ensures Shown(Next(s, step), Next(s, step).live) == Plain(Shown(s, s.live), step)
    ensures s.roots <= Next(s, step).roots
    ensures forall r :: 0 <= r < |s.roots| ==> Shown(Next(s, step), s.roots[r]) == Shown(s, s.roots[r])
  {
    var s' := Next(s, step);
    forall r | 0 <= r < |s.roots| ensures Allocated(s', s.roots[r]) && Shown(s', s.roots[r]) == Shown(s, s.roots[r]) { }
  }

  ghost predicate LegalSteps<T>(s: System<T>, steps: seq<Step<T>>)
    decreases |steps|
  {
    steps == [] || (Enabled(s, steps[0]) && LegalSteps(Next(s, steps[0]), steps[1..]))
  }

  function Run<T>(s: System<T>, steps: seq<Step<T>>): System<T>
    requires LegalSteps(s, steps)
    decreases |steps|
  {
    if steps == [] then s else Run(Next(s, steps[0]), steps[1..])
  }

  /** Over any run: the invariant, and every root shows what it showed. */
  lemma {:induction false} RunKeeps<T>(s: System<T>, steps: seq<Step<T>>)
    requires Good(s) && LegalSteps(s, steps)
    ensures Good(Run(s, steps)) && s.roots <= Run(s, steps).roots
    ensures forall r :: 0 <= r < |s.roots| ==>
              Allocated(Run(s, steps), s.roots[r]) && Shown(Run(s, steps), s.roots[r]) == Shown(s, s.roots[r])
    decreases |steps|
  {
    if steps != [] {
      var s1 := Next(s, steps[0]);
      StepKeeps(s, steps[0]);
      RunKeeps(s1, steps[1..]);
      forall r | 0 <= r < |s.roots|
        ensures Allocated(Run(s, steps), s.roots[r]) && Shown(Run(s, steps), s.roots[r]) == Shown(s, s.roots[r])
      {
        assert s1.roots[r] == s.roots[r];
      }
    }
  }

  // ---------- a serializer among the writer's accesses ----------

  datatype Turn<T> = Writer(step: Step<T>) | Reader(r: nat, ci: nat, j: nat)

  ghost predicate Readable<T>(s: System<T>, r: nat, ci: nat, j: nat) {
    r < |s.roots| && ci < |s.roots[r]| && s.roots[r][ci] < |s.heap| && j < |s.heap[s.roots[r][ci]].items|
  }

  function Read<T>(s: System<T>, r: nat, ci: nat, j: nat): T
    requires Readable(s, r, ci, j)
  {
    s.heap[s.roots[r][ci]].items[j]
  }

  /** The writer keeps to the protocol; the reader uses roots that exist at the start. */
  ghost predicate LegalTurns<T>(s0: System<T>, s: System<T>, turns: seq<Turn<T>>)
    decreases |turns|
  {
    turns == [] ||
    match turns[0]
    case Writer(step) => Enabled(s, step) && LegalTurns(s0, Next(s, step), turns[1..])
    case Reader(r, ci, j) => Readable(s0, r, ci, j) && LegalTurns(s0, s, turns[1..])
  }

  /** Every item read along the way. */
  ghost function Observed<T>(s0: System<T>, s: System<T>, turns: seq<Turn<T>>): seq<T>
    requires Good(s) && Frozen(s0, s) && LegalTurns(s0, s, turns)
    decreases |turns|
  {
    if turns == [] then []
    else
      match turns[0]
      case Writer(step) => FrozenStep(s0, s, step); Observed(s0, Next(s, step), turns[1..])
      case Reader(r, ci, j) => FrozenRead(s0, s, r, ci, j); [Read(s, r, ci, j)] + Observed(s0, s, turns[1..])
  }

  /** The same reads with the world stopped at the start. */
  ghost function Stopped<T>(s0: System<T>, s: System<T>, turns: seq<Turn<T>>): seq<T>
    requires LegalTurns(s0, s, turns)
    decreases |turns|
  {
    if turns == [] then []
    else
      match turns[0]
      case Writer(step) => Stopped(s0, Next(s, step), turns[1..])
      case Reader(r, ci, j) => [Read(s0, r, ci, j)] + Stopped(s0, s, turns[1..])
  }

  /** The roots of `s0` are still there and show the same. */
  ghost predicate Frozen<T>(s0: System<T>, s: System<T>) {
    && s0.roots <= s.roots
    && forall r :: 0 <= r < |s0.roots| ==>
         Allocated(s0, s0.roots[r]) && Allocated(s, s0.roots[r]) && Shown(s, s0.roots[r]) == Shown(s0, s0.roots[r])
  }

  lemma FrozenStep<T>(s0: System<T>, s: System<T>, step: Step<T>)
    requires Good(s) && Frozen(s0, s) && Enabled(s, step)
    ensures Good(Next(s, step)) && Frozen(s0, Next(s, step))
  {
    StepKeeps(s, step);
    forall r | 0 <= r < |s0.roots|
      ensures Allocated(Next(s, step), s0.roots[r]) && Shown(Next(s, step), s0.roots[r]) == Shown(s0, s0.roots[r])
    {
      assert s.roots[r] == s0.roots[r];
    }
  }

  lemma FrozenRead<T>(s0: System<T>, s: System<T>, r: nat, ci: nat, j: nat)
    requires Frozen(s0, s) && Readable(s0, r, ci, j)
    ensures Readable(s, r, ci, j) && Read(s, r, ci, j) == Read(s0, r, ci, j)
  {
    assert s.roots[r] == s0.roots[r];
    assert Shown(s, s0.roots[r])[ci] == Shown(s0, s0.roots[r])[ci];
  }

  /** Whatever the interleaving, the reader sees what it would have seen at the start. */
  lemma {:induction false} ReadsAreStopped<T>(s0: System<T>, s: System<T>, turns: seq<Turn<T>>)
    requires Good(s) && Frozen(s0, s) && LegalTurns(s0, s, turns)
    ensures Observed(s0, s, turns) == Stopped(s0, s, turns)
    decreases |turns|
  {
    if turns != [] {
      match turns[0]
      case Writer(step) =>
        FrozenStep(s0, s, step);
        ReadsAreStopped(s0, Next(s, step), turns[1..]);
      case Reader(r, ci, j) =>
        FrozenRead(s0, s, r, ci, j);
        ReadsAreStopped(s0, s, turns[1..]);
    }
  }

  /** The uniqueness argument: a chunk of the current generation is in no root. */
  lemma OwnedIsUnshared<T>(s: System<T>, ci: nat, r: nat, i: nat)
    requires Good(s) && ci < |s.live| && s.heap[s.live[ci]].born == s.gen
    requires r < |s.roots| && i < |s.roots[r]|
    ensures s.roots[r][i] != s.live[ci]
  {
  }
}
