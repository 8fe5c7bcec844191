/** A snapshot taken while the writer goes on: the encoder's reads of the root
    interleave with the single memory accesses of later operations in any order,
    and the bytes are still those of the book at the capture.
 */
module LiveCapture {
  import opened BookSpec
  import opened BookInvariant
  import opened BookAccess
  import PriceTime
  import opened Wire
  import opened SbeFlyweight
  import opened SnapshotCodec
  import opened SnapshotWriter
  import opened SnapshotEncode
  import opened CowBook

  /** Who runs next: the writer with one access, or the serializer with one read. */
  datatype Turn = Write(a: Access) | Read

  /** The writer's accesses, in order. */
  function Writes(schedule: seq<Turn>): seq<Access> {
    if schedule == [] then []
    else if schedule[0].Write? then [schedule[0].a] + Writes(schedule[1..])
    else Writes(schedule[1..])
  }

  lemma FirstTurn(st: State, schedule: seq<Turn>)
    requires schedule != [] && FitAll(st, Writes(schedule))
    ensures schedule[0].Write? ==>
      && Fits(st, schedule[0].a)
      && FitAll(After(st, schedule[0].a), Writes(schedule[1..]))
      && AfterAll(st, Writes(schedule)) == AfterAll(After(st, schedule[0].a), Writes(schedule[1..]))
    ensures schedule[0].Read? ==> Writes(schedule) == Writes(schedule[1..])
  {
    if schedule[0].Write? {
      assert Writes(schedule)[0] == schedule[0].a && Writes(schedule)[1..] == Writes(schedule[1..]);
    }
  }

  /** What holds of the live book between any two accesses, even in the middle of an operation. */
  ghost predicate Consistent(cow: CowBook)
    reads cow, cow.orderChunks, cow.bidChunks, cow.askChunks, cow.Held()
  {
    cow.Agrees() && cow.Epochs() && cow.RootsIntact()
  }

  /** An access to the chunk tables. */
  method TouchChunks(cow: CowBook, a: Access)
    requires cow.Agrees() && cow.Epochs() && Fits(cow.model, a)
    requires a.OwnOrder? || a.PutOrder? || a.OwnLevel? || a.PutLevel?
    modifies cow, cow.own
    ensures cow.Agrees() && cow.Epochs() && cow.SameEpoch() && cow.model == After(old(cow.model), a)
  {
    match a
    case OwnOrder(slot) => cow.OwnOrderChunk(slot);
    case PutOrder(slot, o) => cow.PutOrder(slot, o);
    case OwnLevel(side, t) => if side == 0 { cow.OwnBidChunk(t); } else { cow.OwnAskChunk(t); }
    case PutLevel(side, t, l) => cow.PutLevel(side, t, l);
  }

  /** An access to a scalar or the index. */
  method TouchScalar(cow: CowBook, a: Access)
    requires cow.Agrees() && cow.Epochs()
    requires a.PutBest? || a.PutIndex? || a.PutFreeHead? || a.PutHwm?
    modifies cow
    ensures cow.Agrees() && cow.Epochs() && cow.SameEpoch() && cow.model == After(old(cow.model), a)
  {
    match a
    case PutBest(side, best) => cow.PutBest(side, best);
    case PutIndex(ids) => cow.PutIndex(ids);
    case PutFreeHead(slot) => cow.PutFreeHead(slot);
    case PutHwm(hwm) => cow.PutHwm(hwm);
  }

  /** One access of the writer; captured roots stay as they were. */
  method Touch(cow: CowBook, a: Access)
    requires Consistent(cow) && Fits(cow.model, a)
    modifies cow, cow.own
    ensures Consistent(cow) && cow.SameEpoch() && cow.model == After(old(cow.model), a)
  {
    cow.RootsApart();
    if a.OwnOrder? || a.PutOrder? || a.OwnLevel? || a.PutLevel? { TouchChunks(cow, a); } else { TouchScalar(cow, a); }
  }

  /** The serializer and the writer share no object the writer may write. */
  ghost predicate Separate(cow: CowBook, e: Encoder)
    reads cow, e, e.out
  {
    e !in cow.own && e.out !in cow.own && e.out.buf !in cow.own
  }

  ghost predicate ReadingApart(cow: CowBook, e: Encoder)
    reads cow, e, e.out
  {
    e !in cow.Held() && e.out !in cow.Held() && e.out.buf !in cow.Held()
  }

  lemma RootsAreChunks(cow: CowBook, e: Encoder)
    requires cow.Epochs()
    ensures ReadingApart(cow, e)
  {
    forall o | o in cow.Held() ensures o != e && o != e.out && o != e.out.buf {
      var r, c :| r in cow.roots && c in r.held && c == o;
      assert OlderThan(o, cow.gen);
    }
  }

  /** A serialization of `root` is under way beside the live book. */
  ghost predicate Serving(cow: CowBook, root: Root, e: Encoder)
    reads cow, cow.orderChunks, cow.bidChunks, cow.askChunks, cow.Held(), e, e.out, e.out.buf
  {
    Consistent(cow) && root in cow.roots && e.Valid() && root.contents == e.st && Separate(cow, e)
  }

  /** One serializer step leaves the live book and every root alone. */
  method ReadStep(cow: CowBook, root: Root, e: Encoder)
    requires Serving(cow, root, e) && !e.Done()
    modifies e, e.out, e.out.buf
    ensures Serving(cow, root, e)
    ensures Todo(e.phase, root.nLevels, root.hwm) < old(Todo(e.phase, root.nLevels, root.hwm))
    ensures e.out.buf == old(e.out.buf) || fresh(e.out.buf)
  {
    RootsAreChunks(cow, e);
    StepRoot(root, e);
  }

  /** One access of the writer leaves the serialization alone. */
  method WriteStep(cow: CowBook, root: Root, e: Encoder, a: Access)
    requires Serving(cow, root, e) && Fits(cow.model, a)
    modifies cow, cow.own
    ensures Serving(cow, root, e) && cow.model == After(old(cow.model), a) && fresh(cow.own - old(cow.own))
  {
    Touch(cow, a);
  }

  /** The first turn of a schedule. */
  method TakeTurn(cow: CowBook, root: Root, e: Encoder, schedule: seq<Turn>)
    requires Serving(cow, root, e) && schedule != [] && FitAll(cow.model, Writes(schedule))
    modifies cow, cow.own, e, e.out, e.out.buf
    ensures Serving(cow, root, e) && fresh(cow.own - old(cow.own))
    ensures e.out.buf == old(e.out.buf) || fresh(e.out.buf)
    ensures FitAll(cow.model, Writes(schedule[1..]))
    ensures AfterAll(cow.model, Writes(schedule[1..])) == AfterAll(old(cow.model), Writes(schedule))
  {
    FirstTurn(cow.model, schedule);
    if schedule[0].Write? {
      WriteStep(cow, root, e, schedule[0].a);
    } else if !e.Done() {
      ReadStep(cow, root, e);
    }
  }

  /** Run a schedule to its end. */
  method TakeTurns(cow: CowBook, root: Root, e: Encoder, schedule: seq<Turn>)
    requires Serving(cow, root, e) && cow.own == {} && FitAll(cow.model, Writes(schedule))
    modifies cow, e, e.out, e.out.buf
    ensures Serving(cow, root, e) && cow.model == AfterAll(old(cow.model), Writes(schedule))
    ensures e.out.buf == old(e.out.buf) || fresh(e.out.buf)
  {
    ghost var last := AfterAll(cow.model, Writes(schedule));
    var rest := schedule;
    while rest != []
      invariant Serving(cow, root, e) && fresh(cow.own)
      invariant e.out.buf == old(e.out.buf) || fresh(e.out.buf)
      invariant FitAll(cow.model, Writes(rest)) && AfterAll(cow.model, Writes(rest)) == last
      decreases |rest|
    {
      TakeTurn(cow, root, e, rest);
      rest := rest[1..];
    }
  }

  method FinishReads(cow: CowBook, root: Root, e: Encoder)
    requires Serving(cow, root, e)
    modifies e, e.out, e.out.buf
    ensures Serving(cow, root, e) && e.Done()
    ensures e.out.buf == old(e.out.buf) || fresh(e.out.buf)
  {
    while !e.Done()
      invariant Serving(cow, root, e)
      invariant e.out.buf == old(e.out.buf) || fresh(e.out.buf)
      decreases Todo(e.phase, root.nLevels, root.hwm)
    {
      ReadStep(cow, root, e);
    }
  }

  /** Capture, and set the serializer up beside the live book. */
  method Start(cow: CowBook, out: Flyweight, crc: Crc) returns (root: Root, e: Encoder)
    requires cow.Valid() && out.Valid()
    modifies cow`gen, cow`roots, cow`own
    ensures Serving(cow, root, e) && cow.own == {} && cow.model == old(cow.model)
    ensures fresh(e) && e.st == cow.model && e.out == out && e.crc == crc
    ensures cow.model.hwm <= |cow.model.pool|
  {
    root := cow.Capture();
    e := new Encoder(root.contents, out, crc);
    RootsAreChunks(cow, e);
  }

  /** The schedule, then whatever the serializer still has to read. */
  method Serve(cow: CowBook, root: Root, e: Encoder, schedule: seq<Turn>)
    requires Serving(cow, root, e) && cow.own == {} && FitAll(cow.model, Writes(schedule))
    modifies cow, e, e.out, e.out.buf
    ensures Serving(cow, root, e) && e.Done() && cow.model == AfterAll(old(cow.model), Writes(schedule))
    ensures e.out.buf == old(e.out.buf) || fresh(e.out.buf)
  {
    TakeTurns(cow, root, e, schedule);
    FinishReads(cow, root, e);
  }

  /** Capture, then serialize among any accesses whatever. */
  method CaptureAndRead(cow: CowBook, out: Flyweight, crc: Crc, schedule: seq<Turn>) returns (ok: bool)
    requires cow.Valid() && FitAll(cow.model, Writes(schedule)) && out.Valid()
    modifies cow, out, out.buf
    ensures Consistent(cow) && cow.model == AfterAll(old(cow.model), Writes(schedule))
    ensures old(cow.model).hwm <= |old(cow.model).pool|
    ensures ok == CountsFit(old(cow.model)) && out.Valid()
    ensures ok ==> out.buf[..out.len] == Image(old(cow.model), crc)
  {
    var root, e := Start(cow, out, crc);
    Serve(cow, root, e, schedule);
    ok := e.phase == Finished;
  }

  /** Capture, then serialize while the writer makes the accesses of `ops` under any schedule:
      a read may fall between any two of them, inside an operation as well as between operations.
      The chunks that existed at the capture are not in the `modifies` clause: none is written again. */
  method CaptureAndServe(cow: CowBook, out: Flyweight, crc: Crc, ghost ops: seq<Op>, schedule: seq<Turn>) returns (ok: bool)
    requires cow.Valid() && LegalRun(cow.model, ops) && Writes(schedule) == RunAccesses(cow.model, ops) && out.Valid()
    modifies cow, out, out.buf
    ensures cow.Valid() && cow.model == Run(old(cow.model), ops)
    ensures old(cow.model).hwm <= |old(cow.model).pool|
    ensures ok == CountsFit(old(cow.model)) && out.Valid()
    ensures ok ==> out.buf[..out.len] == Image(old(cow.model), crc)
  {
    RunAccessesAre(cow.model, ops);
    ghost var v := PriceTime.RunRefines(cow.model, cow.view, ops);
    ok := CaptureAndRead(cow, out, crc, schedule);
    cow.SetView(v);
  }
}
