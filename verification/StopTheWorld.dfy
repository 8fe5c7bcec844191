/** The two books side by side: the copy-on-write book, however often it is
    captured, carries the same state as the flat one, and an image serialized
    while the writer goes on equals one encoded with the world stopped.
 */
module StopTheWorld {
  import opened BookSpec
  import opened BookInvariant
  import opened BookRuns
  import opened BookAccess
  import opened Wire
  import opened SbeFlyweight
  import opened SnapshotCodec
  import opened SnapshotWriter
  import opened SnapshotEncode
  import opened LiveCapture
  import opened CowBook
  import RustBook

  /** An operation, or a capture between two operations. */
  datatype Event = Do(op: Op) | Snap

  function Ops(events: seq<Event>): seq<Op> {
    if events == [] then []
    else if events[0].Do? then [events[0].op] + Ops(events[1..])
    else Ops(events[1..])
  }

  lemma FirstEvent(st: State, events: seq<Event>)
    requires events != [] && LegalRun(st, Ops(events))
    ensures events[0].Do? ==>
      && Legal(st, events[0].op)
      && LegalRun(Apply(st, events[0].op), Ops(events[1..]))
      && Run(st, Ops(events)) == Run(Apply(st, events[0].op), Ops(events[1..]))
    ensures events[0].Snap? ==> Ops(events) == Ops(events[1..])
  {
    if events[0].Do? {
      assert Ops(events)[0] == events[0].op && Ops(events)[1..] == Ops(events[1..]);
    }
  }

  /** A legal operation goes through, and captured roots stay as they were. */
  method ApplyOp(cow: CowBook, op: Op)
    requires cow.Valid() && Legal(cow.model, op)
    modifies cow, cow.own
    ensures cow.Valid() && cow.model == Apply(old(cow.model), op)
    ensures cow.roots == old(cow.roots) && fresh(cow.own - old(cow.own))
  {
    var ok;
    match op
    case OpInsert(id, price, qty, side) => ok := cow.Insert(id, price, qty, side);
    case OpUpdate(id, fillQty) => ok := cow.Update(id, fillQty);
    case OpCancel(id) => ok := cow.Cancel(id);
    case OpFill(id) => ok := cow.Fill(id);
  }

  /** Captures taken along the way do not show in the live book, and every captured root is still intact. */
  method Replay(cow: CowBook, events: seq<Event>)
    requires cow.Valid() && LegalRun(cow.model, Ops(events))
    modifies cow, cow.own
    ensures cow.Valid() && cow.model == Run(old(cow.model), Ops(events))
    ensures old(cow.roots) <= cow.roots && fresh(cow.own - old(cow.own))
  {
    ghost var last := Run(cow.model, Ops(events));
    var rest := events;
    while rest != []
      invariant cow.Valid() && LegalRun(cow.model, Ops(rest)) && Run(cow.model, Ops(rest)) == last
      invariant old(cow.roots) <= cow.roots && fresh(cow.own - old(cow.own))
      decreases |rest|
    {
      FirstEvent(cow.model, rest);
      if rest[0].Do? {
        ApplyOp(cow, rest[0].op);
      } else {
        var root := cow.Capture();
      }
      rest := rest[1..];
    }
  }

  method ApplyFlat(b: RustBook.Book, op: Op)
    requires b.Valid() && Legal(b.model, op)
    modifies b, b.flat, b.flat.bids, b.flat.asks, b.flat.pool
    ensures b.Valid() && b.model == Apply(old(b.model), op)
  {
    var ok;
    match op
    case OpInsert(id, price, qty, side) => ok := b.Insert(id, price, qty, side);
    case OpUpdate(id, fillQty) => ok := b.Update(id, fillQty);
    case OpCancel(id) => ok := b.Cancel(id);
    case OpFill(id) => ok := b.Fill(id);
  }

  method ReplayFlat(b: RustBook.Book, ops: seq<Op>)
    requires b.Valid() && LegalRun(b.model, ops)
    modifies b, b.flat, b.flat.bids, b.flat.asks, b.flat.pool
    ensures b.Valid() && b.model == Run(old(b.model), ops)
  {
    ghost var last := Run(b.model, ops);
    var rest := ops;
    while rest != []
      invariant b.Valid() && LegalRun(b.model, rest) && Run(b.model, rest) == last
      decreases |rest|
    {
      ApplyFlat(b, rest[0]);
      rest := rest[1..];
    }
  }

  method BuildFlat(cfg: Config, ops: seq<Op>) returns (flat: RustBook.Book)
    requires cfg.Valid() && LegalRun(Empty(cfg), ops)
    ensures flat.Valid() && flat.model == Run(Empty(cfg), ops)
    ensures fresh(flat) && fresh(flat.flat) && fresh(flat.flat.bids) && fresh(flat.flat.asks) && fresh(flat.flat.pool)
  {
    flat := new RustBook.Book(cfg);
    ReplayFlat(flat, ops);
  }

  method BuildCow(cfg: Config, chunk: nat, events: seq<Event>) returns (cow: CowBook)
    requires cfg.Valid() && chunk > 0 && LegalRun(Empty(cfg), Ops(events))
    ensures cow.Valid() && cow.model == Run(Empty(cfg), Ops(events)) && fresh(cow) && fresh(cow.own)
  {
    cow := new CowBook(cfg, chunk);
    Replay(cow, events);
  }

  /** The two books in lockstep: after any operations and captures, the same pool, ladder,
      high-water mark, free list, best prices and index. */
  method Lockstep(cfg: Config, chunk: nat, events: seq<Event>) returns (cow: CowBook, flat: RustBook.Book)
    requires cfg.Valid() && chunk > 0 && LegalRun(Empty(cfg), Ops(events))
    ensures cow.Valid() && flat.Valid() && cow.model == flat.model == Run(Empty(cfg), Ops(events))
  {
    flat := BuildFlat(cfg, Ops(events));
    cow := BuildCow(cfg, chunk, events);
  }

  /** The stop-the-world image after `ops`. */
  method Stopped(cfg: Config, ops: seq<Op>, crc: Crc) returns (ok: bool, bytes: seq<Byte>)
    requires cfg.Valid() && LegalRun(Empty(cfg), ops)
    ensures Run(Empty(cfg), ops).hwm <= |Run(Empty(cfg), ops).pool|
    ensures ok == CountsFit(Run(Empty(cfg), ops))
    ensures ok ==> bytes == Image(Run(Empty(cfg), ops), crc)
  {
    var b := BuildFlat(cfg, ops);
    var out := new Flyweight();
    ok := Encode(b.flat, out, crc, b.model);
    bytes := out.buf[..out.len];
  }

  /** The image of a root captured after `before`, serialized while the
      accesses of `after` go on under `schedule`. */
  method Live(cfg: Config, chunk: nat, before: seq<Event>, ghost after: seq<Op>, schedule: seq<Turn>, crc: Crc) returns (ok: bool, bytes: seq<Byte>)
    requires cfg.Valid() && chunk > 0 && LegalRun(Empty(cfg), Ops(before))
    requires LegalRun(Run(Empty(cfg), Ops(before)), after)
    requires Writes(schedule) == RunAccesses(Run(Empty(cfg), Ops(before)), after)
    ensures Run(Empty(cfg), Ops(before)).hwm <= |Run(Empty(cfg), Ops(before)).pool|
    ensures ok == CountsFit(Run(Empty(cfg), Ops(before)))
    ensures ok ==> bytes == Image(Run(Empty(cfg), Ops(before)), crc)
  {
    var cow := BuildCow(cfg, chunk, before);
    var out := new Flyweight();
    ok := CaptureAndServe(cow, out, crc, after, schedule);
    bytes := out.buf[..out.len];
  }

  /** For every history, capture point and interleaving of the serializer's reads with the
      single accesses of later operations, the two images are the same bytes. */
  method LiveEqualsStopped(cfg: Config, chunk: nat, before: seq<Event>, ghost after: seq<Op>, schedule: seq<Turn>, crc: Crc)
    returns (ok: bool, live: seq<Byte>, stopped: seq<Byte>)
    requires cfg.Valid() && chunk > 0 && LegalRun(Empty(cfg), Ops(before))
    requires LegalRun(Run(Empty(cfg), Ops(before)), after)
    requires Writes(schedule) == RunAccesses(Run(Empty(cfg), Ops(before)), after)
    ensures ok == CountsFit(Run(Empty(cfg), Ops(before)))
    ensures ok ==> live == stopped
  {
    var ok2;
    ok, live := Live(cfg, chunk, before, after, schedule, crc);
    ok2, stopped := Stopped(cfg, Ops(before), crc);
  }
}
