/** Encoding, one read at a time.  `Encoder` is the encoder's state between two
    reads of the book it encodes, with the program counter made explicit, so that
    for a captured root a writer can run there.  It ends with the image of the
    book, or panics exactly when a group count does not fit.
 */
module SnapshotEncode {
  import opened BookSpec
  import opened Wire
  import opened SbeFlyweight
  import opened SnapshotCodec
  import opened SnapshotWriter
  import opened CowBook
  import opened FlatLadder

  /** The occupied levels the encoder has passed when it stands before tick `t` of `side`. */
  function Upto(st: State, side: Side, t: nat): seq<Entry>
    requires t <= |st.Lane(side)|
  {
    if side == 0 then LaneEntries(0, st.bids, t) else LaneEntries(0, st.bids, |st.bids|) + LaneEntries(1, st.asks, t)
  }

  function Passed(side: Side, t: nat, l: Level): seq<Entry> {
    if l.head == NIL then [] else [Entry(side, t, l)]
  }

  lemma UptoStep(st: State, side: Side, t: nat)
    requires t < |st.Lane(side)|
    ensures Upto(st, side, t + 1) == Upto(st, side, t) + Passed(side, t, st.Lane(side)[t])
  {
  }

  lemma UptoTurn(st: State)
    ensures Upto(st, 1, 0) == Upto(st, 0, |st.bids|)
  {
  }

  lemma {:induction false} LaneGrows(side: Side, lane: seq<Level>, t: nat, n: nat)
    requires t <= n <= |lane|
    ensures |LaneEntries(side, lane, t)| <= |LaneEntries(side, lane, n)|
  {
    if t < n { LaneGrows(side, lane, t, n - 1); }
  }

  /** There is an element to come as long as an occupied level is. */
  lemma UptoWithin(st: State, side: Side, t: nat)
    requires t < |st.Lane(side)|
    ensures |Upto(st, side, t)| + |Passed(side, t, st.Lane(side)[t])| <= |Entries(st)|
  {
    LaneGrows(side, st.Lane(side), t + 1, |st.Lane(side)|);
  }

  lemma JoinLevel(es: seq<Entry>, e: Entry)
    ensures Join(LevelBlocks(es + [e])) == Join(LevelBlocks(es)) + LevelBlock(e)
  {
    assert LevelBlocks(es + [e])[..|es|] == LevelBlocks(es);
  }

  lemma JoinOrder(pool: seq<Order>, n: nat)
    requires n < |pool|
    ensures Join(OrderBlocks(pool, n + 1)) == Join(OrderBlocks(pool, n)) + OrderBlock(n, pool[n])
  {
    assert OrderBlocks(pool, n + 1)[..n] == OrderBlocks(pool, n);
  }

  lemma {:induction false} LevelsLength(es: seq<Entry>)
    ensures |Join(LevelBlocks(es))| == LevelsSize(|es|)
  {
    if es != [] {
      var n := |es| - 1;
      assert es == es[..n] + [es[n]];
      LevelsLength(es[..n]);
      JoinLevel(es[..n], es[n]);
    }
  }

  lemma {:induction false} OrdersLength(pool: seq<Order>, n: nat)
    requires n <= |pool|
    ensures |Join(OrderBlocks(pool, n))| == OrdersSize(n)
  {
    if n > 0 {
      OrdersLength(pool, n - 1);
      JoinOrder(pool, n - 1);
    }
  }

  /** `encodedLength` is exact: it is the length of the image. */
  lemma EncodedLengthExact(st: State, crc: Crc)
    requires st.hwm <= |st.pool|
    ensures |Image(st, crc)| == EncodedLength(|Entries(st)|, st.hwm)
  {
    LevelsLength(Entries(st));
    OrdersLength(st.pool, st.hwm);
  }

  /** Bytes up to the first level element, and up to the first order element. */
  function LevelsFront(st: State): (s: seq<Byte>)
    ensures |s| == 52
  {
    HeaderBytes() + RootBlock(RootOf(st)) + GroupHeader(LEVEL_LEN, Short(|Entries(st)|))
  }

  function OrdersFront(st: State): (s: seq<Byte>) {
    LevelsFront(st) + Join(LevelBlocks(Entries(st))) + GroupHeader(ORDER_LEN, Short(st.hwm))
  }

  lemma OrdersFrontLength(st: State)
    ensures |OrdersFront(st)| == 56 + LevelsSize(|Entries(st)|)
  {
    LevelsLength(Entries(st));
  }

  lemma BodyIs(st: State)
    requires st.hwm <= |st.pool| && CountsFit(st)
    ensures Body(st) == OrdersFront(st) + Join(OrderBlocks(st.pool, st.hwm))
  {
  }

  ghost predicate Sized(st: State) {
    |st.bids| == |st.asks| == st.nLevels && st.hwm <= |st.pool|
  }

  datatype Phase =
    | Counting(side: Side, t: nat)
    | Levels(side: Side, t: nat)
    | Orders(slot: nat)
    | Finished
    | Panicked

  /** Steps still to take. */
  function Todo(p: Phase, levels: nat, hwm: nat): int {
    match p
    case Counting(side, t) => 2 * levels + hwm + 5 + (if side == 0 then 2 * levels + 2 - t else levels + 1 - t)
    case Levels(side, t) => hwm + 2 + (if side == 0 then 2 * levels + 2 - t else levels + 1 - t)
    case Orders(slot) => 1 + hwm - slot
    case Finished => 0
    case Panicked => 0
  }

  class Encoder {
    ghost const st: State
    const out: Flyweight
    const crc: Crc
    var phase: Phase
    var n: nat
    ghost var front: seq<Byte>

    /** What has been counted and written so far, for every point where the encoder can stand. */
    ghost predicate Valid()
      reads this, out, out.buf
    {
      && Sized(st) && out.Valid()
      && match phase
         case Counting(side, t) => t <= st.nLevels && n == |Upto(st, side, t)|
         case Levels(side, t) => t <= st.nLevels && LevelsWritten(Upto(st, side, t)) && front == LevelsFront(st)
         case Orders(slot) => OrdersWritten(slot) && front == OrdersFront(st)
         case Finished => CountsFit(st) && out.Written() == Image(st, crc) && out.position == out.len
         case Panicked => !CountsFit(st)
    }

    ghost predicate LevelsWritten(es: seq<Entry>)
      reads this, out, out.buf
      requires out.Valid()
    {
      && n == |Entries(st)| && out.len == EncodedLength(n, st.hwm)
      && out.block == LEVEL_LEN && out.count == Short(n) <= MAX_COUNT && out.index == |es| <= out.count
      && |front| == 52 && out.Written() == front + Join(LevelBlocks(es))
    }

    ghost predicate OrdersWritten(slot: nat)
      reads this, out, out.buf
      requires out.Valid()
    {
      && n == |Entries(st)| <= MAX_COUNT && slot <= st.hwm <= |st.pool| && out.len == EncodedLength(n, st.hwm)
      && out.block == ORDER_LEN && out.count == Short(st.hwm) <= MAX_COUNT && out.index == slot <= out.count
      && |front| == 56 + LevelsSize(n) && out.Written() == front + Join(OrderBlocks(st.pool, slot))
    }

    constructor (ghost st: State, out: Flyweight, crc: Crc)
      requires Sized(st) && out.Valid()
      ensures Valid() && phase == Counting(0, 0) && this.st == st && this.out == out && this.crc == crc
    {
      this.st, this.out, this.crc := st, out, crc;
      phase, n, front := Counting(0, 0), 0, [];
    }

    /** The encoder is over, one way or the other. */
    predicate Done()
      reads this
    {
      phase == Finished || phase == Panicked
    }

    method CountLevel(side: Side, t: nat, l: Level)
      requires Valid() && phase == Counting(side, t) && t < st.nLevels && l == st.Lane(side)[t]
      modifies `phase, `n
      ensures Valid() && phase == Counting(side, t + 1)
    {
      UptoStep(st, side, t);
      if l.head != NIL { n := n + 1; }
      phase := Counting(side, t + 1);
    }

    method CountAsks()
      requires Valid() && phase == Counting(0, st.nLevels)
      modifies `phase
      ensures Valid() && phase == Counting(1, 0)
    {
      UptoTurn(st);
      phase := Counting(1, 0);
    }

    /** Size the buffer, write the root block, open the levels group. */
    method Begin(r: RootFields)
      requires Valid() && phase == Counting(1, st.nLevels) && r == RootOf(st)
      modifies this, out, out.buf
      ensures Valid() && (phase == Levels(0, 0) || phase == Panicked)
      ensures out.buf == old(out.buf) || fresh(out.buf)
    {
      out.Grow(EncodedLength(n, r.hwm));
      var ok := StartMessage(out, r);
      ok := out.StartGroup(n, LEVEL_LEN);
      phase := if ok then Levels(0, 0) else Panicked;
      front := out.Written();
    }

    method PutLevel(ghost es: seq<Entry>, e: Entry)
      requires Sized(st) && out.Valid() && LevelsWritten(es) && |es| < n && phase != Panicked
      modifies `phase, out, out.buf
      ensures out.Valid() && out.buf == old(out.buf)
      ensures if phase == Panicked then !CountsFit(st) else phase == old(phase) && LevelsWritten(es + [e])
    {
      LevelsLength(es);
      JoinLevel(es, e);
      var ok := SnapshotWriter.AddLevel(out, e);
      if !ok { phase := Panicked; }
    }

    method PassLevel(side: Side, t: nat, l: Level)
      requires Sized(st) && out.Valid() && t < st.nLevels && l == st.Lane(side)[t]
      requires LevelsWritten(Upto(st, side, t)) && phase != Panicked
      modifies `phase, out, out.buf
      ensures out.Valid() && out.buf == old(out.buf)
      ensures if phase == Panicked then !CountsFit(st) else phase == old(phase) && LevelsWritten(Upto(st, side, t + 1))
    {
      ghost var es := Upto(st, side, t);
      UptoStep(st, side, t);
      if l.head != NIL {
        UptoWithin(st, side, t);
        PutLevel(es, Entry(side, t, l));
      } else {
        assert es + [] == es;
      }
    }

    /** Write level `t` if it is occupied. */
    method AddLevel(side: Side, t: nat, l: Level)
      requires Valid() && phase == Levels(side, t) && t < st.nLevels && l == st.Lane(side)[t]
      modifies `phase, out, out.buf
      ensures Valid() && (phase == Levels(side, t + 1) || phase == Panicked) && out.buf == old(out.buf)
    {
      PassLevel(side, t, l);
      if phase != Panicked { phase := Levels(side, t + 1); }
    }

    method AddAsks()
      requires Valid() && phase == Levels(0, st.nLevels)
      modifies `phase
      ensures Valid() && phase == Levels(1, 0)
    {
      UptoTurn(st);
      phase := Levels(1, 0);
    }

    /** Open the orders group. */
    method Turn(hwm: nat)
      requires Valid() && phase == Levels(1, st.nLevels) && hwm == st.hwm
      modifies this, out, out.buf
      ensures Valid() && (phase == Orders(0) || phase == Panicked) && out.buf == old(out.buf)
    {
      LevelsLength(Entries(st));
      var ok := out.StartGroup(hwm, ORDER_LEN);
      phase := if ok then Orders(0) else Panicked;
      front := out.Written();
    }

    method PassOrder(slot: nat, o: Order)
      requires Sized(st) && out.Valid() && OrdersWritten(slot)
      requires slot < st.hwm && o == st.pool[slot] && phase != Panicked
      modifies `phase, out, out.buf
      ensures out.Valid() && out.buf == old(out.buf)
      ensures if phase == Panicked then !CountsFit(st) else phase == old(phase) && OrdersWritten(slot + 1)
    {
      OrdersLength(st.pool, slot);
      JoinOrder(st.pool, slot);
      var ok := SnapshotWriter.AddOrder(out, slot, o);
      if !ok { phase := Panicked; }
    }

    method AddOrder(slot: nat, o: Order)
      requires Valid() && phase == Orders(slot) && slot < st.hwm && o == st.pool[slot]
      modifies `phase, out, out.buf
      ensures Valid() && (phase == Orders(slot + 1) || phase == Panicked) && out.buf == old(out.buf)
    {
      PassOrder(slot, o);
      if phase != Panicked { phase := Orders(slot + 1); }
    }

    /** Append the checksum. */
    method End()
      requires Valid() && phase == Orders(st.hwm)
      modifies `phase, out, out.buf
      ensures Valid() && phase == Finished && out.buf == old(out.buf)
    {
      OrdersFrontLength(st);
      OrdersLength(st.pool, st.hwm);
      BodyIs(st);
      EncodedLengthExact(st, crc);
      var ok := Seal(out, crc);
      phase := Finished;
    }
  }

  // ---------- the flat book ----------

  /** `encode`: stop the world, count the occupied levels, then write them and every allocated slot. */
  method Encode(b: Ladder, out: Flyweight, crc: Crc, ghost st: State) returns (ok: bool)
    requires Sized(st) && b.State(st.ids) == st && out.Valid()
    modifies out, out.buf
    ensures ok == CountsFit(st) && out.Valid() && (ok <==> st.hwm <= 65534 && |Entries(st)| <= 65534)
    ensures ok ==> out.buf[..out.len] == Image(st, crc)
  {
    var e := new Encoder(st, out, crc);
    CountAll(b, e);
    e.Begin(RootFields(b.priceMin, b.tick, b.nLevels, b.pool.Length, b.hwm, b.bestBid, b.bestAsk, b.freeHead));
    if e.phase == Panicked { return false; }
    WriteLevels(b, e);
    if e.phase == Panicked { return false; }
    e.Turn(b.hwm);
    if e.phase == Panicked { return false; }
    WriteOrders(b, e);
    ok := e.phase == Finished;
  }

  method CountAll(b: Ladder, e: Encoder)
    requires e.Valid() && e.phase == Counting(0, 0) && b.State(e.st.ids) == e.st
    modifies e
    ensures e.Valid() && e.phase == Counting(1, e.st.nLevels)
  {
    var t := 0;
    while t < b.nLevels
      invariant t <= b.nLevels && e.Valid() && e.phase == Counting(0, t)
    {
      e.CountLevel(0, t, b.bids[t]);
      t := t + 1;
    }
    e.CountAsks();
    t := 0;
    while t < b.nLevels
      invariant t <= b.nLevels && e.Valid() && e.phase == Counting(1, t)
    {
      e.CountLevel(1, t, b.asks[t]);
      t := t + 1;
    }
  }

  method WriteLevels(b: Ladder, e: Encoder)
    requires e.Valid() && e.phase == Levels(0, 0) && b.State(e.st.ids) == e.st
    modifies e, e.out, e.out.buf
    ensures e.Valid() && (e.phase == Levels(1, e.st.nLevels) || e.phase == Panicked) && e.out.buf == old(e.out.buf)
  {
    var t := 0;
    while t < b.nLevels
      invariant t <= b.nLevels && e.Valid() && e.phase == Levels(0, t) && e.out.buf == old(e.out.buf)
    {
      e.AddLevel(0, t, b.bids[t]);
      if e.phase == Panicked { return; }
      t := t + 1;
    }
    e.AddAsks();
    t := 0;
    while t < b.nLevels
      invariant t <= b.nLevels && e.Valid() && e.phase == Levels(1, t) && e.out.buf == old(e.out.buf)
    {
      e.AddLevel(1, t, b.asks[t]);
      if e.phase == Panicked { return; }
      t := t + 1;
    }
  }

  method WriteOrders(b: Ladder, e: Encoder)
    requires e.Valid() && e.phase == Orders(0) && b.State(e.st.ids) == e.st
    modifies e, e.out, e.out.buf
    ensures e.Valid() && e.Done()
  {
    var slot := 0;
    while slot < b.hwm
      invariant slot <= b.hwm && e.Valid() && e.phase == Orders(slot) && e.out.buf == old(e.out.buf)
    {
      e.AddOrder(slot, b.pool[slot]);
      if e.phase == Panicked { return; }
      slot := slot + 1;
    }
    e.End();
  }

  // ---------- a captured root ----------

  /** One read of the root, or one of the points between the encoder's loops. */
  method StepRoot(root: Root, e: Encoder)
    requires e.Valid() && !e.Done() && root.Intact() && root.contents == e.st
    modifies e, e.out, e.out.buf
    ensures e.Valid() && Todo(e.phase, root.nLevels, root.hwm) < old(Todo(e.phase, root.nLevels, root.hwm))
    ensures e.out.buf == old(e.out.buf) || fresh(e.out.buf)
  {
    match e.phase
    case Counting(side, t) => StepCounting(root, e, side, t);
    case Levels(side, t) => StepLevels(root, e, side, t);
    case Orders(slot) => StepOrders(root, e, slot);
  }

  method StepCounting(root: Root, e: Encoder, side: Side, t: nat)
    requires e.Valid() && root.Intact() && root.contents == e.st && e.phase == Counting(side, t)
    modifies e, e.out, e.out.buf
    ensures e.Valid() && Todo(e.phase, root.nLevels, root.hwm) < old(Todo(e.phase, root.nLevels, root.hwm))
    ensures e.out.buf == old(e.out.buf) || fresh(e.out.buf)
  {
    if t < root.nLevels {
      var l := root.LevelAt(side, t);
      e.CountLevel(side, t, l);
    } else if side == 0 {
      e.CountAsks();
    } else {
      e.Begin(RootFields(root.priceMin, root.tick, root.nLevels, root.capacity, root.hwm, root.bestBid, root.bestAsk, root.freeHead));
    }
  }

  method StepLevels(root: Root, e: Encoder, side: Side, t: nat)
    requires e.Valid() && root.Intact() && root.contents == e.st && e.phase == Levels(side, t)
    modifies e, e.out, e.out.buf
    ensures e.Valid() && Todo(e.phase, root.nLevels, root.hwm) < old(Todo(e.phase, root.nLevels, root.hwm))
    ensures e.out.buf == old(e.out.buf)
  {
    if t < root.nLevels {
      var l := root.LevelAt(side, t);
      e.AddLevel(side, t, l);
    } else if side == 0 {
      e.AddAsks();
    } else {
      e.Turn(root.hwm);
    }
  }

  method StepOrders(root: Root, e: Encoder, slot: nat)
    requires e.Valid() && root.Intact() && root.contents == e.st && e.phase == Orders(slot)
    modifies e, e.out, e.out.buf
    ensures e.Valid() && Todo(e.phase, root.nLevels, root.hwm) < old(Todo(e.phase, root.nLevels, root.hwm))
    ensures e.out.buf == old(e.out.buf)
  {
    if slot < root.hwm {
      var o := root.OrderAt(slot);
      e.AddOrder(slot, o);
    } else {
      e.End();
    }
  }

  /** `encode_root` undisturbed: the image of the captured book, or a panic
      exactly when a group count does not fit. */
  method EncodeRoot(root: Root, out: Flyweight, crc: Crc) returns (ok: bool)
    requires Sized(root.contents) && root.Intact() && out.Valid()
    requires {out, out.buf} !! root.held
    modifies out, out.buf
    ensures ok == CountsFit(root.contents) && out.Valid()
    ensures ok <==> root.contents.hwm <= 65534 && |Entries(root.contents)| <= 65534
    ensures ok ==> out.buf[..out.len] == Image(root.contents, crc)
  {
    var e := new Encoder(root.contents, out, crc);
    while !e.Done()
      invariant e.Valid() && e.out == out && e.crc == crc && e.st == root.contents && root.Intact() && fresh(e)
      invariant out.buf == old(out.buf) || fresh(out.buf)
      decreases Todo(e.phase, root.nLevels, root.hwm)
    {
      StepRoot(root, e);
    }
    ok := e.phase == Finished;
  }
}
