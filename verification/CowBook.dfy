/** The chunked copy-on-write book.  Before its first write to a chunk after a
    capture the writer copies it; the only test is the epoch, `born < gen`.
    `Epochs` is the uniqueness argument behind the in-place writes: a chunk of
    the current generation sits in exactly one cell of the live tables and in
    no captured root, and whatever a root holds was born earlier.
 */
module CowBook {
  import opened BookSpec
  import opened BookInvariant
  import opened InsertKeeps
  import opened DepartKeeps
  import opened BookRuns
  import opened CowChunks

  const LEVEL_CHUNK: nat := 256

  /** `o` is a chunk made in generation `gen`. */
  ghost predicate MadeIn(o: object, gen: nat) {
    (o is Chunk<Order> && (o as Chunk<Order>).born == gen) || (o is Chunk<Level> && (o as Chunk<Level>).born == gen)
  }

  /** `o` is a chunk made before generation `gen`. */
  ghost predicate OlderThan(o: object, gen: nat) {
    (o is Chunk<Order> && (o as Chunk<Order>).born < gen) || (o is Chunk<Level> && (o as Chunk<Level>).born < gen)
  }

  /** A frozen view: chunk references and scalars, never changed after capture.
      `contents` is the book it was captured from. */
  class Root {
    const priceMin: int
    const tick: int
    const nLevels: nat
    const capacity: nat
    const hwm: nat
    const bestBid: int
    const bestAsk: int
    const chunk: nat
    const freeHead: nat
    const orderChunks: seq<Chunk<Order>>
    const bidChunks: seq<Chunk<Level>>
    const askChunks: seq<Chunk<Level>>
    ghost const contents: State
    ghost const held: set<object>

    /** `held` covers the chunks of the three tables. */
    ghost predicate Holds() {
      && (forall i :: 0 <= i < |orderChunks| ==> orderChunks[i] as object in held)
      && (forall i :: 0 <= i < |bidChunks| ==> bidChunks[i] as object in held)
      && (forall i :: 0 <= i < |askChunks| ==> askChunks[i] as object in held)
    }

    ghost predicate HeldBefore(gen: nat) {
      && BornBefore(orderChunks, gen) && BornBefore(bidChunks, gen) && BornBefore(askChunks, gen)
      && forall o :: o in held ==> OlderThan(o, gen)
    }

    lemma StillHeldBefore(gen: nat)
      requires HeldBefore(gen)
      ensures HeldBefore(gen + 1)
    {
    }

    /** Everything readable through this root is the book at the capture. */
    ghost predicate Intact()
      reads held
    {
      && Holds()
      && chunk > 0 && capacity == |contents.pool| && nLevels == contents.nLevels
      && priceMin == contents.priceMin && tick == contents.tick && hwm == contents.hwm
      && bestBid == contents.bestBid && bestAsk == contents.bestAsk && freeHead == contents.freeHead
      && Cells(orderChunks, chunk, contents.pool)
      && Cells(bidChunks, LEVEL_CHUNK, contents.bids)
      && Cells(askChunks, LEVEL_CHUNK, contents.asks)
    }

    constructor (ghost st: State, cap: nat, chunk: nat, hwm: nat, bestBid: int, bestAsk: int, freeHead: nat,
                 priceMin: int, tick: int, nLevels: nat,
                 oc: seq<Chunk<Order>>, bc: seq<Chunk<Level>>, ac: seq<Chunk<Level>>)
      ensures contents == st && this.chunk == chunk && this.hwm == hwm && this.bestBid == bestBid && this.bestAsk == bestAsk
      ensures this.freeHead == freeHead && this.priceMin == priceMin && this.tick == tick && this.nLevels == nLevels
      ensures Holds()
      ensures forall g :: BornBefore(oc, g) && BornBefore(bc, g) && BornBefore(ac, g) ==> HeldBefore(g)
      ensures this.capacity == cap && orderChunks == oc && bidChunks == bc && askChunks == ac
    {
      contents := st;
      held := (set i | 0 <= i < |oc| :: oc[i] as object) + (set i | 0 <= i < |bc| :: bc[i] as object) + (set i | 0 <= i < |ac| :: ac[i] as object);
      this.chunk, this.hwm, this.bestBid, this.bestAsk, this.freeHead := chunk, hwm, bestBid, bestAsk, freeHead;
      this.priceMin, this.tick, this.nLevels, this.capacity := priceMin, tick, nLevels, cap;
      orderChunks, bidChunks, askChunks := oc, bc, ac;
    }

    method OrderAt(slot: nat) returns (o: Order)
      requires Intact() && slot < |contents.pool|
      ensures o == contents.pool[slot]
    {
      assert CellIs(orderChunks, chunk, slot, contents.pool[slot]);
      o := orderChunks[slot / chunk].items[slot % chunk];
    }

    method LevelAt(side: Side, t: nat) returns (l: Level)
      requires Intact() && t < |contents.Lane(side)|
      ensures l == contents.Lane(side)[t]
    {
      assert side == 0 ==> CellIs(bidChunks, LEVEL_CHUNK, t, contents.bids[t]);
      assert side == 1 ==> CellIs(askChunks, LEVEL_CHUNK, t, contents.asks[t]);
      l := if side == 0 then bidChunks[t / LEVEL_CHUNK].items[t % LEVEL_CHUNK]
           else askChunks[t / LEVEL_CHUNK].items[t % LEVEL_CHUNK];
    }
  }

  class CowBook {
    var priceMin: int
    var tick: int
    var nLevels: nat
    var capacity: nat
    var chunk: nat
    var gen: nat
    var orderChunks: seq<Chunk<Order>>
    var bidChunks: seq<Chunk<Level>>
    var askChunks: seq<Chunk<Level>>
    var hwm: nat
    var bestBid: int
    var bestAsk: int
    var freeHead: nat
    var idmap: map<int, nat>
    ghost var model: State
    ghost var view: View
    ghost var roots: set<Root>
    ghost var own: set<object>  // what the epoch test lets the writer write in place

    constructor (cfg: Config, chunk: nat)
      requires cfg.Valid() && chunk > 0
      ensures Valid() && model == Empty(cfg) && gen == 1 && roots == {} && fresh(own)
      ensures Untouched(model, cfg.blank)
    {
      this.priceMin, this.tick, this.nLevels, this.capacity, this.chunk := cfg.priceMin, cfg.tick, cfg.levels, cfg.cap, chunk;
      gen, hwm, bestBid, bestAsk, freeHead, idmap := 1, 0, -1, -1, NIL, map[];
      var oc, bc, ac;
      ghost var mine;
      oc, bc, ac, mine := NewTables(cfg, chunk);
      orderChunks, bidChunks, askChunks, own := oc, bc, ac, mine;
      model, roots := Empty(cfg), {};
      view := View(seq(cfg.levels, _ => []), seq(cfg.levels, _ => []), []);
      new;
      EmptyInv(cfg);
    }

    /** The live tables and scalars are the flat book `model`. */
    ghost predicate Agrees()
      reads this, orderChunks, bidChunks, askChunks
    {
      && chunk > 0 && capacity == |model.pool| && nLevels == model.nLevels
      && priceMin == model.priceMin && tick == model.tick && hwm == model.hwm
      && bestBid == model.bestBid && bestAsk == model.bestAsk && freeHead == model.freeHead && idmap == model.ids
      && Cells(orderChunks, chunk, model.pool)
      && Cells(bidChunks, LEVEL_CHUNK, model.bids)
      && Cells(askChunks, LEVEL_CHUNK, model.asks)
    }

    /** Current-generation chunks are referenced from one live cell and no root;
        everything a root holds is older. */
    ghost predicate Epochs()
      reads this
    {
      && Distinct(orderChunks) && Distinct(bidChunks) && Distinct(askChunks) && Disjoint(bidChunks, askChunks)
      && BornBy(orderChunks, gen, own) && BornBy(bidChunks, gen, own) && BornBy(askChunks, gen, own)
      && (forall o :: o in own ==> MadeIn(o, gen))
      && forall r :: r in roots ==> r.HeldBefore(gen)
    }

    /** The chunks held by captured roots. */
    ghost function Held(): set<object>
      reads this
    {
      set r, c | r in roots && c in r.held :: c
    }

    ghost predicate RootsIntact()
      reads this, Held()
    {
      forall r :: r in roots ==> r.Intact()
    }

    ghost predicate Valid()
      reads this, orderChunks, bidChunks, askChunks, Held()
    {
      Agrees() && Epochs() && RootsIntact() && Inv(model, view)
    }

    /** No chunk the writer may write is held by a root. */
    lemma OwnApart(r: Root)
      requires Epochs() && r in roots
      ensures own !! r.held
    {
    }

    /** The uniqueness argument behind the in-place writes to orders: a chunk of the current
        generation is in one cell of the live table and in no root, and whatever a root holds is older. */
    lemma OrderChunkUnique(ci: nat)
      requires Epochs() && ci < |orderChunks|
      ensures orderChunks[ci].born == gen ==>
        && (forall cj :: 0 <= cj < |orderChunks| && cj != ci ==> orderChunks[cj] != orderChunks[ci])
        && forall r, k :: r in roots && 0 <= k < |r.orderChunks| ==> r.orderChunks[k] != orderChunks[ci]
      ensures forall r, k :: r in roots && 0 <= k < |r.orderChunks| ==> r.orderChunks[k].born < gen
    {
      forall cj | 0 <= cj < |orderChunks| && cj != ci ensures orderChunks[cj] != orderChunks[ci] {
        assert Differ(orderChunks, cj, orderChunks, ci);
      }
    }

    /** The same for a ladder chunk, across both lanes. */
    lemma BidChunkUnique(ci: nat)
      requires Epochs() && ci < |bidChunks|
      ensures bidChunks[ci].born == gen ==>
        && (forall cj :: 0 <= cj < |bidChunks| && cj != ci ==> bidChunks[cj] != bidChunks[ci])
        && (forall cj :: 0 <= cj < |askChunks| ==> askChunks[cj] != bidChunks[ci])
        && (forall r, k :: r in roots && 0 <= k < |r.bidChunks| ==> r.bidChunks[k] != bidChunks[ci])
        && (forall r, k :: r in roots && 0 <= k < |r.askChunks| ==> r.askChunks[k] != bidChunks[ci])
    {
      forall cj | 0 <= cj < |bidChunks| && cj != ci ensures bidChunks[cj] != bidChunks[ci] {
        assert Differ(bidChunks, cj, bidChunks, ci);
      }
      forall cj | 0 <= cj < |askChunks| ensures askChunks[cj] != bidChunks[ci] {
        assert Differ(bidChunks, ci, askChunks, cj);
      }
    }

    lemma AskChunkUnique(ci: nat)
      requires Epochs() && ci < |askChunks|
      ensures askChunks[ci].born == gen ==>
        && (forall cj :: 0 <= cj < |askChunks| && cj != ci ==> askChunks[cj] != askChunks[ci])
        && (forall cj :: 0 <= cj < |bidChunks| ==> bidChunks[cj] != askChunks[ci])
        && (forall r, k :: r in roots && 0 <= k < |r.bidChunks| ==> r.bidChunks[k] != askChunks[ci])
        && (forall r, k :: r in roots && 0 <= k < |r.askChunks| ==> r.askChunks[k] != askChunks[ci])
    {
      forall cj | 0 <= cj < |askChunks| && cj != ci ensures askChunks[cj] != askChunks[ci] {
        assert Differ(askChunks, cj, askChunks, ci);
      }
      forall cj | 0 <= cj < |bidChunks| ensures bidChunks[cj] != askChunks[ci] {
        assert Differ(bidChunks, cj, askChunks, ci);
      }
    }

    /** The generation, the captured roots and the view are as before, and only
        chunks made since then joined the writer's own. */
    twostate predicate SameEpoch()
      reads this
    {
      gen == old(gen) && roots == old(roots) && view == old(view) && fresh(own - old(own))
    }

    /** The copy half of `order_mut`: afterwards the chunk of `slot` is the writer's own. */
    method OwnOrderChunk(slot: nat)
      requires Agrees() && Epochs() && slot < |model.pool|
      modifies `orderChunks, `own
      ensures Agrees() && Epochs() && SameEpoch()
      ensures slot / chunk < |orderChunks| && orderChunks[slot / chunk].born == gen && orderChunks[slot / chunk] as object in own
      ensures CopiedAt(old(orderChunks), orderChunks, slot / chunk, gen)
    {
      assert CellIs(orderChunks, chunk, slot, model.pool[slot]);
      orderChunks, own := CowChunks.Own(orderChunks, chunk, model.pool, slot / chunk, gen, own);
      BornByMore(bidChunks, gen, old(own), own);
      BornByMore(askChunks, gen, old(own), own);
    }

    method WriteOrder(slot: nat, o: Order)
      requires Agrees() && Epochs() && slot < |model.pool|
      requires slot / chunk < |orderChunks| && orderChunks[slot / chunk].born == gen
      modifies `model, orderChunks[slot / chunk]
      ensures Agrees() && Epochs() && SameEpoch()
      ensures model == old(model).SetOrder(slot, o)
    {
      CowChunks.Write(orderChunks, chunk, model.pool, slot, o, gen);
      model := model.SetOrder(slot, o);
    }

    /** `order_mut` and the write through it. */
    method PutOrder(slot: nat, o: Order)
      requires Agrees() && Epochs() && slot < |model.pool|
      modifies `own, `orderChunks, `model, own
      ensures Agrees() && Epochs() && SameEpoch()
      ensures model == old(model).SetOrder(slot, o)
      ensures CopiedAt(old(orderChunks), orderChunks, slot / chunk, gen)
    {
      OwnOrderChunk(slot);
      WriteOrder(slot, o);
    }

    method OwnBidChunk(t: nat)
      requires Agrees() && Epochs() && t < |model.bids|
      modifies `bidChunks, `own
      ensures Agrees() && Epochs() && SameEpoch()
      ensures t / LEVEL_CHUNK < |bidChunks| && bidChunks[t / LEVEL_CHUNK].born == gen && bidChunks[t / LEVEL_CHUNK] as object in own
      ensures CopiedAt(old(bidChunks), bidChunks, t / LEVEL_CHUNK, gen)
    {
      assert CellIs(bidChunks, LEVEL_CHUNK, t, model.bids[t]);
      bidChunks, own := CowChunks.Own(bidChunks, LEVEL_CHUNK, model.bids, t / LEVEL_CHUNK, gen, own);
      BornByMore(orderChunks, gen, old(own), own);
      BornByMore(askChunks, gen, old(own), own);
      forall i, j | 0 <= i < |bidChunks| && 0 <= j < |askChunks| ensures Differ(bidChunks, i, askChunks, j) {
        assert old(Differ(bidChunks, i, askChunks, j));
      }
    }

    method OwnAskChunk(t: nat)
      requires Agrees() && Epochs() && t < |model.asks|
      modifies `askChunks, `own
      ensures Agrees() && Epochs() && SameEpoch()
      ensures t / LEVEL_CHUNK < |askChunks| && askChunks[t / LEVEL_CHUNK].born == gen && askChunks[t / LEVEL_CHUNK] as object in own
      ensures CopiedAt(old(askChunks), askChunks, t / LEVEL_CHUNK, gen)
    {
      assert CellIs(askChunks, LEVEL_CHUNK, t, model.asks[t]);
      askChunks, own := CowChunks.Own(askChunks, LEVEL_CHUNK, model.asks, t / LEVEL_CHUNK, gen, own);
      BornByMore(orderChunks, gen, old(own), own);
      BornByMore(bidChunks, gen, old(own), own);
      forall i, j | 0 <= i < |bidChunks| && 0 <= j < |askChunks| ensures Differ(bidChunks, i, askChunks, j) {
        assert old(Differ(bidChunks, i, askChunks, j));
      }
    }

    method WriteBid(t: nat, l: Level)
      requires Agrees() && Epochs() && t < |model.bids|
      requires t / LEVEL_CHUNK < |bidChunks| && bidChunks[t / LEVEL_CHUNK].born == gen
      modifies `model, bidChunks[t / LEVEL_CHUNK]
      ensures Agrees() && Epochs() && SameEpoch()
      ensures model == old(model).SetLevel(0, t, l)
    {
      forall j | 0 <= j < |askChunks| ensures bidChunks[t / LEVEL_CHUNK] != askChunks[j] {
        assert Differ(bidChunks, t / LEVEL_CHUNK, askChunks, j);
      }
      CowChunks.Write(bidChunks, LEVEL_CHUNK, model.bids, t, l, gen);
      model := model.SetLevel(0, t, l);
    }

    method PutBid(t: nat, l: Level)
      requires Agrees() && Epochs() && t < |model.bids|
      modifies `own, `bidChunks, `model, own
      ensures Agrees() && Epochs() && SameEpoch()
      ensures model == old(model).SetLevel(0, t, l)
      ensures CopiedAt(old(bidChunks), bidChunks, t / LEVEL_CHUNK, gen)
    {
      OwnBidChunk(t);
      WriteBid(t, l);
    }

    method WriteAsk(t: nat, l: Level)
      requires Agrees() && Epochs() && t < |model.asks|
      requires t / LEVEL_CHUNK < |askChunks| && askChunks[t / LEVEL_CHUNK].born == gen
      modifies `model, askChunks[t / LEVEL_CHUNK]
      ensures Agrees() && Epochs() && SameEpoch()
      ensures model == old(model).SetLevel(1, t, l)
    {
      forall i | 0 <= i < |bidChunks| ensures askChunks[t / LEVEL_CHUNK] != bidChunks[i] {
        assert Differ(bidChunks, i, askChunks, t / LEVEL_CHUNK);
      }
      CowChunks.Write(askChunks, LEVEL_CHUNK, model.asks, t, l, gen);
      model := model.SetLevel(1, t, l);
    }

    method PutAsk(t: nat, l: Level)
      requires Agrees() && Epochs() && t < |model.asks|
      modifies `own, `askChunks, `model, own
      ensures Agrees() && Epochs() && SameEpoch()
      ensures model == old(model).SetLevel(1, t, l)
      ensures CopiedAt(old(askChunks), askChunks, t / LEVEL_CHUNK, gen)
    {
      OwnAskChunk(t);
      WriteAsk(t, l);
    }

    /** `level_mut` and the write through it. */
    method PutLevel(side: Side, t: nat, l: Level)
      requires Agrees() && Epochs() && t < |model.Lane(side)|
      modifies `own, `bidChunks, `askChunks, `model, own
      ensures Agrees() && Epochs() && SameEpoch()
      ensures model == old(model).SetLevel(side, t, l)
      ensures CopiedAt(old(LaneChunks(side)), LaneChunks(side), t / LEVEL_CHUNK, gen) && LaneChunks(1 - side) == old(LaneChunks(1 - side))
    {
      if side == 0 { PutBid(t, l); } else { PutAsk(t, l); }
    }

    function LaneChunks(side: Side): seq<Chunk<Level>>
      reads this
    {
      if side == 0 then bidChunks else askChunks
    }

    method OrderAt(slot: nat) returns (o: Order)
      requires Agrees() && slot < |model.pool|
      ensures o == model.pool[slot]
    {
      assert CellIs(orderChunks, chunk, slot, model.pool[slot]);
      o := orderChunks[slot / chunk].items[slot % chunk];
    }

    method LevelAt(side: Side, t: nat) returns (l: Level)
      requires Agrees() && t < |model.Lane(side)|
      ensures l == model.Lane(side)[t]
    {
      assert side == 0 ==> CellIs(bidChunks, LEVEL_CHUNK, t, model.bids[t]);
      assert side == 1 ==> CellIs(askChunks, LEVEL_CHUNK, t, model.asks[t]);
      var lane := LaneChunks(side);
      l := lane[t / LEVEL_CHUNK].items[t % LEVEL_CHUNK];
    }

    method AllocSlot() returns (ok: bool, slot: nat)
      requires Agrees() && Epochs() && model.SlotOk(freeHead) && hwm <= capacity
      modifies `hwm, `freeHead, `model
      ensures Agrees() && Epochs() && SameEpoch()
      ensures ok == old(model).CanAlloc()
      ensures ok ==> slot == BookSpec.AllocSlot(old(model)) && slot < |model.pool| && model == AfterAlloc(old(model))
      ensures !ok ==> model == old(model)
    {
      if freeHead != NIL {
        slot := freeHead;
        var o := OrderAt(slot);
        model := AfterAlloc(model);
        freeHead := o.next;
        return true, slot;
      }
      if hwm == capacity { return false, 0; }
      slot := hwm;
      model := AfterAlloc(model);
      hwm := hwm + 1;
      return true, slot;
    }

    method PutBest(side: Side, b: int)
      requires Agrees() && Epochs()
      modifies `bestBid, `bestAsk, `model
      ensures Agrees() && Epochs() && SameEpoch() && model == old(model).SetBest(side, b)
    {
      if side == 0 { bestBid := b; } else { bestAsk := b; }
      model := model.SetBest(side, b);
    }

    method PutIndex(ids: map<int, nat>)
      requires Agrees() && Epochs()
      modifies `idmap, `model
      ensures Agrees() && Epochs() && SameEpoch() && model == old(model).(ids := ids)
    {
      idmap := ids;
      model := model.(ids := ids);
    }

    /** Set the scalars, as a restore does. */
    method PutLadder(priceMin: int, tick: int, nLevels: nat)
      requires Agrees() && Epochs()
      modifies `priceMin, `tick, `nLevels, `model
      ensures Agrees() && Epochs() && SameEpoch()
      ensures model == old(model).(priceMin := priceMin, tick := tick, nLevels := nLevels)
    {
      this.priceMin, this.tick, this.nLevels := priceMin, tick, nLevels;
      model := model.(priceMin := priceMin, tick := tick, nLevels := nLevels);
    }

    method PutHwm(hwm: nat)
      requires Agrees() && Epochs()
      modifies `hwm, `model
      ensures Agrees() && Epochs() && SameEpoch() && model == old(model).(hwm := hwm)
    {
      this.hwm := hwm;
      model := model.(hwm := hwm);
    }

    ghost method SetView(v: View)
      requires Agrees() && Epochs() && RootsIntact() && Inv(model, v)
      modifies `view
      ensures Valid()
    {
      view := v;
    }

    method PutFreeHead(slot: nat)
      requires Agrees() && Epochs()
      modifies `freeHead, `model
      ensures Agrees() && Epochs() && SameEpoch() && model == old(model).(freeHead := slot)
    {
      freeHead := slot;
      model := model.(freeHead := slot);
    }

    /** Point a neighbour's `next` (or `prev`) elsewhere; NIL has no record to change. */
    method PutNext(slot: nat, next: nat)
      requires Agrees() && Epochs() && (slot == NIL || slot < |model.pool|)
      modifies `own, `orderChunks, `model, own
      ensures Agrees() && Epochs() && SameEpoch()
      ensures model == if slot != NIL then old(model).SetOrder(slot, old(model).pool[slot].(next := next)) else old(model)
    {
      if slot != NIL {
        var p := OrderAt(slot);
        PutOrder(slot, p.(next := next));
      }
    }

    method PutPrev(slot: nat, prev: nat)
      requires Agrees() && Epochs() && (slot == NIL || slot < |model.pool|)
      modifies `own, `orderChunks, `model, own
      ensures Agrees() && Epochs() && SameEpoch()
      ensures model == if slot != NIL then old(model).SetOrder(slot, old(model).pool[slot].(prev := prev)) else old(model)
    {
      if slot != NIL {
        var p := OrderAt(slot);
        PutOrder(slot, p.(prev := prev));
      }
    }

    method PushLevel(side: Side, t: nat, slot: nat, qty: int)
      requires Agrees() && Epochs() && t < |model.Lane(side)|
      modifies `own, `bidChunks, `askChunks, `model, own
      ensures Agrees() && Epochs() && SameEpoch()
      ensures model == old(model).SetLevel(side, t, PushedLevel(old(model).Lane(side)[t], slot, qty))
    {
      var lvl := LevelAt(side, t);
      PutLevel(side, t, PushedLevel(lvl, slot, qty));
    }

    method RaiseBest(side: Side, t: nat)
      requires Agrees() && Epochs()
      modifies `bestBid, `bestAsk, `model
      ensures Agrees() && Epochs() && SameEpoch()
      ensures model == old(model).SetBest(side, BetterBest(side, old(model).Best(side), t))
    {
      if side == 0 && (bestBid < 0 || t > bestBid) { PutBest(0, t); }
      if side == 1 && (bestAsk < 0 || t < bestAsk) { PutBest(1, t); }
    }

    /** Write the record and its level. */
    method Rest(slot: nat, t: nat, o: Order)
      requires Agrees() && Epochs() && slot < |model.pool| && t < |model.Lane(o.side)|
      modifies `own, `orderChunks, `bidChunks, `askChunks, `model, own
      ensures Agrees() && Epochs() && SameEpoch()
      ensures model == Rested(old(model), slot, t, o)
    {
      PutOrder(slot, o);
      PushLevel(o.side, t, slot, o.qty);
    }

    /** Index the order and raise the best. */
    method Announce(id: int, slot: nat, side: Side, t: nat)
      requires Agrees() && Epochs()
      modifies `idmap, `bestBid, `bestAsk, `model
      ensures Agrees() && Epochs() && SameEpoch()
      ensures model == Announced(old(model), id, slot, side, t)
    {
      PutIndex(idmap[id := slot]);
      RaiseBest(side, t);
    }

    /** The writes of `insert` once a slot is in hand, in the order of the source. */
    method Place(slot: nat, t: nat, o: Order)
      requires Agrees() && Epochs() && slot < |model.pool| && t < |model.Lane(o.side)|
      requires (o.prev == NIL || o.prev < |model.pool|) && o.prev != slot
      modifies this, own
      ensures Agrees() && Epochs() && SameEpoch()
      ensures model == BookSpec.Place(old(model), slot, t, o)
    {
      PlaceSteps(model, slot, t, o);
      Rest(slot, t, o);
      PutNext(o.prev, slot);
      Announce(o.id, slot, o.side, t);
    }

    method InsertWrites(id: int, price: int, qty: int, side: Side, t: nat) returns (ok: bool)
      requires Agrees() && Epochs() && model.Bounded() && t == TickOf(model.priceMin, model.tick, price) < model.nLevels
      requires model.CanAlloc() ==> BookSpec.AllocSlot(model) < |model.pool| && model.Lane(side)[t].tail != BookSpec.AllocSlot(model)
      modifies this, own
      ensures Agrees() && Epochs() && SameEpoch() && ok == old(model).CanAlloc()
      ensures model == if ok then BookSpec.Insert(old(model), id, price, qty, side) else old(model)
    {
      var slot;
      ok, slot := AllocSlot();
      if ok {
        var l := LevelAt(side, t);
        Place(slot, t, Order(id, price, qty, 0, NIL, l.tail, side));
      }
    }

    /** The writer's own chunks lie outside every root, so writing them leaves the roots as they were. */
    lemma RootsApart()
      requires Epochs()
      ensures forall r :: r in roots ==> own !! r.held
    {
      forall r | r in roots ensures own !! r.held { OwnApart(r); }
    }

    method InsertApart(id: int, price: int, qty: int, side: Side, t: nat) returns (ok: bool)
      requires Agrees() && Epochs() && RootsIntact() && model.Bounded() && t == TickOf(model.priceMin, model.tick, price) < model.nLevels
      requires model.CanAlloc() ==> BookSpec.AllocSlot(model) < |model.pool| && model.Lane(side)[t].tail != BookSpec.AllocSlot(model)
      modifies this, own
      ensures Agrees() && Epochs() && SameEpoch() && RootsIntact() && ok == old(model).CanAlloc()
      ensures model == if ok then BookSpec.Insert(old(model), id, price, qty, side) else old(model)
    {
      RootsApart();
      ok := InsertWrites(id, price, qty, side, t);
    }

    method InsertChecked(id: int, price: int, qty: int, side: Side, t: nat, ghost v: View) returns (ok: bool)
      requires Agrees() && Epochs() && RootsIntact() && model.Bounded() && t == TickOf(model.priceMin, model.tick, price) < model.nLevels
      requires model.CanAlloc() ==> BookSpec.AllocSlot(model) < |model.pool| && model.Lane(side)[t].tail != BookSpec.AllocSlot(model)
      requires Inv(if model.CanAlloc() then BookSpec.Insert(model, id, price, qty, side) else model, v)
      modifies this, own
      ensures Valid() && gen == old(gen) && roots == old(roots) && fresh(own - old(own)) && ok == old(model).CanAlloc()
      ensures model == if ok then BookSpec.Insert(old(model), id, price, qty, side) else old(model)
    {
      ok := InsertApart(id, price, qty, side, t);
      view := v;
    }

    /** Rest a new order; a full pool panics.  Captured roots are untouched. */
    method Insert(id: int, price: int, qty: int, side: Side) returns (ok: bool)
      requires Valid() && InsertOk(model, id, price)
      modifies this, own
      ensures Valid() && gen == old(gen) && roots == old(roots) && fresh(own - old(own))
      ensures ok == old(model).CanAlloc()
      ensures model == if ok then BookSpec.Insert(old(model), id, price, qty, side) else old(model)
    {
      ghost var v := Inserting(model, view, id, price, qty, side);
      ok := InsertChecked(id, price, qty, side, TickOf(priceMin, tick, price), v);
    }

    method Debit(side: Side, t: nat, add: int)
      requires Agrees() && Epochs() && t < |model.Lane(side)|
      modifies `own, `bidChunks, `askChunks, `model, own
      ensures Agrees() && Epochs() && SameEpoch()
      ensures model == old(model).SetLevel(side, t, Debited(old(model).Lane(side)[t], add))
    {
      var l := LevelAt(side, t);
      PutLevel(side, t, Debited(l, add));
    }

    method UpdateWrites(id: int, fillQty: int)
      requires Agrees() && Epochs() && Addresses(model, id)
      modifies this, own
      ensures Agrees() && Epochs() && SameEpoch()
      ensures model == BookSpec.Update(old(model), id, fillQty)
    {
      var slot := idmap[id];
      var o := OrderAt(slot);
      var add := Min(fillQty, o.Remaining());
      var t := TickOf(priceMin, tick, o.price);
      PutOrder(slot, o.(filled := o.filled + add));
      Debit(o.side, t, add);
    }

    method UpdateApart(id: int, fillQty: int)
      requires Agrees() && Epochs() && RootsIntact() && Addresses(model, id)
      modifies this, own
      ensures Agrees() && Epochs() && SameEpoch() && RootsIntact()
      ensures model == BookSpec.Update(old(model), id, fillQty)
    {
      RootsApart();
      UpdateWrites(id, fillQty);
    }

    /** Fill `fillQty` of a resting order, capped at what remains; an unknown id panics. */
    method Update(id: int, fillQty: int) returns (ok: bool)
      requires Valid()
      modifies this, own
      ensures Valid() && gen == old(gen) && roots == old(roots) && fresh(own - old(own))
      ensures ok == (id in old(model).ids)
      ensures ok ==> Addresses(old(model), id) && model == BookSpec.Update(old(model), id, fillQty)
      ensures !ok ==> model == old(model)
    {
      ok := id in idmap;
      if ok {
        UpdateInv(model, view, id, fillQty);
        UpdateApart(id, fillQty);
      }
    }

    method FreeSlot(slot: nat)
      requires Agrees() && Epochs() && slot < |model.pool|
      modifies `own, `orderChunks, `freeHead, `model, own
      ensures Agrees() && Epochs() && SameEpoch()
      ensures model == BookSpec.FreeSlot(old(model), slot)
    {
      var o := OrderAt(slot);
      PutOrder(slot, FreedOrder(o, freeHead));
      PutFreeHead(slot);
    }

    method Bypass(slot: nat, prev: nat, next: nat)
      requires Agrees() && Epochs() && Linkable(model.pool, slot)
      requires prev == model.pool[slot].prev && next == model.pool[slot].next
      modifies `own, `orderChunks, `model, own
      ensures Agrees() && Epochs() && SameEpoch()
      ensures model == old(model).(pool := UnlinkedPool(old(model).pool, slot))
    {
      PutNext(prev, next);
      PutPrev(next, prev);
    }

    method PullLevel(side: Side, t: nat, slot: nat, prev: nat, next: nat, rem: int)
      requires Agrees() && Epochs() && t < |model.Lane(side)|
      modifies `own, `bidChunks, `askChunks, `model, own
      ensures Agrees() && Epochs() && SameEpoch()
      ensures model == old(model).SetLevel(side, t, UnlinkedLevel(old(model).Lane(side)[t], slot, prev, next, rem))
    {
      var l := LevelAt(side, t);
      PutLevel(side, t, UnlinkedLevel(l, slot, prev, next, rem));
    }

    method Unlink(slot: nat, side: Side, t: nat, rem: int)
      requires Agrees() && Epochs() && Linkable(model.pool, slot) && t < |model.Lane(side)|
      modifies `own, `orderChunks, `bidChunks, `askChunks, `model, own
      ensures Agrees() && Epochs() && SameEpoch()
      ensures model == BookSpec.Unlink(old(model), slot, side, t, rem)
    {
      var o := OrderAt(slot);
      Bypass(slot, o.prev, o.next);
      PullLevel(side, t, slot, o.prev, o.next, rem);
    }

    /** The rescan reads the ladder without owning any chunk of it. */
    method ScanBids(t: nat) returns (nb: int)
      requires Agrees() && t < |model.bids|
      ensures nb == ScanDown(model.bids, t + 1)
    {
      nb := -1;
      var i := t + 1;
      while i > 0
        invariant 0 <= i <= t + 1 && nb == -1
        invariant ScanDown(model.bids, t + 1) == ScanDown(model.bids, i)
      {
        i := i - 1;
        var l := LevelAt(0, i);
        if l.head != NIL { return i; }
      }
    }

    method ScanAsks(t: nat) returns (na: int)
      requires Agrees() && t < |model.asks| == nLevels
      ensures na == ScanUp(model.asks, t)
    {
      na := -1;
      var i := t;
      while i < nLevels
        invariant t <= i <= nLevels && na == -1
        invariant ScanUp(model.asks, t) == ScanUp(model.asks, i)
      {
        var l := LevelAt(1, i);
        if l.head != NIL { return i; }
        i := i + 1;
      }
    }

    method RepairBid(t: nat)
      requires Agrees() && Epochs() && t < |model.bids|
      modifies `bestBid, `bestAsk, `model
      ensures Agrees() && Epochs() && SameEpoch()
      ensures model == BookSpec.RepairBest(old(model), 0, t)
    {
      var l := LevelAt(0, t);
      if bestBid != t || l.head != NIL { return; }
      var nb := ScanBids(t);
      PutBest(0, nb);
    }

    method RepairAsk(t: nat)
      requires Agrees() && Epochs() && t < |model.asks| == nLevels
      modifies `bestBid, `bestAsk, `model
      ensures Agrees() && Epochs() && SameEpoch()
      ensures model == BookSpec.RepairBest(old(model), 1, t)
    {
      var l := LevelAt(1, t);
      if bestAsk != t || l.head != NIL { return; }
      var na := ScanAsks(t);
      PutBest(1, na);
    }

    method RepairBest(side: Side, t: nat)
      requires Agrees() && Epochs() && t < |model.Lane(side)| && |model.asks| == nLevels
      modifies `bestBid, `bestAsk, `model
      ensures Agrees() && Epochs() && SameEpoch()
      ensures model == BookSpec.RepairBest(old(model), side, t)
    {
      if side == 0 { RepairBid(t); } else { RepairAsk(t); }
    }

    method Detach(slot: nat, side: Side, t: nat, rem: int)
      requires Agrees() && Epochs() && Linkable(model.pool, slot) && t < |model.Lane(side)|
      modifies `own, `orderChunks, `bidChunks, `askChunks, `freeHead, `model, own
      ensures Agrees() && Epochs() && SameEpoch()
      ensures model == BookSpec.FreeSlot(BookSpec.Unlink(old(model), slot, side, t, rem), slot)
      ensures |model.bids| == |old(model).bids| && |model.asks| == |old(model).asks|
    {
      Unlink(slot, side, t, rem);
      FreeSlot(slot);
    }

    method Depart(slot: nat, side: Side, t: nat, rem: int)
      requires Agrees() && Epochs() && Linkable(model.pool, slot) && t < |model.Lane(side)| && |model.asks| == nLevels
      modifies this, own
      ensures Agrees() && Epochs() && SameEpoch()
      ensures model == BookSpec.Depart(old(model), slot, side, t, rem)
    {
      Detach(slot, side, t, rem);
      RepairBest(side, t);
    }

    method CancelWrites(id: int)
      requires Agrees() && Epochs() && Addresses(model, id)
      modifies this, own
      ensures Agrees() && Epochs() && SameEpoch()
      ensures model == BookSpec.Cancel(old(model), id)
    {
      var slot := idmap[id];
      var o := OrderAt(slot);
      var t := TickOf(priceMin, tick, o.price);
      PutIndex(idmap - {id});
      assert BookSpec.Cancel(old(model), id) == BookSpec.Depart(model, slot, o.side, t, o.Remaining());
      Depart(slot, o.side, t, o.Remaining());
    }

    /** Drop the id and fill the record. */
    method MarkFilled(id: int, slot: nat, o: Order)
      requires Agrees() && Epochs() && slot < |model.pool|
      modifies this, own
      ensures Agrees() && Epochs() && SameEpoch()
      ensures model == old(model).(ids := old(model).ids - {id}).SetOrder(slot, o.(filled := o.qty))
    {
      PutIndex(idmap - {id});
      PutOrder(slot, o.(filled := o.qty));
    }

    method FillWrites(id: int)
      requires Agrees() && Epochs() && Addresses(model, id)
      modifies this, own
      ensures Agrees() && Epochs() && SameEpoch()
      ensures model == BookSpec.Fill(old(model), id)
    {
      var slot := idmap[id];
      var o := OrderAt(slot);
      var t := TickOf(priceMin, tick, o.price);
      MarkFilled(id, slot, o);
      assert BookSpec.Fill(old(model), id) == BookSpec.Depart(model, slot, o.side, t, o.Remaining());
      Depart(slot, o.side, t, o.Remaining());
    }

    method CancelApart(id: int)
      requires Agrees() && Epochs() && RootsIntact() && Addresses(model, id)
      modifies this, own
      ensures Agrees() && Epochs() && SameEpoch() && RootsIntact()
      ensures model == BookSpec.Cancel(old(model), id)
    {
      RootsApart();
      CancelWrites(id);
    }

    method CancelChecked(id: int, ghost v: View)
      requires Agrees() && Epochs() && RootsIntact() && Addresses(model, id) && Inv(BookSpec.Cancel(model, id), v)
      modifies this, own
      ensures Valid() && gen == old(gen) && roots == old(roots) && fresh(own - old(own))
      ensures model == BookSpec.Cancel(old(model), id)
    {
      CancelApart(id);
      view := v;
    }

    method FillApart(id: int)
      requires Agrees() && Epochs() && RootsIntact() && Addresses(model, id)
      modifies this, own
      ensures Agrees() && Epochs() && SameEpoch() && RootsIntact()
      ensures model == BookSpec.Fill(old(model), id)
    {
      RootsApart();
      FillWrites(id);
    }

    method FillChecked(id: int, ghost v: View)
      requires Agrees() && Epochs() && RootsIntact() && Addresses(model, id) && Inv(BookSpec.Fill(model, id), v)
      modifies this, own
      ensures Valid() && gen == old(gen) && roots == old(roots) && fresh(own - old(own))
      ensures model == BookSpec.Fill(old(model), id)
    {
      FillApart(id);
      view := v;
    }

    /** Remove a resting order; an unknown id panics. */
    method Cancel(id: int) returns (ok: bool)
      requires Valid()
      modifies this, own
      ensures Valid() && gen == old(gen) && roots == old(roots) && fresh(own - old(own))
      ensures ok == (id in old(model).ids)
      ensures ok ==> Addresses(old(model), id) && model == BookSpec.Cancel(old(model), id)
      ensures !ok ==> model == old(model)
    {
      ok := id in idmap;
      if ok {
        ghost var v := Departing(model, view, id, false);
        CancelChecked(id, v);
      }
    }

    /** Fill a resting order to completion, then remove it; an unknown id panics. */
    method Fill(id: int) returns (ok: bool)
      requires Valid()
      modifies this, own
      ensures Valid() && gen == old(gen) && roots == old(roots) && fresh(own - old(own))
      ensures ok == (id in old(model).ids)
      ensures ok ==> Addresses(old(model), id) && model == BookSpec.Fill(old(model), id)
      ensures !ok ==> model == old(model)
    {
      ok := id in idmap;
      if ok {
        ghost var v := Departing(model, view, id, true);
        FillChecked(id, v);
      }
    }

    /** A root sharing the live chunk tables. */
    method ShareTables() returns (root: Root)
      requires Agrees() && Epochs()
      ensures fresh(root) && root.contents == model && root.Intact() && root.HeldBefore(gen + 1)
      ensures BornBy(orderChunks, gen + 1, {}) && BornBy(bidChunks, gen + 1, {}) && BornBy(askChunks, gen + 1, {})
      ensures forall r :: r in roots ==> r.HeldBefore(gen + 1)
      ensures root.orderChunks == orderChunks && root.bidChunks == bidChunks && root.askChunks == askChunks
    {
      forall r | r in roots ensures r.HeldBefore(gen + 1) { r.StillHeldBefore(gen); }
      Freeze(orderChunks, gen, own);
      Freeze(bidChunks, gen, own);
      Freeze(askChunks, gen, own);
      root := new Root(model, capacity, chunk, hwm, bestBid, bestAsk, freeHead, priceMin, tick, nLevels,
                       orderChunks, bidChunks, askChunks);
    }

    /** A root holds chunks, not the book. */
    lemma NotHeld(r: Root)
      requires r.HeldBefore(gen + 1)
      ensures this !in r.held
    {
      assert this in r.held ==> OlderThan(this, gen + 1);
    }

    /** Bump the generation: from here on nothing is the writer's own. */
    method Advance(ghost root: Root)
      requires Agrees() && Epochs() && RootsIntact() && root.Intact() && root.HeldBefore(gen + 1)
      requires BornBy(orderChunks, gen + 1, {}) && BornBy(bidChunks, gen + 1, {}) && BornBy(askChunks, gen + 1, {})
      requires forall r :: r in roots ==> r.HeldBefore(gen + 1)
      modifies `gen, `roots, `own
      ensures Agrees() && Epochs() && RootsIntact() && gen == old(gen) + 1 && roots == old(roots) + {root} && own == {}
    {
      forall r | r in roots + {root} ensures this !in r.held { NotHeld(r); }
      gen, own, roots := gen + 1, {}, roots + {root};
    }

    method CaptureApart() returns (root: Root)
      requires Agrees() && Epochs() && RootsIntact()
      modifies `gen, `roots, `own
      ensures Agrees() && Epochs() && RootsIntact() && gen == old(gen) + 1 && fresh(root) && roots == old(roots) + {root}
      ensures root.contents == model && own == {}
      ensures root.orderChunks == orderChunks && root.bidChunks == bidChunks && root.askChunks == askChunks
    {
      root := ShareTables();
      Advance(root);
    }

    /** Freeze the current state: share the chunk tables, then bump the generation. */
    method Capture() returns (root: Root)
      requires Valid()
      modifies `gen, `roots, `own
      ensures Valid() && gen == old(gen) + 1 && fresh(root) && roots == old(roots) + {root}
      ensures root.contents == model == old(model)
      ensures own == {}
      ensures root.orderChunks == orderChunks && root.bidChunks == bidChunks && root.askChunks == askChunks
    {
      root := CaptureApart();
    }
  }

  /** The three tables of an empty book, all of generation 1 and all the writer's own. */
  method NewTables(cfg: Config, chunk: nat)
    returns (oc: seq<Chunk<Order>>, bids: seq<Chunk<Level>>, asks: seq<Chunk<Level>>, ghost own: set<object>)
    requires cfg.Valid() && chunk > 0
    ensures Cells(oc, chunk, Empty(cfg).pool) && Cells(bids, LEVEL_CHUNK, Empty(cfg).bids) && Cells(asks, LEVEL_CHUNK, Empty(cfg).asks)
    ensures Distinct(oc) && Distinct(bids) && Distinct(asks) && Disjoint(bids, asks)
    ensures BornBy(oc, 1, own) && BornBy(bids, 1, own) && BornBy(asks, 1, own)
    ensures fresh(own) && forall o :: o in own ==> MadeIn(o, 1)
  {
    oc := NewTable(cfg.cap, chunk, 1, cfg.blank);
    bids, asks := NewLanes(cfg.levels);
    own := Objects(oc) + Objects(bids) + Objects(asks);
  }

  method NewLanes(levels: nat) returns (bids: seq<Chunk<Level>>, asks: seq<Chunk<Level>>)
    ensures Cells(bids, LEVEL_CHUNK, seq(levels, _ => EMPTY_LEVEL)) && Cells(asks, LEVEL_CHUNK, seq(levels, _ => EMPTY_LEVEL))
    ensures Distinct(bids) && Distinct(asks) && Disjoint(bids, asks)
    ensures fresh(Objects(bids)) && fresh(Objects(asks))
    ensures forall own :: Objects(bids) <= own ==> BornBy(bids, 1, own)
    ensures forall own :: Objects(asks) <= own ==> BornBy(asks, 1, own)
    ensures forall o :: o in Objects(bids) + Objects(asks) ==> MadeIn(o, 1)
  {
    bids := NewTable(levels, LEVEL_CHUNK, 1, EMPTY_LEVEL);
    asks := NewTable(levels, LEVEL_CHUNK, 1, EMPTY_LEVEL);
    forall i, j | 0 <= i < |bids| && 0 <= j < |asks| ensures Differ(bids, i, asks, j) { }
  }

  function Rested(st: State, slot: nat, t: nat, o: Order): State
    requires slot < |st.pool| && t < |st.Lane(o.side)|
  {
    var s1 := st.SetOrder(slot, o);
    s1.SetLevel(o.side, t, PushedLevel(s1.Lane(o.side)[t], slot, o.qty))
  }

  function Announced(st: State, id: int, slot: nat, side: Side, t: nat): State {
    st.(ids := st.ids[id := slot]).SetBest(side, BetterBest(side, st.Best(side), t))
  }

  /** `Place`, one write at a time. */
  lemma PlaceSteps(st: State, slot: nat, t: nat, o: Order)
    requires slot < |st.pool| && (o.prev == NIL || o.prev < |st.pool|) && t < |st.Lane(o.side)|
    ensures var s2 := Rested(st, slot, t, o);
            var s3 := if o.prev != NIL then s2.SetOrder(o.prev, s2.pool[o.prev].(next := slot)) else s2;
            BookSpec.Place(st, slot, t, o) == Announced(s3, o.id, slot, o.side, t)
  {
  }
}
