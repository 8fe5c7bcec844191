/** Restoring into the copy-on-write book: the same checks and the same elements as
    the flat restore, each stored through the chunk tables of a fresh book.
 */
module SnapshotRestoreCow {
  import opened BookSpec
  import opened BookInvariant
  import opened BookRuns
  import opened Wire
  import opened SbeFlyweight
  import opened SnapshotCodec
  import opened SnapshotRoundTrip
  import SnapshotLayout
  import SnapshotRestore
  import opened CowBook

  /** A book under construction: nothing captured, only its own chunks. */
  ghost predicate Building(b: CowBook)
    reads b, b.orderChunks, b.bidChunks, b.askChunks
  {
    b.Agrees() && b.Epochs() && b.roots == {}
  }

  /** ... whose ladder still has its first size. */
  ghost predicate Levelled(b: CowBook)
    reads b, b.orderChunks, b.bidChunks, b.askChunks
  {
    Building(b) && |b.model.bids| == |b.model.asks| == b.nLevels
  }

  ghost function ModelLanes(b: CowBook): Lanes
    reads b
  {
    Lanes(b.model.bids, b.model.asks)
  }

  /** `level_mut` of the element's level, then its fields; past the ladder this panics. */
  method StoreLevel(b: CowBook, e: Entry) returns (ok: bool)
    requires Levelled(b)
    modifies b, b.own
    ensures Levelled(b) && fresh(b.own - old(b.own)) && b.model.pool == old(b.model.pool)
    ensures ok == old(ModelLanes(b)).Store(e).Some?
    ensures ok ==> ModelLanes(b) == old(ModelLanes(b)).Store(e).value
  {
    if e.t >= b.nLevels { return false; }
    b.PutLevel(e.side, e.t, e.level);
    return true;
  }

  /** `take` yields the element at `off`. */
  ghost predicate TakesLevel(take: nat -> Option<Entry>, data: seq<Byte>, limit: nat, block: nat, off: nat)
    requires limit <= |data|
  {
    take(off) == SnapshotCodec.LevelAt(data, limit, off, block)
  }

  ghost predicate LevelReader(take: nat -> Option<Entry>, data: seq<Byte>, limit: nat, block: nat)
    requires limit <= |data|
  {
    forall off: nat :: TakesLevel(take, data, limit, block, off)
  }

  method RestoreLevel(b: CowBook, data: seq<Byte>, limit: nat, off: nat, block: nat, ghost take: nat -> Option<Entry>) returns (ok: bool)
    requires Levelled(b) && limit <= |data| && LevelReader(take, data, limit, block)
    modifies b, b.own
    ensures Levelled(b) && fresh(b.own - old(b.own)) && b.model.pool == old(b.model.pool)
    ensures var r := ThenLevel(Some(old(ModelLanes(b))), take(off));
            ok == r.Some? && (ok ==> r.value == ModelLanes(b))
  {
    assert TakesLevel(take, data, limit, block, off);
    if off + block > limit || off + LEVEL_LEN > |data| { return false; }
    ok := StoreLevel(b, ReadEntry(data, off));
  }

  method RestoreLevels(b: CowBook, data: seq<Byte>, limit: nat, start: nat, block: nat, n: nat,
                       ghost empty: Lanes, ghost take: nat -> Option<Entry>) returns (ok: bool, pos: nat)
    requires Levelled(b) && ModelLanes(b) == empty && limit <= |data| && LevelReader(take, data, limit, block)
    modifies b, b.own
    ensures Building(b) && fresh(b.own - old(b.own)) && b.model.pool == old(b.model.pool)
    ensures var r := ReadLevels(take, start, block, n, empty);
            ok == r.Some? && (ok ==> ModelLanes(b) == r.value && pos == ElementAt(start, block, n))
  {
    SnapshotRestore.LevelsFrom(take, start, block, 0, n, empty);
    ghost var end := ReadLevels(take, start, block, n, empty);
    ok, pos := true, start;
    var i := 0;
    while i < n
      invariant i <= n && pos == ElementAt(start, block, i) && ok
      invariant Levelled(b) && fresh(b.own - old(b.own)) && b.model.pool == old(b.model.pool)
      invariant SnapshotRestore.LevelsOnward(take, start, block, i, n, ModelLanes(b)) == end
    {
      ok := RestoreLevel(b, data, limit, pos, block, take);
      if !ok { return; }
      i, pos := i + 1, pos + block;
    }
  }

  ghost predicate TakesOrder(take: nat -> Option<SlotOrder>, data: seq<Byte>, limit: nat, block: nat, off: nat)
    requires limit <= |data|
  {
    take(off) == SnapshotCodec.OrderAt(data, limit, off, block)
  }

  ghost predicate OrderReader(take: nat -> Option<SlotOrder>, data: seq<Byte>, limit: nat, block: nat)
    requires limit <= |data|
  {
    forall off: nat :: TakesOrder(take, data, limit, block, off)
  }

  method RestoreOrder(b: CowBook, data: seq<Byte>, limit: nat, off: nat, block: nat, ghost take: nat -> Option<SlotOrder>) returns (ok: bool)
    requires Building(b) && limit <= |data| && OrderReader(take, data, limit, block)
    modifies b, b.own
    ensures Building(b) && fresh(b.own - old(b.own)) && ModelLanes(b) == old(ModelLanes(b))
    ensures var r := ThenOrder(Some(old(b.model.pool)), take(off));
            ok == r.Some? && (ok ==> r.value == b.model.pool)
  {
    assert TakesOrder(take, data, limit, block, off);
    if off + block > limit || off + ORDER_LEN > |data| { return false; }
    var slot := Get(data, off, 4);
    if slot >= b.capacity { return false; }
    b.PutOrder(slot, ReadOrder(data, off));
    return true;
  }

  method RestoreOrders(b: CowBook, data: seq<Byte>, limit: nat, start: nat, block: nat, n: nat,
                       ghost blank: seq<Order>, ghost take: nat -> Option<SlotOrder>) returns (ok: bool)
    requires Building(b) && b.model.pool == blank && limit <= |data| && OrderReader(take, data, limit, block)
    modifies b, b.own
    ensures Building(b) && fresh(b.own - old(b.own)) && ModelLanes(b) == old(ModelLanes(b))
    ensures var r := ReadOrders(take, start, block, n, blank);
            ok == r.Some? && (ok ==> b.model.pool == r.value)
  {
    SnapshotRestore.OrdersFrom(take, start, block, 0, n, blank);
    ghost var end := ReadOrders(take, start, block, n, blank);
    ok := true;
    var i, pos := 0, start;
    while i < n
      invariant i <= n && pos == ElementAt(start, block, i) && ok
      invariant Building(b) && fresh(b.own - old(b.own)) && ModelLanes(b) == old(ModelLanes(b))
      invariant SnapshotRestore.OrdersOnward(take, start, block, i, n, b.model.pool) == end
    {
      ok := RestoreOrder(b, data, limit, pos, block, take);
      if !ok { return; }
      i, pos := i + 1, pos + block;
    }
  }

  /** The index over the chunked pool. */
  method RebuildIndex(b: CowBook) returns (ids: map<int, nat>)
    requires b.Agrees() && b.hwm <= |b.model.pool|
    ensures ids == RebuildIds(b.model.pool, b.hwm)
  {
    ids := map[];
    var slot := 0;
    while slot < b.hwm
      invariant slot <= b.hwm && ids == RebuildIds(b.model.pool, slot)
    {
      var o := b.OrderAt(slot);
      if o.id != 0 { ids := ids[o.id := slot]; }
      slot := slot + 1;
    }
  }

  /** The live counterpart of a decoded value: an error, or a book that agrees with the state. */
  ghost predicate Matches(b: CowBook, err: Option<Error>, r: Restored)
    reads b, b.orderChunks, b.bidChunks, b.askChunks
  {
    match r
    case Err(e) => err == Some(e)
    case Ok(st) => err == None && Building(b) && b.model == st
  }

  method RestoreRest(b: CowBook, root: RootFields) returns (err: Option<Error>)
    requires Building(b)
    modifies b
    ensures b.own == old(b.own) && Matches(b, err, Rebuild(root, old(ModelLanes(b)), old(b.model.pool)))
  {
    b.PutLadder(root.priceMin, root.tick, root.nLevels);
    b.PutHwm(root.hwm);
    b.PutBest(0, root.bestBid);
    b.PutBest(1, root.bestAsk);
    b.PutFreeHead(root.freeHead);
    if b.hwm > b.capacity { return Some(Malformed); }
    var ids := RebuildIndex(b);
    b.PutIndex(ids);
    return None;
  }

  method RestoreOrderGroup(b: CowBook, root: RootFields, data: seq<Byte>, limit: nat, cfg: Config, pos: nat, block: nat, n: nat)
    returns (err: Option<Error>)
    requires Building(b) && b.model.pool == NoOrders(cfg) && limit <= |data|
    modifies b, b.own
    ensures fresh(b.own - old(b.own))
    ensures Matches(b, err, DecodeOrders(root, old(ModelLanes(b)), data, limit, cfg, pos, block, n))
  {
    ghost var take := TakeOrder(data, limit, block);
    assert forall off: nat :: TakesOrder(take, data, limit, block, off);
    var ok := RestoreOrders(b, data, limit, pos, block, n, NoOrders(cfg), take);
    if !ok { return Some(Malformed); }
    err := RestoreRest(b, root);
  }

  method RestoreGroups(b: CowBook, root: RootFields, data: seq<Byte>, limit: nat, cfg: Config, pos: nat, block: nat, n: nat)
    returns (err: Option<Error>)
    requires Building(b) && ModelLanes(b) == NoLevels(cfg.levels) && b.nLevels == cfg.levels && b.model.pool == NoOrders(cfg)
    requires limit <= |data|
    modifies b, b.own
    ensures fresh(b.own - old(b.own)) && Matches(b, err, DecodeGroups(root, data, limit, cfg, pos, block, n))
  {
    ghost var take := TakeLevel(data, limit, block);
    assert forall off: nat :: TakesLevel(take, data, limit, block, off);
    var ok, pos2 := RestoreLevels(b, data, limit, pos, block, n, NoLevels(cfg.levels), take);
    ghost var lanes := ReadLevels(take, pos, block, n, NoLevels(cfg.levels));
    SnapshotRestore.GroupsThen(root, data, limit, cfg, pos, block, n, pos2, lanes);
    if !ok || pos2 + GROUP_LEN > limit { return Some(Malformed); }
    err := RestoreOrderGroup(b, root, data, limit, cfg, pos2 + GROUP_LEN, Get(data, pos2, 2), Get(data, pos2 + 2, 2));
  }

  method RestoreBody(b: CowBook, data: seq<Byte>, limit: nat, cfg: Config, rootLen: nat) returns (err: Option<Error>)
    requires Building(b) && ModelLanes(b) == NoLevels(cfg.levels) && b.nLevels == cfg.levels && b.model.pool == NoOrders(cfg)
    requires HEADER_LEN <= limit <= |data|
    modifies b, b.own
    ensures fresh(b.own - old(b.own)) && Matches(b, err, DecodeBody(data, limit, cfg, rootLen))
  {
    var pos := HEADER_LEN + rootLen;
    if pos > limit || HEADER_LEN + ROOT_LEN > |data| { return Some(Malformed); }
    var root := ReadRoot(data);
    if root.capacity != cfg.cap { return Some(CapacityMismatch); }
    if pos + GROUP_LEN > limit { return Some(Malformed); }
    err := RestoreGroups(b, root, data, limit, cfg, pos + GROUP_LEN, Get(data, pos, 2), Get(data, pos + 2, 2));
  }

  /** `decodeHeader`, then the body. */
  method RestoreInto(b: CowBook, data: seq<Byte>, cfg: Config, crc: Crc) returns (err: Option<Error>)
    requires Building(b) && ModelLanes(b) == NoLevels(cfg.levels) && b.nLevels == cfg.levels && b.model.pool == NoOrders(cfg)
    modifies b, b.own
    ensures fresh(b.own - old(b.own)) && Matches(b, err, Decode(data, cfg, crc))
  {
    if |data| < CRC_LEN { return Some(TooShort); }
    var limit := |data| - CRC_LEN;
    if crc(data[..limit]) != Get(data, limit, 4) { return Some(CrcMismatch); }
    if limit < HEADER_LEN { return Some(Malformed); }
    if Get(data, 6, 2) != VERSION { return Some(BadVersion); }
    err := RestoreBody(b, data, limit, cfg, Get(data, 0, 2));
  }

  /** `RestoreCow`: every byte sequence yields exactly the book or the error that `Decode` names,
      screened as by the flat restore. */
  method RestoreCow(data: seq<Byte>, cfg: Config, chunk: nat, crc: Crc) returns (b: CowBook, err: Option<Error>)
    requires cfg.Valid() && chunk > 0
    ensures fresh(b) && fresh(b.own) && Matches(b, err, Decode(data, cfg, crc))
    ensures SnapshotLayout.Screened(data, cfg.cap, crc, err)
    ensures err == None ==> SnapshotLayout.Carries(data, b.model)
  {
    SnapshotLayout.DecodeScreened(data, cfg, crc);
    SnapshotLayout.DecodeCarries(data, cfg, crc);
    b := new CowBook(cfg, chunk);
    err := RestoreInto(b, data, cfg, crc);
  }

  /** The image of a reachable book restores to a valid copy-on-write book with the same state. */
  method RestoreCowReachable(cfg: Config, chunk: nat, st: State, crc: Crc) returns (b: CowBook, err: Option<Error>)
    requires cfg.Valid() && chunk > 0 && Reachable(cfg, st) && InRange(st) && CountsFit(st) && st.hwm <= |st.pool|
    ensures err == None && b.Valid() && b.model == st
  {
    ghost var v := ReachableKeeps(cfg, st);
    RestoreImage(cfg, st, v, crc);
    b, err := RestoreCow(Image(st, crc), cfg, chunk, crc);
    b.SetView(v);
  }
}
