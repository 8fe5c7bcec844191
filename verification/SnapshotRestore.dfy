/** Restoring as the Go book does it: check the trailer and the header, fill a
    fresh ladder group by group, rebuild the id table.  Every outcome is the one
    `Decode` names; a panic of the source is the error `Malformed`.
 */
module SnapshotRestore {
  import opened BookSpec
  import opened BookInvariant
  import opened BookRuns
  import opened FlatLadder
  import opened GoBook
  import opened IdMap
  import opened Wire
  import opened SbeFlyweight
  import opened SnapshotCodec
  import opened SnapshotRoundTrip
  import SnapshotLayout

  /** The lanes after storing elements `i` to `n` of a group, the first `i` having left `lanes`. */
  ghost function LevelsOnward(take: nat -> Option<Entry>, pos: nat, block: nat, i: nat, n: nat, lanes: Lanes): Option<Lanes>
    requires i <= n
    decreases n - i
  {
    if i == n then Some(lanes)
    else
      var next := ThenLevel(Some(lanes), take(ElementAt(pos, block, i)));
      if next.None? then None else LevelsOnward(take, pos, block, i + 1, n, next.value)
  }

  /** Reading onward ends where reading the whole group does; once an element cannot be stored, nothing later can. */
  lemma {:induction false} LevelsFrom(take: nat -> Option<Entry>, pos: nat, block: nat, i: nat, n: nat, empty: Lanes)
    requires i <= n
    ensures var r := ReadLevels(take, pos, block, i, empty);
            ReadLevels(take, pos, block, n, empty) == if r.None? then None else LevelsOnward(take, pos, block, i, n, r.value)
    decreases n - i
  {
    if i < n { LevelsFrom(take, pos, block, i + 1, n, empty); }
  }

  ghost function OrdersOnward(take: nat -> Option<SlotOrder>, pos: nat, block: nat, i: nat, n: nat, pool: seq<Order>): Option<seq<Order>>
    requires i <= n
    decreases n - i
  {
    if i == n then Some(pool)
    else
      var next := ThenOrder(Some(pool), take(ElementAt(pos, block, i)));
      if next.None? then None else OrdersOnward(take, pos, block, i + 1, n, next.value)
  }

  lemma {:induction false} OrdersFrom(take: nat -> Option<SlotOrder>, pos: nat, block: nat, i: nat, n: nat, blank: seq<Order>)
    requires i <= n
    ensures var r := ReadOrders(take, pos, block, i, blank);
            ReadOrders(take, pos, block, n, blank) == if r.None? then None else OrdersOnward(take, pos, block, i, n, r.value)
    decreases n - i
  {
    if i < n { OrdersFrom(take, pos, block, i + 1, n, blank); }
  }

  ghost function LanesOf(b: Ladder): Lanes
    reads b, b.bids, b.asks
  {
    Lanes(b.bids[..], b.asks[..])
  }

  /** `lane[t] = level`; an index past the lane panics. */
  method StoreLevel(b: Ladder, e: Entry) returns (ok: bool)
    requires b.bids != b.asks
    modifies b.bids, b.asks
    ensures ok == old(LanesOf(b)).Store(e).Some?
    ensures LanesOf(b) == if ok then old(LanesOf(b)).Store(e).value else old(LanesOf(b))
  {
    var lane := b.Lane(e.side);
    if e.t >= lane.Length { return false; }
    lane[e.t] := e.level;
    assert lane[..] == old(lane[..])[e.t := e.level];
    return true;
  }

  /** One element of the levels group. */
  method RestoreLevel(b: Ladder, data: seq<Byte>, limit: nat, off: nat, block: nat) returns (ok: bool)
    requires b.bids != b.asks && limit <= |data|
    modifies b.bids, b.asks
    ensures var r := ThenLevel(Some(old(LanesOf(b))), LevelAt(data, limit, off, block));
            ok == r.Some? && (ok ==> r.value == LanesOf(b))
  {
    if off + block > limit || off + LEVEL_LEN > |data| { return false; }
    ok := StoreLevel(b, ReadEntry(data, off));
  }

  /** The levels group; `pos` ends behind its last element. */
  method RestoreLevels(b: Ladder, data: seq<Byte>, limit: nat, start: nat, block: nat, n: nat, ghost empty: Lanes)
    returns (ok: bool, pos: nat)
    requires b.bids != b.asks && LanesOf(b) == empty && limit <= |data|
    modifies b.bids, b.asks
    ensures var r := ReadLevels(TakeLevel(data, limit, block), start, block, n, empty);
            ok == r.Some? && (ok ==> LanesOf(b) == r.value && pos == ElementAt(start, block, n))
  {
    ghost var take := TakeLevel(data, limit, block);
    ok, pos := true, start;
    LevelsFrom(take, start, block, 0, n, empty);
    ghost var end := ReadLevels(take, start, block, n, empty);
    var i := 0;
    while i < n
      invariant i <= n && pos == ElementAt(start, block, i)
      invariant ok && LevelsOnward(take, start, block, i, n, LanesOf(b)) == end
    {
      ok := RestoreLevel(b, data, limit, pos, block);
      if !ok { return; }
      i, pos := i + 1, pos + block;
    }
  }

  /** One element of the orders group. */
  method RestoreOrder(b: Ladder, data: seq<Byte>, limit: nat, off: nat, block: nat) returns (ok: bool)
    requires limit <= |data|
    modifies b.pool
    ensures var r := ThenOrder(Some(old(b.pool[..])), OrderAt(data, limit, off, block));
            ok == r.Some? && (ok ==> r.value == b.pool[..])
  {
    if off + block > limit || off + ORDER_LEN > |data| { return false; }
    var slot := Get(data, off, 4);
    if slot >= b.pool.Length { return false; }
    b.pool[slot] := ReadOrder(data, off);
    assert b.pool[..] == old(b.pool[..])[slot := ReadOrder(data, off)];
    return true;
  }

  method RestoreOrders(b: Ladder, data: seq<Byte>, limit: nat, start: nat, block: nat, n: nat, ghost blank: seq<Order>)
    returns (ok: bool)
    requires b.pool[..] == blank && limit <= |data|
    modifies b.pool
    ensures var r := ReadOrders(TakeOrder(data, limit, block), start, block, n, blank);
            ok == r.Some? && (ok ==> b.pool[..] == r.value)
  {
    ghost var take := TakeOrder(data, limit, block);
    ok := true;
    OrdersFrom(take, start, block, 0, n, blank);
    ghost var end := ReadOrders(take, start, block, n, blank);
    var i, pos := 0, start;
    while i < n
      invariant i <= n && pos == ElementAt(start, block, i)
      invariant ok && OrdersOnward(take, start, block, i, n, b.pool[..]) == end
    {
      ok := RestoreOrder(b, data, limit, pos, block);
      if !ok { return; }
      i, pos := i + 1, pos + block;
    }
  }

  method IndexSlot(ids: Table, id: int, slot: nat)
    requires ids.Valid() && |ids.contents| + 1 < ids.keys.Length
    modifies ids`contents, ids.keys, ids.vals
    ensures ids.Valid() && |ids.contents| <= |old(ids.contents)| + 1
    ensures ids.contents == if id != 0 then old(ids.contents)[id := slot] else old(ids.contents)
  {
    if id != 0 {
      assert ids.contents[id := slot].Keys == ids.contents.Keys + {id};
      ids.Put(id, slot);
    }
  }

  lemma {:induction false} RebuildSize(pool: seq<Order>, n: nat)
    requires n <= |pool|
    ensures |RebuildIds(pool, n)| <= n
  {
    if n > 0 {
      RebuildSize(pool, n - 1);
      var ids, id := RebuildIds(pool, n - 1), pool[n - 1].id;
      assert ids[id := n - 1].Keys == ids.Keys + {id};
    }
  }

  /** The table indexes the first `slot` slots. */
  ghost predicate Indexes(ids: Table, pool: seq<Order>, slot: nat)
    requires slot <= |pool|
    reads ids, ids.keys, ids.vals
  {
    ids.Valid() && ids.contents == RebuildIds(pool, slot)
  }

  /** Index one slot, if its order is live. */
  method RebuildSlot(ids: Table, ghost pool: seq<Order>, slot: nat, id: int)
    requires slot < |pool| && id == pool[slot].id && Indexes(ids, pool, slot) && slot + 1 < ids.keys.Length
    modifies ids`contents, ids.keys, ids.vals
    ensures Indexes(ids, pool, slot + 1)
  {
    RebuildSize(pool, slot);
    IndexSlot(ids, id, slot);
  }

  /** Index every allocated slot. */
  method FillIndex(ids: Table, ghost pool: seq<Order>, b: Ladder)
    requires b.hwm <= b.pool.Length && pool == b.pool[..] && b.hwm < ids.keys.Length && Indexes(ids, pool, 0)
    modifies ids`contents, ids.keys, ids.vals
    ensures Indexes(ids, pool, b.hwm)
  {
    for slot := 0 to b.hwm
      invariant Indexes(ids, pool, slot)
    {
      RebuildSlot(ids, pool, slot, b.pool[slot].id);
    }
  }

  /** `rebuildIDs`: a fresh table filled from the pool. */
  method RebuildIndex(b: Ladder, hash: int -> nat) returns (ids: Table)
    requires b.hwm <= b.pool.Length
    ensures fresh(ids) && fresh(ids.keys) && fresh(ids.vals)
    ensures ids.Valid() && ids.keys.Length > b.pool.Length && ids.contents == RebuildIds(b.pool[..], b.hwm)
  {
    ids := new Table(b.pool.Length, hash);
    FillIndex(ids, b.pool[..], b);
  }

  // ---------- the whole image ----------

  /** The scalars of the root block. */
  method RestoreRoot(b: Ladder, root: RootFields)
    modifies b
    ensures b.priceMin == root.priceMin && b.tick == root.tick && b.nLevels == root.nLevels && b.hwm == root.hwm
    ensures b.bestBid == root.bestBid && b.bestAsk == root.bestAsk && b.freeHead == root.freeHead
  {
    b.priceMin, b.tick, b.nLevels, b.hwm := root.priceMin, root.tick, root.nLevels, root.hwm;
    b.bestBid, b.bestAsk, b.freeHead := root.bestBid, root.bestAsk, root.freeHead;
  }

  datatype Outcome = Back(book: Book) | Failed(error: Error)

  ghost function Footprint(o: Outcome): set<object> {
    match o
    case Failed(_) => {}
    case Back(b) => {b, b.flat, b.flat.bids, b.flat.asks, b.flat.pool, b.ids, b.ids.keys, b.ids.vals}
  }

  /** The live counterpart of a decoded value. */
  ghost predicate Matches(o: Outcome, r: Restored)
    reads Footprint(o)
  {
    match r
    case Err(e) => o == Failed(e)
    case Ok(st) => o.Back? && o.book.Agrees() && o.book.model == st
  }

  /** The scalars and the index, once both groups are in. */
  method RestoreRest(b: Ladder, root: RootFields, hash: int -> nat) returns (o: Outcome)
    requires b.bids != b.asks
    modifies b
    ensures Matches(o, Rebuild(root, LanesOf(b), b.pool[..]))
    ensures o.Back? ==> o.book.flat == b && fresh({o.book, o.book.ids, o.book.ids.keys, o.book.ids.vals})
  {
    RestoreRoot(b, root);
    if b.hwm > b.pool.Length { return Failed(Malformed); }
    var ids := RebuildIndex(b, hash);
    var book := new Book.Over(b, ids);
    return Back(book);
  }

  /** What decoding the groups comes to, once the levels have been read or could not be. */
  lemma GroupsThen(root: RootFields, data: seq<Byte>, limit: nat, cfg: Config, pos: nat, block: nat, n: nat, pos2: nat, lanes: Option<Lanes>)
    requires limit <= |data| && lanes == ReadLevels(TakeLevel(data, limit, block), pos, block, n, NoLevels(cfg.levels))
    requires lanes.Some? ==> pos2 == ElementAt(pos, block, n)
    ensures DecodeGroups(root, data, limit, cfg, pos, block, n) ==
            if lanes.None? || pos2 + GROUP_LEN > limit then Err(Malformed)
            else DecodeOrders(root, lanes.value, data, limit, cfg, pos2 + GROUP_LEN, Get(data, pos2, 2), Get(data, pos2 + 2, 2))
  {
  }

  method RestoreOrderGroup(b: Ladder, root: RootFields, data: seq<Byte>, limit: nat, cfg: Config, pos: nat, block: nat, n: nat, hash: int -> nat)
    returns (o: Outcome)
    requires limit <= |data| && b.bids != b.asks && b.pool[..] == NoOrders(cfg)
    modifies b, b.pool
    ensures Matches(o, DecodeOrders(root, old(LanesOf(b)), data, limit, cfg, pos, block, n))
    ensures o.Back? ==> o.book.flat == b && fresh({o.book, o.book.ids, o.book.ids.keys, o.book.ids.vals})
  {
    var ok := RestoreOrders(b, data, limit, pos, block, n, NoOrders(cfg));
    if !ok { return Failed(Malformed); }
    o := RestoreRest(b, root, hash);
  }

  method RestoreGroups(b: Ladder, root: RootFields, data: seq<Byte>, limit: nat, cfg: Config, pos: nat, block: nat, n: nat, hash: int -> nat)
    returns (o: Outcome)
    requires limit <= |data| && b.bids != b.asks
    requires LanesOf(b) == NoLevels(cfg.levels) && b.pool[..] == NoOrders(cfg)
    modifies b, b.bids, b.asks, b.pool
    ensures Matches(o, DecodeGroups(root, data, limit, cfg, pos, block, n))
    ensures o.Back? ==> o.book.flat == b && fresh({o.book, o.book.ids, o.book.ids.keys, o.book.ids.vals})
  {
    var ok, pos2 := RestoreLevels(b, data, limit, pos, block, n, NoLevels(cfg.levels));
    ghost var lanes := ReadLevels(TakeLevel(data, limit, block), pos, block, n, NoLevels(cfg.levels));
    GroupsThen(root, data, limit, cfg, pos, block, n, pos2, lanes);
    if !ok || pos2 + GROUP_LEN > limit { return Failed(Malformed); }
    o := RestoreOrderGroup(b, root, data, limit, cfg, pos2 + GROUP_LEN, Get(data, pos2, 2), Get(data, pos2 + 2, 2), hash);
  }

  method RestoreBody(b: Ladder, data: seq<Byte>, limit: nat, cfg: Config, rootLen: nat, hash: int -> nat) returns (o: Outcome)
    requires HEADER_LEN <= limit <= |data| && b.bids != b.asks
    requires LanesOf(b) == NoLevels(cfg.levels) && b.pool[..] == NoOrders(cfg)
    modifies b, b.bids, b.asks, b.pool
    ensures Matches(o, DecodeBody(data, limit, cfg, rootLen))
    ensures o.Back? ==> o.book.flat == b && fresh({o.book, o.book.ids, o.book.ids.keys, o.book.ids.vals})
  {
    var pos := HEADER_LEN + rootLen;
    if pos > limit || HEADER_LEN + ROOT_LEN > |data| { return Failed(Malformed); }
    var root := ReadRoot(data);
    if root.capacity != cfg.cap { return Failed(CapacityMismatch); }
    if pos + GROUP_LEN > limit { return Failed(Malformed); }
    o := RestoreGroups(b, root, data, limit, cfg, pos + GROUP_LEN, Get(data, pos, 2), Get(data, pos + 2, 2), hash);
  }

  /** Behind the frame header: an empty book, then the body. */
  method RestoreFramed(data: seq<Byte>, limit: nat, cfg: Config, rootLen: nat, hash: int -> nat) returns (o: Outcome)
    requires cfg.Valid() && HEADER_LEN <= limit <= |data|
    ensures Matches(o, DecodeBody(data, limit, cfg, rootLen)) && fresh(Footprint(o))
  {
    var b := new Ladder(cfg);
    assert LanesOf(b) == NoLevels(cfg.levels) && b.pool[..] == NoOrders(cfg) by {
      assert LanesOf(b) == Lanes(b.State(map[]).bids, b.State(map[]).asks) && b.pool[..] == b.State(map[]).pool;
    }
    o := RestoreBody(b, data, limit, cfg, rootLen, hash);
  }

  /** `Restore`: every byte sequence yields exactly the book or the error that `Decode` names.  A
      short, corrupted, outdated or misfit image is refused as such, in that order; a returned book
      had a good trailer, version and capacity, and carries the scalars the image shows. */
  method Restore(data: seq<Byte>, cfg: Config, crc: Crc, hash: int -> nat) returns (o: Outcome)
    requires cfg.Valid()
    ensures Matches(o, Decode(data, cfg, crc)) && fresh(Footprint(o))
    ensures SnapshotLayout.Screened(data, cfg.cap, crc, if o.Failed? then Some(o.error) else None)
    ensures o.Back? ==> SnapshotLayout.Carries(data, o.book.model)
  {
    SnapshotLayout.DecodeScreened(data, cfg, crc);
    SnapshotLayout.DecodeCarries(data, cfg, crc);
    if |data| < CRC_LEN { return Failed(TooShort); }
    var limit := |data| - CRC_LEN;
    if crc(data[..limit]) != Get(data, limit, 4) { return Failed(CrcMismatch); }
    if limit < HEADER_LEN { return Failed(Malformed); }
    if Get(data, 6, 2) != VERSION { return Failed(BadVersion); }
    o := RestoreFramed(data, limit, cfg, Get(data, 0, 2), hash);
  }

  /** The round trip on live objects: the image of a reachable book restores to a valid book with the same state. */
  method RestoreReachable(cfg: Config, st: State, crc: Crc, hash: int -> nat) returns (o: Outcome)
    requires cfg.Valid() && Reachable(cfg, st) && InRange(st) && CountsFit(st) && st.hwm <= |st.pool|
    ensures o.Back? && o.book.Valid() && o.book.model == st
  {
    ghost var v := ReachableKeeps(cfg, st);
    RestoreImage(cfg, st, v, crc);
    o := Restore(Image(st, crc), cfg, crc, hash);
    o.book.SetView(v);
  }
}
