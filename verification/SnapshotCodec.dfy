/** The snapshot image: an SBE message header, the root block, one repeating
    group of occupied levels, one of allocated slots, and a checksum trailer.
    `Image` says which bytes a book has, `Decode` what any bytes restore to.
 */
module SnapshotCodec {
  import opened BookSpec
  import opened BookInvariant
  import opened Wire
  import opened SbeFlyweight

  type Word32 = w: nat | w < WORD32

  /** CRC-32C is left uninterpreted. */
  type Crc = seq<Byte> -> Word32

  const HEADER_LEN: nat := 8
  const ROOT_LEN: nat := 40
  const LEVEL_LEN: nat := 25
  const ORDER_LEN: nat := 45
  const CRC_LEN: nat := 4
  const TEMPLATE_ID: nat := 1
  const SCHEMA_ID: nat := 8
  const VERSION: nat := 2

  /** Bytes of `n` level elements, and of `n` order elements. */
  function LevelsSize(n: nat): nat { 25 * n }
  function OrdersSize(n: nat): nat { 45 * n }

  // ---------- blocks ----------

  function HeaderBytes(): (s: seq<Byte>)
    ensures |s| == HEADER_LEN
  {
    LE(ROOT_LEN, 2) + LE(TEMPLATE_ID, 2) + LE(SCHEMA_ID, 2) + LE(VERSION, 2)
  }

  /** The scalars of a book, as the root block carries them. */
  datatype RootFields = RootFields(priceMin: int, tick: int, nLevels: nat, capacity: nat, hwm: nat, bestBid: int, bestAsk: int, freeHead: nat)

  function RootOf(st: State): RootFields {
    RootFields(st.priceMin, st.tick, st.nLevels, |st.pool|, st.hwm, st.bestBid, st.bestAsk, st.freeHead)
  }

  function RootBlock(r: RootFields): (s: seq<Byte>)
    ensures |s| == ROOT_LEN
  {
    SLE(r.priceMin, 8) + SLE(r.tick, 8) + LE(r.nLevels, 4) + LE(r.capacity, 4) + LE(r.hwm, 4)
    + SLE(r.bestBid, 4) + SLE(r.bestAsk, 4) + LE(r.freeHead, 4)
  }

  datatype Entry = Entry(side: Side, t: nat, level: Level)

  function LevelBlock(e: Entry): (s: seq<Byte>)
    ensures |s| == LEVEL_LEN
  {
    [e.side] + LE(e.t, 4) + SLE(e.level.qtyTotal, 8) + SLE(e.level.count, 4) + LE(e.level.head, 4) + LE(e.level.tail, 4)
  }

  function OrderBlock(slot: nat, o: Order): (s: seq<Byte>)
    ensures |s| == ORDER_LEN
  {
    LE(slot, 4) + SLE(o.id, 8) + SLE(o.price, 8) + SLE(o.qty, 8) + SLE(o.filled, 8) + [o.side] + LE(o.next, 4) + LE(o.prev, 4)
  }

  /** The occupied levels among the first `n` ticks of a lane, in tick order. */
  function LaneEntries(side: Side, lane: seq<Level>, n: nat): seq<Entry>
    requires n <= |lane|
  {
    if n == 0 then []
    else LaneEntries(side, lane, n - 1) + if lane[n - 1].head == NIL then [] else [Entry(side, n - 1, lane[n - 1])]
  }

  /** Bids then asks. */
  function Entries(st: State): seq<Entry> {
    LaneEntries(0, st.bids, |st.bids|) + LaneEntries(1, st.asks, |st.asks|)
  }

  function Join(blocks: seq<seq<Byte>>): seq<Byte> {
    if blocks == [] then [] else Join(blocks[..|blocks| - 1]) + blocks[|blocks| - 1]
  }

  function LevelBlocks(es: seq<Entry>): seq<seq<Byte>> {
    seq(|es|, i requires 0 <= i < |es| => LevelBlock(es[i]))
  }

  function OrderBlocks(pool: seq<Order>, n: nat): seq<seq<Byte>>
    requires n <= |pool|
  {
    seq(n, i requires 0 <= i < n => OrderBlock(i, pool[i]))
  }

  function Body(st: State): seq<Byte>
    requires st.hwm <= |st.pool|
  {
    HeaderBytes() + RootBlock(RootOf(st))
    + GroupHeader(LEVEL_LEN, |Entries(st)|) + Join(LevelBlocks(Entries(st)))
    + GroupHeader(ORDER_LEN, st.hwm) + Join(OrderBlocks(st.pool, st.hwm))
  }

  function Image(st: State, crc: Crc): seq<Byte>
    requires st.hwm <= |st.pool|
  {
    Body(st) + LE(crc(Body(st)), 4)
  }

  function EncodedLength(nLevels: nat, nOrders: nat): nat {
    HEADER_LEN + ROOT_LEN + GROUP_LEN + LevelsSize(nLevels) + GROUP_LEN + OrdersSize(nOrders) + CRC_LEN
  }

  /** The image fits the encoder's group counts. */
  ghost predicate CountsFit(st: State) {
    st.hwm <= MAX_COUNT && |Entries(st)| <= MAX_COUNT
  }

  // ---------- decoding ----------

  datatype Error = TooShort | CrcMismatch | BadVersion | CapacityMismatch | Malformed
  datatype Restored = Ok(st: State) | Err(error: Error)

  /** Only the ASK code decodes to 1. */
  function SideOf(b: Byte): Side {
    if b == 1 then 1 else 0
  }

  /** The group element at `off`; reading past the data panics. */
  function ReadEntry(data: seq<Byte>, off: nat): Entry
    requires off + LEVEL_LEN <= |data|
  {
    Entry(SideOf(data[off]), Get(data, off + 1, 4),
          Level(Get(data, off + 17, 4), Get(data, off + 21, 4), GetS(data, off + 5, 8), Get(data, off + 13, 4)))
  }

  function ReadOrder(data: seq<Byte>, off: nat): Order
    requires off + ORDER_LEN <= |data|
  {
    Order(GetS(data, off + 4, 8), GetS(data, off + 12, 8), GetS(data, off + 20, 8), GetS(data, off + 28, 8),
          Get(data, off + 37, 4), Get(data, off + 41, 4), SideOf(data[off + 36]))
  }

  /** Start of element `i` of a group whose elements begin at `pos`, `block` bytes apart. */
  function ElementAt(pos: nat, block: nat, i: nat): (off: nat)
    ensures off >= pos
  {
    if i == 0 then pos else ElementAt(pos, block, i - 1) + block
  }

  datatype Lanes = Lanes(bids: seq<Level>, asks: seq<Level>)
  {
    function Store(e: Entry): Option<Lanes> {
      if e.side == 0 then (if e.t < |bids| then Some(Lanes(bids[e.t := e.level], asks)) else None)
      else (if e.t < |asks| then Some(Lanes(bids, asks[e.t := e.level])) else None)
    }
  }

  datatype SlotOrder = SlotOrder(slot: nat, o: Order)

  /** The element at `off`: `Next` panics past `limit`, a field read past the data. */
  function LevelAt(data: seq<Byte>, limit: nat, off: nat, block: nat): Option<Entry> {
    if off + block > limit || off + LEVEL_LEN > |data| then None else Some(ReadEntry(data, off))
  }

  function OrderAt(data: seq<Byte>, limit: nat, off: nat, block: nat): Option<SlotOrder> {
    if off + block > limit || off + ORDER_LEN > |data| then None else Some(SlotOrder(Get(data, off, 4), ReadOrder(data, off)))
  }

  function TakeLevel(data: seq<Byte>, limit: nat, block: nat): nat -> Option<Entry> {
    (off: nat) => LevelAt(data, limit, off, block)
  }

  function TakeOrder(data: seq<Byte>, limit: nat, block: nat): nat -> Option<SlotOrder> {
    (off: nat) => OrderAt(data, limit, off, block)
  }

  /** The lanes after one more element. */
  function ThenLevel(lanes: Option<Lanes>, e: Option<Entry>): Option<Lanes> {
    if lanes.None? || e.None? then None else lanes.value.Store(e.value)
  }

  /** The pool after one more element. */
  function ThenOrder(pool: Option<seq<Order>>, e: Option<SlotOrder>): Option<seq<Order>> {
    if pool.None? || e.None? || e.value.slot >= |pool.value| then None else Some(pool.value[e.value.slot := e.value.o])
  }

  /** The lanes after storing the first `n` elements of a levels group that starts at `pos`. */
  function ReadLevels(take: nat -> Option<Entry>, pos: nat, block: nat, n: nat, empty: Lanes): Option<Lanes> {
    if n == 0 then Some(empty)
    else ThenLevel(ReadLevels(take, pos, block, n - 1, empty), take(ElementAt(pos, block, n - 1)))
  }

  /** The pool after storing the first `n` elements of an orders group that starts at `pos`. */
  function ReadOrders(take: nat -> Option<SlotOrder>, pos: nat, block: nat, n: nat, blank: seq<Order>): Option<seq<Order>> {
    if n == 0 then Some(blank)
    else ThenOrder(ReadOrders(take, pos, block, n - 1, blank), take(ElementAt(pos, block, n - 1)))
  }

  /** The index rebuilt from the pool: every allocated slot whose order is live. */
  function RebuildIds(pool: seq<Order>, n: nat): map<int, nat>
    requires n <= |pool|
  {
    if n == 0 then map[]
    else
      var ids := RebuildIds(pool, n - 1);
      if pool[n - 1].id != 0 then ids[pool[n - 1].id := n - 1] else ids
  }

  function Decode(data: seq<Byte>, cfg: Config, crc: Crc): Restored
  {
    if |data| < CRC_LEN then Err(TooShort)
    else
      var limit := |data| - CRC_LEN;
      if crc(data[..limit]) != Get(data, limit, 4) then Err(CrcMismatch)
      else if limit < HEADER_LEN then Err(Malformed)
      else if Get(data, 6, 2) != VERSION then Err(BadVersion)
      else DecodeBody(data, limit, cfg, Get(data, 0, 2))
  }

  /** The root block behind the frame header. */
  function ReadRoot(data: seq<Byte>): RootFields
    requires HEADER_LEN + ROOT_LEN <= |data|
  {
    RootFields(GetS(data, 8, 8), GetS(data, 16, 8), Get(data, 24, 4), Get(data, 28, 4), Get(data, 32, 4),
               GetS(data, 36, 4), GetS(data, 40, 4), Get(data, 44, 4))
  }

  function DecodeBody(data: seq<Byte>, limit: nat, cfg: Config, rootLen: nat): Restored
    requires HEADER_LEN <= limit <= |data|
  {
    var pos := HEADER_LEN + rootLen;
    if pos > limit || HEADER_LEN + ROOT_LEN > |data| then Err(Malformed)
    else if ReadRoot(data).capacity != cfg.cap then Err(CapacityMismatch)
    else if pos + GROUP_LEN > limit then Err(Malformed)
    else DecodeGroups(ReadRoot(data), data, limit, cfg, pos + GROUP_LEN, Get(data, pos, 2), Get(data, pos + 2, 2))
  }

  function NoLevels(n: nat): Lanes {
    Lanes(seq(n, _ => EMPTY_LEVEL), seq(n, _ => EMPTY_LEVEL))
  }

  function NoOrders(cfg: Config): seq<Order> {
    seq(cfg.cap, _ => cfg.blank)
  }

  function DecodeGroups(root: RootFields, data: seq<Byte>, limit: nat, cfg: Config, pos: nat, block: nat, n: nat): Restored
    requires limit <= |data|
  {
    match ReadLevels(TakeLevel(data, limit, block), pos, block, n, NoLevels(cfg.levels))
    case None => Err(Malformed)
    case Some(lanes) =>
      var pos2 := ElementAt(pos, block, n);
      if pos2 + GROUP_LEN > limit then Err(Malformed)
      else DecodeOrders(root, lanes, data, limit, cfg, pos2 + GROUP_LEN, Get(data, pos2, 2), Get(data, pos2 + 2, 2))
  }

  function DecodeOrders(root: RootFields, lanes: Lanes, data: seq<Byte>, limit: nat, cfg: Config, pos: nat, block: nat, n: nat): Restored
  {
    match ReadOrders(TakeOrder(data, limit, block), pos, block, n, NoOrders(cfg))
    case None => Err(Malformed)
    case Some(pool) => Rebuild(root, lanes, pool)
  }

  /** Indexing a slot past the pool panics. */
  function Rebuild(root: RootFields, lanes: Lanes, pool: seq<Order>): Restored {
    if root.hwm > |pool| then Err(Malformed)
    else Ok(State(root.priceMin, root.tick, root.nLevels, lanes.bids, lanes.asks, pool,
                  root.hwm, root.bestBid, root.bestAsk, root.freeHead, RebuildIds(pool, root.hwm)))
  }
}
