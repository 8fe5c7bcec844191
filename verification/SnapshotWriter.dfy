/** The snapshot's blocks, written field by field through the flyweight. */
module SnapshotWriter {
  import opened BookSpec
  import opened Wire
  import opened SbeFlyweight
  import opened SnapshotCodec

  method FillHeader(w: Flyweight)
    requires HEADER_LEN <= w.buf.Length
    modifies w.buf
    ensures w.buf[0..HEADER_LEN] == HeaderBytes()
  {
    w.Set(0, [], 0, ROOT_LEN, 2);
    ghost var d := LE(ROOT_LEN, 2);
    assert [] + d == d;
    w.Set(0, d, 2, TEMPLATE_ID, 2);
    d := d + LE(TEMPLATE_ID, 2);
    w.Set(0, d, 4, SCHEMA_ID, 2);
    d := d + LE(SCHEMA_ID, 2);
    w.Set(0, d, 6, VERSION, 2);
  }

  method FillRoot(w: Flyweight, r: RootFields, start: nat)
    requires start + ROOT_LEN <= w.buf.Length
    modifies w.buf
    ensures w.buf[start..start + ROOT_LEN] == RootBlock(r)
    ensures w.buf[..start] == old(w.buf[..start])
  {
    w.SetSigned(start, [], start, r.priceMin, 8);
    ghost var d := SLE(r.priceMin, 8);
    assert [] + d == d;
    w.SetSigned(start, d, start + 8, r.tick, 8);
    d := d + SLE(r.tick, 8);
    w.Set(start, d, start + 16, r.nLevels, 4);
    d := d + LE(r.nLevels, 4);
    w.Set(start, d, start + 20, r.capacity, 4);
    d := d + LE(r.capacity, 4);
    w.Set(start, d, start + 24, r.hwm, 4);
    d := d + LE(r.hwm, 4);
    w.SetSigned(start, d, start + 28, r.bestBid, 4);
    d := d + SLE(r.bestBid, 4);
    w.SetSigned(start, d, start + 32, r.bestAsk, 4);
    d := d + SLE(r.bestAsk, 4);
    w.Set(start, d, start + 36, r.freeHead, 4);
  }

  /** Frame header and root block; a buffer too short panics. */
  method StartMessage(w: Flyweight, r: RootFields) returns (ok: bool)
    requires w.Valid()
    modifies w`position, w.buf
    ensures w.Valid() && ok == (HEADER_LEN + ROOT_LEN <= w.len)
    ensures ok ==> w.Written() == HeaderBytes() + RootBlock(r)
  {
    ok := HEADER_LEN + ROOT_LEN <= w.len;
    if ok {
      FillHeader(w);
      FillRoot(w, r, HEADER_LEN);
      w.position := HEADER_LEN + ROOT_LEN;
      assert w.buf[0..HEADER_LEN] == w.buf[..HEADER_LEN];
      assert w.buf[..w.position] == w.buf[..HEADER_LEN] + w.buf[HEADER_LEN..w.position];
    }
  }

  method FillLevel(w: Flyweight, start: nat, e: Entry)
    requires start + LEVEL_LEN <= w.buf.Length
    modifies w.buf
    ensures w.buf[start..start + LEVEL_LEN] == LevelBlock(e)
    ensures w.buf[..start] == old(w.buf[..start])
  {
    w.SetByte(start, [], start, e.side);
    ghost var d: seq<Byte> := [e.side];
    assert [] + d == d;
    w.Set(start, d, start + 1, e.t, 4);
    d := d + LE(e.t, 4);
    w.SetSigned(start, d, start + 5, e.level.qtyTotal, 8);
    d := d + SLE(e.level.qtyTotal, 8);
    w.SetSigned(start, d, start + 13, e.level.count, 4);
    d := d + SLE(e.level.count, 4);
    w.Set(start, d, start + 17, e.level.head, 4);
    d := d + LE(e.level.head, 4);
    w.Set(start, d, start + 21, e.level.tail, 4);
  }

  method FillOrder(w: Flyweight, start: nat, slot: nat, o: Order)
    requires start + ORDER_LEN <= w.buf.Length
    modifies w.buf
    ensures w.buf[start..start + ORDER_LEN] == OrderBlock(slot, o)
    ensures w.buf[..start] == old(w.buf[..start])
  {
    w.Set(start, [], start, slot, 4);
    ghost var d := LE(slot, 4);
    assert [] + d == d;
    w.SetSigned(start, d, start + 4, o.id, 8);
    d := d + SLE(o.id, 8);
    w.SetSigned(start, d, start + 12, o.price, 8);
    d := d + SLE(o.price, 8);
    w.SetSigned(start, d, start + 20, o.qty, 8);
    d := d + SLE(o.qty, 8);
    w.SetSigned(start, d, start + 28, o.filled, 8);
    d := d + SLE(o.filled, 8);
    w.SetByte(start, d, start + 36, o.side);
    d := d + [o.side];
    w.Set(start, d, start + 37, o.next, 4);
    d := d + LE(o.next, 4);
    w.Set(start, d, start + 41, o.prev, 4);
  }

  method AddLevel(w: Flyweight, e: Entry) returns (ok: bool)
    requires w.Valid() && w.block == LEVEL_LEN
    modifies w`position, w`index, w.buf
    ensures w.Valid() && ok == (old(w.index) < w.count && old(w.position) + LEVEL_LEN <= w.len)
    ensures ok ==> w.Written() == old(w.Written()) + LevelBlock(e) && w.index == old(w.index) + 1
  {
    var start;
    ok, start := w.Next();
    if ok {
      FillLevel(w, start, e);
      assert w.buf[..w.position] == w.buf[..start] + w.buf[start..w.position];
    }
  }

  method AddOrder(w: Flyweight, slot: nat, o: Order) returns (ok: bool)
    requires w.Valid() && w.block == ORDER_LEN
    modifies w`position, w`index, w.buf
    ensures w.Valid() && ok == (old(w.index) < w.count && old(w.position) + ORDER_LEN <= w.len)
    ensures ok ==> w.Written() == old(w.Written()) + OrderBlock(slot, o) && w.index == old(w.index) + 1
  {
    var start;
    ok, start := w.Next();
    if ok {
      FillOrder(w, start, slot, o);
      assert w.buf[..w.position] == w.buf[..start] + w.buf[start..w.position];
    }
  }

  /** Append the checksum of everything written; past the buffer this panics. */
  method Seal(w: Flyweight, crc: Crc) returns (ok: bool)
    requires w.Valid()
    modifies w`position, w.buf
    ensures w.Valid() && ok == (old(w.position) + CRC_LEN <= w.len)
    ensures ok ==> w.Written() == old(w.Written()) + LE(crc(old(w.Written())), 4)
  {
    ok := w.position + CRC_LEN <= w.len;
    if ok {
      var c := crc(w.buf[..w.position]);
      w.Store(w.position, c, 4);
      assert w.buf[..w.position + CRC_LEN] == w.buf[..w.position] + w.buf[w.position..w.position + CRC_LEN];
      w.position := w.position + CRC_LEN;
    }
  }
}
