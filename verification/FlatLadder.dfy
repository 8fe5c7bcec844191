/** What the Rust and the Go flat book have in common: the order pool, the two
    price ladders and the allocator, all updated in place.  The id index differs
    (a hash map, an open-addressing table), so it is passed to `State` as a map.
    Every method computes the corresponding function of `BookSpec`.
 */
module FlatLadder {
  import opened BookSpec
  import opened BookInvariant

  class Ladder {
    var priceMin: int
    var tick: int
    var nLevels: nat
    const bids: array<Level>
    const asks: array<Level>
    const pool: array<Order>
    var hwm: nat
    var bestBid: int
    var bestAsk: int
    var freeHead: nat

    /** The book these fields represent together with the index `ids`. */
    ghost function State(ids: map<int, nat>): State
      reads this, bids, asks, pool
    {
      BookSpec.State(priceMin, tick, nLevels, bids[..], asks[..], pool[..], hwm, bestBid, bestAsk, freeHead, ids)
    }

    constructor (cfg: Config)
      requires cfg.Valid()
      ensures State(map[]) == Empty(cfg) && bids != asks
      ensures fresh(bids) && fresh(asks) && fresh(pool)
    {
      priceMin, tick, nLevels := cfg.priceMin, cfg.tick, cfg.levels;
      bids := new Level[cfg.levels](_ => EMPTY_LEVEL);
      asks := new Level[cfg.levels](_ => EMPTY_LEVEL);
      pool := new Order[cfg.cap](_ => cfg.blank);
      hwm, bestBid, bestAsk, freeHead := 0, -1, -1, NIL;
      new;
      assert bids[..] == Empty(cfg).bids && asks[..] == Empty(cfg).asks && pool[..] == Empty(cfg).pool;
    }

    function Lane(side: Side): array<Level> {
      if side == 0 then bids else asks
    }

    /** Pop the free list, else bump the high-water mark, else report exhaustion. */
    method AllocSlot(ghost ids: map<int, nat>) returns (ok: bool, slot: nat)
      requires hwm <= pool.Length && (freeHead == NIL || freeHead < pool.Length)
      modifies `hwm, `freeHead
      ensures ok == old(State(ids)).CanAlloc()
      ensures ok ==> slot == BookSpec.AllocSlot(old(State(ids))) && slot < pool.Length && State(ids) == AfterAlloc(old(State(ids)))
      ensures !ok ==> State(ids) == old(State(ids))
    {
      if freeHead != NIL {
        slot := freeHead;
        freeHead := pool[slot].next;
        return true, slot;
      }
      if hwm == pool.Length { return false, 0; }
      slot := hwm;
      hwm := hwm + 1;
      return true, slot;
    }

    method PutOrder(slot: nat, o: Order, ghost ids: map<int, nat>)
      requires slot < pool.Length
      modifies pool
      ensures State(ids) == old(State(ids)).SetOrder(slot, o)
    {
      pool[slot] := o;
      assert pool[..] == old(pool[..])[slot := o];
    }

    method PutLevel(side: Side, t: nat, l: Level, ghost ids: map<int, nat>)
      requires bids != asks && t < Lane(side).Length
      modifies bids, asks
      ensures State(ids) == old(State(ids)).SetLevel(side, t, l)
    {
      if side == 0 {
        bids[t] := l;
        assert bids[..] == old(bids[..])[t := l];
      } else {
        asks[t] := l;
        assert asks[..] == old(asks[..])[t := l];
      }
    }

    /** The writes of `insert` once a slot is in hand; the index gains `o.id` beside them. */
    method Place(slot: nat, t: nat, o: Order, ghost ids: map<int, nat>)
      requires bids != asks && slot < pool.Length && t < Lane(o.side).Length
      requires o.prev == Lane(o.side)[t].tail && (o.prev == NIL || o.prev < pool.Length) && o.prev != slot
      modifies `bestBid, `bestAsk, bids, asks, pool
      ensures State(ids[o.id := slot]) == BookSpec.Place(old(State(ids)), slot, t, o)
    {
      PutOrder(slot, o, ids);
      var lvl := Lane(o.side)[t];
      PutLevel(o.side, t, Level(if lvl.tail == NIL then slot else lvl.head, slot, lvl.qtyTotal + o.qty, lvl.count + 1), ids);
      if o.prev != NIL {
        PutOrder(o.prev, pool[o.prev].(next := slot), ids);
      }
      if o.side == 0 && (bestBid < 0 || t > bestBid) { bestBid := t; }
      if o.side == 1 && (bestAsk < 0 || t < bestAsk) { bestAsk := t; }
    }

    /** `update` of the order in `slot`: the fill is capped at what remains. */
    method FillPart(id: int, slot: nat, fillQty: int, ghost ids: map<int, nat>)
      requires bids != asks && Addresses(State(ids), id) && slot == ids[id]
      modifies bids, asks, pool
      ensures State(ids) == BookSpec.Update(old(State(ids)), id, fillQty)
    {
      var o := pool[slot];
      var add := if fillQty < o.qty - o.filled then fillQty else o.qty - o.filled;
      PutOrder(slot, o.(filled := o.filled + add), ids);
      var t := TickOf(priceMin, tick, o.price);
      var lvl := Lane(o.side)[t];
      assert State(ids).Lane(o.side) == Lane(o.side)[..];
      PutLevel(o.side, t, lvl.(qtyTotal := lvl.qtyTotal - add), ids);
    }

    method FreeSlot(slot: nat, ghost ids: map<int, nat>)
      requires slot < pool.Length
      modifies pool, `freeHead
      ensures State(ids) == BookSpec.FreeSlot(old(State(ids)), slot)
    {
      PutOrder(slot, pool[slot].(id := 0, next := freeHead, prev := NIL), ids);
      freeHead := slot;
    }

    method Unlink(slot: nat, side: Side, t: nat, rem: int, ghost ids: map<int, nat>)
      requires bids != asks && Linkable(pool[..], slot) && t < Lane(side).Length
      modifies bids, asks, pool
      ensures State(ids) == BookSpec.Unlink(old(State(ids)), slot, side, t, rem)
    {
      var prev, next := pool[slot].prev, pool[slot].next;
      if prev != NIL {
        PutOrder(prev, pool[prev].(next := next), ids);
      }
      if next != NIL {
        PutOrder(next, pool[next].(prev := prev), ids);
      }
      var lvl := Lane(side)[t];
      assert State(ids).Lane(side) == Lane(side)[..];
      PutLevel(side, t, Level(if lvl.head == slot then next else lvl.head, if lvl.tail == slot then prev else lvl.tail,
                              lvl.qtyTotal - rem, lvl.count - 1), ids);
    }

    /** Rescan for the best only when the emptied level was the best. */
    method RepairBest(side: Side, t: nat, ghost ids: map<int, nat>)
      requires bids != asks && t < Lane(side).Length && asks.Length == nLevels
      modifies `bestBid, `bestAsk
      ensures State(ids) == BookSpec.RepairBest(old(State(ids)), side, t)
    {
      if side == 0 {
        if bestBid != t || bids[t].head != NIL { return; }
        var nb := -1;
        var i := t + 1;
        while i > 0
          invariant 0 <= i <= t + 1 && nb == -1
          invariant ScanDown(bids[..], t + 1) == ScanDown(bids[..], i)
        {
          i := i - 1;
          if bids[i].head != NIL {
            nb := i;
            break;
          }
        }
        bestBid := nb;
      } else {
        if bestAsk != t || asks[t].head != NIL { return; }
        var na := -1;
        var i := t;
        while i < nLevels
          invariant t <= i <= nLevels && na == -1
          invariant ScanUp(asks[..], t) == ScanUp(asks[..], i)
        {
          if asks[i].head != NIL {
            na := i;
            break;
          }
          i := i + 1;
        }
        bestAsk := na;
      }
    }

    method Depart(slot: nat, side: Side, t: nat, rem: int, ghost ids: map<int, nat>)
      requires bids != asks && Linkable(pool[..], slot) && t < Lane(side).Length && asks.Length == nLevels
      modifies `freeHead, `bestBid, `bestAsk, bids, asks, pool
      ensures State(ids) == BookSpec.Depart(old(State(ids)), slot, side, t, rem)
    {
      Unlink(slot, side, t, rem, ids);
      FreeSlot(slot, ids);
      RepairBest(side, t, ids);
    }

    /** `cancel` of the order in `slot`, whose id has left the index. */
    method Withdraw(id: int, slot: nat, ghost ids: map<int, nat>)
      requires bids != asks && Addresses(State(ids), id) && slot == ids[id]
      modifies `freeHead, `bestBid, `bestAsk, bids, asks, pool
      ensures State(ids - {id}) == BookSpec.Cancel(old(State(ids)), id)
    {
      var o := pool[slot];
      Depart(slot, o.side, TickOf(priceMin, tick, o.price), o.qty - o.filled, ids - {id});
    }

    /** `fill` of the order in `slot`, whose id has left the index. */
    method Complete(id: int, slot: nat, ghost ids: map<int, nat>)
      requires bids != asks && Addresses(State(ids), id) && slot == ids[id]
      modifies `freeHead, `bestBid, `bestAsk, bids, asks, pool
      ensures State(ids - {id}) == BookSpec.Fill(old(State(ids)), id)
    {
      var o := pool[slot];
      PutOrder(slot, o.(filled := o.qty), ids - {id});
      Depart(slot, o.side, TickOf(priceMin, tick, o.price), o.qty - o.filled, ids - {id});
    }
  }
}
