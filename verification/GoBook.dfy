/** The Go flat book: the shared ladder with the open-addressing table for the
    id index.  It computes the same functions as the Rust book; the table never
    fills up because at most `cap` ids are ever in it.
 */
module GoBook {
  import opened BookSpec
  import opened BookInvariant
  import opened BookRuns
  import opened FlatLadder
  import opened IdMap

  /** The slot an insert gets is another order's neither in the pool nor on the level, and the table can take its id. */
  ghost predicate CanPlace(st: State, id: int, t: nat, side: Side)
    requires st.Bounded() && st.CanAlloc() && t < st.nLevels
  {
    && AllocSlot(st) < |st.pool|
    && st.Lane(side)[t].tail != AllocSlot(st)
    && |st.ids[id := 0]| <= |st.pool|
  }

  lemma Placing(st: State, v: View, id: int, price: int, qty: int, side: Side) returns (v': View)
    requires Inv(st, v) && InsertOk(st, id, price)
    ensures !st.CanAlloc() ==> v' == v
    ensures st.CanAlloc() ==>
      && CanPlace(st, id, TickOf(st.priceMin, st.tick, price), side)
      && Inv(Insert(st, id, price, qty, side), v')
  {
    v' := Inserting(st, v, id, price, qty, side);
    AllocExact(st, v);
    assert st.ids[id := 0].Keys == st.ids.Keys + {id};
  }

  class Book {
    const flat: Ladder
    const ids: Table  // the source replaces it only while a book is being restored
    ghost var model: State
    ghost var view: View

    ghost predicate Valid()
      reads this, flat, flat.bids, flat.asks, flat.pool, ids, ids.keys, ids.vals
    {
      Agrees() && Inv(model, view)
    }

    /** `model` names the value the fields represent; the table has room for every slot. */
    ghost predicate Agrees()
      reads this, flat, flat.bids, flat.asks, flat.pool, ids, ids.keys, ids.vals
    {
      && flat.bids != flat.asks
      && ids.Valid() && ids.keys.Length > flat.pool.Length
      && flat.State(ids.contents) == model
    }

    constructor (cfg: Config, hash: int -> nat)
      requires cfg.Valid()
      ensures Valid() && model == Empty(cfg) && Untouched(model, cfg.blank)
      ensures fresh(flat) && fresh(flat.bids) && fresh(flat.asks) && fresh(flat.pool)
      ensures fresh(ids) && fresh(ids.keys) && fresh(ids.vals) && ids.hash == hash
    {
      flat := new Ladder(cfg);
      ids := new Table(cfg.cap, hash);
      model := Empty(cfg);
      view := View(seq(cfg.levels, _ => []), seq(cfg.levels, _ => []), []);
      new;
      EmptyInv(cfg);
    }

    /** A book over a ladder and a table that were filled elsewhere. */
    constructor Over(flat: Ladder, ids: Table)
      requires flat.bids != flat.asks && ids.Valid() && ids.keys.Length > flat.pool.Length
      ensures this.flat == flat && this.ids == ids && Agrees() && model == flat.State(ids.contents)
    {
      this.flat, this.ids := flat, ids;
      model := flat.State(ids.contents);
      view := View([], [], []);
    }

    ghost method SetView(v: View)
      requires Agrees() && Inv(model, v)
      modifies `view
      ensures Valid()
    {
      view := v;
    }

    method InsertWrites(id: int, price: int, qty: int, side: Side, t: nat) returns (ok: bool)
      requires Agrees() && model.Bounded() && t == TickOf(model.priceMin, model.tick, price) < model.nLevels
      requires id != 0 && (model.CanAlloc() ==> CanPlace(model, id, t, side))
      modifies `model, flat, flat.bids, flat.asks, flat.pool, ids`contents, ids.keys, ids.vals
      ensures Agrees() && ok == old(model).CanAlloc()
      ensures model == if ok then BookSpec.Insert(old(model), id, price, qty, side) else old(model)
    {
      var slot;
      ghost var m := ids.contents;
      ok, slot := flat.AllocSlot(m);
      if ok {
        assert flat.State(m).Lane(side) == flat.Lane(side)[..];
        flat.Place(slot, t, Order(id, price, qty, 0, NIL, flat.Lane(side)[t].tail, side), m);
        assert m[id := slot].Keys == m[id := 0].Keys;
        ids.Put(id, slot);
        model := BookSpec.Insert(model, id, price, qty, side);
      }
    }

    method InsertChecked(id: int, price: int, qty: int, side: Side, t: nat, ghost v: View) returns (ok: bool)
      requires Agrees() && model.Bounded() && t == TickOf(model.priceMin, model.tick, price) < model.nLevels
      requires id != 0 && (model.CanAlloc() ==> CanPlace(model, id, t, side))
      requires Inv(if model.CanAlloc() then BookSpec.Insert(model, id, price, qty, side) else model, v)
      modifies this, flat, flat.bids, flat.asks, flat.pool, ids`contents, ids.keys, ids.vals
      ensures Valid() && ok == old(model).CanAlloc()
      ensures model == if ok then BookSpec.Insert(old(model), id, price, qty, side) else old(model)
    {
      ok := InsertWrites(id, price, qty, side, t);
      view := v;
    }

    /** Rest a new order at the back of its level; a full pool panics. */
    method Insert(id: int, price: int, qty: int, side: Side) returns (ok: bool)
      requires Valid() && InsertOk(model, id, price)
      modifies this, flat, flat.bids, flat.asks, flat.pool, ids`contents, ids.keys, ids.vals
      ensures Valid()
      ensures ok == old(model).CanAlloc()
      ensures model == if ok then BookSpec.Insert(old(model), id, price, qty, side) else old(model)
    {
      ghost var v := Placing(model, view, id, price, qty, side);
      ok := InsertChecked(id, price, qty, side, TickOf(flat.priceMin, flat.tick, price), v);
    }

    /** The slot of `id`, or NIL, which indexes past the pool. */
    method Find(id: int) returns (ok: bool, slot: nat)
      requires Valid()
      ensures ok == (id in model.ids) && (ok ==> slot == model.ids[id] < flat.pool.Length)
    {
      slot := ids.Get(id);
      ok := slot < flat.pool.Length;
    }

    method UpdateWrites(id: int, slot: nat, fillQty: int)
      requires Agrees() && Addresses(model, id) && slot == model.ids[id]
      modifies `model, flat.bids, flat.asks, flat.pool
      ensures Agrees() && model == BookSpec.Update(old(model), id, fillQty)
    {
      flat.FillPart(id, slot, fillQty, ids.contents);
      model := BookSpec.Update(model, id, fillQty);
    }

    /** Fill `fillQty` of a resting order, capped at what remains; an unknown id panics. */
    method Update(id: int, fillQty: int) returns (ok: bool)
      requires Valid()
      modifies `model, flat.bids, flat.asks, flat.pool
      ensures Valid()
      ensures ok == (id in old(model).ids)
      ensures ok ==> Addresses(old(model), id) && model == BookSpec.Update(old(model), id, fillQty)
      ensures !ok ==> model == old(model)
    {
      var slot;
      ok, slot := Find(id);
      if ok {
        UpdateKeeps(model, view, id, fillQty);
        UpdateWrites(id, slot, fillQty);
      }
    }

    method CancelWrites(id: int, slot: nat)
      requires Agrees() && Addresses(model, id) && slot == model.ids[id] && id != 0
      modifies `model, flat, flat.bids, flat.asks, flat.pool, ids`contents, ids.keys, ids.vals
      ensures Agrees() && model == BookSpec.Cancel(old(model), id)
    {
      ids.Del(id);
      flat.Withdraw(id, slot, old(ids.contents));
      model := BookSpec.Cancel(model, id);
    }

    /** Remove a resting order; an unknown id panics. */
    method Cancel(id: int) returns (ok: bool)
      requires Valid()
      modifies this, flat, flat.bids, flat.asks, flat.pool, ids`contents, ids.keys, ids.vals
      ensures Valid()
      ensures ok == (id in old(model).ids)
      ensures ok ==> Addresses(old(model), id) && model == BookSpec.Cancel(old(model), id)
      ensures !ok ==> model == old(model)
    {
      var slot;
      ok, slot := Find(id);
      if ok {
        ghost var v := Departing(model, view, id, false);
        CancelWrites(id, slot);
        SetView(v);
      }
    }

    method FillWrites(id: int, slot: nat)
      requires Agrees() && Addresses(model, id) && slot == model.ids[id] && id != 0
      modifies `model, flat, flat.bids, flat.asks, flat.pool, ids`contents, ids.keys, ids.vals
      ensures Agrees() && model == BookSpec.Fill(old(model), id)
    {
      ids.Del(id);
      flat.Complete(id, slot, old(ids.contents));
      model := BookSpec.Fill(model, id);
    }

    /** Fill a resting order to completion, then remove it; an unknown id panics. */
    method Fill(id: int) returns (ok: bool)
      requires Valid()
      modifies this, flat, flat.bids, flat.asks, flat.pool, ids`contents, ids.keys, ids.vals
      ensures Valid()
      ensures ok == (id in old(model).ids)
      ensures ok ==> Addresses(old(model), id) && model == BookSpec.Fill(old(model), id)
      ensures !ok ==> model == old(model)
    {
      var slot;
      ok, slot := Find(id);
      if ok {
        ghost var v := Departing(model, view, id, true);
        FillWrites(id, slot);
        SetView(v);
      }
    }
  }
}
