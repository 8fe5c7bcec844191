/** The Rust flat book: the shared ladder with a hash map for the id index.
    A panic of the source is a `false` result that leaves the book as it was.
 */
module RustBook {
  import opened BookSpec
  import opened BookInvariant
  import opened BookRuns
  import opened FlatLadder

  class Book {
    const flat: Ladder
    var idmap: map<int, nat>
    ghost var model: State
    ghost var view: View

    ghost predicate Valid()
      reads this, flat, flat.bids, flat.asks, flat.pool
    {
      Agrees() && Inv(model, view)
    }

    /** `model` names the value the fields represent. */
    ghost predicate Agrees()
      reads this, flat, flat.bids, flat.asks, flat.pool
    {
      flat.bids != flat.asks && flat.State(idmap) == model
    }

    constructor (cfg: Config)
      requires cfg.Valid()
      ensures Valid() && model == Empty(cfg) && Untouched(model, cfg.blank)
      ensures fresh(flat) && fresh(flat.bids) && fresh(flat.asks) && fresh(flat.pool)
    {
      flat := new Ladder(cfg);
      idmap := map[];
      model := Empty(cfg);
      view := View(seq(cfg.levels, _ => []), seq(cfg.levels, _ => []), []);
      new;
      EmptyInv(cfg);
    }

    ghost method SetView(v: View)
      requires Agrees() && Inv(model, v)
      modifies `view
      ensures Valid()
    {
      view := v;
    }

    method InsertWrites(id: int, price: int, qty: int, side: Side, t: nat) returns (ok: bool)
      requires Agrees() && model.Bounded() && t == TickOf(model.priceMin, model.tick, price) < model.nLevels
      requires model.CanAlloc() ==> BookSpec.AllocSlot(model) < |model.pool| && model.Lane(side)[t].tail != BookSpec.AllocSlot(model)
      modifies this, flat, flat.bids, flat.asks, flat.pool
      ensures Agrees() && ok == old(model).CanAlloc() && view == old(view)
      ensures model == if ok then BookSpec.Insert(old(model), id, price, qty, side) else old(model)
    {
      var slot;
      ok, slot := flat.AllocSlot(idmap);
      if ok {
        assert flat.State(idmap).Lane(side) == flat.Lane(side)[..];
        flat.Place(slot, t, Order(id, price, qty, 0, NIL, flat.Lane(side)[t].tail, side), idmap);
        idmap := idmap[id := slot];
        model := BookSpec.Insert(model, id, price, qty, side);
      }
    }

    /** Rest a new order at the back of its level; a full pool panics. */
    method Insert(id: int, price: int, qty: int, side: Side) returns (ok: bool)
      requires Valid() && InsertOk(model, id, price)
      modifies this, flat, flat.bids, flat.asks, flat.pool
      ensures Valid()
      ensures ok == old(model).CanAlloc()
      ensures model == if ok then BookSpec.Insert(old(model), id, price, qty, side) else old(model)
    {
      ghost var v := Inserting(model, view, id, price, qty, side);
      ok := InsertWrites(id, price, qty, side, TickOf(flat.priceMin, flat.tick, price));
      SetView(v);
    }

    method UpdateWrites(id: int, fillQty: int)
      requires Agrees() && Addresses(model, id)
      modifies `model, flat.bids, flat.asks, flat.pool
      ensures Agrees() && model == BookSpec.Update(old(model), id, fillQty)
    {
      flat.FillPart(id, idmap[id], fillQty, idmap);
      model := BookSpec.Update(model, id, fillQty);
    }

    /** Fill `fillQty` of a resting order, capped at what remains; an unknown id panics. */
    method Update(id: int, fillQty: int) returns (ok: bool)
      requires Valid()
      modifies this, flat.bids, flat.asks, flat.pool
      ensures Valid()
      ensures ok == (id in old(model).ids)
      ensures ok ==> Addresses(old(model), id) && model == BookSpec.Update(old(model), id, fillQty)
      ensures !ok ==> model == old(model)
    {
      ok := id in idmap;
      if ok {
        UpdateKeeps(model, view, id, fillQty);
        UpdateWrites(id, fillQty);
      }
    }

    method CancelWrites(id: int)
      requires Agrees() && Addresses(model, id)
      modifies this, flat, flat.bids, flat.asks, flat.pool
      ensures Agrees() && model == BookSpec.Cancel(old(model), id) && view == old(view)
    {
      flat.Withdraw(id, idmap[id], idmap);
      idmap := idmap - {id};
      model := BookSpec.Cancel(model, id);
    }

    /** Remove a resting order; an unknown id panics. */
    method Cancel(id: int) returns (ok: bool)
      requires Valid()
      modifies this, flat, flat.bids, flat.asks, flat.pool
      ensures Valid()
      ensures ok == (id in old(model).ids)
      ensures ok ==> Addresses(old(model), id) && model == BookSpec.Cancel(old(model), id)
      ensures !ok ==> model == old(model)
    {
      ok := id in idmap;
      if ok {
        ghost var v := Departing(model, view, id, false);
        CancelWrites(id);
        SetView(v);
      }
    }

    method FillWrites(id: int)
      requires Agrees() && Addresses(model, id)
      modifies this, flat, flat.bids, flat.asks, flat.pool
      ensures Agrees() && model == BookSpec.Fill(old(model), id) && view == old(view)
    {
      flat.Complete(id, idmap[id], idmap);
      idmap := idmap - {id};
      model := BookSpec.Fill(model, id);
    }

    /** Fill a resting order to completion, then remove it; an unknown id panics. */
    method Fill(id: int) returns (ok: bool)
      requires Valid()
      modifies this, flat, flat.bids, flat.asks, flat.pool
      ensures Valid()
      ensures ok == (id in old(model).ids)
      ensures ok ==> Addresses(old(model), id) && model == BookSpec.Fill(old(model), id)
      ensures !ok ==> model == old(model)
    {
      ok := id in idmap;
      if ok {
        ghost var v := Departing(model, view, id, true);
        FillWrites(id);
        SetView(v);
      }
    }
  }
}
