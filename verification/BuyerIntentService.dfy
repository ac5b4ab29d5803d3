/**
 The intent requests as they are written, one at a time, over the table and its schema. Each does what
 the request of BuyerIntents.dfy says and keeps the invariant of the table.
 */
module BuyerIntentService {
  import opened Wrappers
  import opened BuyerIntents
  import opened BuyerIntentsProofs

  class IntentTable {
    var rows: map<IntentId, Intent>
    var schema: Schema

    function Snapshot(): Table
      reads this
    { Table(rows, schema) }

    constructor (initial: map<IntentId, Intent>)
      ensures Snapshot() == Table(initial, LEGACY)
    {
      rows, schema := initial, LEGACY;
    }

    method WriteRow(id: IntentId, row: Intent) returns (ok: bool)
      modifies this`rows
      ensures ok == Write(old(Snapshot()), id, row).Some?
      ensures Snapshot() == if ok then Write(old(Snapshot()), id, row).value else old(Snapshot())
    {
      var stored := Generated(row, schema);
      ok := Unique(Snapshot(), id, stored);
      if ok { rows := rows[id := stored]; }
    }

    method CreateBuyerIntent(id: IntentId, buyer: nat, product: nat, merchant: nat, lookup: Option<ProductRow>)
      returns (r: Result<IntentId, Error>)
      requires id !in rows
      modifies this`rows
      ensures var spec := Respond(old(Snapshot()), CreateIntent(id, buyer, product, merchant, lookup));
        if spec.Ok? then r == Ok(id) && Snapshot() == spec.value
        else r == Err(spec.error) && Snapshot() == old(Snapshot())
      ensures TableOk(old(Snapshot())) ==> TableOk(Snapshot())
    {
      if TableOk(Snapshot()) { ServeOk(Snapshot(), CreateIntent(id, buyer, product, merchant, lookup)); }
      if lookup.None? || lookup.value.shop != merchant { return Err(NotFound); }
      if !lookup.value.onShelf { return Err(InvalidTransition); }
      var existing := OpenOf(Snapshot(), buyer, product);
      if existing != {} {
        return Err(if forall k | k in existing :: ValidState(rows[k]) then Conflict else Internal);
      }
      var ok := WriteRow(id, Intent(buyer, product, merchant, New, true, NoColumn));
      return if ok then Ok(id) else Err(Internal);
    }

    method HandleContacted(id: IntentId, merchant: nat) returns (r: Result<IntentStatus, Error>)
      modifies this`rows
      ensures var spec := Contact(old(Snapshot()), id, merchant);
        if spec.Ok? then r == Ok(old(rows)[id].status) && Snapshot() == spec.value
        else r == Err(spec.error) && Snapshot() == old(Snapshot())
      ensures TableOk(old(Snapshot())) ==> TableOk(Snapshot())
    {
      if TableOk(Snapshot()) { ServeOk(Snapshot(), ContactIntent(id, merchant)); }
      var loaded := LoadOwned(Snapshot(), id, merchant);
      if loaded.Err? { return Err(loaded.error); }
      var intent := loaded.value;
      if intent.status == Contacted { return Ok(intent.status); }
      if intent.status != New { return Err(InvalidTransition); }
      var ok := WriteRow(id, intent.(status := Contacted));
      return if ok then Ok(intent.status) else Err(Internal);
    }

    method HandleClose(id: IntentId, merchant: nat) returns (r: Result<IntentStatus, Error>)
      modifies this`rows
      ensures var spec := Close(old(Snapshot()), id, merchant);
        if spec.Ok? then r == Ok(old(rows)[id].status) && Snapshot() == spec.value
        else r == Err(spec.error) && Snapshot() == old(Snapshot())
      ensures TableOk(old(Snapshot())) ==> TableOk(Snapshot())
    {
      if TableOk(Snapshot()) { ServeOk(Snapshot(), CloseIntent(id, merchant)); }
      var loaded := LoadOwned(Snapshot(), id, merchant);
      if loaded.Err? { return Err(loaded.error); }
      var intent := loaded.value;
      if intent.status == Closed { return Ok(intent.status); }
      if intent.status != New && intent.status != Contacted { return Err(InvalidTransition); }
      var ok := WriteRow(id, intent.(status := Closed, isOpen := false));
      return if ok then Ok(intent.status) else Err(Internal);
    }
  }
}
