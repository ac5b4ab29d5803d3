/**
 The migration as the program it is: inspect, count, alter, check. Requests are served between any
 two of its statements. Stopping halfway is the subject of BuyerIntents.dfy, where each statement is
 a step.
 */
module BuyerIntentMigration {
  import opened Wrappers
  import opened BuyerIntents
  import opened BuyerIntentsProofs

  // No request changes the schema.
  lemma ServeKeepsSchema(t: Table, r: Request)
    ensures Serve(t, r).schema == t.schema
  {
  }

  // An open intent that is closed, or one that is neither; two open intents of one pair.
  ghost predicate RowsVerify(invalid: Table, duplicates: Table) { !SomeInvalid(invalid) && !SomeDuplicate(duplicates) }

  class Migration {
    var t: Table

    constructor (start: Table)
      ensures t == start
    {
      t := start;
    }

    /** Any requests, any number of them. */
    method Serving()
      modifies this
      ensures t.schema == old(t).schema && (TableOk(old(t)) ==> TableOk(t))
    {
      var n: nat := *;
      while n > 0
        invariant t.schema == old(t).schema && (TableOk(old(t)) ==> TableOk(t))
      {
        var r: Request := *;
        ServeKeepsSchema(t, r);
        if TableOk(t) { ServeOk(t, r); }
        t := Serve(t, r);
        n := n - 1;
      }
    }

    /** COUNT(*) over the rows whose status and open flag disagree. */
    method CountInvalid() returns (invalid: nat)
      ensures invalid == |set k | k in t.rows && !ValidState(t.rows[k])|
      ensures invalid != 0 <==> SomeInvalid(t)
    {
      var left := t.rows.Keys;
      ghost var counted: set<IntentId> := {};
      invalid := 0;
      while left != {}
        invariant left <= t.rows.Keys && invalid == |counted|
        invariant counted == set k | k in t.rows && k !in left && !ValidState(t.rows[k])
        decreases |left|
      {
        var k :| k in left;
        if !ValidState(t.rows[k]) {
          invalid := invalid + 1;
          counted := counted + {k};
        }
        left := left - {k};
      }
      assert counted == set k | k in t.rows && !ValidState(t.rows[k]);
      if SomeInvalid(t) {
        ghost var k :| k in t.rows && !ValidState(t.rows[k]);
        assert k in counted;
      }
      if invalid != 0 {
        ghost var k :| k in counted;
        assert !ValidState(t.rows[k]);
      }
    }

    /**
     verifyBuyerIntentRows: fails exactly on a row that was inconsistent when it counted those, or on two open
     intents of a pair when it counted these.
     */
    method VerifyRows() returns (ok: bool, ghost first: Table, ghost second: Table)
      modifies this
      ensures t.schema == old(t).schema && (TableOk(old(t)) ==> TableOk(t))
      ensures ok <==> RowsVerify(first, second)
      ensures TableOk(old(t)) ==> TableOk(first) && TableOk(second)
    {
      Serving();
      first, second := t, t;
      var invalid := CountInvalid();
      Serving();
      second := t;
      return invalid == 0 && !SomeDuplicate(t), first, second;
    }

    // A consistent table passes whatever requests come in between.
    lemma ConsistentRowsVerify(first: Table, second: Table)
      requires TableOk(first) && TableOk(second)
      ensures RowsVerify(first, second)
    {
      OkIsUnique(first);
      OkIsUnique(second);
    }

    // One ALTER TABLE statement.
    method Alter(change: Option<Table>) returns (ok: bool)
      modifies this
      ensures ok == change.Some? && t == if change.Some? then change.value else old(t)
    {
      if change.None? { return false; }
      t := change.value;
      return true;
    }

    method AddMarkerColumn() returns (ok: bool)
      requires !t.schema.marker
      modifies this
      ensures ok && t.schema == old(t).schema.(marker := true)
      ensures TableOk(old(t)) ==> TableOk(t)
    {
      Serving();
      if TableOk(t) { AddMarkerOk(t); }
      ok := Alter(AddMarker(t));
      if !ok { return; }
      Serving();
      ok := t.schema.marker;
    }

    method AddOpenIndex() returns (ok: bool)
      requires t.schema.marker && !t.schema.open
      modifies this
      ensures t.schema == old(t).schema.(open := ok)
      ensures TableOk(old(t)) ==> ok && TableOk(t)
    {
      Serving();
      if TableOk(t) { AddOpenKeyOk(t); }
      ok := Alter(AddOpenKey(t));
      if !ok { return; }
      Serving();
      ok := t.schema.open;
    }

    method DropLegacyIndex() returns (ok: bool)
      requires t.schema == BOTH
      modifies this
      ensures ok && t.schema == FINAL
      ensures TableOk(old(t)) ==> TableOk(t)
    {
      Serving();
      ok := Alter(DropLegacyKey(t));
    }

    method VerifyFinal() returns (ok: bool)
      modifies this
      ensures t.schema == old(t).schema && (TableOk(old(t)) ==> TableOk(t))
      ensures ok ==> t.schema == FINAL
      ensures TableOk(old(t)) && t.schema == FINAL ==> ok
    {
      Serving();
      if !t.schema.marker || t.schema.legacy || !t.schema.open { return false; }
      ghost var first, second;
      ok, first, second := VerifyRows();
      if TableOk(first) && TableOk(second) { ConsistentRowsVerify(first, second); }
    }

    /**
     From every schema a stopped migration can leave, over consistent rows, it succeeds and reaches the final
     one. Over any table, success means the final schema, and another schema than these is refused as it is.
     */
    method Migrate() returns (ok: bool)
      modifies this
      ensures TableOk(old(t)) ==> ok && TableOk(t) && OneOpenPerPair(t)
      ensures ok ==> t.schema == FINAL
      ensures old(t).schema !in {Schema(false, false, false), LEGACY, MARKED, BOTH, FINAL} ==>
        !ok && t.schema == old(t).schema
    {
      Serving();
      var state, rows := t.schema, |t.rows|;
      if TableOk(t) { OkIsUnique(t); }
      if rows == 0 && !state.marker && !state.legacy && !state.open {
        // an empty development table
      } else if !state.marker && state.legacy && !state.open {
        // the legacy schema
      } else if state.marker && state.legacy {
        // stopped after the column, or after the new index
      } else if state.marker && !state.legacy && state.open {
        ok := VerifyFinal();
        if TableOk(t) { OkIsUnique(t); }
        return;
      } else {
        return false;
      }
      ok := Alterations(state);
      if !ok { return; }
      ok := VerifyFinal();
      if TableOk(t) { OkIsUnique(t); }
    }

    // The statements that are still to run after the inspected state.
    method Alterations(state: Schema) returns (ok: bool)
      requires t.schema == state && state in {Schema(false, false, false), LEGACY, MARKED, BOTH}
      modifies this
      ensures ok ==> t.schema == FINAL
      ensures TableOk(old(t)) ==> ok && TableOk(t)
    {
      ghost var first, second;
      ok, first, second := VerifyRows();
      if TableOk(first) && TableOk(second) { ConsistentRowsVerify(first, second); }
      if !ok { return; }
      if !state.marker {
        ok := AddMarkerColumn();
        if !ok { return; }
      }
      if !state.open {
        ok := AddOpenIndex();
        if !ok { return; }
      }
      if state.legacy {
        ok := DropLegacyIndex();
      }
    }
  }
}
