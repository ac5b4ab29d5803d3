/**
 What the intent requests answer and leave in the table, case by case, and which tables the migration
 refuses without altering them.
 */
module BuyerIntentsEffects {
  import opened Wrappers
  import opened BuyerIntents
  import opened BuyerIntentsProofs

  ghost predicate HasOpenIntent(t: Table, buyer: nat, product: nat) {
    exists k | k in t.rows :: t.rows[k].buyer == buyer && t.rows[k].product == product && t.rows[k].isOpen
  }

  function OpenMarker(schema: Schema): Marker { if schema.marker then One else NoColumn }

  function ClosedMarker(schema: Schema): Marker { if schema.marker then Null else NoColumn }

  /**
   Creating an intent: the product must be the merchant's and on the shelf, and no intent of the buyer for
   it may be open. The new intent is open and NEW; everything else is as it was.
   */
  lemma CreateEffect(t: Table, id: IntentId, b: nat, p: nat, m: nat, lookup: Option<ProductRow>)
    requires TableOk(t) && id !in t.rows
    ensures Create(t, id, b, p, m, lookup) ==
      if lookup == None || lookup.value.shop != m then Err(NotFound)
      else if !lookup.value.onShelf then Err(InvalidTransition)
      else if HasOpenIntent(t, b, p) then Err(Conflict)
      else Ok(t.(rows := t.rows[id := Intent(b, p, m, New, true, OpenMarker(t.schema))]))
  {
    CreateSucceedsIff(t, id, b, p, m, lookup);
    if k :| k in t.rows && t.rows[k].buyer == b && t.rows[k].product == p && t.rows[k].isOpen {
      assert k in OpenOf(t, b, p);
    }
  }

  /** Contacting: the merchant's own intent, unless it is closed; nobody else's, and none that is missing. */
  lemma ContactEffect(t: Table, id: IntentId, m: nat)
    requires TableOk(t)
    ensures Contact(t, id, m) ==
      if id !in t.rows then Err(NotFound)
      else if t.rows[id].merchant != m then Err(Forbidden)
      else if t.rows[id].status == Closed then Err(InvalidTransition)
      else Ok(t.(rows := t.rows[id := t.rows[id].(status := Contacted)]))
  {
    if id in t.rows && t.rows[id].merchant == m {
      var row := t.rows[id].(status := Contacted);
      assert t.rows[id].status == Contacted ==> t.rows[id := row] == t.rows;
      assert Generated(row, t.schema) == row;
      OkIsUnique(t);
      forall k | k in t.rows && k != id
        ensures !(t.schema.legacy && ClashLegacy(t.rows[k], row)) && !(t.schema.open && ClashOpen(t.rows[k], row))
      {
        assert !(t.schema.legacy && ClashLegacy(t.rows[k], t.rows[id]));
        assert !(t.schema.open && ClashOpen(t.rows[k], t.rows[id]));
      }
    }
  }

  /**
   Closing: the merchant's own intent, again without effect if it is closed. While the legacy index exists
   it fails for a buyer and product of which an intent was closed before.
   */
  lemma CloseEffect(t: Table, id: IntentId, m: nat)
    requires TableOk(t)
    ensures Close(t, id, m) ==
      if id !in t.rows then Err(NotFound)
      else if t.rows[id].merchant != m then Err(Forbidden)
      else if t.rows[id].status == Closed then Ok(t)
      else if t.schema.legacy && ClosedBefore(t, id) then Err(Internal)
      else Ok(t.(rows := t.rows[id := t.rows[id].(status := Closed, isOpen := false,
                                                  marker := ClosedMarker(t.schema))]))
  {
    if id in t.rows && t.rows[id].merchant == m && t.rows[id].status != Closed {
      CloseFailsIffLegacyIndexClashes(t, id);
    }
  }

  // ----- what the migration refuses ----------------------------------------------------------------

  // The next n statements of one migration.
  function After(s: State, m: nat, n: nat): State {
    if n == 0 then s else Next(After(s, m, n - 1), Statement(m))
  }

  // An open intent that is closed, or one that is neither.
  ghost predicate SomeInconsistent(t: Table) {
    exists k | k in t.rows :: t.rows[k].isOpen <==> t.rows[k].status == Closed
  }

  ghost predicate TwoOpen(t: Table) {
    exists i, j | i in t.rows && j in t.rows ::
      i != j && t.rows[i].buyer == t.rows[j].buyer && t.rows[i].product == t.rows[j].product
      && t.rows[i].isOpen && t.rows[j].isOpen
  }

  // The states in which a migration may begin: the four it leaves, and an empty table without any of it.
  predicate MayBegin(t: Table) {
    || t.schema == Schema(false, true, false) || t.schema == Schema(true, true, false)
    || t.schema == Schema(true, true, true) || t.schema == Schema(true, false, true)
    || (t.schema == Schema(false, false, false) && t.rows == map[])
  }

  // A statement that alters nothing leads from one program point to the other.
  predicate Leads(t: Table, from: Pc, to: Pc) { MigrateStep(t, from) == (t, to) }

  lemma FourStatements(s: State, m: nat, a: Pc, b: Pc, c: Pc, d: Pc)
    requires m !in s.runs
    requires Leads(s.table, Inspect, a) && Leads(s.table, a, b) && Leads(s.table, b, c) && Leads(s.table, c, d)
    ensures var after := After(Next(s, Start(m)), m, 4);
      after.table == s.table && m in after.runs && after.runs[m] == d
  {
    hide MigrateStep;
    var t := Next(s, Start(m));
    assert After(t, m, 1) == t.(runs := t.runs[m := a]);
    assert After(t, m, 2) == t.(runs := t.runs[m := b]);
    assert After(t, m, 3) == t.(runs := t.runs[m := c]);
  }

  lemma BeforeTheEnd(t: Table)
    requires MayBegin(t) && t.schema != FINAL && (SomeInvalid(t) || SomeDuplicate(t))
    ensures var b := if SomeInvalid(t) then Failed else CountDuplicates(t.schema);
      Leads(t, Inspect, CountInvalid(t.schema)) && Leads(t, CountInvalid(t.schema), b) && Leads(t, b, Failed)
  {
    assert |t.rows| == 0 <==> t.rows == map[];
  }

  lemma AtTheEnd(t: Table)
    requires t.schema == FINAL && (SomeInvalid(t) || SomeDuplicate(t))
    ensures var c := if SomeInvalid(t) then Failed else FinalDuplicates;
      Leads(t, Inspect, FinalInspect) && Leads(t, FinalInspect, FinalInvalid) && Leads(t, FinalInvalid, c)
      && Leads(t, c, Failed)
  {
  }

  lemma InAnotherState(t: Table)
    requires !MayBegin(t)
    ensures Leads(t, Inspect, Failed)
  {
    assert |t.rows| == 0 <==> t.rows == map[];
  }

  /**
   A migration of a table in another state, or with an inconsistent row, or with two open intents of a
   pair, fails within four statements and has altered nothing.
   */
  lemma BadTablesAreRefused(s: State, m: nat)
    requires m !in s.runs && (!MayBegin(s.table) || SomeInconsistent(s.table) || TwoOpen(s.table))
    ensures var after := After(Next(s, Start(m)), m, 4);
      after.table == s.table && m in after.runs && after.runs[m] == Failed
  {
    hide MigrateStep, SomeInvalid, SomeDuplicate, Next;
    var t := s.table;
    SomeInvalidIff(t);
    if TwoOpen(t) { TwoOpenIsDuplicate(t); }
    FailedStays(t);
    if !MayBegin(t) {
      InAnotherState(t);
      FourStatements(s, m, Failed, Failed, Failed, Failed);
    } else if t.schema == FINAL {
      AtTheEnd(t);
      FourStatements(s, m, FinalInspect, FinalInvalid, if SomeInvalid(t) then Failed else FinalDuplicates, Failed);
    } else {
      BeforeTheEnd(t);
      var b := if SomeInvalid(t) then Failed else CountDuplicates(t.schema);
      FourStatements(s, m, CountInvalid(t.schema), b, Failed, Failed);
    }
  }

  lemma FailedStays(t: Table)
    ensures Leads(t, Failed, Failed)
  {
  }

  lemma SomeInvalidIff(t: Table)
    ensures SomeInvalid(t) <==> SomeInconsistent(t)
  {
    if k :| k in t.rows && !ValidState(t.rows[k]) { assert t.rows[k].isOpen <==> t.rows[k].status == Closed; }
    if k :| k in t.rows && (t.rows[k].isOpen <==> t.rows[k].status == Closed) { assert !ValidState(t.rows[k]); }
  }

  lemma TwoOpenIsDuplicate(t: Table)
    requires TwoOpen(t)
    ensures SomeDuplicate(t)
  {
    var i, j :| i in t.rows && j in t.rows && i != j && t.rows[i].buyer == t.rows[j].buyer
             && t.rows[i].product == t.rows[j].product && t.rows[i].isOpen && t.rows[j].isOpen;
    assert ClashLegacy(t.rows[i], t.rows[j]);
  }
}
