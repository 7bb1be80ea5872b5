/** The rows a list of appends leaves do not depend on the order in which they are made. */
module LedgerOrder {
  import opened LedgerData
  import opened LedgerRuns
  import opened LedgerInvariant
  import opened LedgerTheorems

  function AfterAll(t: Tables, calls: seq<Call>): (r: Tables)
    requires Inv(t)
    ensures Inv(r)
  {
    if calls == [] then t
    else
      var before := AfterAll(t, calls[..|calls| - 1]);
      CallKeepsInv(before, calls[|calls| - 1]);
      After(before, calls[|calls| - 1])
  }

  ghost predicate AllAccepted(t: Tables, calls: seq<Call>)
    requires Inv(t)
  {
    calls == []
    || (AllAccepted(t, calls[..|calls| - 1]) && Perform(AfterAll(t, calls[..|calls| - 1]), calls[|calls| - 1]).Ok?)
  }

  function IdOf(call: Call): string
    requires call.operation.AppendCall?
  {
    call.operation.evidence.evidenceId
  }

  /** Appends of different evidence, each of which would be accepted on its own. */
  ghost predicate AreAppends(t: Tables, calls: seq<Call>)
    requires Inv(t)
  {
    && (forall call | call in calls :: call.operation.AppendCall? && Perform(t, call).Ok?)
    && (forall i, j | 0 <= i < j < |calls| :: calls[i] != calls[j] && IdOf(calls[i]) != IdOf(calls[j]))
  }

  /** The row an accepted append writes, if its evidence is new. */
  function RowOf(call: Call): EvidenceRow
    requires call.operation.AppendCall?
  {
    var checked := Validated(call.operation.evidence, call.files);
    NewEvidenceRow(if checked.Ok? then checked.value else call.operation.evidence)
  }

  /** `t'` is `t` with the evidence of exactly these appends. */
  ghost predicate Holds(t: Tables, t': Tables, calls: seq<Call>)
    requires forall call | call in calls :: call.operation.AppendCall?
  {
    && t'.claims == t.claims && t'.supersessions == t.supersessions && t'.envelopes == t.envelopes
    && (forall id :: id in t'.evidence <==> id in t.evidence || exists call :: call in calls && IdOf(call) == id)
    && SubMap(t.evidence, t'.evidence)
    && (forall call | call in calls && IdOf(call) !in t.evidence :: t'.evidence[IdOf(call)] == RowOf(call))
  }

  /** One append on tables that differ from `t` in other evidence only. */
  lemma AppendStep(t: Tables, t': Tables, call: Call)
    requires RowsOk(t) && RowsOk(t') && call.operation.AppendCall? && Perform(t, call).Ok?
    requires t'.claims == t.claims && SubMap(t.evidence, t'.evidence)
    requires (IdOf(call) in t'.evidence ==> IdOf(call) in t.evidence)
    ensures Perform(t', call).Ok?
    ensures SameRows(After(t', call),
                     if IdOf(call) in t.evidence then t' else t'.(evidence := t'.evidence[IdOf(call) := RowOf(call)]))
  {
    var e := call.operation.evidence;
    assert Validated(e, call.files).Ok?;
    ValidatedKeepsIds(e, call.files);
    hide RowsOk, AppendEvidence, Validated, NewEvidenceRow;
    AppendedRows(t, call.keys, call.files, e);
    AppendedRows(t', call.keys, call.files, e);
  }

  lemma HoldsOneMore(t: Tables, t': Tables, t'': Tables, before: seq<Call>, call: Call)
    requires call.operation.AppendCall? && forall c | c in before :: c.operation.AppendCall? && IdOf(c) != IdOf(call)
    requires Holds(t, t', before)
    requires SameRows(t'',
                      if IdOf(call) in t.evidence then t' else t'.(evidence := t'.evidence[IdOf(call) := RowOf(call)]))
    ensures forall c | c in before + [call] :: c.operation.AppendCall?
    ensures Holds(t, t'', before + [call])
  {
    hide RowOf;
    assert forall c :: c in before + [call] <==> c in before || c == call;
  }

  lemma {:induction false} AppendsHold(t: Tables, calls: seq<Call>)
    requires Inv(t) && AreAppends(t, calls)
    ensures AllAccepted(t, calls) && Holds(t, AfterAll(t, calls), calls)
  {
    hide Inv, Perform, After, RowOf, RowsOk, Holds, SameRows;
    if calls == [] {
      NothingHolds(t);
    } else {
      var n := |calls| - 1;
      var before, call := calls[..n], calls[n];
      assert (forall c | c in before :: c in calls) && call in calls;
      forall c | c in before ensures IdOf(c) != IdOf(call) {
        var i :| 0 <= i < n && calls[i] == c;
      }
      AppendsHold(t, before);
      var t' := AfterAll(t, before);
      InvHasRows(t);
      InvHasRows(t');
      HoldingIsOpen(t, t', before, call);
      AppendStep(t, t', call);
      HoldsOneMore(t, t', After(t', call), before, call);
      assert calls == before + [call];
    }
  }

  lemma NothingHolds(t: Tables)
    ensures Holds(t, t, [])
  {
  }

  lemma HoldingIsOpen(t: Tables, t': Tables, before: seq<Call>, call: Call)
    requires call.operation.AppendCall? && forall c | c in before :: c.operation.AppendCall? && IdOf(c) != IdOf(call)
    requires Holds(t, t', before)
    ensures t'.claims == t.claims && SubMap(t.evidence, t'.evidence)
    ensures (IdOf(call) in t'.evidence ==> IdOf(call) in t.evidence)
  {
    hide RowOf;
  }

  lemma InvHasRows(t: Tables)
    requires Inv(t)
    ensures RowsOk(t)
  {
  }

  /** Appends of different evidence may be made in any order: all are accepted, with the same rows. */
  lemma AppendsInAnyOrder(t: Tables, a: seq<Call>, b: seq<Call>)
    requires Inv(t) && AreAppends(t, a) && AreAppends(t, b) && (forall call :: call in a <==> call in b)
    ensures AllAccepted(t, a) && AllAccepted(t, b) && SameRows(AfterAll(t, a), AfterAll(t, b))
  {
    hide Inv, Perform, AfterAll, RowOf, RowsOk, Holds;
    AppendsHold(t, a);
    AppendsHold(t, b);
    SameHolding(t, AfterAll(t, a), AfterAll(t, b), a, b);
  }

  lemma SameHolding(t: Tables, ta: Tables, tb: Tables, a: seq<Call>, b: seq<Call>)
    requires (forall call | call in a :: call.operation.AppendCall?) && (forall call :: call in a <==> call in b)
    requires Holds(t, ta, a) && Holds(t, tb, b)
    ensures SameRows(ta, tb)
  {
    hide RowOf;
    forall id | id in ta.evidence ensures id in tb.evidence && tb.evidence[id] == ta.evidence[id] {
      if id !in t.evidence {
        var call :| call in a && IdOf(call) == id;
        assert call in b;
      }
    }
    assert ta.evidence.Keys == tb.evidence.Keys;
  }
}
