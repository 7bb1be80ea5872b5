/**
 The ledger object itself: five tables updated in place by the four operations, and the
 integrity check that walks them. Each method is tied to its step in `LedgerRuns`, about which
 the run theorems are proved.
 */
module Ledger {
  import opened Wrappers
  import opened LedgerData
  import opened LedgerAssessment
  import opened LedgerRuns
  import opened LedgerInvariant
  import opened LedgerIntegrity
  import opened Ordering
  import opened PlainText

  datatype IntegrityReport = IntegrityReport(
    ok: bool,
    claimCount: nat,
    evidenceCount: nat,
    eventCount: nat,
    authenticationCount: nat,
    errors: seq<IntegrityError>)

  /** How many event rows the listed claims have. */
  function CountEvents(t: Tables, keys: seq<string>): nat {
    if keys == [] then 0 else CountEvents(t, keys[..|keys| - 1]) + |EventsOf(t, keys[|keys| - 1])|
  }

  /** A step's result as the caller sees it. */
  function Returned(step: Result<Outcome, Failure>): Result<ClaimAssessment, Failure> {
    if step.Ok? then Ok(step.value.assessment) else Err(step.error)
  }

  class ClaimEvidenceLedger {
    const keys: Keys
    var claims: map<string, ClaimRow>
    var evidence: map<string, EvidenceRow>
    var supersessions: map<string, SupersessionRow>
    var envelopes: map<ShortId, EnvelopeRow>
    var events: map<string, seq<EventRow>>

    function Tables(): Tables
      reads this
    {
      LedgerData.Tables.Tables(claims, evidence, supersessions, envelopes, events)
    }

    ghost predicate Valid()
      reads this
    {
      Inv(Tables())
    }

    constructor (keys: Keys)
      requires forall k | k in keys :: HasText(k) && keys[k] != []
      ensures Valid() && Tables() == EMPTY && this.keys == keys
    {
      this.keys := keys;
      claims, evidence, supersessions, envelopes, events := map[], map[], map[], map[], map[];
    }

    method AppendEvent(a: ClaimAssessment, kind: ActionKind, actionId: ActionId)
      requires a.claimId in claims
      modifies `events
      ensures Tables() == LedgerRuns.AppendEvent(old(Tables()), a, kind, actionId)
    {
      var rows := if a.claimId in events then events[a.claimId] else [];
      var sequence, previous := 1, None;
      if rows != [] {
        sequence := rows[|rows| - 1].sequence + 1;
        previous := Some(rows[|rows| - 1].eventSha);
      }
      var payload :=
        Canonical(EventDocument(EventBody(claims[a.claimId].payloadSha, sequence, previous, kind, actionId, a)));
      var row := EventRow(ShortId(ShaOfText(payload)), a.claimId, sequence, previous, ShaOfText(payload), payload);
      events := events[a.claimId := rows + [row]];
    }

    method Propose(claim: ClaimStatement, files: Files) returns (r: Result<ClaimAssessment, Failure>)
      requires Valid()
      modifies this
      ensures Valid()
      ensures r == Returned(LedgerRuns.Propose(old(Tables()), keys, files, claim))
      ensures Tables() == After(old(Tables()), Call(keys, files, ProposeCall(claim)))
    {
      hide RowsOk, EventsOk, NewEventRow, HasText, AssessView;
      ghost var before := Tables();
      CallKeepsInv(before, Call(keys, files, ProposeCall(claim)));
      if !ValidClaim(claim) {
        return Err(InvalidValue);
      }
      var c, row := claim.claimId, NewClaimRow(claim);
      if c in claims {
        if claims[c].payload != row.payload {
          return Err(DuplicatePayload);
        }
        ReadableView(before, c);
        return Ok(Assess(Tables(), keys, files, c));
      }
      claims := claims[c := row];
      var a := Assess(Tables(), keys, files, c);
      AppendEvent(a, CLAIM_PROPOSED, OfDigest(row.payloadSha));
      r := Ok(a);
    }

    method AppendEvidence(submitted: ClaimEvidence, files: Files) returns (r: Result<ClaimAssessment, Failure>)
      requires Valid()
      modifies this
      ensures Valid()
      ensures r == Returned(LedgerRuns.AppendEvidence(old(Tables()), keys, files, submitted))
      ensures Tables() == After(old(Tables()), Call(keys, files, AppendCall(submitted)))
    {
      hide RowsOk, EventsOk, NewEventRow, Validated, AssessView;
      ghost var before := Tables();
      CallKeepsInv(before, Call(keys, files, AppendCall(submitted)));
      var checked := Validated(submitted, files);
      if checked.Err? {
        return Err(checked.error);
      }
      var e := checked.value;
      var row := NewEvidenceRow(e);
      if e.claimId !in claims {
        return Err(UnknownClaim);
      }
      ReadableView(before, e.claimId);
      if e.evidenceId in evidence {
        if evidence[e.evidenceId].payload != row.payload {
          return Err(DuplicatePayload);
        }
        return Ok(Assess(Tables(), keys, files, e.claimId));
      }
      evidence := evidence[e.evidenceId := row];
      var a := Assess(Tables(), keys, files, e.claimId);
      AppendEvent(a, EVIDENCE_APPENDED, OfEvidence(e.evidenceId));
      r := Ok(a);
    }

    method Authenticate(c: string, keyId: string, files: Files) returns (r: Result<ClaimAssessment, Failure>)
      requires Valid()
      modifies this
      ensures Valid()
      ensures r == Returned(LedgerRuns.Authenticate(old(Tables()), keys, files, c, keyId))
      ensures Tables() == After(old(Tables()), Call(keys, files, AuthenticateCall(c, keyId)))
    {
      hide RowsOk, EventsOk, NewEventRow, HasText, AssessView, BodyFor;
      ghost var before := Tables();
      CallKeepsInv(before, Call(keys, files, AuthenticateCall(c, keyId)));
      if !HasText(keyId) {
        return Err(InvalidValue);
      }
      if keyId !in keys {
        return Err(TransitionRefused);
      }
      if c !in claims {
        return Err(UnknownClaim);
      }
      ReadableView(before, c);
      var a := Assess(Tables(), keys, files, c);
      if a.disposition != ACTIVE || a.level != REPLICATED {
        return Err(TransitionRefused);
      }
      var row := NewEnvelopeRow(Seal(keys[keyId], BodyFor(c, ViewOf(Tables(), c), files, keyId)));
      var id := ShortId(row.payloadSha);
      if id in envelopes {
        if envelopes[id].payload != row.payload {
          return Err(DuplicatePayload);
        }
        return Ok(a);
      }
      envelopes := envelopes[id := row];
      a := Assess(Tables(), keys, files, c);
      AppendEvent(a, CLAIM_AUTHENTICATED, OfEnvelope(id));
      r := Ok(a);
    }

    method Supersede(c: string, replacementId: string, reason: string, files: Files)
      returns (r: Result<ClaimAssessment, Failure>)
      requires Valid()
      modifies this
      ensures Valid()
      ensures r == Returned(LedgerRuns.Supersede(old(Tables()), keys, files, c, replacementId, reason))
      ensures Tables() == After(old(Tables()), Call(keys, files, SupersedeCall(c, replacementId, reason)))
    {
      hide RowsOk, EventsOk, NewEventRow, HasText, AssessView;
      ghost var before := Tables();
      CallKeepsInv(before, Call(keys, files, SupersedeCall(c, replacementId, reason)));
      if !HasText(reason) {
        return Err(InvalidValue);
      }
      if c == replacementId {
        return Err(TransitionRefused);
      }
      if c !in claims || replacementId !in claims {
        return Err(UnknownClaim);
      }
      ReadableView(before, c);
      var row := NewSupersessionRow(c, replacementId, reason);
      if c in supersessions {
        if supersessions[c].payload != row.payload {
          return Err(DuplicatePayload);
        }
        return Ok(Assess(Tables(), keys, files, c));
      }
      supersessions := supersessions[c := row];
      var a := Assess(Tables(), keys, files, c);
      AppendEvent(a, CLAIM_SUPERSEDED, OfDigest(row.payloadSha));
      r := Ok(a);
    }

    /** Walks the five tables and reports every row that fails a check. */
    method VerifyIntegrity(files: Files, envelopeOrder: seq<ShortId>) returns (report: IntegrityReport)
      requires Elements(envelopeOrder) == envelopes.Keys
      ensures report.errors == IntegrityErrors(Tables(), files, envelopeOrder)
      ensures report.ok <==> report.errors == []
      ensures report.claimCount == |claims| && report.evidenceCount == |evidence|
      ensures report.authenticationCount == |envelopes|
      ensures report.eventCount == CountEvents(Tables(), Listing(events.Keys))
    {
      var t := Tables();
      var a := CheckClaims(t);
      var b := CheckEvidence(t, files);
      var c := CheckSupersessions(t);
      var d := CheckEnvelopes(t, envelopeOrder);
      var e, n := CheckEvents(t);
      var errors := a + b + c + d + e;
      report := IntegrityReport(errors == [], |claims|, |evidence|, n, |envelopes|, errors);
    }
  }

  method CheckClaims(t: Tables) returns (errors: seq<IntegrityError>)
    ensures errors == ClaimTableErrors(t, Listing(t.claims.Keys))
  {
    hide ClaimErrors, Listing, StrictlySorted, Elements;
    errors := [];
    var keys := Listing(t.claims.Keys);
    for i := 0 to |keys|
      invariant errors == ClaimTableErrors(t, keys[..i])
    {
      ListedIsMember(t.claims.Keys, i);
      assert keys[..i + 1][..i] == keys[..i];
      errors := errors + ClaimErrors(keys[i], t.claims[keys[i]]);
    }
    assert keys[..|keys|] == keys;
  }

  method CheckEvidence(t: Tables, files: Files) returns (errors: seq<IntegrityError>)
    ensures errors == EvidenceTableErrors(t, files, Listing(t.evidence.Keys))
  {
    hide EvidenceErrors, Listing, StrictlySorted, Elements;
    errors := [];
    var keys := Listing(t.evidence.Keys);
    for i := 0 to |keys|
      invariant errors == EvidenceTableErrors(t, files, keys[..i])
    {
      ListedIsMember(t.evidence.Keys, i);
      assert keys[..i + 1][..i] == keys[..i];
      errors := errors + EvidenceErrors(files, keys[i], t.evidence[keys[i]]);
    }
    assert keys[..|keys|] == keys;
  }

  method CheckSupersessions(t: Tables) returns (errors: seq<IntegrityError>)
    ensures errors == SupersessionTableErrors(t, Listing(t.supersessions.Keys))
  {
    hide SupersessionErrors, Listing, StrictlySorted, Elements;
    errors := [];
    var keys := Listing(t.supersessions.Keys);
    for i := 0 to |keys|
      invariant errors == SupersessionTableErrors(t, keys[..i])
    {
      ListedIsMember(t.supersessions.Keys, i);
      assert keys[..i + 1][..i] == keys[..i];
      errors := errors + SupersessionErrors(keys[i], t.supersessions[keys[i]]);
    }
    assert keys[..|keys|] == keys;
  }

  method CheckEnvelopes(t: Tables, keys: seq<ShortId>) returns (errors: seq<IntegrityError>)
    requires Elements(keys) == t.envelopes.Keys
    ensures errors == EnvelopeTableErrors(t, keys)
  {
    errors := [];
    for i := 0 to |keys|
      invariant errors == EnvelopeTableErrors(t, keys[..i])
    {
      assert keys[..i + 1][..i] == keys[..i] && keys[i] in Elements(keys);
      errors := errors + EnvelopeErrors(keys[i], t.envelopes[keys[i]]);
    }
    assert keys[..|keys|] == keys;
  }

  /** Keeps, per claim, the sequence and hash of the event before. */
  method CheckEventList(t: Tables, c: string, rows: seq<EventRow>) returns (errors: seq<IntegrityError>)
    ensures errors == EventListErrors(t, c, rows)
  {
    hide ChainErrors, InventoryErrors;
    errors := [];
    var previous: Option<Mark> := None;
    for i := 0 to |rows|
      invariant errors == EventListErrors(t, c, rows[..i])
      invariant previous == MarkAfter(rows[..i])
    {
      assert rows[..i + 1][..i] == rows[..i];
      errors := errors + ChainErrors(c, rows[i], previous) + InventoryErrors(t, c, rows[i]);
      previous := NextMark(rows[i], previous);
    }
    assert rows[..|rows|] == rows;
  }

  method CheckEvents(t: Tables) returns (errors: seq<IntegrityError>, count: nat)
    ensures errors == EventTableErrors(t, Listing(t.events.Keys))
    ensures count == CountEvents(t, Listing(t.events.Keys))
  {
    hide EventListErrors, Listing, StrictlySorted, Elements, EventsOf;
    errors, count := [], 0;
    var keys := Listing(t.events.Keys);
    for i := 0 to |keys|
      invariant errors == EventTableErrors(t, keys[..i])
      invariant count == CountEvents(t, keys[..i])
    {
      assert keys[..i + 1][..i] == keys[..i];
      var found := CheckEventList(t, keys[i], EventsOf(t, keys[i]));
      errors, count := errors + found, count + |EventsOf(t, keys[i])|;
    }
    assert keys[..|keys|] == keys;
  }
}
