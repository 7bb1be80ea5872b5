/**
 What the integrity check accepts in place of a reachable ledger: exactly the tables of which
 every row passes its own checks, and whose evidence rows show the same broken artifacts.
 */
module LedgerReplacement {
  import opened Wrappers
  import opened LedgerData
  import opened LedgerAssessment
  import opened LedgerRuns
  import opened LedgerInvariant
  import opened LedgerIntegrity
  import opened LedgerTamper
  import opened Merkle
  import opened Ordering

  // ----- a table without errors passes row by row -----

  lemma {:induction false} ClaimsPass(t: Tables, keys: seq<string>)
    ensures ClaimTableErrors(t, keys) == [] <==>
              forall id | id in keys && id in t.claims :: ClaimErrors(id, t.claims[id]) == []
  {
    if keys != [] {
      var n := |keys| - 1;
      ClaimsPass(t, keys[..n]);
      assert keys == keys[..n] + [keys[n]];
      hide ClaimErrors;
    }
  }

  lemma {:induction false} SupersessionsPass(t: Tables, keys: seq<string>)
    ensures SupersessionTableErrors(t, keys) == []
            <==> forall id | id in keys && id in t.supersessions :: SupersessionErrors(id, t.supersessions[id]) == []
  {
    if keys != [] {
      var n := |keys| - 1;
      SupersessionsPass(t, keys[..n]);
      assert keys == keys[..n] + [keys[n]];
      hide SupersessionErrors;
    }
  }

  lemma {:induction false} EnvelopesPass(t: Tables, keys: seq<ShortId>)
    ensures EnvelopeTableErrors(t, keys) == [] <==>
              forall id | id in keys && id in t.envelopes :: EnvelopeErrors(id, t.envelopes[id]) == []
  {
    if keys != [] {
      var n := |keys| - 1;
      EnvelopesPass(t, keys[..n]);
      assert keys == keys[..n] + [keys[n]];
      hide EnvelopeErrors;
    }
  }

  /** Every event listed under the claim passes at its place. */
  ghost predicate ListPasses(t: Tables, c: string) {
    forall i | 0 <= i < |EventsOf(t, c)| :: RowPasses(t, c, EventsOf(t, c), i)
  }

  lemma {:induction false} EventsPass(t: Tables, keys: seq<string>)
    ensures EventTableErrors(t, keys) == [] <==> forall c | c in keys :: ListPasses(t, c)
  {
    hide EventListErrors, ListPasses, EventsOf;
    if keys != [] {
      var before, c := keys[..|keys| - 1], keys[|keys| - 1];
      EventsPass(t, before);
      ListPassesExactly(t, c);
      MoreEvents(t, keys);
      assert keys == before + [c];
      hide EventTableErrors;
    }
  }

  lemma MoreEvents(t: Tables, keys: seq<string>)
    requires keys != []
    ensures var before, c := keys[..|keys| - 1], keys[|keys| - 1];
            EventTableErrors(t, keys) == [] <==>
                EventTableErrors(t, before) == [] && EventListErrors(t, c, EventsOf(t, c)) == []
  {
    hide EventListErrors, EventsOf;
  }

  lemma ListPassesExactly(t: Tables, c: string)
    ensures EventListErrors(t, c, EventsOf(t, c)) == [] <==> ListPasses(t, c)
  {
    ListPassesRowByRow(t, c, EventsOf(t, c));
    hide EventListErrors, RowPasses, EventsOf;
  }

  // ----- artifact errors are those of the evidence table -----

  ghost predicate NoArtifactErrors(errors: seq<IntegrityError>) {
    forall e | e in errors :: !e.EvidenceArtifactMismatch?
  }

  lemma {:induction false} ClaimsReportNoArtifacts(t: Tables, keys: seq<string>)
    ensures NoArtifactErrors(ClaimTableErrors(t, keys))
  {
    if keys != [] {
      ClaimsReportNoArtifacts(t, keys[..|keys| - 1]);
    }
  }

  lemma {:induction false} SupersessionsReportNoArtifacts(t: Tables, keys: seq<string>)
    ensures NoArtifactErrors(SupersessionTableErrors(t, keys))
  {
    if keys != [] {
      SupersessionsReportNoArtifacts(t, keys[..|keys| - 1]);
    }
  }

  lemma {:induction false} EnvelopesReportNoArtifacts(t: Tables, keys: seq<ShortId>)
    ensures NoArtifactErrors(EnvelopeTableErrors(t, keys))
  {
    if keys != [] {
      EnvelopesReportNoArtifacts(t, keys[..|keys| - 1]);
    }
  }

  lemma {:induction false} BindingsReportNoArtifacts(t: Tables, c: string, event: ShortId, ids: seq<string>)
    ensures NoArtifactErrors(BindingErrors(t, c, event, ids))
  {
    if ids != [] {
      BindingsReportNoArtifacts(t, c, event, ids[1..]);
    }
  }

  lemma ChainReportsNoArtifacts(c: string, row: EventRow, previous: Option<Mark>)
    ensures NoArtifactErrors(ChainErrors(c, row, previous))
  {
    hide ExpectedPrevious, ExpectedSequence, RawPrevious, RawSequence, RawClaimId;
  }

  lemma InventoryReportsNoArtifacts(t: Tables, c: string, row: EventRow)
    ensures NoArtifactErrors(InventoryErrors(t, c, row))
  {
    hide MerkleRoot, BindingErrors, BoundRecords, RawClaimSha, RawEligibleIds, RawEvidenceIds, RawRoot;
    if row.payload.Json? {
      BindingsReportNoArtifacts(t, c, row.eventId, RawEligibleIds(row.payload.document));
    }
  }

  lemma {:induction false} ListReportsNoArtifacts(t: Tables, c: string, rows: seq<EventRow>)
    ensures NoArtifactErrors(EventListErrors(t, c, rows))
  {
    if rows != [] {
      var n := |rows| - 1;
      ListReportsNoArtifacts(t, c, rows[..n]);
      ChainReportsNoArtifacts(c, rows[n], MarkAfter(rows[..n]));
      InventoryReportsNoArtifacts(t, c, rows[n]);
      hide ChainErrors, InventoryErrors, MarkAfter;
    }
  }

  lemma {:induction false} EventsReportNoArtifacts(t: Tables, keys: seq<string>)
    ensures NoArtifactErrors(EventTableErrors(t, keys))
  {
    if keys != [] {
      EventsReportNoArtifacts(t, keys[..|keys| - 1]);
      ListReportsNoArtifacts(t, keys[|keys| - 1], EventsOf(t, keys[|keys| - 1]));
      hide EventListErrors, EventsOf;
    }
  }

  lemma OnlyTheMiddle(a: seq<IntegrityError>, e: seq<IntegrityError>, b: seq<IntegrityError>, c: seq<IntegrityError>,
                      d: seq<IntegrityError>, report: seq<IntegrityError>)
    requires NoArtifactErrors(a) && NoArtifactErrors(b) && NoArtifactErrors(c) && NoArtifactErrors(d)
    requires forall x | x in report :: x.EvidenceArtifactMismatch?
    ensures a + e + b + c + d == report <==> a == [] && e == report && b == [] && c == [] && d == []
  {
    var all := a + e + b + c + d;
    if all == report {
      assert forall x | x in a || x in b || x in c || x in d :: x in all;
      NothingElse(a, report);
      NothingElse(b, report);
      NothingElse(c, report);
      NothingElse(d, report);
    }
  }

  lemma NothingElse(part: seq<IntegrityError>, report: seq<IntegrityError>)
    requires NoArtifactErrors(part) && (forall x | x in report :: x.EvidenceArtifactMismatch?)
    requires forall x | x in part :: x in report
    ensures part == []
  {
    if part != [] {
      var x := SomeMember(part);
    }
  }

  lemma SomeMember(part: seq<IntegrityError>) returns (x: IntegrityError)
    requires part != []
    ensures x in part
  {
    x := part[0];
  }

  // ----- the evidence table -----

  /** What the check reports of one evidence id. */
  function ArtifactErrors(t: Tables, files: Files, id: string): seq<IntegrityError> {
    if id in t.evidence then EvidenceErrors(files, id, t.evidence[id]) else []
  }

  lemma OneErrorAtMost(t: Tables, files: Files, id: string)
    ensures |ArtifactErrors(t, files, id)| <= 1
    ensures forall e | e in ArtifactErrors(t, files, id) ::
              e in {EvidenceHashMismatch(id), EvidenceNotJson(id), EvidenceArtifactMismatch(id)}
  {
    hide ArtifactMatches;
  }

  /** The check reports this error of one of the ids. */
  ghost predicate Reports(t: Tables, files: Files, keys: seq<string>, e: IntegrityError) {
    exists id :: id in keys && e in ArtifactErrors(t, files, id)
  }

  lemma {:induction false} EvidenceErrorsAre(t: Tables, files: Files, keys: seq<string>, e: IntegrityError)
    ensures e in EvidenceTableErrors(t, files, keys) <==> Reports(t, files, keys, e)
  {
    if keys != [] {
      var n := |keys| - 1;
      EvidenceErrorsAre(t, files, keys[..n], e);
      assert keys == keys[..n] + [keys[n]];
      hide EvidenceErrors;
      if Reports(t, files, keys[..n], e) {
        var id :| id in keys[..n] && e in ArtifactErrors(t, files, id);
        assert id in keys;
      }
      if e in ArtifactErrors(t, files, keys[n]) {
        assert keys[n] in keys;
      }
    }
  }

  lemma SameErrorsMeanSameArtifacts(t: Tables, t': Tables, files: Files, id: string)
    requires OnlyMismatches(t, files)
    requires EvidenceTableErrors(t', files, Listing(t'.evidence.Keys)) ==
               EvidenceTableErrors(t, files, Listing(t.evidence.Keys))
    ensures ArtifactErrors(t', files, id) == ArtifactErrors(t, files, id)
  {
    hide ArtifactErrors, EvidenceTableErrors, OnlyMismatches, Listing;
    OneErrorAtMost(t, files, id);
    OneErrorAtMost(t', files, id);
    if ArtifactErrors(t, files, id) != [] {
      ErrorMoves(t, t', files, id, ArtifactErrors(t, files, id)[0]);
    }
    if ArtifactErrors(t', files, id) != [] {
      ErrorMoves(t', t, files, id, ArtifactErrors(t', files, id)[0]);
    }
  }

  /** The evidence table reports exactly the errors of its ids. */
  lemma ReportedExactly(t: Tables, files: Files, e: IntegrityError)
    ensures e in EvidenceTableErrors(t, files, Listing(t.evidence.Keys)) <==>
              exists id :: e in ArtifactErrors(t, files, id)
  {
    var keys := Listing(t.evidence.Keys);
    EvidenceErrorsAre(t, files, keys, e);
    ListedExactly(t.evidence.Keys);
    hide EvidenceTableErrors, EvidenceErrors, Listing;
    if id :| e in ArtifactErrors(t, files, id) {
      assert id in keys;
    }
  }

  /** An error reported of an id in one of two tables with the same report is reported of it in the other. */
  lemma ErrorMoves(t: Tables, t': Tables, files: Files, id: string, e: IntegrityError)
    requires EvidenceTableErrors(t, files, Listing(t.evidence.Keys)) ==
               EvidenceTableErrors(t', files, Listing(t'.evidence.Keys))
    requires e in ArtifactErrors(t, files, id)
    ensures e in ArtifactErrors(t', files, id)
  {
    hide EvidenceTableErrors, ArtifactErrors, Listing;
    ReportedExactly(t, files, e);
    ReportedExactly(t', files, e);
    var other :| e in ArtifactErrors(t', files, other);
    OneErrorAtMost(t, files, id);
    OneErrorAtMost(t', files, other);
  }

  lemma SameArtifactsMeanSameErrors(t: Tables, t': Tables, files: Files)
    requires OnlyMismatches(t, files) && forall id :: ArtifactErrors(t', files, id) == ArtifactErrors(t, files, id)
    ensures EvidenceTableErrors(t', files, Listing(t'.evidence.Keys)) ==
              EvidenceTableErrors(t, files, Listing(t.evidence.Keys))
  {
    hide EvidenceErrors, EvidenceTableErrors, Listing;
    assert forall id | id in t'.evidence :: ArtifactErrors(t', files, id) == EvidenceErrors(files, id, t'.evidence[id]);
    assert OnlyMismatches(t', files);
    assert Broken(t', files) == Broken(t, files) by {
      assert forall id :: id in Broken(t', files) <==> ArtifactErrors(t', files, id) != [];
      assert forall id :: id in Broken(t, files) <==> ArtifactErrors(t, files, id) != [];
    }
    EvidenceTableReportsBroken(t, files);
    EvidenceTableReportsBroken(t', files);
  }

  // ----- the exact limit -----

  /** Every row passes its own checks, evidence rows aside. */
  ghost predicate RowsPass(t: Tables, envelopeOrder: seq<ShortId>) {
    && (forall id | id in t.claims :: ClaimErrors(id, t.claims[id]) == [])
    && (forall id | id in t.supersessions :: SupersessionErrors(id, t.supersessions[id]) == [])
    && (forall id | id in envelopeOrder && id in t.envelopes :: EnvelopeErrors(id, t.envelopes[id]) == [])
    && forall c | c in t.events :: ListPasses(t, c)
  }

  lemma PassMeansNoErrors(t: Tables, envelopeOrder: seq<ShortId>)
    ensures RowsPass(t, envelopeOrder) <==>
            && ClaimTableErrors(t, Listing(t.claims.Keys)) == []
            && SupersessionTableErrors(t, Listing(t.supersessions.Keys)) == []
            && EnvelopeTableErrors(t, envelopeOrder) == [] && EventTableErrors(t, Listing(t.events.Keys)) == []
  {
    hide ClaimTableErrors, SupersessionTableErrors, EnvelopeTableErrors, EventTableErrors, Listing, ClaimErrors,
         SupersessionErrors, EnvelopeErrors, ListPasses;
    ClaimsPass(t, Listing(t.claims.Keys));
    SupersessionsPass(t, Listing(t.supersessions.Keys));
    EnvelopesPass(t, envelopeOrder);
    EventsPass(t, Listing(t.events.Keys));
    ListedExactly(t.claims.Keys);
    ListedExactly(t.supersessions.Keys);
    ListedExactly(t.events.Keys);
  }

  lemma ListedExactly(s: set<string>)
    ensures forall id :: id in Listing(s) <==> id in s
  {
    assert forall id :: id in Listing(s) <==> id in Elements(Listing(s));
    hide Listing;
  }

  /**
   Any tables in place of the reachable ones give the same report exactly when their rows pass and their
   evidence shows the same artifacts.
   */
  lemma ReplacedTables(t: Tables, t': Tables, files: Files, envelopeOrder: seq<ShortId>)
    requires Inv(t)
    ensures IntegrityErrors(t', files, envelopeOrder) == IntegrityErrors(t, files, envelopeOrder) <==>
            RowsPass(t', envelopeOrder) && forall id :: ArtifactErrors(t', files, id) == ArtifactErrors(t, files, id)
  {
    hide RowsOk, EventsOk, Broken, Listing, Report, ClaimTableErrors, EvidenceTableErrors, SupersessionTableErrors,
         EnvelopeTableErrors, EventTableErrors, RowsPass, ArtifactErrors, OnlyMismatches;
    ReachableReport(t, files, envelopeOrder);
    ReachableMismatches(t, files);
    EvidenceTableReportsBroken(t, files);
    ReportIsOfArtifacts(Listing(Broken(t, files)));
    PassMeansNoErrors(t', envelopeOrder);
    ClaimsReportNoArtifacts(t', Listing(t'.claims.Keys));
    SupersessionsReportNoArtifacts(t', Listing(t'.supersessions.Keys));
    EnvelopesReportNoArtifacts(t', envelopeOrder);
    EventsReportNoArtifacts(t', Listing(t'.events.Keys));
    OnlyTheMiddle(ClaimTableErrors(t', Listing(t'.claims.Keys)),
                  EvidenceTableErrors(t', files, Listing(t'.evidence.Keys)),
                  SupersessionTableErrors(t', Listing(t'.supersessions.Keys)), EnvelopeTableErrors(t', envelopeOrder),
                  EventTableErrors(t', Listing(t'.events.Keys)), IntegrityErrors(t, files, envelopeOrder));
    hide IntegrityErrors, NoArtifactErrors;
    if EvidenceTableErrors(t', files, Listing(t'.evidence.Keys)) ==
         EvidenceTableErrors(t, files, Listing(t.evidence.Keys)) {
      forall id ensures ArtifactErrors(t', files, id) == ArtifactErrors(t, files, id) {
        SameErrorsMeanSameArtifacts(t, t', files, id);
      }
    }
    if forall id :: ArtifactErrors(t', files, id) == ArtifactErrors(t, files, id) {
      SameArtifactsMeanSameErrors(t, t', files);
    }
  }

  lemma ReportIsOfArtifacts(ids: seq<string>)
    ensures forall e | e in Report(ids) :: e.EvidenceArtifactMismatch?
  {
  }

  /**
   The exact limit of the check, for all five tables at once: any tables in the place of those of
   a run give the same report exactly when each of their rows passes its own checks, and the
   evidence rows show the same broken artifacts.
   */
  lemma TamperingIsInvisibleExactly(calls: seq<Call>, t': Tables, files: Files, envelopeOrder: seq<ShortId>)
    ensures IntegrityErrors(t', files, envelopeOrder) == IntegrityErrors(Run(calls), files, envelopeOrder) <==>
            RowsPass(t', envelopeOrder)
              && forall id :: ArtifactErrors(t', files, id) == ArtifactErrors(Run(calls), files, id)
  {
    hide Inv, Run, IntegrityErrors, RowsPass, ArtifactErrors;
    ReplacedTables(Run(calls), t', files, envelopeOrder);
  }

  // ----- one row replaced -----

  lemma ReachableRowsPass(t: Tables, files: Files, envelopeOrder: seq<ShortId>)
    requires Inv(t)
    ensures RowsPass(t, envelopeOrder)
  {
    hide Inv, IntegrityErrors, RowsPass, ArtifactErrors;
    ReplacedTables(t, t, files, envelopeOrder);
  }

  lemma SameListsPass(t: Tables, t': Tables, c: string)
    requires t'.evidence == t.evidence && t'.claims == t.claims && t'.events == t.events
    ensures ListPasses(t', c) <==> ListPasses(t, c)
  {
    hide InventoryErrors, ChainErrors, MarkAfter;
    assert EventsOf(t', c) == EventsOf(t, c);
    forall i | 0 <= i < |EventsOf(t, c)|
      ensures RowPasses(t', c, EventsOf(t, c), i) <==> RowPasses(t, c, EventsOf(t, c), i)
    {
      SameInventory(t, t', c, EventsOf(t, c)[i]);
    }
  }

  /** A supersession row may say anything that names its claim and its replacement. */
  lemma SupersessionRowLimit(calls: seq<Call>, id: string, row: SupersessionRow, files: Files,
                             envelopeOrder: seq<ShortId>)
    ensures var t := Run(calls);
            IntegrityErrors(t.(supersessions := t.supersessions[id := row]), files, envelopeOrder) ==
                IntegrityErrors(t, files, envelopeOrder)
            <==> && row.payloadSha == Sha256(Utf8(row.payload))
                 && row.payload.Json? && row.payload.document.SupersessionDocument?
                 && row.payload.document.claimId == id && row.payload.document.replacementId == row.replacementId
  {
    PassingSupersession(id, row);
    hide Inv, Run, IntegrityErrors, EvidenceErrors, ListPasses, SupersessionErrors, ClaimErrors, EnvelopeErrors;
    var t := Run(calls);
    var t' := t.(supersessions := t.supersessions[id := row]);
    assert id in t'.supersessions && t'.supersessions[id] == row;
    ReplacedTables(t, t', files, envelopeOrder);
    ReachableRowsPass(t, files, envelopeOrder);
    forall c | c in t.events ensures ListPasses(t', c) <==> ListPasses(t, c) {
      SameListsPass(t, t', c);
    }
  }

  lemma PassingSupersession(id: string, row: SupersessionRow)
    ensures SupersessionErrors(id, row) == [] <==>
              && row.payloadSha == Sha256(Utf8(row.payload))
              && row.payload.Json? && row.payload.document.SupersessionDocument?
              && row.payload.document.claimId == id && row.payload.document.replacementId == row.replacementId
  {
  }

  /** An envelope row that the check reads is fixed but for its claim column. */
  lemma EnvelopeRowLimit(calls: seq<Call>, n: ShortId, row: EnvelopeRow, files: Files, envelopeOrder: seq<ShortId>)
    requires n in Run(calls).envelopes && n in envelopeOrder
    ensures var t := Run(calls);
            IntegrityErrors(t.(envelopes := t.envelopes[n := row]), files, envelopeOrder) ==
                IntegrityErrors(t, files, envelopeOrder)
            <==> row.payload == t.envelopes[n].payload && row.payloadSha == t.envelopes[n].payloadSha
  {
    hide Inv, Run, IntegrityErrors, EvidenceErrors, ListPasses, SupersessionErrors, ClaimErrors, EnvelopeErrors;
    var t := Run(calls);
    var t' := t.(envelopes := t.envelopes[n := row]);
    ReplacedTables(t, t', files, envelopeOrder);
    ReachableRowsPass(t, files, envelopeOrder);
    forall c | c in t.events ensures ListPasses(t', c) <==> ListPasses(t, c) {
      SameListsPass(t, t', c);
    }
    EnvelopeIsFixed(t, n, row);
  }

  lemma EnvelopeIsFixed(t: Tables, n: ShortId, row: EnvelopeRow)
    requires Inv(t) && n in t.envelopes
    ensures EnvelopeErrors(n, row) == [] <==>
              row.payload == t.envelopes[n].payload && row.payloadSha == t.envelopes[n].payloadSha
  {
    assert EnvelopeRowOk(n, t.envelopes[n], t.claims.Keys);
    hide Seal;
  }

  /** A claim row is fixed: the claim's first event records its digest. */
  lemma ClaimRowLimit(calls: seq<Call>, c: string, row: ClaimRow, files: Files, envelopeOrder: seq<ShortId>)
    requires c in Run(calls).claims
    ensures var t := Run(calls);
            IntegrityErrors(t.(claims := t.claims[c := row]), files, envelopeOrder) ==
                IntegrityErrors(t, files, envelopeOrder)
            <==> row == t.claims[c]
  {
    hide Inv, Run, IntegrityErrors, ArtifactErrors, ListPasses, SupersessionErrors, EnvelopeErrors;
    var t := Run(calls);
    var t' := t.(claims := t.claims[c := row]);
    ReplacedTables(t, t', files, envelopeOrder);
    if RowsPass(t', envelopeOrder) {
      ClaimHasEvents(t, c);
      assert c in t'.claims && t'.claims[c] == row && c in t'.events;
      ClaimIsFixed(t, c, row);
    }
    if row == t.claims[c] {
      assert t' == t;
    }
  }

  lemma ClaimHasEvents(t: Tables, c: string)
    requires Inv(t) && c in t.claims
    ensures c in t.events
  {
  }

  lemma ClaimIsFixed(t: Tables, c: string, row: ClaimRow)
    requires Inv(t) && c in t.claims && ClaimErrors(c, row) == [] && ListPasses(t.(claims := t.claims[c := row]), c)
    ensures row == t.claims[c]
  {
    var t' := t.(claims := t.claims[c := row]);
    HeadIsEvent(t, c);
    StoredRowPasses(t, c, 0);
    assert RowPasses(t', c, EventsOf(t', c), 0);
    FirstEventReads(t, c);
    var event := t.events[c][0];
    InventorySeesClaim(t, c, event);
    InventorySeesClaim(t', c, event);
    assert ClaimRowOk(c, t.claims[c]);
    hide Inv, InventoryErrors, ChainErrors;
  }

  lemma FirstEventReads(t: Tables, c: string)
    requires Inv(t) && c in t.claims && c in t.events && t.events[c] != []
    ensures Loads(t.events[c][0].payload).Some?
  {
    hide RowsOk, InventoryOk;
    assert EventsOk(t, c);
    assert EventOk(t.evidence, t.claims[c].payloadSha, c, t.events[c], 0);
  }

  lemma InventorySeesClaim(t: Tables, c: string, row: EventRow)
    requires c in t.claims && InventoryErrors(t, c, row) == [] && Loads(row.payload).Some?
    ensures RawClaimSha(Loads(row.payload).value) == Some(t.claims[c].payloadSha)
  {
    hide MerkleRoot, BindingErrors, BoundRecords, RawClaimSha, RawEligibleIds, RawEvidenceIds, RawRoot;
  }

  // ----- an evidence row replaced -----

  /** The event lists the evidence as eligible. */
  predicate Cites(row: EventRow, e: string) {
    Loads(row.payload).Some? && e in RawEligibleIds(Loads(row.payload).value)
  }

  ghost predicate IsCited(t: Tables, e: string) {
    exists c, i :: c in t.events && 0 <= i < |t.events[c]| && Cites(t.events[c][i], e)
  }

  lemma {:induction false} UncitedBindings(t: Tables, t': Tables, c: string, event: ShortId, ids: seq<string>,
                                           e: string)
    requires e !in ids
    requires forall id | id != e ::
               (id in t'.evidence <==> id in t.evidence) && (id in t.evidence ==> t'.evidence[id] == t.evidence[id])
    ensures BindingErrors(t', c, event, ids) == BindingErrors(t, c, event, ids)
    ensures BoundRecords(t', c, ids) == BoundRecords(t, c, ids)
  {
    if ids != [] {
      UncitedBindings(t, t', c, event, ids[1..], e);
      assert ids[0] in ids;
    }
  }

  lemma UncitedRowPasses(t: Tables, row: EvidenceRow, c: string, event: EventRow, e: string)
    requires !Cites(event, e)
    ensures InventoryErrors(t.(evidence := t.evidence[e := row]), c, event) == InventoryErrors(t, c, event)
  {
    hide MerkleRoot, BindingErrors, BoundRecords, RawClaimSha, RawEligibleIds, RawEvidenceIds, RawRoot;
    if event.payload.Json? {
      UncitedBindings(t, t.(evidence := t.evidence[e := row]), c, event.eventId, RawEligibleIds(event.payload.document),
                      e);
    }
  }

  lemma UncitedListsPass(t: Tables, row: EvidenceRow, c: string, e: string)
    requires Inv(t) && c in t.events && !IsCited(t, e)
    ensures ListPasses(t.(evidence := t.evidence[e := row]), c)
  {
    hide Inv, InventoryErrors, ChainErrors, MarkAfter, Cites;
    var t' := t.(evidence := t.evidence[e := row]);
    forall i | 0 <= i < |t.events[c]| ensures RowPasses(t', c, t.events[c], i) {
      StoredRowPasses(t, c, i);
      UncitedRowPasses(t, row, c, t.events[c][i], e);
    }
  }

  lemma {:induction false} BoundRecord(t: Tables, c: string, event: ShortId, ids: seq<string>, e: string)
    requires e in ids && BindingErrors(t, c, event, ids) == []
    ensures IsBound(t, c, e) && EvidenceRecord(e, t.evidence[e].payloadSha) in BoundRecords(t, c, ids)
    ensures forall r | r in BoundRecords(t, c, ids) && r.id == e :: r.payloadSha == t.evidence[e].payloadSha
  {
    BoundIsOwn(t, c, ids, e);
    if ids[0] != e {
      assert e in ids[1..];
      BoundRecord(t, c, event, ids[1..], e);
    }
  }

  lemma {:induction false} BoundIsOwn(t: Tables, c: string, ids: seq<string>, e: string)
    ensures forall r | r in BoundRecords(t, c, ids) && r.id == e ::
              IsBound(t, c, e) && r.payloadSha == t.evidence[e].payloadSha
  {
    if ids != [] {
      BoundIsOwn(t, c, ids[1..], e);
    }
  }

  /** An event that lists the evidence fixes the claim and the digest of its row. */
  lemma CitedIsBound(t: Tables, t': Tables, c: string, event: EventRow, e: string)
    requires InventoryErrors(t, c, event) == [] && InventoryErrors(t', c, event) == [] && Cites(event, e)
    ensures IsBound(t, c, e) && IsBound(t', c, e) && t'.evidence[e].payloadSha == t.evidence[e].payloadSha
  {
    var ids := RawEligibleIds(event.payload.document);
    InventoryBinds(t, c, event);
    InventoryBinds(t', c, event);
    BoundRecord(t, c, event.eventId, ids, e);
    BoundRecord(t', c, event.eventId, ids, e);
    EqualRootsMeanEqualRecords(BoundRecords(t, c, ids), BoundRecords(t', c, ids));
    hide MerkleRoot, BindingErrors, BoundRecords, InventoryErrors;
    assert EvidenceRecord(e, t.evidence[e].payloadSha) in Elements(BoundRecords(t, c, ids));
  }

  lemma InventoryBinds(t: Tables, c: string, event: EventRow)
    requires InventoryErrors(t, c, event) == [] && event.payload.Json?
    ensures var ids := RawEligibleIds(event.payload.document);
            BindingErrors(t, c, event.eventId, ids) == []
              && RawRoot(event.payload.document) == Some(MerkleRoot(BoundRecords(t, c, ids)))
  {
    hide MerkleRoot, BindingErrors, BoundRecords, RawClaimSha, RawEligibleIds, RawEvidenceIds, RawRoot;
  }

  /**
   An evidence row that some event lists as eligible is fixed. Any other may be replaced by a row
   of which the check reports the same: nothing, or a broken artifact.
   */
  lemma EvidenceRowLimit(calls: seq<Call>, e: string, row: EvidenceRow, files: Files, envelopeOrder: seq<ShortId>)
    requires e in Run(calls).evidence
    ensures var t := Run(calls);
            IntegrityErrors(t.(evidence := t.evidence[e := row]), files, envelopeOrder) ==
                IntegrityErrors(t, files, envelopeOrder)
            <==> if IsCited(t, e) then row == t.evidence[e]
                 else EvidenceErrors(files, e, row) == EvidenceErrors(files, e, t.evidence[e])
  {
    hide Inv, Run, IntegrityErrors, EvidenceErrors, ListPasses, SupersessionErrors, ClaimErrors, EnvelopeErrors,
         IsCited;
    var t := Run(calls);
    var t' := t.(evidence := t.evidence[e := row]);
    ReplacedTables(t, t', files, envelopeOrder);
    ReachableRowsPass(t, files, envelopeOrder);
    assert ArtifactErrors(t', files, e) == EvidenceErrors(files, e, row)
           && ArtifactErrors(t, files, e) == EvidenceErrors(files, e, t.evidence[e]);
    if IsCited(t, e) {
      if RowsPass(t', envelopeOrder) && EvidenceErrors(files, e, row) == EvidenceErrors(files, e, t.evidence[e]) {
        CitedIsFixed(t, row, e, files);
      }
      if row == t.evidence[e] {
        assert t' == t;
      }
    } else {
      forall c | c in t.events ensures ListPasses(t', c) {
        UncitedListsPass(t, row, c, e);
      }
    }
  }

  lemma CitedIsFixed(t: Tables, row: EvidenceRow, e: string, files: Files)
    requires Inv(t) && e in t.evidence && IsCited(t, e)
    requires EvidenceErrors(files, e, row) == EvidenceErrors(files, e, t.evidence[e])
    requires forall c | c in t.events :: ListPasses(t.(evidence := t.evidence[e := row]), c)
    ensures row == t.evidence[e]
  {
    var t' := t.(evidence := t.evidence[e := row]);
    var c, i :| c in t.events && 0 <= i < |t.events[c]| && Cites(t.events[c][i], e);
    StoredRowPasses(t, c, i);
    assert EventsOf(t', c) == t.events[c];
    assert RowPasses(t', c, EventsOf(t', c), i);
    CitedIsBound(t, t', c, t.events[c][i], e);
    hide Inv, InventoryErrors, ChainErrors, Cites, ListPasses;
    SameDigestSameRow(t, row, e, files);
  }

  lemma SameDigestSameRow(t: Tables, row: EvidenceRow, e: string, files: Files)
    requires Inv(t) && e in t.evidence && EvidenceErrors(files, e, row) == EvidenceErrors(files, e, t.evidence[e])
    requires row.claimId == t.evidence[e].claimId && row.payloadSha == t.evidence[e].payloadSha
    ensures row == t.evidence[e]
  {
    hide EventsOk, EvidenceErrors, ArtifactMatches;
    EvidenceRowError(t, files, e);
    EvidenceHashes(files, e, row);
  }

  lemma EvidenceHashes(files: Files, e: string, row: EvidenceRow)
    ensures EvidenceErrors(files, e, row) == [] || EvidenceErrors(files, e, row) == [EvidenceArtifactMismatch(e)] ==>
              row.payloadSha == ShaOfText(row.payload)
  {
    hide ArtifactMatches;
  }
}
