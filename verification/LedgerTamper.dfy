/**
 What the hash chain detects. A head hash that is known from elsewhere fixes the whole event list
 before it. The check itself knows no head: it accepts exactly the replacement lists that pass it
 row by row, among them every truncation and every re-hashed head.
 */
module LedgerTamper {
  import opened Wrappers
  import opened LedgerData
  import opened LedgerRuns
  import opened LedgerInvariant
  import opened LedgerIntegrity
  import opened Merkle
  import opened Ordering

  /** Every row listed under claim `c` passes the payload, id, sequence, link and claim checks. */
  ghost predicate ChainPasses(c: string, rows: seq<EventRow>) {
    forall i | 0 <= i < |rows| :: rows[i].claimId == c && ChainErrors(c, rows[i], MarkAfter(rows[..i])) == []
  }

  lemma {:induction false} CleanListPasses(t: Tables, c: string, rows: seq<EventRow>)
    requires EventListErrors(t, c, rows) == []
    requires forall i | 0 <= i < |rows| :: rows[i].claimId == c
    ensures ChainPasses(c, rows)
  {
    hide ChainErrors, InventoryErrors;
    if rows != [] {
      var before := rows[..|rows| - 1];
      CleanListPasses(t, c, before);
      forall i | 0 <= i < |rows| ensures ChainErrors(c, rows[i], MarkAfter(rows[..i])) == [] {
        if i < |rows| - 1 {
          assert before[i] == rows[i] && before[..i] == rows[..i];
        }
      }
    }
  }

  /** What one clean row says about itself. */
  lemma CleanRow(c: string, row: EventRow, previous: Option<Mark>)
    requires ChainErrors(c, row, previous) == []
    ensures row.eventSha == ShaOfText(row.payload) && row.eventId == ShortId(row.eventSha)
    ensures row.payload.Json? && row.payload.document.EventDocument?
    ensures row.sequence == ExpectedSequence(previous) == row.payload.document.event.sequence
    ensures row.previous == ExpectedPrevious(previous) == row.payload.document.event.previous
  {
  }

  lemma {:induction false} MarkOfPassing(c: string, rows: seq<EventRow>, n: nat)
    requires ChainPasses(c, rows) && n <= |rows|
    ensures MarkAfter(rows[..n]) == if n == 0 then None else Some(Mark(n, rows[n - 1].eventSha))
  {
    hide ChainErrors;
    if n > 0 {
      MarkOfPassing(c, rows, n - 1);
      CleanRow(c, rows[n - 1], MarkAfter(rows[..n - 1]));
      assert rows[..n][..n - 1] == rows[..n - 1];
    }
  }

  lemma PassingRow(c: string, rows: seq<EventRow>, i: nat)
    requires ChainPasses(c, rows) && i < |rows|
    ensures rows[i].eventSha == ShaOfText(rows[i].payload) && rows[i].eventId == ShortId(rows[i].eventSha)
    ensures rows[i].payload.Json? && rows[i].payload.document.EventDocument?
    ensures rows[i].sequence == i + 1 == rows[i].payload.document.event.sequence
    ensures rows[i].previous == rows[i].payload.document.event.previous
    ensures rows[i].previous == if i == 0 then None else Some(rows[i - 1].eventSha)
  {
    MarkOfPassing(c, rows, i);
    CleanRow(c, rows[i], MarkAfter(rows[..i]));
  }

  lemma SameRow(c: string, a: seq<EventRow>, b: seq<EventRow>, i: nat, j: nat)
    requires ChainPasses(c, a) && ChainPasses(c, b) && i < |a| && j < |b|
    requires a[i].eventSha == b[j].eventSha
    ensures i == j && a[i] == b[j]
  {
    PassingRow(c, a, i);
    PassingRow(c, b, j);
    assert a[i].claimId == c && b[j].claimId == c;
    hide ChainPasses;
  }

  /** Two lists that pass and meet in one event hash agree on everything up to it. */
  lemma {:induction false} EqualHashEqualPast(c: string, a: seq<EventRow>, b: seq<EventRow>, i: nat, j: nat)
    requires ChainPasses(c, a) && ChainPasses(c, b) && i < |a| && j < |b|
    requires a[i].eventSha == b[j].eventSha
    ensures i == j && a[..i + 1] == b[..j + 1]
    decreases i
  {
    hide ChainPasses;
    PassingRow(c, a, i);
    PassingRow(c, b, j);
    SameRow(c, a, b, i, j);
    if i > 0 {
      EqualHashEqualPast(c, a, b, i - 1, j - 1);
    }
    assert a[..i + 1] == a[..i] + [a[i]] && b[..j + 1] == b[..j] + [b[j]];
  }

  /** The head hash determines the whole history. */
  lemma HeadDeterminesHistory(c: string, a: seq<EventRow>, b: seq<EventRow>)
    requires ChainPasses(c, a) && ChainPasses(c, b) && a != [] && b != []
    requires a[|a| - 1].eventSha == b[|b| - 1].eventSha
    ensures a == b
  {
    hide ChainPasses;
    EqualHashEqualPast(c, a, b, |a| - 1, |b| - 1);
    assert a[..|a|] == a && b[..|b|] == b;
  }

  /** A passing list whose head is one of `b`'s hashes is a truncation of `b`, and only those are. */
  lemma OnlyTruncationsShareAHead(c: string, a: seq<EventRow>, b: seq<EventRow>)
    requires ChainPasses(c, a) && ChainPasses(c, b) && a != []
    ensures (exists j :: 0 <= j < |b| && b[j].eventSha == a[|a| - 1].eventSha) <==> a <= b
  {
    hide ChainPasses;
    if a <= b {
      assert b[|a| - 1] == a[|a| - 1];
    }
    if exists j :: 0 <= j < |b| && b[j].eventSha == a[|a| - 1].eventSha {
      var j :| 0 <= j < |b| && b[j].eventSha == a[|a| - 1].eventSha;
      EqualHashEqualPast(c, a, b, |a| - 1, j);
      assert a == a[..|a|];
    }
  }

  // ----- what the check accepts instead of a claim's events -----

  /** The ledger with other rows listed as the claim's events. */
  function Replaced(t: Tables, c: string, rows: seq<EventRow>): Tables {
    t.(events := t.events[c := rows])
  }

  /** The row passes every check of the event table at its place in the list. */
  predicate RowPasses(t: Tables, c: string, rows: seq<EventRow>, i: nat)
    requires i < |rows|
  {
    ChainErrors(c, rows[i], MarkAfter(rows[..i])) == [] && InventoryErrors(t, c, rows[i]) == []
  }

  lemma {:induction false} ListPassesRowByRow(t: Tables, c: string, rows: seq<EventRow>)
    ensures EventListErrors(t, c, rows) == [] <==> forall i | 0 <= i < |rows| :: RowPasses(t, c, rows, i)
  {
    hide ChainErrors, InventoryErrors, MarkAfter;
    if rows != [] {
      var n := |rows| - 1;
      ListPassesRowByRow(t, c, rows[..n]);
      assert forall i | 0 <= i < n :: rows[..n][i] == rows[i] && rows[..n][..i] == rows[..i];
      assert RowPasses(t, c, rows, n) <==>
               ChainErrors(c, rows[n], MarkAfter(rows[..n])) + InventoryErrors(t, c, rows[n]) == [];
      assert forall i | 0 <= i < n :: RowPasses(t, c, rows[..n], i) <==> RowPasses(t, c, rows, i);
    }
  }

  lemma {:induction false} SameBindings(t: Tables, t': Tables, c: string, event: ShortId, ids: seq<string>)
    requires t'.evidence == t.evidence
    ensures BindingErrors(t', c, event, ids) == BindingErrors(t, c, event, ids)
    ensures BoundRecords(t', c, ids) == BoundRecords(t, c, ids)
  {
    if ids != [] {
      SameBindings(t, t', c, event, ids[1..]);
    }
  }

  lemma SameInventory(t: Tables, t': Tables, c: string, row: EventRow)
    requires t'.evidence == t.evidence && t'.claims == t.claims
    ensures InventoryErrors(t', c, row) == InventoryErrors(t, c, row)
  {
    if row.payload.Json? {
      SameBindings(t, t', c, row.eventId, RawEligibleIds(row.payload.document));
    }
    hide MerkleRoot, BindingErrors, BoundRecords;
  }

  lemma {:induction false} SameListErrors(t: Tables, t': Tables, c: string, rows: seq<EventRow>)
    requires t'.evidence == t.evidence && t'.claims == t.claims
    ensures EventListErrors(t', c, rows) == EventListErrors(t, c, rows)
  {
    hide ChainErrors, InventoryErrors;
    if rows != [] {
      SameListErrors(t, t', c, rows[..|rows| - 1]);
      SameInventory(t, t', c, rows[|rows| - 1]);
    }
  }

  lemma {:induction false} ReplacedTableErrors(t: Tables, c: string, rows: seq<EventRow>, keys: seq<string>)
    requires EventTableErrors(t, keys) == []
    ensures EventTableErrors(Replaced(t, c, rows), keys) == [] <==> (c in keys ==> EventListErrors(t, c, rows) == [])
  {
    hide EventListErrors;
    if keys != [] {
      var n := |keys| - 1;
      ReplacedTableErrors(t, c, rows, keys[..n]);
      SameListErrors(t, Replaced(t, c, rows), keys[n], EventsOf(Replaced(t, c, rows), keys[n]));
      assert keys == keys[..n] + [keys[n]];
    }
  }

  function RowTableErrors(t: Tables, files: Files, envelopeOrder: seq<ShortId>): seq<IntegrityError> {
    ClaimTableErrors(t, Listing(t.claims.Keys))
    + EvidenceTableErrors(t, files, Listing(t.evidence.Keys))
    + SupersessionTableErrors(t, Listing(t.supersessions.Keys))
    + EnvelopeTableErrors(t, envelopeOrder)
  }

  lemma SplitReport(t: Tables, files: Files, envelopeOrder: seq<ShortId>)
    ensures IntegrityErrors(t, files, envelopeOrder) ==
              RowTableErrors(t, files, envelopeOrder) + EventTableErrors(t, Listing(t.events.Keys))
  {
    hide ClaimTableErrors, EvidenceTableErrors, SupersessionTableErrors, EnvelopeTableErrors, EventTableErrors, Listing;
  }

  lemma SameRowTables(t: Tables, c: string, rows: seq<EventRow>, files: Files, envelopeOrder: seq<ShortId>)
    ensures RowTableErrors(Replaced(t, c, rows), files, envelopeOrder) == RowTableErrors(t, files, envelopeOrder)
  {
    var t' := Replaced(t, c, rows);
    hide Listing;
    SameClaimErrors(t, t', Listing(t.claims.Keys));
    SameEvidenceErrors(t, t', files, Listing(t.evidence.Keys));
    SameSupersessionErrors(t, t', Listing(t.supersessions.Keys));
    SameEnvelopeErrors(t, t', envelopeOrder);
    hide ClaimTableErrors, EvidenceTableErrors, SupersessionTableErrors, EnvelopeTableErrors;
  }

  lemma ReplacementOfReachable(t: Tables, c: string, rows: seq<EventRow>, files: Files, envelopeOrder: seq<ShortId>)
    requires Inv(t) && c in t.events
    ensures IntegrityErrors(Replaced(t, c, rows), files, envelopeOrder) == IntegrityErrors(t, files, envelopeOrder)
            <==> forall i | 0 <= i < |rows| :: RowPasses(t, c, rows, i)
  {
    hide Inv, EventListErrors, RowPasses, EventTableErrors, IntegrityErrors, RowTableErrors;
    var t' := Replaced(t, c, rows);
    var keys := Listing(t.events.Keys);
    assert t'.events.Keys == t.events.Keys && c in Elements(keys);
    hide Listing;
    EventTableIsClean(t, keys);
    ReplacedTableErrors(t, c, rows, keys);
    ListPassesRowByRow(t, c, rows);
    SameRowTables(t, c, rows, files, envelopeOrder);
    SplitReport(t, files, envelopeOrder);
    SplitReport(t', files, envelopeOrder);
    var same := RowTableErrors(t, files, envelopeOrder);
    assert same + EventTableErrors(t', keys) == same + [] <==> EventTableErrors(t', keys) == [] by {
      assert EventTableErrors(t', keys) != [] ==> |same + EventTableErrors(t', keys)| > |same + []|;
    }
  }

  /**
   The exact limit of the check: replacing a claim's events, listed by sequence, leaves the report
   as it was exactly when every row of the replacement passes at its place.
   */
  lemma ReplacementIsInvisibleExactly(calls: seq<Call>, c: string, rows: seq<EventRow>, files: Files,
                                      envelopeOrder: seq<ShortId>)
    requires c in Run(calls).events
    ensures IntegrityErrors(Replaced(Run(calls), c, rows), files, envelopeOrder) ==
              IntegrityErrors(Run(calls), files, envelopeOrder)
            <==> forall i | 0 <= i < |rows| :: RowPasses(Run(calls), c, rows, i)
  {
    hide Inv, Run, IntegrityErrors, RowPasses;
    ReplacementOfReachable(Run(calls), c, rows, files, envelopeOrder);
  }

  /** Every row of a reachable ledger passes at its place. */
  lemma StoredRowPasses(t: Tables, c: string, i: nat)
    requires Inv(t) && c in t.events && i < |t.events[c]|
    ensures RowPasses(t, c, t.events[c], i)
  {
    hide RowsOk, RowCount, InventoryErrors, ChainErrors, EventOk;
    assert EventsOk(t, c);
    OkEventsAreClean(t, c, t.events[c], i);
    assert EventOk(t.evidence, t.claims[c].payloadSha, c, t.events[c], i);
    OkRowIsClean(t, c, t.events[c], i, MarkAfter(t.events[c][..i]));
    InventoryIsClean(t, c, t.events[c], i);
  }

  lemma PrefixPassesInPlace(t: Tables, c: string, n: nat)
    requires Inv(t) && c in t.events && n <= |t.events[c]|
    ensures forall i | 0 <= i < n :: RowPasses(t, c, t.events[c][..n], i)
  {
    hide Inv, InventoryErrors, ChainErrors, MarkAfter;
    var rows := t.events[c];
    forall i | 0 <= i < n ensures RowPasses(t, c, rows[..n], i) {
      StoredRowPasses(t, c, i);
      assert rows[..n][..i] == rows[..i];
    }
  }

  /** One instance: dropping any suffix of a claim's events changes no report. */
  lemma TruncationIsInvisible(calls: seq<Call>, c: string, n: nat, files: Files, envelopeOrder: seq<ShortId>)
    requires c in Run(calls).events && n <= |Run(calls).events[c]|
    ensures IntegrityErrors(Replaced(Run(calls), c, Run(calls).events[c][..n]), files, envelopeOrder) ==
            IntegrityErrors(Run(calls), files, envelopeOrder)
  {
    hide Inv, Run, IntegrityErrors, RowPasses;
    PrefixPassesInPlace(Run(calls), c, n);
    ReplacementOfReachable(Run(calls), c, Run(calls).events[c][..n], files, envelopeOrder);
  }

  /** The row rewritten to record another assessment, with its hash and id computed anew. */
  function Rehashed(row: EventRow, a: ClaimAssessment): EventRow
    requires row.payload.Json? && row.payload.document.EventDocument?
  {
    var payload := Canonical(EventDocument(row.payload.document.event.(assessment := a)));
    row.(payload := payload, eventSha := ShaOfText(payload), eventId := ShortId(ShaOfText(payload)))
  }

  /** What the checks compare of a recorded assessment; the rest is only hashed. */
  predicate SameInventoryFields(a: ClaimAssessment, b: ClaimAssessment) {
    a.claimId == b.claimId && a.evidenceIds == b.evidenceIds && a.eligibleIds == b.eligibleIds && a.root == b.root
  }

  lemma RehashedRowPasses(t: Tables, c: string, rows: seq<EventRow>, a: ClaimAssessment)
    requires rows != [] && RowPasses(t, c, rows, |rows| - 1)
    requires rows[|rows| - 1].payload.Json? && rows[|rows| - 1].payload.document.EventDocument?
    requires SameInventoryFields(a, rows[|rows| - 1].payload.document.event.assessment)
    ensures RowPasses(t, c, rows[..|rows| - 1] + [Rehashed(rows[|rows| - 1], a)], |rows| - 1)
  {
    var n := |rows| - 1;
    var row, other := rows[n], Rehashed(rows[n], a);
    assert (rows[..n] + [other])[..n] == rows[..n];
    RehashedChainPasses(c, row, a, MarkAfter(rows[..n]));
    RehashedInventoryPasses(t, c, row, a);
    hide ChainErrors, InventoryErrors, Rehashed;
  }

  lemma RehashedChainPasses(c: string, row: EventRow, a: ClaimAssessment, previous: Option<Mark>)
    requires row.payload.Json? && row.payload.document.EventDocument?
    requires a.claimId == row.payload.document.event.assessment.claimId && ChainErrors(c, row, previous) == []
    ensures ChainErrors(c, Rehashed(row, a), previous) == []
  {
  }

  lemma {:induction false} BindingErrorsAnyEvent(t: Tables, c: string, event: ShortId, other: ShortId, ids: seq<string>)
    ensures BindingErrors(t, c, event, ids) == [] <==> BindingErrors(t, c, other, ids) == []
  {
    if ids != [] {
      BindingErrorsAnyEvent(t, c, event, other, ids[1..]);
    }
  }

  lemma RehashedInventoryPasses(t: Tables, c: string, row: EventRow, a: ClaimAssessment)
    requires row.payload.Json? && row.payload.document.EventDocument?
    requires SameInventoryFields(a, row.payload.document.event.assessment) && InventoryErrors(t, c, row) == []
    ensures InventoryErrors(t, c, Rehashed(row, a)) == []
  {
    RehashedReads(row, a);
    BindingErrorsAnyEvent(t, c, row.eventId, Rehashed(row, a).eventId, a.eligibleIds);
    hide MerkleRoot, BindingErrors, BoundRecords, Rehashed;
  }

  lemma RehashedReads(row: EventRow, a: ClaimAssessment)
    requires row.payload.Json? && row.payload.document.EventDocument?
    ensures var payload := Rehashed(row, a).payload;
            payload.Json? && payload.document.EventDocument?
              && payload.document.event == row.payload.document.event.(assessment := a)
  {
  }

  /** The claim has events, and the last one records an assessment. */
  predicate HasHead(t: Tables, c: string) {
    c in t.events && t.events[c] != []
    && var row := t.events[c][|t.events[c]| - 1]; row.payload.Json? && row.payload.document.EventDocument?
  }

  function RecordedHead(t: Tables, c: string): ClaimAssessment
    requires HasHead(t, c)
  {
    t.events[c][|t.events[c]| - 1].payload.document.event.assessment
  }

  /** The claim's events with the last one rewritten to record another assessment. */
  function Forged(t: Tables, c: string, a: ClaimAssessment): seq<EventRow>
    requires HasHead(t, c)
  {
    var n := |t.events[c]| - 1;
    t.events[c][..n] + [Rehashed(t.events[c][n], a)]
  }

  lemma ForgedPasses(t: Tables, c: string, a: ClaimAssessment)
    requires Inv(t) && HasHead(t, c) && SameInventoryFields(a, RecordedHead(t, c))
    ensures forall i | 0 <= i < |Forged(t, c, a)| :: RowPasses(t, c, Forged(t, c, a), i)
  {
    hide Inv, InventoryErrors, ChainErrors, MarkAfter, Rehashed;
    var rows, forged := t.events[c], Forged(t, c, a);
    var n := |rows| - 1;
    StoredRowPasses(t, c, n);
    RehashedRowPasses(t, c, rows, a);
    forall i | 0 <= i < n ensures RowPasses(t, c, forged, i) {
      StoredRowPasses(t, c, i);
      assert forged[..i] == rows[..i] && forged[i] == rows[i];
    }
  }

  lemma ForgedIsNoTruncation(t: Tables, c: string, a: ClaimAssessment)
    requires HasHead(t, c) && a != RecordedHead(t, c)
    ensures !(Forged(t, c, a) <= t.events[c])
  {
    var rows, forged := t.events[c], Forged(t, c, a);
    assert forged[|rows| - 1].payload.document.event.assessment == a;
  }

  /**
   Another instance: a head rewritten to any level, disposition and display, and hashed anew, is not
   seen, and is no truncation.
   */
  lemma RehashedHeadIsInvisible(calls: seq<Call>, c: string, a: ClaimAssessment, files: Files,
                                envelopeOrder: seq<ShortId>)
    requires c in Run(calls).events
    ensures HasHead(Run(calls), c)
    ensures SameInventoryFields(a, RecordedHead(Run(calls), c)) ==>
              IntegrityErrors(Replaced(Run(calls), c, Forged(Run(calls), c, a)), files, envelopeOrder) ==
              IntegrityErrors(Run(calls), files, envelopeOrder)
    ensures a != RecordedHead(Run(calls), c) ==> !(Forged(Run(calls), c, a) <= Run(calls).events[c])
  {
    hide Inv, Run, IntegrityErrors, RowPasses, SameInventoryFields, Forged, RecordedHead, HasHead;
    var t := Run(calls);
    HeadIsEvent(t, c);
    if a != RecordedHead(t, c) {
      ForgedIsNoTruncation(t, c, a);
    }
    if SameInventoryFields(a, RecordedHead(t, c)) {
      ForgedPasses(t, c, a);
      ReplacementOfReachable(t, c, Forged(t, c, a), files, envelopeOrder);
    }
  }

  lemma HeadIsEvent(t: Tables, c: string)
    requires Inv(t) && c in t.events
    ensures HasHead(t, c)
  {
    hide RowsOk, InventoryOk;
    assert EventsOk(t, c);
    var rows := t.events[c];
    assert EventOk(t.evidence, t.claims[c].payloadSha, c, rows, |rows| - 1);
  }

  lemma {:induction false} SameClaimErrors(t: Tables, t': Tables, keys: seq<string>)
    requires t'.claims == t.claims
    ensures ClaimTableErrors(t', keys) == ClaimTableErrors(t, keys)
  {
    if keys != [] {
      SameClaimErrors(t, t', keys[..|keys| - 1]);
    }
  }

  lemma {:induction false} SameEvidenceErrors(t: Tables, t': Tables, files: Files, keys: seq<string>)
    requires t'.evidence == t.evidence
    ensures EvidenceTableErrors(t', files, keys) == EvidenceTableErrors(t, files, keys)
  {
    if keys != [] {
      SameEvidenceErrors(t, t', files, keys[..|keys| - 1]);
    }
  }

  lemma {:induction false} SameSupersessionErrors(t: Tables, t': Tables, keys: seq<string>)
    requires t'.supersessions == t.supersessions
    ensures SupersessionTableErrors(t', keys) == SupersessionTableErrors(t, keys)
  {
    if keys != [] {
      SameSupersessionErrors(t, t', keys[..|keys| - 1]);
    }
  }

  lemma {:induction false} SameEnvelopeErrors(t: Tables, t': Tables, keys: seq<ShortId>)
    requires t'.envelopes == t.envelopes
    ensures EnvelopeTableErrors(t', keys) == EnvelopeTableErrors(t, keys)
  {
    if keys != [] {
      SameEnvelopeErrors(t, t', keys[..|keys| - 1]);
    }
  }
}
