/**
 Contradiction between claims: pairwise conflict records, and the grouping of claims into
 interpretations of one assertion key. The two views agree.
 */
module Conflicts {
  import opened Wrappers
  import opened Normalization
  import opened GraphData

  datatype Conflict = Conflict(leftId: string, rightId: string, key: string, leftValue: string, rightValue: string)

  datatype Interpretation = Interpretation(value: string, normalizedValue: string, claimIds: seq<string>)

  // ----- pairwise conflicts -----

  /** The dictionary of the new claim's assertions: the last one wins for a normalized key. */
  function LastFor(assertions: seq<Assertion>, key: string): Option<Assertion> {
    if assertions == [] then None
    else
      var last := assertions[|assertions| - 1];
      if Normalize(last.key) == key then Some(last) else LastFor(assertions[..|assertions| - 1], key)
  }

  function ConflictsFrom(incoming: Claim, existing: Claim, assertions: seq<Assertion>): seq<Conflict> {
    if assertions == [] then []
    else
      var a := assertions[|assertions| - 1];
      var candidate := LastFor(incoming.assertions, Normalize(a.key));
      ConflictsFrom(incoming, existing, assertions[..|assertions| - 1])
      + if candidate.Some? && Normalize(a.value) != Normalize(candidate.value.value)
        then [Conflict(existing.id, incoming.id, candidate.value.key, a.value, candidate.value.value)]
        else []
  }

  function AllConflicts(incoming: Claim, existing: seq<Claim>): seq<Conflict> {
    if existing == [] then []
    else
      var last := existing[|existing| - 1];
      AllConflicts(incoming, existing[..|existing| - 1])
      + if last.id == incoming.id then [] else ConflictsFrom(incoming, last, last.assertions)
  }

  method CompareWith(incoming: Claim, claim: Claim) returns (conflicts: seq<Conflict>)
    ensures conflicts == ConflictsFrom(incoming, claim, claim.assertions)
  {
    hide Normalize, LastFor;
    conflicts := [];
    for j := 0 to |claim.assertions|
      invariant conflicts == ConflictsFrom(incoming, claim, claim.assertions[..j])
    {
      assert claim.assertions[..j + 1][..j] == claim.assertions[..j];
      var a := claim.assertions[j];
      var candidate := LastFor(incoming.assertions, Normalize(a.key));
      if candidate.Some? && Normalize(a.value) != Normalize(candidate.value.value) {
        conflicts := conflicts + [Conflict(claim.id, incoming.id, candidate.value.key, a.value, candidate.value.value)];
      }
    }
    assert claim.assertions[..|claim.assertions|] == claim.assertions;
  }

  method DetectConflicts(incoming: Claim, existing: seq<Claim>) returns (conflicts: seq<Conflict>)
    ensures conflicts == AllConflicts(incoming, existing)
  {
    hide ConflictsFrom;
    conflicts := [];
    for i := 0 to |existing|
      invariant conflicts == AllConflicts(incoming, existing[..i])
    {
      assert existing[..i + 1][..i] == existing[..i];
      if existing[i].id != incoming.id {
        var found := CompareWith(incoming, existing[i]);
        conflicts := conflicts + found;
      }
    }
    assert existing[..|existing|] == existing;
  }

  // ----- interpretations -----

  function FirstFor(assertions: seq<Assertion>, key: string): Option<Assertion> {
    if assertions == [] then None
    else if Normalize(assertions[0].key) == key then Some(assertions[0])
    else FirstFor(assertions[1..], key)
  }

  /** The normalized value a claim gives to a key, if it asserts it. */
  function ValueOf(claim: Claim, key: string): Option<string> {
    var a := FirstFor(claim.assertions, key);
    if a.Some? then Some(Normalize(a.value.value)) else None
  }

  function IndexOf(groups: seq<Interpretation>, value: string): (i: nat)
    ensures i <= |groups|
    ensures i < |groups| ==> groups[i].normalizedValue == value
    ensures forall j | 0 <= j < i :: groups[j].normalizedValue != value
  {
    if groups == [] || groups[0].normalizedValue == value then 0 else 1 + IndexOf(groups[1..], value)
  }

  /** Adds one claim: a new group when its value is new, otherwise its id once to the group. */
  function AddClaim(groups: seq<Interpretation>, claim: Claim, key: string): seq<Interpretation> {
    var a := FirstFor(claim.assertions, key);
    if a.None? then groups
    else
      var value := Normalize(a.value.value);
      var i := IndexOf(groups, value);
      if i == |groups| then groups + [Interpretation(a.value.value, value, [claim.id])]
      else if claim.id in groups[i].claimIds then groups
      else groups[i := groups[i].(claimIds := groups[i].claimIds + [claim.id])]
  }

  function Groups(key: string, claims: seq<Claim>): seq<Interpretation> {
    if claims == [] then [] else AddClaim(Groups(key, claims[..|claims| - 1]), claims[|claims| - 1], key)
  }

  function IdsWhere(groups: seq<Interpretation>, corroborated: bool): seq<string> {
    if groups == [] then []
    else
      var last := groups[|groups| - 1];
      IdsWhere(groups[..|groups| - 1], corroborated)
      + if corroborated then (if |last.claimIds| > 1 then last.claimIds else [])
        else (if |last.claimIds| == 1 then [last.claimIds[0]] else [])
  }

  function AllIds(groups: seq<Interpretation>): seq<string> {
    if groups == [] then [] else AllIds(groups[..|groups| - 1]) + groups[|groups| - 1].claimIds
  }

  method ClusterInterpretations(assertionKey: string, claims: seq<Claim>)
    returns (groups: seq<Interpretation>, corroborated: seq<string>, outliers: seq<string>)
    ensures groups == Groups(Normalize(assertionKey), claims)
    ensures corroborated == IdsWhere(groups, true) && outliers == IdsWhere(groups, false)
  {
    var key := Normalize(assertionKey);
    groups := [];
    for i := 0 to |claims|
      invariant groups == Groups(key, claims[..i])
    {
      assert claims[..i + 1][..i] == claims[..i];
      var a := FirstFor(claims[i].assertions, key);
      if a.Some? {
        var value := Normalize(a.value.value);
        var g := IndexOf(groups, value);
        if g == |groups| {
          groups := groups + [Interpretation(a.value.value, value, [claims[i].id])];
        } else if claims[i].id !in groups[g].claimIds {
          groups := groups[g := groups[g].(claimIds := groups[g].claimIds + [claims[i].id])];
        }
      }
    }
    assert claims[..|claims|] == claims;
    corroborated, outliers := [], [];
    for i := 0 to |groups|
      invariant corroborated == IdsWhere(groups[..i], true) && outliers == IdsWhere(groups[..i], false)
    {
      assert groups[..i + 1][..i] == groups[..i];
      if |groups[i].claimIds| > 1 {
        corroborated := corroborated + groups[i].claimIds;
      }
      if |groups[i].claimIds| == 1 {
        outliers := outliers + [groups[i].claimIds[0]];
      }
    }
    assert groups[..|groups|] == groups;
  }

  method CollectIds(groups: seq<Interpretation>) returns (ids: seq<string>)
    ensures ids == AllIds(groups)
  {
    ids := [];
    for i := 0 to |groups|
      invariant ids == AllIds(groups[..i])
    {
      assert groups[..i + 1][..i] == groups[..i];
      ids := ids + groups[i].claimIds;
    }
    assert groups[..|groups|] == groups;
  }

  /** A stored cluster; rebuilding overwrites its four derived fields and keeps its identity. */
  class ConflictCluster {
    const projectFingerprint: string
    const assertionKey: string
    var claimIds: seq<string>
    var interpretations: seq<Interpretation>
    var corroborated: seq<string>
    var outliers: seq<string>

    constructor (projectFingerprint: string, assertionKey: string)
      ensures this.projectFingerprint == projectFingerprint && this.assertionKey == assertionKey
      ensures claimIds == [] && interpretations == [] && corroborated == [] && outliers == []
    {
      this.projectFingerprint, this.assertionKey := projectFingerprint, assertionKey;
      claimIds, interpretations, corroborated, outliers := [], [], [], [];
    }

    method Rebuild(key: string, claims: seq<Claim>)
      modifies this
      ensures interpretations == Groups(Normalize(key), claims)
      ensures claimIds == AllIds(interpretations)
      ensures corroborated == IdsWhere(interpretations, true) && outliers == IdsWhere(interpretations, false)
    {
      interpretations, corroborated, outliers := ClusterInterpretations(key, claims);
      claimIds := CollectIds(interpretations);
    }
  }

  // ----- what the groups are -----

  ghost predicate InGroup(claims: seq<Claim>, key: string, value: string, id: string) {
    exists c | c in claims :: c.id == id && ValueOf(c, key) == Some(value)
  }

  ghost predicate NoRepeats(ids: seq<string>) {
    forall i, j :: 0 <= i < j < |ids| ==> ids[i] != ids[j]
  }

  /** Groups have different values, are not empty, and list each id with their value once. */
  ghost predicate GroupsOk(groups: seq<Interpretation>, claims: seq<Claim>, key: string) {
    && (forall i, j :: 0 <= i < j < |groups| ==> groups[i].normalizedValue != groups[j].normalizedValue)
    && (forall i | 0 <= i < |groups| :: groups[i].claimIds != [] && NoRepeats(groups[i].claimIds))
    && (forall i, id | 0 <= i < |groups| ::
          id in groups[i].claimIds <==> InGroup(claims, key, groups[i].normalizedValue, id))
    && (forall c | c in claims && ValueOf(c, key).Some? ::
          exists i :: 0 <= i < |groups| && groups[i].normalizedValue == ValueOf(c, key).value)
  }

  lemma InGroupGrows(claims: seq<Claim>, claim: Claim, key: string, value: string, id: string)
    ensures InGroup(claims + [claim], key, value, id) <==>
            InGroup(claims, key, value, id) || (claim.id == id && ValueOf(claim, key) == Some(value))
  {
    assert forall c :: c in claims + [claim] <==> c in claims || c == claim;
  }

  lemma AddClaimKeepsGroups(groups: seq<Interpretation>, claims: seq<Claim>, claim: Claim, key: string)
    requires GroupsOk(groups, claims, key)
    ensures GroupsOk(AddClaim(groups, claim, key), claims + [claim], key)
  {
    hide Normalize, FirstFor;
    var after, more := AddClaim(groups, claim, key), claims + [claim];
    var v := ValueOf(claim, key);
    assert v.Some? && IndexOf(groups, v.value) == |groups| ==> forall c | c in claims :: ValueOf(c, key) != v;
    forall i, id | 0 <= i < |after|
      ensures id in after[i].claimIds <==> InGroup(more, key, after[i].normalizedValue, id)
    {
      InGroupGrows(claims, claim, key, after[i].normalizedValue, id);
    }
    forall c | c in more && ValueOf(c, key).Some?
      ensures exists i :: 0 <= i < |after| && after[i].normalizedValue == ValueOf(c, key).value
    {
      if c in claims {
        var i :| 0 <= i < |groups| && groups[i].normalizedValue == ValueOf(c, key).value;
        assert after[i].normalizedValue == groups[i].normalizedValue;
      } else {
        var i := IndexOf(groups, v.value);
        assert after[i].normalizedValue == v.value;
      }
    }
  }

  lemma {:induction false} GroupsAreOk(key: string, claims: seq<Claim>)
    ensures GroupsOk(Groups(key, claims), claims, key)
  {
    if claims != [] {
      var before, claim := claims[..|claims| - 1], claims[|claims| - 1];
      GroupsAreOk(key, before);
      AddClaimKeepsGroups(Groups(key, before), before, claim, key);
      assert claims == before + [claim];
    }
  }

  lemma MembersShareTheValue(key: string, claims: seq<Claim>, claim: Claim, i: nat)
    requires DistinctClaimIds(claims) && claim in claims && i < |Groups(key, claims)|
    ensures claim.id in Groups(key, claims)[i].claimIds <==>
              ValueOf(claim, key) == Some(Groups(key, claims)[i].normalizedValue)
  {
    GroupsAreOk(key, claims);
    assert forall c | c in claims :: c.id == claim.id ==> c == claim;
  }

  lemma AssertedValueHasGroup(key: string, claims: seq<Claim>, claim: Claim) returns (i: nat)
    requires DistinctClaimIds(claims) && claim in claims && ValueOf(claim, key).Some?
    ensures i < |Groups(key, claims)| && claim.id in Groups(key, claims)[i].claimIds
  {
    GroupsAreOk(key, claims);
    i :| i < |Groups(key, claims)| && Groups(key, claims)[i].normalizedValue == ValueOf(claim, key).value;
    MembersShareTheValue(key, claims, claim, i);
  }

  /** With distinct claim ids, every asserting claim is in exactly one interpretation, and no other claim is in any. */
  lemma InterpretationsPartitionClaims(key: string, claims: seq<Claim>, claim: Claim)
    requires DistinctClaimIds(claims) && claim in claims
    ensures ValueOf(claim, key).Some? <==>
              exists i | 0 <= i < |Groups(key, claims)| :: claim.id in Groups(key, claims)[i].claimIds
    ensures forall i, j | 0 <= i < |Groups(key, claims)| && 0 <= j < |Groups(key, claims)| ::
              claim.id in Groups(key, claims)[i].claimIds && claim.id in Groups(key, claims)[j].claimIds ==> i == j
  {
    var groups := Groups(key, claims);
    GroupsAreOk(key, claims);
    hide Groups, ValueOf, InGroup;
    forall i | 0 <= i < |groups|
      ensures claim.id in groups[i].claimIds <==> ValueOf(claim, key) == Some(groups[i].normalizedValue)
    {
      MembersShareTheValue(key, claims, claim, i);
    }
    if ValueOf(claim, key).Some? {
      var i := AssertedValueHasGroup(key, claims, claim);
    }
  }

  /** Every id is listed among corroborated and outlier ids together as often as in the cluster. */
  lemma {:induction false} CorroboratedAndOutliersSplitIds(groups: seq<Interpretation>, id: string)
    requires forall g | g in groups :: g.claimIds != []
    ensures multiset(IdsWhere(groups, true))[id] + multiset(IdsWhere(groups, false))[id] == multiset(AllIds(groups))[id]
  {
    if groups != [] {
      var before, last := groups[..|groups| - 1], groups[|groups| - 1];
      assert last in groups && forall g | g in before :: g in groups;
      CorroboratedAndOutliersSplitIds(before, id);
      var many := if |last.claimIds| > 1 then last.claimIds else [];
      var one := if |last.claimIds| == 1 then [last.claimIds[0]] else [];
      assert (many == last.claimIds && one == []) || (many == [] && one == last.claimIds);
      CountOfConcat(IdsWhere(before, true), many, id);
      CountOfConcat(IdsWhere(before, false), one, id);
      CountOfConcat(AllIds(before), last.claimIds, id);
    }
  }

  lemma CountOfConcat(a: seq<string>, b: seq<string>, id: string)
    ensures multiset(a + b)[id] == multiset(a)[id] + multiset(b)[id]
  {
  }

  /** Corroborated ids come from groups of several claims, outliers are alone in theirs. */
  lemma {:induction false} CorroboratedAndOutliersBySize(groups: seq<Interpretation>, id: string)
    ensures id in IdsWhere(groups, true) <==> exists g | g in groups :: |g.claimIds| > 1 && id in g.claimIds
    ensures id in IdsWhere(groups, false) <==> exists g | g in groups :: g.claimIds == [id]
  {
    if groups != [] {
      var before, last := groups[..|groups| - 1], groups[|groups| - 1];
      assert groups == before + [last];
      CorroboratedAndOutliersBySize(before, id);
      assert forall g :: g in groups <==> g in before || g == last;
      assert |last.claimIds| == 1 ==> last.claimIds == [last.claimIds[0]];
    }
  }

  // ----- conflicts are different interpretations -----

  lemma {:induction false} LastIsFirst(assertions: seq<Assertion>, key: string)
    requires forall i, j | 0 <= i < |assertions| && 0 <= j < |assertions| ::
               Normalize(assertions[i].key) == Normalize(assertions[j].key) ==> i == j
    ensures LastFor(assertions, key) == FirstFor(assertions, key)
    ensures forall i | 0 <= i < |assertions| && Normalize(assertions[i].key) == key ::
              FirstFor(assertions, key) == Some(assertions[i])
    ensures FirstFor(assertions, key).Some? ==>
              exists i :: 0 <= i < |assertions| && assertions[i] == FirstFor(assertions, key).value
                          && Normalize(assertions[i].key) == key
  {
    LastForIsSome(assertions, key);
    FirstForIsSome(assertions, key);
  }

  lemma {:induction false} LastForIsSome(assertions: seq<Assertion>, key: string)
    ensures LastFor(assertions, key).Some? ==>
              exists i :: 0 <= i < |assertions| && assertions[i] == LastFor(assertions, key).value
                          && Normalize(assertions[i].key) == key
    ensures LastFor(assertions, key).None? ==> forall i | 0 <= i < |assertions| :: Normalize(assertions[i].key) != key
  {
    hide Normalize;
    if assertions != [] && Normalize(assertions[|assertions| - 1].key) != key {
      LastForIsSome(assertions[..|assertions| - 1], key);
    }
  }

  lemma {:induction false} FirstForIsSome(assertions: seq<Assertion>, key: string)
    ensures FirstFor(assertions, key).Some? ==>
              exists i :: 0 <= i < |assertions| && assertions[i] == FirstFor(assertions, key).value
                          && Normalize(assertions[i].key) == key
    ensures FirstFor(assertions, key).None? ==> forall i | 0 <= i < |assertions| :: Normalize(assertions[i].key) != key
  {
    hide Normalize;
    if assertions != [] && Normalize(assertions[0].key) != key {
      FirstForIsSome(assertions[1..], key);
      assert forall i | 1 <= i < |assertions| :: assertions[i] == assertions[1..][i - 1];
    }
  }

  /** A record about `key` against claim `id` is among the conflicts. */
  ghost predicate Reports(conflicts: seq<Conflict>, id: string, key: string) {
    exists c | c in conflicts :: c.leftId == id && Normalize(c.key) == key
  }

  /** Some assertion up to here contradicts what the new claim says about `key`. */
  ghost predicate Contradicts(incoming: Claim, assertions: seq<Assertion>, key: string) {
    && LastFor(incoming.assertions, key).Some?
    && exists i | 0 <= i < |assertions| ::
         Normalize(assertions[i].key) == key
         && Normalize(assertions[i].value) != Normalize(LastFor(incoming.assertions, key).value.value)
  }

  lemma ContradictsOneMore(incoming: Claim, before: seq<Assertion>, a: Assertion, key: string)
    ensures Contradicts(incoming, before + [a], key) <==>
            Contradicts(incoming, before, key) || Contradicts(incoming, [a], key)
  {
    hide Normalize, LastFor;
    var all := before + [a];
    assert all[|before|] == a && forall i | 0 <= i < |before| :: all[i] == before[i];
    assert [a][0] == a;
  }

  lemma ReportsOneMore(prior: seq<Conflict>, more: seq<Conflict>, id: string, key: string)
    ensures Reports(prior + more, id, key) <==> Reports(prior, id, key) || Reports(more, id, key)
  {
    hide Normalize;
    assert forall c :: c in prior + more <==> c in prior || c in more;
  }

  lemma OneAssertionReports(incoming: Claim, existing: Claim, a: Assertion, key: string)
    ensures Reports(ConflictsFrom(incoming, existing, [a]), existing.id, key) <==> Contradicts(incoming, [a], key)
  {
    LastForIsSome(incoming.assertions, Normalize(a.key));
    hide Normalize, LastFor;
    assert ConflictsFrom(incoming, existing, [a][..0]) == [];
  }

  lemma {:induction false} ConflictsFromReports(incoming: Claim, existing: Claim, assertions: seq<Assertion>,
                                                key: string)
    ensures Reports(ConflictsFrom(incoming, existing, assertions), existing.id, key) <==>
              Contradicts(incoming, assertions, key)
    ensures forall c | c in ConflictsFrom(incoming, existing, assertions) ::
              c.leftId == existing.id && c.rightId == incoming.id
  {
    if assertions != [] {
      var before, a := assertions[..|assertions| - 1], assertions[|assertions| - 1];
      ConflictsFromReports(incoming, existing, before, key);
      OneAssertionReports(incoming, existing, a, key);
      ContradictsOneMore(incoming, before, a, key);
      assert assertions == before + [a];
      hide Normalize, LastFor, Reports, Contradicts;
      assert ConflictsFrom(incoming, existing, [a][..0]) == [];
      assert ConflictsFrom(incoming, existing, assertions)
          == ConflictsFrom(incoming, existing, before) + ConflictsFrom(incoming, existing, [a]);
      ReportsOneMore(ConflictsFrom(incoming, existing, before), ConflictsFrom(incoming, existing, [a]), existing.id,
                     key);
    }
  }

  ghost predicate ReportedByOne(incoming: Claim, c: Claim, id: string, key: string) {
    c.id == id && c.id != incoming.id && Reports(ConflictsFrom(incoming, c, c.assertions), id, key)
  }

  lemma OneClaimReports(incoming: Claim, c: Claim, id: string, key: string)
    ensures Reports(if c.id == incoming.id then [] else ConflictsFrom(incoming, c, c.assertions), id, key)
            <==> ReportedByOne(incoming, c, id, key)
  {
    ConflictsFromReports(incoming, c, c.assertions, key);
    hide Normalize, ConflictsFrom, Contradicts;
  }

  lemma {:induction false} AllConflictsReports(incoming: Claim, existing: seq<Claim>, id: string, key: string)
    ensures Reports(AllConflicts(incoming, existing), id, key) <==>
              exists c | c in existing :: ReportedByOne(incoming, c, id, key)
  {
    if existing == [] {
      hide Normalize, ConflictsFrom;
    } else {
      hide Normalize, ConflictsFrom, Reports, ReportedByOne;
      var before, last := existing[..|existing| - 1], existing[|existing| - 1];
      AllConflictsReports(incoming, before, id, key);
      assert existing == before + [last];
      var more := if last.id == incoming.id then [] else ConflictsFrom(incoming, last, last.assertions);
      ReportsOneMore(AllConflicts(incoming, before), more, id, key);
      OneClaimReports(incoming, last, id, key);
      assert forall c :: c in existing <==> c in before || c == last;
    }
  }

  /**
   For a key the new claim asserts, the claims reported in conflict with it are exactly those
   that clustering places in another interpretation than the new claim.
   */
  lemma ConflictsAreOtherInterpretations(incoming: Claim, existing: seq<Claim>, key: string, claim: Claim)
    requires DistinctClaimIds(existing + [incoming]) && claim in existing
    requires forall c | c in existing + [incoming] :: OneValuePerKey(c)
    requires ValueOf(incoming, key).Some?
    ensures Reports(AllConflicts(incoming, existing), claim.id, key) <==>
              exists i, j ::
                0 <= i < |Groups(key, existing + [incoming])| && 0 <= j < |Groups(key, existing + [incoming])| && i != j
                && claim.id in Groups(key, existing + [incoming])[i].claimIds
                && incoming.id in Groups(key, existing + [incoming])[j].claimIds
  {
    var claims := existing + [incoming];
    assert claim in claims && incoming in claims && claims[|existing|] == incoming;
    var k :| 0 <= k < |existing| && existing[k] == claim;
    assert claims[k] == claim && claim.id != incoming.id;
    assert forall i | 0 <= i < |existing| :: claims[i] == existing[i];
    ConflictMeansOtherValue(incoming, existing, key, claim);
    SameGroupMeansSameValue(key, claims, claim, incoming);
  }

  lemma ConflictMeansOtherValue(incoming: Claim, existing: seq<Claim>, key: string, claim: Claim)
    requires DistinctClaimIds(existing) && claim in existing && claim.id != incoming.id
    requires OneValuePerKey(claim) && OneValuePerKey(incoming) && ValueOf(incoming, key).Some?
    ensures Reports(AllConflicts(incoming, existing), claim.id, key) <==>
            ValueOf(claim, key).Some? && ValueOf(claim, key) != ValueOf(incoming, key)
  {
    hide Normalize;
    AllConflictsReports(incoming, existing, claim.id, key);
    assert forall c | c in existing :: c.id == claim.id ==> c == claim;
    ConflictsFromReports(incoming, claim, claim.assertions, key);
    LastIsFirst(incoming.assertions, key);
    LastIsFirst(claim.assertions, key);
  }

  lemma SameGroupMeansSameValue(key: string, claims: seq<Claim>, a: Claim, b: Claim)
    requires DistinctClaimIds(claims) && a in claims && b in claims && ValueOf(b, key).Some?
    ensures (ValueOf(a, key).Some? && ValueOf(a, key) != ValueOf(b, key)) <==>
              exists i, j :: 0 <= i < |Groups(key, claims)| && 0 <= j < |Groups(key, claims)| && i != j
                && a.id in Groups(key, claims)[i].claimIds && b.id in Groups(key, claims)[j].claimIds
  {
    var groups := Groups(key, claims);
    GroupsAreOk(key, claims);
    hide Groups, ValueOf, InGroup;
    forall i | 0 <= i < |groups|
      ensures a.id in groups[i].claimIds <==> ValueOf(a, key) == Some(groups[i].normalizedValue)
      ensures b.id in groups[i].claimIds <==> ValueOf(b, key) == Some(groups[i].normalizedValue)
    {
      MembersShareTheValue(key, claims, a, i);
      MembersShareTheValue(key, claims, b, i);
    }
    var j := AssertedValueHasGroup(key, claims, b);
    if ValueOf(a, key).Some? {
      var i := AssertedValueHasGroup(key, claims, a);
      assert a.id in groups[i].claimIds && b.id in groups[j].claimIds;
    }
  }
}
