/**
 Propagation of invalidity from sources to derived memories, repeated until nothing changes.
 The dependency graph may be cyclic. The result is the least set of invalid claims that
 contains the stale ones and is closed under derivation.
 */
module DependencyValidity {
  import opened Wrappers
  import opened GraphData

  predicate IsDerived(claim: Claim) {
    claim.tier in {SEMANTIC, PROCEDURAL}
  }

  predicate IsStale(claim: Claim) {
    claim.validity != CURRENT
  }

  /** A known claim has this id and is not CURRENT. */
  predicate IsStaleId(claims: seq<Claim>, id: string) {
    exists j | 0 <= j < |claims| :: claims[j].id == id && IsStale(claims[j])
  }

  /** The stale ones among the listed source ids, in their order; unknown ids are ignored. */
  function StaleSources(claims: seq<Claim>, ids: seq<string>): (r: seq<string>)
    ensures forall id :: id in r <==> id in ids && IsStaleId(claims, id)
  {
    if ids == [] then []
    else (if IsStaleId(claims, ids[0]) then [ids[0]] else []) + StaleSources(claims, ids[1..])
  }

  /** The lifecycle of a derived memory that is still valid. */
  function LiveLifecycle(claim: Claim): Lifecycle {
    if claim.promotedTo.Some? && claim.promotedTo.value != "" then PROMOTED else ACTIVE
  }

  function Invalidated(claim: Claim, projectState: string, stale: seq<string>): Claim {
    claim.(validity := INVALIDATED, lifecycle := INVALID_MEMORY, validUntil := Some(projectState),
           validityReason := DependsOnStale(stale),
           validityHistory := claim.validityHistory + [ValidityEvent(INVALIDATED, projectState, DependsOnStale(stale))])
  }

  // ----- who must end up stale -----

  ghost predicate DependsOn(claims: seq<Claim>, i: int, j: int) {
    0 <= i < |claims| && 0 <= j < |claims| && IsDerived(claims[i]) && claims[j].id in claims[i].sourceClaimIds
  }

  /** A chain of `n` derivations leads from claim `i` to a stale claim. */
  ghost predicate Reaches(claims: seq<Claim>, i: int, n: nat)
    decreases n
  {
    && 0 <= i < |claims|
    && if n == 0 then IsStale(claims[i]) else exists j :: DependsOn(claims, i, j) && Reaches(claims, j, n - 1)
  }

  ghost predicate Tainted(claims: seq<Claim>, i: int) {
    exists n: nat :: Reaches(claims, i, n)
  }

  /** Contains the stale claims, and every derived claim with a known source inside. */
  ghost predicate ClosedUnderDerivation(claims: seq<Claim>, s: set<int>) {
    && (forall i | 0 <= i < |claims| && IsStale(claims[i]) :: i in s)
    && (forall i, j | DependsOn(claims, i, j) && j in s :: i in s)
  }

  lemma {:induction false} ReachableIsInEveryClosedSet(claims: seq<Claim>, s: set<int>, i: int, n: nat)
    requires ClosedUnderDerivation(claims, s) && Reaches(claims, i, n)
    ensures i in s
    decreases n
  {
    if n > 0 {
      var j :| DependsOn(claims, i, j) && Reaches(claims, j, n - 1);
      ReachableIsInEveryClosedSet(claims, s, j, n - 1);
    }
  }

  ghost function TaintedSet(claims: seq<Claim>): set<int> {
    set i | 0 <= i < |claims| && Tainted(claims, i)
  }

  lemma TaintSpreads(claims: seq<Claim>, i: int, j: int)
    requires DependsOn(claims, i, j) && Tainted(claims, j)
    ensures Tainted(claims, i)
  {
    var n: nat :| Reaches(claims, j, n);
    assert Reaches(claims, i, n + 1);
  }

  /** The tainted claims are the least closed set: closed, and inside every closed set. */
  lemma TaintIsTheLeastFixpoint(claims: seq<Claim>, s: set<int>)
    ensures ClosedUnderDerivation(claims, TaintedSet(claims))
    ensures ClosedUnderDerivation(claims, s) ==> TaintedSet(claims) <= s
  {
    forall i | 0 <= i < |claims| && IsStale(claims[i]) ensures Tainted(claims, i) {
      assert Reaches(claims, i, 0);
    }
    forall i, j | DependsOn(claims, i, j) && j in TaintedSet(claims) ensures i in TaintedSet(claims) {
      TaintSpreads(claims, i, j);
    }
    if ClosedUnderDerivation(claims, s) {
      forall i | i in TaintedSet(claims) ensures i in s {
        var n: nat :| Reaches(claims, i, n);
        ReachableIsInEveryClosedSet(claims, s, i, n);
      }
    }
  }

  // ----- the rows a run leaves -----

  /** Derived claims show their validity in their lifecycle, and a valid one has no stale source. */
  ghost predicate SettledAt(claims: seq<Claim>, i: int)
    requires 0 <= i < |claims|
  {
    IsDerived(claims[i]) ==>
      if IsStale(claims[i]) then claims[i].lifecycle == INVALID_MEMORY
      else claims[i].lifecycle == LiveLifecycle(claims[i]) && StaleSources(claims, claims[i].sourceClaimIds) == []
  }

  ghost predicate Settled(claims: seq<Claim>) {
    forall i | 0 <= i < |claims| :: SettledAt(claims, i)
  }

  /** How one row may have changed since the start. */
  ghost predicate RowMoved(was: Claim, now: Claim, projectState: string, tainted: bool) {
    if !IsDerived(was) then now == was
    else if IsStale(was) || !IsStale(now) then
      now == was.(lifecycle := now.lifecycle)
    else
      && tainted
      && now.validityReason.DependsOnStale? && now.validityReason.ids != []
      && now == Invalidated(was, projectState, now.validityReason.ids)
  }

  ghost predicate Moved(was: seq<Claim>, now: seq<Claim>, projectState: string) {
    && |now| == |was|
    && forall i | 0 <= i < |was| :: RowMoved(was[i], now[i], projectState, Tainted(was, i))
  }

  /** A claim that became stale says of which of its sources: each of them is stale. */
  ghost predicate Blames(was: seq<Claim>, now: seq<Claim>) {
    && |now| == |was|
    && forall i | 0 <= i < |was| && !IsStale(was[i]) && IsStale(now[i]) ::
         && now[i].validityReason.DependsOnStale?
         && forall id | id in now[i].validityReason.ids :: id in now[i].sourceClaimIds && IsStaleId(now, id)
  }

  /** Rows with work left: derived claims not yet marked invalid in both fields. */
  ghost function Unsettled(claims: seq<Claim>): set<int> {
    set i | 0 <= i < |claims| && IsDerived(claims[i]) && !(IsStale(claims[i]) && claims[i].lifecycle == INVALID_MEMORY)
  }

  lemma StaleSourcesAreTainted(was: seq<Claim>, now: seq<Claim>, projectState: string, i: int)
    requires Moved(was, now, projectState) && 0 <= i < |now| && IsDerived(now[i])
    requires StaleSources(now, now[i].sourceClaimIds) != []
    ensures Tainted(was, i)
  {
    var stale := StaleSources(now, now[i].sourceClaimIds);
    assert stale[0] in stale;
    var j :| 0 <= j < |now| && now[j].id == stale[0] && IsStale(now[j]);
    assert RowMoved(was[j], now[j], projectState, Tainted(was, j));
    assert RowMoved(was[i], now[i], projectState, Tainted(was, i));
    if IsStale(was[j]) {
      assert Reaches(was, j, 0);
    }
    assert DependsOn(was, i, j);
    TaintSpreads(was, i, j);
  }

  /** Changing only lifecycles leaves every other row's stale sources as they were. */
  lemma {:induction false} SameValiditySameStaleSources(a: seq<Claim>, b: seq<Claim>, ids: seq<string>)
    requires |a| == |b| && forall i | 0 <= i < |a| :: a[i].id == b[i].id && (IsStale(a[i]) <==> IsStale(b[i]))
    ensures StaleSources(a, ids) == StaleSources(b, ids)
  {
    if ids != [] {
      SameValiditySameStaleSources(a, b, ids[1..]);
      assert IsStaleId(a, ids[0]) <==> IsStaleId(b, ids[0]) by {
        assert forall j | 0 <= j < |a| ::
                 (a[j].id == ids[0] && IsStale(a[j])) <==> (b[j].id == ids[0] && IsStale(b[j]));
      }
    }
  }

  /** What visiting row `i` makes of it, and whether the pass counts as having changed something. */
  function Visited(claims: seq<Claim>, i: int, projectState: string): (Claim, bool)
    requires 0 <= i < |claims|
  {
    var claim := claims[i];
    var stale := StaleSources(claims, claim.sourceClaimIds);
    if !IsDerived(claim) then (claim, false)
    else if IsStale(claim) then (claim.(lifecycle := INVALID_MEMORY), claim.lifecycle != INVALID_MEMORY)
    else if stale != [] then (Invalidated(claim, projectState, stale), true)
    else (claim.(lifecycle := LiveLifecycle(claim)), false)
  }

  method VisitClaim(store: ClaimStore, claims: seq<Claim>, i: int, projectState: string)
    returns (after: seq<Claim>, changed: bool)
    requires 0 <= i < |claims| && DistinctClaimIds(claims) && store.rows == claims
    modifies store
    ensures after == claims[i := Visited(claims, i, projectState).0] && changed == Visited(claims, i, projectState).1
    ensures store.rows == after
  {
    after, changed := claims, false;
    var claim := claims[i];
    if IsDerived(claim) {
      var stale := StaleSources(claims, claim.sourceClaimIds);
      if IsStale(claim) {
        if claim.lifecycle != INVALID_MEMORY {
          claim := claim.(lifecycle := INVALID_MEMORY);
          after := claims[i := claim];
          store.UpdateClaim(claim);
          changed := true;
        }
      } else if stale != [] {
        claim := Invalidated(claim, projectState, stale);
        after := claims[i := claim];
        store.UpdateClaim(claim);
        changed := true;
      } else if claim.lifecycle != LiveLifecycle(claim) {
        claim := claim.(lifecycle := LiveLifecycle(claim));
        after := claims[i := claim];
        store.UpdateClaim(claim);
      }
    }
  }

  lemma VisitKeepsMoved(was: seq<Claim>, claims: seq<Claim>, i: int, projectState: string)
    requires Moved(was, claims, projectState) && 0 <= i < |claims|
    ensures Moved(was, claims[i := Visited(claims, i, projectState).0], projectState)
  {
    assert RowMoved(was[i], claims[i], projectState, Tainted(was, i));
    if IsDerived(claims[i]) && !IsStale(claims[i]) && StaleSources(claims, claims[i].sourceClaimIds) != [] {
      StaleSourcesAreTainted(was, claims, projectState, i);
    }
    hide Tainted, StaleSources;
  }

  lemma VisitKeepsBlame(was: seq<Claim>, claims: seq<Claim>, i: int, projectState: string)
    requires Blames(was, claims) && 0 <= i < |claims|
    ensures Blames(was, claims[i := Visited(claims, i, projectState).0])
  {
    var after := claims[i := Visited(claims, i, projectState).0];
    forall id | IsStaleId(claims, id) ensures IsStaleId(after, id) {
      var j :| 0 <= j < |claims| && claims[j].id == id && IsStale(claims[j]);
      assert after[j].id == id && IsStale(after[j]);
    }
    hide IsStaleId;
  }

  lemma VisitShrinksWork(claims: seq<Claim>, i: int, projectState: string)
    requires 0 <= i < |claims|
    ensures var v := Visited(claims, i, projectState);
            && Unsettled(claims[i := v.0]) <= Unsettled(claims)
            && (v.1 ==> i in Unsettled(claims) && i !in Unsettled(claims[i := v.0]))
  {
    hide StaleSources;
  }

  lemma QuietVisitSettles(claims: seq<Claim>, i: int, projectState: string)
    requires 0 <= i < |claims| && !Visited(claims, i, projectState).1
    ensures var after := claims[i := Visited(claims, i, projectState).0];
            && SettledAt(after, i)
            && forall k | 0 <= k < |claims| && k != i && SettledAt(claims, k) :: SettledAt(after, k)
  {
    var after := claims[i := Visited(claims, i, projectState).0];
    forall k | 0 <= k < |claims|
      ensures StaleSources(after, claims[k].sourceClaimIds) == StaleSources(claims, claims[k].sourceClaimIds)
    {
      SameValiditySameStaleSources(after, claims, claims[k].sourceClaimIds);
    }
    hide StaleSources;
  }

  lemma VisitOfSettledIsIdle(claims: seq<Claim>, i: int, projectState: string)
    requires 0 <= i < |claims| && SettledAt(claims, i)
    ensures Visited(claims, i, projectState) == (claims[i], false)
  {
    hide StaleSources;
  }

  /** One pass over the list. */
  method Pass(store: ClaimStore, ghost was: seq<Claim>, projectState: string) returns (changed: bool)
    requires DistinctClaimIds(store.rows) && Moved(was, store.rows, projectState) && Blames(was, store.rows)
    modifies store
    ensures DistinctClaimIds(store.rows) && Moved(was, store.rows, projectState) && Blames(was, store.rows)
    ensures changed ==> Unsettled(store.rows) < Unsettled(old(store.rows))
    ensures !changed ==> Settled(store.rows) && Unsettled(store.rows) <= Unsettled(old(store.rows))
    ensures Settled(old(store.rows)) ==> store.rows == old(store.rows) && !changed
  {
    hide Moved, Blames, Visited, SettledAt, Unsettled;
    var claims := store.rows;
    changed := false;
    for i := 0 to |claims|
      invariant store.rows == claims && |claims| == |old(store.rows)|
      invariant DistinctClaimIds(claims) && Moved(was, claims, projectState) && Blames(was, claims)
      invariant Unsettled(claims) <= Unsettled(old(store.rows))
      invariant changed ==> Unsettled(claims) < Unsettled(old(store.rows))
      invariant !changed ==> forall k | 0 <= k < i :: SettledAt(claims, k)
      invariant Settled(old(store.rows)) ==> claims == old(store.rows) && !changed
    {
      ghost var before := claims;
      VisitKeepsId(claims, i, projectState);
      VisitKeepsMoved(was, claims, i, projectState);
      VisitKeepsBlame(was, claims, i, projectState);
      VisitShrinksWork(claims, i, projectState);
      if !Visited(claims, i, projectState).1 {
        QuietVisitSettles(claims, i, projectState);
      }
      if SettledAt(claims, i) {
        VisitOfSettledIsIdle(claims, i, projectState);
      }
      var moved: bool;
      claims, moved := VisitClaim(store, claims, i, projectState);
      changed := changed || moved;
    }
  }

  lemma VisitKeepsId(claims: seq<Claim>, i: int, projectState: string)
    requires 0 <= i < |claims|
    ensures Visited(claims, i, projectState).0.id == claims[i].id
  {
    hide StaleSources;
  }

  method SynchronizeDependencyValidity(store: ClaimStore, projectState: string)
    requires DistinctClaimIds(store.rows)
    modifies store
    ensures DistinctClaimIds(store.rows) && Synchronized(old(store.rows), store.rows, projectState)
    ensures Blames(old(store.rows), store.rows)
    ensures Settled(old(store.rows)) ==> store.rows == old(store.rows)
  {
    hide Moved, Blames, Settled, Unsettled;
    ghost var was := store.rows;
    NothingMoved(was, projectState);
    var changed := true;
    while changed
      invariant DistinctClaimIds(store.rows) && Moved(was, store.rows, projectState) && Blames(was, store.rows)
      invariant !changed ==> Settled(store.rows)
      invariant Settled(was) ==> store.rows == was
      decreases Unsettled(store.rows), changed
    {
      changed := Pass(store, was, projectState);
    }
  }

  lemma NothingMoved(was: seq<Claim>, projectState: string)
    ensures Moved(was, was, projectState) && Blames(was, was)
  {
  }

  ghost predicate Synchronized(was: seq<Claim>, now: seq<Claim>, projectState: string) {
    Moved(was, now, projectState) && Settled(now)
  }

  // ----- what that determines -----

  lemma {:induction false} TaintSurvives(was: seq<Claim>, now: seq<Claim>, projectState: string, i: int, n: nat)
    requires Synchronized(was, now, projectState) && DistinctClaimIds(was) && Reaches(was, i, n)
    ensures IsStale(now[i])
    decreases n
  {
    assert RowMoved(was[i], now[i], projectState, Tainted(was, i));
    if n > 0 {
      var j :| DependsOn(was, i, j) && Reaches(was, j, n - 1);
      TaintSurvives(was, now, projectState, j, n - 1);
      assert RowMoved(was[j], now[j], projectState, Tainted(was, j));
      assert IsStaleId(now, now[j].id);
      assert now[j].id in StaleSources(now, now[i].sourceClaimIds);
      assert SettledAt(now, i);
    }
  }

  /** A claim ends stale exactly when it started so or leads to a stale claim through known sources. */
  lemma StaleExactlyWhenTainted(was: seq<Claim>, now: seq<Claim>, projectState: string, i: int)
    requires Synchronized(was, now, projectState) && DistinctClaimIds(was) && 0 <= i < |was|
    ensures IsStale(now[i]) <==> Tainted(was, i)
    ensures IsStale(was[i]) ==> now[i].validity == was[i].validity
    ensures IsStale(now[i]) && !IsStale(was[i]) ==>
              now[i].validity == INVALIDATED && now[i].validUntil == Some(projectState)
    ensures IsDerived(now[i]) ==> (now[i].lifecycle == INVALID_MEMORY <==> IsStale(now[i]))
  {
    assert RowMoved(was[i], now[i], projectState, Tainted(was, i)) && SettledAt(now, i);
    if Tainted(was, i) {
      var n: nat :| Reaches(was, i, n);
      TaintSurvives(was, now, projectState, i, n);
    }
    if IsStale(was[i]) {
      assert Reaches(was, i, 0);
    }
  }

  /** A derived claim's lifecycle afterwards, and what a claim that became stale records. */
  lemma SynchronizedExactly(was: seq<Claim>, now: seq<Claim>, projectState: string, i: int)
    requires Synchronized(was, now, projectState) && 0 <= i < |was|
    ensures now[i].tier == SEMANTIC || now[i].tier == PROCEDURAL ==>
              && (now[i].lifecycle == INVALID_MEMORY <==> now[i].validity != CURRENT)
              && (now[i].validity == CURRENT ==>
                    now[i].lifecycle == match now[i].promotedTo
                                        case Some(id) => if |id| > 0 then PROMOTED else ACTIVE
                                        case None => ACTIVE)
    ensures was[i].tier == WORKING || was[i].tier == EPISODIC ==> now[i] == was[i]
    ensures now[i] == was[i].(lifecycle := now[i].lifecycle) ||
            (was[i].validity == CURRENT && now[i].validity == INVALIDATED
             && now[i] ==
               was[i].(validity := INVALIDATED, lifecycle := INVALID_MEMORY, validUntil := Some(projectState),
                                  validityReason := now[i].validityReason,
                                  validityHistory := was[i].validityHistory
                                    + [ValidityEvent(INVALIDATED, projectState, now[i].validityReason)]))
  {
    assert RowMoved(was[i], now[i], projectState, Tainted(was, i)) && SettledAt(now, i);
    hide Tainted, StaleSources;
  }

  lemma {:induction false} ReachesAnywhere(a: seq<Claim>, b: seq<Claim>, i: int, k: int, n: nat)
    requires Reaches(a, i, n) && 0 <= k < |b| && b[k] == a[i]
    requires forall c | c in a :: c in b
    ensures Reaches(b, k, n)
    decreases n
  {
    if n > 0 {
      var j :| DependsOn(a, i, j) && Reaches(a, j, n - 1);
      assert a[j] in b;
      var l :| 0 <= l < |b| && b[l] == a[j];
      ReachesAnywhere(a, b, j, l, n - 1);
      assert DependsOn(b, k, l);
    }
  }

  /** The final statuses do not depend on the order in which the claims are listed. */
  lemma OrderDoesNotMatter(a: seq<Claim>, b: seq<Claim>, a': seq<Claim>, b': seq<Claim>, s: string, s': string, i: int,
                           k: int)
    requires Synchronized(a, a', s) && Synchronized(b, b', s') && DistinctClaimIds(a) && DistinctClaimIds(b)
    requires forall c :: c in a <==> c in b
    requires 0 <= i < |a| && 0 <= k < |b| && a[i] == b[k]
    ensures a'[i].validity == b'[k].validity && (IsDerived(a[i]) ==> a'[i].lifecycle == b'[k].lifecycle)
  {
    StaleExactlyWhenTainted(a, a', s, i);
    StaleExactlyWhenTainted(b, b', s', k);
    if Tainted(a, i) {
      var n: nat :| Reaches(a, i, n);
      ReachesAnywhere(a, b, i, k, n);
    }
    if Tainted(b, k) {
      var n: nat :| Reaches(b, k, n);
      ReachesAnywhere(b, a, k, i, n);
    }
    assert RowMoved(a[i], a'[i], s, Tainted(a, i)) && RowMoved(b[k], b'[k], s', Tainted(b, k));
    assert SettledAt(a', i) && SettledAt(b', k);
  }
}
