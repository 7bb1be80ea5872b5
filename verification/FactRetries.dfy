/**
 Committing a turn onto any visible facts, also onto ones that leave a key with several active
 facts or that the same turn has recorded before: what it adds for a key is one chain on top of
 the fact the index names, and it adds something exactly when it gives the key another value.
 */
module FactRetries {
  import opened Wrappers
  import opened ConversationFacts
  import opened FactRefinement
  import opened FactLog
  import opened FactChanges

  // ----- the second commit, candidate by candidate -----

  /** A trail whose last fact is the only one of the added ones that none of them supersedes. */
  ghost predicate Chain(first: map<Key, Fact>, last: map<Key, Fact>, added: set<Fact>, key: Key) {
    && Trail(first, last, added, key)
    && (Recorded(added, key) ==>
          && (forall h | h in added :: h.supersedes != Some(last[key].id))
          && forall g | g in added && g.key == key && g.id != last[key].id ::
               exists h :: h in added && h.supersedes == Some(g.id))
  }

  /** The index holds the stated value, or what it held at first. */
  ghost predicate Told(fold: Fold, first: map<Key, Fact>, last: map<Key, Fact>, key: Key, latest: Option<string>) {
    if latest.Some? then key in last && fold(last[key].value) == fold(latest.value)
    else (key in last <==> key in first) && (key in first ==> CoreOf(last[key]) == CoreOf(first[key]))
  }

  lemma ChainRepeats(first: map<Key, Fact>, index: map<Key, Fact>, index': map<Key, Fact>, added: set<Fact>, key: Key)
    requires Chain(first, index, added, key)
    requires index'.Keys == index.Keys && forall k | k in index :: CoreOf(index'[k]) == CoreOf(index[k])
    ensures Chain(first, index', added, key)
  {
    if key in index {
      SameCore(index[key], index'[key]);
    }
    hide CoreOf;
  }

  lemma SameCore(a: Fact, b: Fact)
    requires CoreOf(a) == CoreOf(b)
    ensures a.id == b.id && a.key == b.key && a.value == b.value && a.supersedes == b.supersedes
    ensures a.sourceTurn == b.sourceTurn
  {
    assert CoreOf(a).id == CoreOf(b).id && CoreOf(a).key == CoreOf(b).key && CoreOf(a).value == CoreOf(b).value;
    assert CoreOf(a).supersedes == CoreOf(b).supersedes && CoreOf(a).sourceTurn == CoreOf(b).sourceTurn;
  }

  /** A saved fact supersedes the last one of its key and nothing of another key. */
  lemma ChainGrows(fold: Fold, first: map<Key, Fact>, index: map<Key, Fact>, cores: set<Fact>, added: set<Fact>,
                   c: Fact, key: Key)
    requires Chain(first, index, added, key) && c.supersedes == None && !Repeats(fold, index, c)
    requires UniqueIds(cores) && LinksKnown(cores) && IndexKnown(cores, index) && added <= cores
    requires forall g | g in cores :: g.id != c.id
    ensures Chain(first, index[c.key := Saved(index, c)], added + {CoreOf(Saved(index, c))}, key)
  {
    var saved := CoreOf(Saved(index, c));
    TrailStep(fold, first, index, index[c.key := Saved(index, c)], added, c, key);
    assert saved.id == c.id == Saved(index, c).id && saved.key == c.key && saved in added + {saved};
    IndexedCores(cores, index);
    hide Trail, CoreOf, Repeats, Saved, IndexKnown;
    if c.key == key {
      SavedIsLast(first, index, cores, added, saved, key);
    } else {
      OtherKeyStays(first, index, cores, added, saved, key);
    }
  }

  lemma IndexedCores(cores: set<Fact>, index: map<Key, Fact>)
    requires IndexKnown(cores, index)
    ensures forall k | k in index :: exists f :: f in cores && f.id == index[k].id && f.key == k
  {
    forall k | k in index ensures exists f :: f in cores && f.id == index[k].id && f.key == k {
      assert CoreOf(index[k]) in cores && CoreOf(index[k]).id == index[k].id && CoreOf(index[k]).key == k;
    }
  }

  lemma OtherKeyStays(first: map<Key, Fact>, index: map<Key, Fact>, cores: set<Fact>, added: set<Fact>, saved: Fact,
                      key: Key)
    requires Chain(first, index, added, key) && saved.key != key && UniqueIds(cores)
    requires saved.supersedes == if saved.key in index then Some(index[saved.key].id) else None
    requires forall k | k in index :: exists f :: f in cores && f.id == index[k].id && f.key == k
    ensures Recorded(added + {saved}, key) ==>
              && (forall h | h in added + {saved} :: h.supersedes != Some(index[key].id))
              && forall g | g in added + {saved} && g.key == key && g.id != index[key].id ::
                   exists h :: h in added + {saved} && h.supersedes == Some(g.id)
  {
    if Recorded(added + {saved}, key) {
      assert Recorded(added, key);
      IndexedWhenRecorded(first, index, added, key);
      hide Trail;
      assert saved.supersedes != Some(index[key].id);
      assert forall h :: h in added ==> h in added + {saved};
    }
  }

  lemma SavedIsLast(first: map<Key, Fact>, index: map<Key, Fact>, cores: set<Fact>, added: set<Fact>, saved: Fact,
                    key: Key)
    requires Chain(first, index, added, key) && saved.supersedes == if key in index then Some(index[key].id) else None
    requires LinksKnown(cores) && added <= cores && forall g | g in cores :: g.id != saved.id
    requires key in index ==> exists f :: f in cores && f.id == index[key].id
    ensures forall h | h in added + {saved} :: h.supersedes != Some(saved.id)
    ensures forall g | g in added && g.key == key :: exists h :: h in added + {saved} && h.supersedes == Some(g.id)
  {
    hide Trail;
    forall h | h in added + {saved} ensures h.supersedes != Some(saved.id) {
      assert h in cores || h == saved;
    }
    forall g | g in added && g.key == key ensures exists h :: h in added + {saved} && h.supersedes == Some(g.id) {
      assert key in index by {
        assert Recorded(added, key) && Trail(first, index, added, key);
        IndexedWhenRecorded(first, index, added, key);
      }
      OlderInChain(first, index, added, key, saved, g);
    }
  }

  lemma IndexedWhenRecorded(first: map<Key, Fact>, index: map<Key, Fact>, added: set<Fact>, key: Key)
    requires Trail(first, index, added, key) && Recorded(added, key)
    ensures key in index
  {
  }

  lemma OlderInChain(first: map<Key, Fact>, index: map<Key, Fact>, added: set<Fact>, key: Key, saved: Fact, g: Fact)
    requires Chain(first, index, added, key) && g in added && g.key == key && key in index
    requires saved.supersedes == Some(index[key].id)
    ensures exists h :: h in added + {saved} && h.supersedes == Some(g.id)
  {
    assert Recorded(added, key);
    if g.id == index[key].id {
      assert saved in added + {saved};
    } else {
      var h :| h in added && h.supersedes == Some(g.id);
      assert h in added + {saved};
    }
  }

  /** What the candidates so far have made of the index, and what they added. */
  ghost predicate InChain(fold: Fold, x: Scope, p: Progress, q: Progress, turn: string, candidates: seq<Fact>,
                          key: Key) {
    var added := InScope(x, CoreSet(q.facts) - CoreSet(p.facts), {turn});
    && Chain(ScopeIndex(x, p), ScopeIndex(x, q), added, key)
    && Told(fold, ScopeIndex(x, p), ScopeIndex(x, q), key, LatestOf(x, candidates, key))
    && (Recorded(added, key) <==> Alters(fold, x, ValueIn(ScopeIndex(x, p), key), candidates, key))
  }

  function ValueIn(index: map<Key, Fact>, key: Key): Option<string> {
    if key in index then Some(index[key].value) else None
  }

  /** What the key says after the candidates, when it said `start` before them. */
  function Stated(x: Scope, start: Option<string>, candidates: seq<Fact>, key: Key): Option<string> {
    var own := LatestOf(x, candidates, key);
    if own.Some? then own else start
  }

  /** One of the candidates gives the key a value other than the one it then has. */
  predicate Alters(fold: Fold, x: Scope, start: Option<string>, candidates: seq<Fact>, key: Key) {
    candidates != []
    && var before, last := candidates[..|candidates| - 1], candidates[|candidates| - 1];
    || Alters(fold, x, start, before, key)
    || (x.Contains(last) && last.key == key && !Says(fold, Stated(x, start, before, key), last.value))
  }

  lemma AltersOneMore(fold: Fold, x: Scope, start: Option<string>, candidates: seq<Fact>, c: Fact, key: Key)
    ensures Alters(fold, x, start, candidates + [c], key) <==>
            Alters(fold, x, start, candidates, key)
              || (x.Contains(c) && c.key == key && !Says(fold, Stated(x, start, candidates, key), c.value))
  {
    assert (candidates + [c])[..|candidates|] == candidates;
    hide Stated, Says;
  }

  /** A candidate repeats the indexed fact exactly when it repeats what the key says by then. */
  lemma ToldIsStated(fold: Fold, x: Scope, first: map<Key, Fact>, index: map<Key, Fact>, candidates: seq<Fact>, c: Fact)
    requires Told(fold, first, index, c.key, LatestOf(x, candidates, c.key))
    ensures Repeats(fold, index, c) <==> Says(fold, Stated(x, ValueIn(first, c.key), candidates, c.key), c.value)
  {
    if c.key in first && c.key in index && CoreOf(index[c.key]) == CoreOf(first[c.key]) {
      SameCore(index[c.key], first[c.key]);
    }
    hide CoreOf, LatestOf;
  }

  lemma LatestOfMore(x: Scope, candidates: seq<Fact>, c: Fact, key: Key)
    ensures LatestOf(x, candidates + [c], key) ==
              if x.Contains(c) && c.key == key then Some(c.value) else LatestOf(x, candidates, key)
  {
    assert (candidates + [c])[..|candidates|] == candidates;
  }

  lemma NewInScope(x: Scope, earlier: set<Fact>, cores: set<Fact>, turn: string, index: map<Key, Fact>, c: Fact)
    requires x.Contains(c) && c.sourceTurn == turn && earlier <= cores && forall g | g in cores :: g.id != c.id
    ensures InScope(x, cores + {CoreOf(Saved(index, c))} - earlier, {turn}) ==
              InScope(x, cores - earlier, {turn}) + {CoreOf(Saved(index, c))}
  {
    var saved := CoreOf(Saved(index, c));
    assert x.Contains(saved) && saved.sourceTurn == turn && saved.id == c.id;
    hide CoreOf, Saved;
  }

  /** What one candidate of the scope does to the index and to the added facts. */
  lemma ScopedAdds(fold: Fold, x: Scope, p: Progress, q: Progress, turn: string, session: string, c: Fact)
    requires Mid(x, session, q) && IsCandidate(c, turn, session) && x.Takes(session, c.profile)
    requires CoreSet(p.facts) <= CoreSet(q.facts) && forall g | g in CoreSet(q.facts) :: g.id != c.id
    ensures var index, q' := ScopeIndex(x, q), CommitOne(fold, q, turn, c);
            var added, added' := InScope(x, CoreSet(q.facts) - CoreSet(p.facts), {turn}),
                                 InScope(x, CoreSet(q'.facts) - CoreSet(p.facts), {turn});
            && IndexedAs(fold, index, ScopeIndex(x, q'), c)
            && added' == (if Repeats(fold, index, c) then added else added + {CoreOf(Saved(index, c))})
            && added <= CoreSet(q.facts) && IndexKnown(CoreSet(q.facts), index)
            && UniqueIds(CoreSet(q.facts)) && LinksKnown(CoreSet(q.facts)) && c.supersedes == None && x.Contains(c)
  {
    hide IsUserKey, Consolidated, InScope, UniqueIds, LinksKnown, Separated, Sided, Repeats, IndexKnown, CoreSet;
    var index, cores := ScopeIndex(x, q), CoreSet(q.facts);
    LogHasUniqueIds(cores);
    CommitOneKeepsMid(fold, x, turn, session, q, c);
    ConsolidatedCores(fold, q.facts, index, turn, c);
    NewInScope(x, CoreSet(p.facts), cores, turn, index, c);
    AddedAreCores(x, cores, CoreSet(p.facts), turn);
  }

  /** The index after a candidate: as it was, confirmations aside, or with the saved fact. */
  ghost predicate IndexedAs(fold: Fold, index: map<Key, Fact>, index': map<Key, Fact>, c: Fact) {
    if Repeats(fold, index, c) then index'.Keys == index.Keys
       && (forall k | k in index :: CoreOf(index'[k]) == CoreOf(index[k]))
    else index' == index[c.key := Saved(index, c)]
  }

  lemma ScopedAgain(fold: Fold, x: Scope, p: Progress, q: Progress, turn: string, session: string, before: seq<Fact>,
                    c: Fact, key: Key)
    requires Mid(x, session, q) && IsCandidate(c, turn, session) && x.Takes(session, c.profile)
    requires CoreSet(p.facts) <= CoreSet(q.facts) && forall g | g in CoreSet(q.facts) :: g.id != c.id
    requires InChain(fold, x, p, q, turn, before, key)
    ensures InChain(fold, x, p, CommitOne(fold, q, turn, c), turn, before + [c], key)
  {
    var first, index, cores := ScopeIndex(x, p), ScopeIndex(x, q), CoreSet(q.facts);
    var added := InScope(x, cores - CoreSet(p.facts), {turn});
    var q' := CommitOne(fold, q, turn, c);
    hide Mid, IsCandidate, CoreSet, CommitOne, LatestOf, Alters, Stated, Says, Recorded, Trail, Chain, InScope, Told,
         UniqueIds, LinksKnown, Repeats, IndexKnown, IndexedAs;
    ScopedAdds(fold, x, p, q, turn, session, c);
    LatestOfMore(x, before, c, key);
    AltersOneMore(fold, x, ValueIn(first, key), before, c, key);
    TellOne(fold, first, index, ScopeIndex(x, q'), c, key, LatestOf(x, before, key));
    RecordedOneMore(added, index, c, key);
    if c.key == key {
      ToldIsStated(fold, x, first, index, before, c);
    }
    hide ScopeIndex, CoreOf, Saved;
    ChainStep(fold, first, index, ScopeIndex(x, q'), cores, added, c, key);
  }

  lemma ChainStep(fold: Fold, first: map<Key, Fact>, index: map<Key, Fact>, index': map<Key, Fact>, cores: set<Fact>,
                  added: set<Fact>, c: Fact, key: Key)
    requires Chain(first, index, added, key) && c.supersedes == None && IndexedAs(fold, index, index', c)
    requires UniqueIds(cores) && LinksKnown(cores) && IndexKnown(cores, index) && added <= cores
    requires forall g | g in cores :: g.id != c.id
    ensures Chain(first, index', if Repeats(fold, index, c) then added else added + {CoreOf(Saved(index, c))}, key)
  {
    hide Chain, UniqueIds, LinksKnown, IndexKnown;
    if Repeats(fold, index, c) {
      ChainRepeats(first, index, index', added, key);
    } else {
      ChainGrows(fold, first, index, cores, added, c, key);
    }
  }

  lemma AddedAreCores(x: Scope, cores: set<Fact>, earlier: set<Fact>, turn: string)
    ensures InScope(x, cores - earlier, {turn}) <= cores
  {
  }

  lemma RecordedOneMore(added: set<Fact>, index: map<Key, Fact>, c: Fact, key: Key)
    ensures Recorded(added + {CoreOf(Saved(index, c))}, key) <==> Recorded(added, key) || c.key == key
  {
    var saved := CoreOf(Saved(index, c));
    assert saved.key == c.key && saved in added + {saved};
    hide CoreOf, Saved;
    assert forall g :: g in added ==> g in added + {saved};
  }

  lemma TellOne(fold: Fold, first: map<Key, Fact>, index: map<Key, Fact>, index': map<Key, Fact>, c: Fact, key: Key,
                latest: Option<string>)
    requires Told(fold, first, index, key, latest)
    requires IndexedAs(fold, index, index', c)
    ensures Told(fold, first, index', key, if c.key == key then Some(c.value) else latest)
  {
    if Repeats(fold, index, c) && key in index {
      SameCore(index'[key], index[key]);
    }
    hide CoreOf;
  }

  lemma ForeignAgain(fold: Fold, x: Scope, p: Progress, q: Progress, turn: string, session: string, before: seq<Fact>,
                     c: Fact, key: Key)
    requires Mid(x, session, q) && IsCandidate(c, turn, session) && session in x.Sessions()
    requires !x.Takes(session, c.profile)
    requires forall g | g in CoreSet(q.facts) :: g.id != c.id
    requires InChain(fold, x, p, q, turn, before, key)
    ensures InChain(fold, x, p, CommitOne(fold, q, turn, c), turn, before + [c], key)
  {
    var t := Turn(turn, session, before);
    LatestOfMore(x, before, c, key);
    AltersOneMore(fold, x, ValueIn(ScopeIndex(x, p), key), before, c, key);
    hide Mid, IsUserKey, Consolidated, Repeats, WellKeyed, Chain, Told, LatestOf, Recorded, Alters;
    CommitOneKeepsMid(fold, x, turn, session, q, c);
    var q' := CommitOne(fold, q, turn, c);
    assert !x.Contains(c) && !x.Contains(CoreOf(Saved(if c.profile then q.profileByKey else q.byKey, c)));
    assert ScopeIndex(x, q') == ScopeIndex(x, q);
    hide CoreOf, Saved;
    assert InScope(x, CoreSet(q'.facts) - CoreSet(p.facts), {turn}) ==
             InScope(x, CoreSet(q.facts) - CoreSet(p.facts), {turn});
  }

  lemma NothingAgain(fold: Fold, x: Scope, p: Progress, turn: string, key: Key)
    ensures InChain(fold, x, p, p, turn, [], key)
  {
    assert CoreSet(p.facts) - CoreSet(p.facts) == {};
  }

  /** The whole second commit, from any index. */
  lemma {:induction false} CommitAgain(fold: Fold, x: Scope, p: Progress, turn: string, session: string,
                                       candidates: seq<Fact>, n: nat, key: Key)
    requires Mid(x, session, p) && AreCandidates(p.facts, turn, session, candidates) && n <= |candidates|
    requires session in x.Sessions()
    ensures InChain(fold, x, p, CommitAll(fold, p, turn, candidates[..n]), turn, candidates[..n], key)
  {
    hide Mid, InChain, CommitOne, CoreSet, IsCandidate;
    if n == 0 {
      NothingAgain(fold, x, p, turn, key);
    } else {
      assert candidates[..n][..n - 1] == candidates[..n - 1]
             && candidates[..n] == candidates[..n - 1] + [candidates[n - 1]];
      CommitAgain(fold, x, p, turn, session, candidates, n - 1, key);
      CommitAllKeepsMid(fold, x, turn, session, p, candidates, n - 1);
      var q := CommitAll(fold, p, turn, candidates[..n - 1]);
      assert forall g | g in CoreSet(q.facts) :: g in CoreSet(p.facts) || g in CoreSet(q.facts) - CoreSet(p.facts);
      if x.Takes(session, candidates[n - 1].profile) {
        ScopedAgain(fold, x, p, q, turn, session, candidates[..n - 1], candidates[n - 1], key);
      } else {
        ForeignAgain(fold, x, p, q, turn, session, candidates[..n - 1], candidates[n - 1], key);
      }
    }
  }

  // ----- what is active afterwards -----

  /** The one added fact of the key that no added fact supersedes. */
  ghost predicate IsCap(added: set<Fact>, key: Key, cap: Fact) {
    && cap in added && cap.key == key && (forall h | h in added :: h.supersedes != Some(cap.id))
    && forall g | g in added && g.key == key && g != cap :: exists h :: h in added && h.supersedes == Some(g.id)
  }

  /**
   For this key the added facts lie over the visible ones: they supersede the base only, and one of them
   caps the others.
   */
  ghost predicate Over(visible: set<Fact>, added: set<Fact>, key: Key, base: Option<Fact>) {
    && UniqueIds(visible + added) && visible !! added
    && (forall g, h | g in visible && h in added :: g.supersedes != Some(h.id))
    && (base.Some? ==> Recorded(added, key) && exists g :: g in added && g.supersedes == Some(base.value.id))
    && (forall f, g | f in visible && f.key == key && g in added && g.supersedes == Some(f.id) :: base == Some(f))
    && (Recorded(added, key) ==> exists cap :: IsCap(added, key, cap))
  }

  lemma VisibleOver(visible: set<Fact>, added: set<Fact>, key: Key, base: Option<Fact>, f: Fact)
    requires Over(visible, added, key, base) && f in visible && f.key == key
    ensures IsActive(visible + added, f) <==> IsActive(visible, f) && base != Some(f)
  {
    if IsActive(visible, f) && base != Some(f) {
      assert forall g | g in visible + added :: g.supersedes != Some(f.id);
    }
  }

  lemma AddedOver(visible: set<Fact>, added: set<Fact>, key: Key, base: Option<Fact>, f: Fact)
    requires Over(visible, added, key, base) && f in added && f.key == key
    ensures IsActive(visible + added, f) <==> IsCap(added, key, f)
  {
    assert Recorded(added, key);
    var cap :| IsCap(added, key, cap);
    if f != cap {
      var h :| h in added && h.supersedes == Some(f.id);
      assert h in visible + added;
    }
  }

  lemma OneCap(added: set<Fact>, key: Key, a: Fact, b: Fact)
    requires IsCap(added, key, a) && IsCap(added, key, b)
    ensures a == b
  {
  }

  /** How many facts of the key are active with the added ones, one or more than one. */
  lemma TwoOver(visible: set<Fact>, added: set<Fact>, key: Key, base: Option<Fact>)
    requires Over(visible, added, key, base) && (base.Some? ==> IsActive(visible, base.value) && base.value.key == key)
    ensures TwoActive(visible + added, key) <==>
            TwoActive(visible, key)
              || (Recorded(added, key) && base.None? && exists f :: IsActive(visible, f) && f.key == key)
  {
    if TwoActive(visible + added, key) {
      var f, g :| IsActive(visible + added, f) && IsActive(visible + added, g) && f.key == key && g.key == key
                  && f != g;
      if f in visible { VisibleOver(visible, added, key, base, f); } else { AddedOver(visible, added, key, base, f); }
      if g in visible { VisibleOver(visible, added, key, base, g); } else { AddedOver(visible, added, key, base, g); }
      hide Over, IsActive;
      if f in added && g in added { OneCap(added, key, f, g); }
    } else {
      if Recorded(added, key) {
        var cap :| IsCap(added, key, cap);
        AddedOver(visible, added, key, base, cap);
      }
      forall f | IsActive(visible, f) && f.key == key ensures IsActive(visible + added, f) <==> base != Some(f) {
        VisibleOver(visible, added, key, base, f);
      }
      hide Over, IsActive, IsCap;
    }
  }

  lemma ChainIsCapped(first: map<Key, Fact>, last: map<Key, Fact>, added: set<Fact>, key: Key)
    requires Chain(first, last, added, key) && Recorded(added, key) && UniqueIds(added)
    ensures key in last && CoreOf(last[key]).value == last[key].value && IsCap(added, key, CoreOf(last[key]))
  {
    var cap := CoreOf(last[key]);
    assert cap.id == last[key].id && cap.key == last[key].key;
    hide CoreOf;
  }

  /** The index names visible facts under their own keys; for keys of the scope's kind it names active ones. */
  ghost predicate Names(x: Scope, index: map<Key, Fact>, visible: set<Fact>) {
    && (forall k, a | k in index && a in visible && a.id == index[k].id :: a.key == k)
    && (forall k | k in index && IsUserKey(k) == x.OneProfile? ::
          index[k].key == k && IsActive(visible, CoreOf(index[k])))
    && forall a | IsActive(visible, a) :: a.key in index
  }

  function Base(index: map<Key, Fact>, added: set<Fact>, key: Key): Option<Fact> {
    if key in index && exists g | g in added :: g.key == key then Some(CoreOf(index[key])) else None
  }

  lemma ChainIsOver(x: Scope, first: map<Key, Fact>, last: map<Key, Fact>, visible: set<Fact>, added: set<Fact>,
                    key: Key)
    requires UniqueIds(visible + added) && visible !! added && Names(x, first, visible)
    requires (forall g, h | g in visible && h in added :: g.supersedes != Some(h.id))
    requires forall k :: Chain(first, last, added, k)
    requires forall f | f in added :: IsUserKey(f.key) == x.OneProfile?
    ensures Over(visible, added, key, Base(first, added, key))
  {
    hide IsUserKey;
    assert Chain(first, last, added, key);
    forall f, g | f in visible && f.key == key && g in added && g.supersedes == Some(f.id)
      ensures Base(first, added, key) == Some(f)
    {
      assert Chain(first, last, added, g.key);
      LinkIsIndexed(x, first, last, visible, added, f, g);
    }
    if Recorded(added, key) {
      ChainIsCapped(first, last, added, key);
    }
    assert key in first ==> CoreOf(first[key]).id == first[key].id;
    hide CoreOf, Names, IsCap;
  }

  lemma LinkIsIndexed(x: Scope, first: map<Key, Fact>, last: map<Key, Fact>, visible: set<Fact>, added: set<Fact>,
                      f: Fact, g: Fact)
    requires UniqueIds(visible + added) && visible !! added && Names(x, first, visible) && f in visible && g in added
    requires Chain(first, last, added, g.key) && g.supersedes == Some(f.id) && IsUserKey(g.key) == x.OneProfile?
    ensures g.key == f.key && f.key in first && f == CoreOf(first[f.key])
  {
    assert Recorded(added, g.key);
    assert LinksInto(added, first, g);
    assert forall h | h in added :: h.id != f.id;
    var k := g.key;
    assert k in first && first[k].id == f.id && CoreOf(first[k]).id == first[k].id
           && IsActive(visible, CoreOf(first[k]));
  }

  // ----- a commit on a log -----

  ghost predicate Sound(x: Scope, log: Log, live: seq<Turn>) {
    LogOk(CoreSet(log.facts)) && Separated(x, CoreSet(log.facts)) && VisibleAreLive(x, log, live)
  }

  lemma ListNames(x: Scope, log: Log, live: seq<Turn>)
    requires Sound(x, log, live)
    ensures Names(x, IndexByKey(Indexed(x, log)), Shown(x, log, live))
  {
    IndexedIsListed(x, log, live);
    IndexIsFromList(Indexed(x, log));
    var index, visible := IndexByKey(Indexed(x, log)), InScope(x, CoreSet(log.facts), TurnIds(live));
    hide IndexByKey, Indexed, TurnIds, IsUserKey, IsActive, VisibleAreLive, Separated;
    ActiveIsIn(visible);
    forall a | a in visible
      ensures IsActive(visible, a) ==> a.key in index
      ensures forall k | k in index && a.id == index[k].id :: a.key == k
    {
      var f :| f in log.facts && CoreOf(f) == a;
      assert x.Contains(f) && f.key == a.key;
      forall k | k in index && a.id == index[k].id ensures a.key == k {
        assert index[k] in log.facts && CoreOf(index[k]) in CoreSet(log.facts) && CoreOf(index[k]).id == a.id;
        assert CoreOf(index[k]) == a && CoreOf(index[k]).key == index[k].key;
      }
    }
    forall k | k in index && IsUserKey(k) == x.OneProfile?
      ensures index[k].key == k && IsActive(visible, CoreOf(index[k]))
    {
      assert x.Contains(index[k]) && index[k] in log.facts;
    }
  }

  lemma ActiveIsIn(facts: set<Fact>)
    ensures forall a | IsActive(facts, a) :: a in facts
  {
  }

  lemma AddedAreNew(x: Scope, cores: set<Fact>, cores': set<Fact>, turns: set<string>, turn: string)
    requires cores <= cores' && turn in turns && (forall g | g in cores' - cores :: g.sourceTurn == turn)
    ensures InScope(x, cores', turns) == InScope(x, cores, turns) + InScope(x, cores' - cores, {turn})
    ensures InScope(x, cores, turns) !! InScope(x, cores' - cores, {turn})
  {
  }

  lemma NoLinksToNew(cores: set<Fact>, cores': set<Fact>)
    requires LinksKnown(cores) && UniqueIds(cores') && cores <= cores'
    ensures forall g, h | g in cores && h in cores' - cores :: g.supersedes != Some(h.id)
  {
  }

  lemma SoundAfter(x: Scope, log: Log, live: seq<Turn>, session: string, turn: string, q: Progress)
    requires Sound(x, log, live) && Mid(x, session, q) && turn in TurnIds(live) && turn !in log.hidden
    requires CoreSet(log.facts) <= CoreSet(q.facts)
    requires forall g | g in CoreSet(q.facts) - CoreSet(log.facts) :: g.sourceTurn == turn
    ensures Sound(x, log.(facts := q.facts), live)
  {
    hide LogOk, Separated, IndexKnown, Sided, TurnIds, CoreSet;
    assert forall f | f in CoreSet(q.facts) :: f in CoreSet(log.facts) || f in CoreSet(q.facts) - CoreSet(log.facts);
  }

  /** What the commit makes the key say: the value of the cap, or of the indexed fact if nothing was recorded. */
  ghost predicate Tells(fold: Fold, index: map<Key, Fact>, added: set<Fact>, key: Key, latest: Option<string>) {
    latest.Some? ==>
      if Recorded(added, key) then forall cap | IsCap(added, key, cap) :: fold(cap.value) == fold(latest.value)
      else key in index && fold(index[key].value) == fold(latest.value)
  }

  lemma ToldIsTold(fold: Fold, first: map<Key, Fact>, last: map<Key, Fact>, added: set<Fact>, key: Key,
                   latest: Option<string>)
    requires Chain(first, last, added, key) && Told(fold, first, last, key, latest) && UniqueIds(added)
    ensures Tells(fold, first, added, key, latest)
  {
    if latest.Some? && Recorded(added, key) {
      ChainIsCapped(first, last, added, key);
      forall cap | IsCap(added, key, cap) ensures fold(cap.value) == fold(latest.value) {
        OneCap(added, key, cap, CoreOf(last[key]));
      }
    } else if latest.Some? {
      if key in first {
        SameCore(first[key], last[key]);
      }
      hide CoreOf;
    }
  }

  /** The facts a log has gained. */
  function Gained(x: Scope, log: Log, log': Log, turn: string): set<Fact> {
    InScope(x, CoreSet(log'.facts) - CoreSet(log.facts), {turn})
  }

  function Shown(x: Scope, log: Log, live: seq<Turn>): set<Fact> {
    InScope(x, CoreSet(log.facts), TurnIds(live))
  }

  /** The turn is visible and its candidates are new facts. */
  ghost predicate MayCommit(x: Scope, log: Log, live: seq<Turn>, t: Turn) {
    && Sound(x, log, live) && t.session in x.Sessions() && t.id in TurnIds(live) && t.id !in log.hidden
    && AreCandidates(log.facts, t.id, t.session, t.candidates)
  }

  /** The gained facts are new ones of the turn, and lie apart from the visible ones. */
  ghost predicate Gains(x: Scope, log: Log, log': Log, live: seq<Turn>, turn: string) {
    var visible, added := Shown(x, log, live), Gained(x, log, log', turn);
    && Sound(x, log', live) && CoreSet(log.facts) <= CoreSet(log'.facts)
    && (forall g | g in CoreSet(log'.facts) - CoreSet(log.facts) :: g.sourceTurn == turn)
    && Shown(x, log', live) == visible + added && visible !! added && UniqueIds(visible + added)
    && (forall g, h | g in visible && h in added :: g.supersedes != Some(h.id))
    && forall f | f in added :: IsUserKey(f.key) == x.OneProfile?
  }

  lemma CommitGains(fold: Fold, profiles: map<string, string>, x: Scope, log: Log, live: seq<Turn>, t: Turn)
    requires MayCommit(x, log, live, t) && IsScope(x, profiles)
    ensures Gains(x, log, Apply(fold, profiles, log, CommitTurn(t)), live, t.id)
  {
    var p := Start(log.facts, log.hidden, profiles, t.session);
    var q := CommitAll(fold, p, t.id, t.candidates);
    var cores, cores', turns := CoreSet(log.facts), CoreSet(q.facts), TurnIds(live);
    assert t.candidates[..|t.candidates|] == t.candidates;
    StartIsMid(x, profiles, log, t.session);
    assert p.facts == log.facts && Apply(fold, profiles, log, CommitTurn(t)) == log.(facts := q.facts);
    hide Start, Apply, AreCandidates, IsScope, Mid, IsUserKey;
    CommitAllKeepsMid(fold, x, t.id, t.session, p, t.candidates, |t.candidates|);
    SoundAfter(x, log, live, t.session, t.id, q);
    AddedAreNew(x, cores, cores', turns, t.id);
    LogHasUniqueIds(cores);
    LogHasUniqueIds(cores');
    NoLinksToNew(cores, cores');
    AddedAreOfTheKind(x, cores', cores, t.id);
    hide CommitAll, LogOk, LinksKnown, Separated, VisibleAreLive, TurnIds, CoreSet;
    UniqueInside(cores', InScope(x, cores', turns));
    hide UniqueIds;
  }

  /**
   For this key the commit gains one chain over the visible facts, and something exactly when it gives
   another value.
   */
  ghost predicate Lays(fold: Fold, x: Scope, log: Log, log': Log, live: seq<Turn>, t: Turn, key: Key) {
    var index, added := IndexByKey(Indexed(x, log)), Gained(x, log, log', t.id);
    && Over(Shown(x, log, live), added, key, Base(index, added, key))
    && (Recorded(added, key) <==> Alters(fold, x, ValueIn(index, key), t.candidates, key))
    && Tells(fold, index, added, key, LatestOf(x, t.candidates, key))
  }

  /** A commit in a session of the scope, onto whatever is visible. */
  lemma CommitLays(fold: Fold, profiles: map<string, string>, x: Scope, log: Log, live: seq<Turn>, t: Turn, key: Key)
    requires MayCommit(x, log, live, t) && IsScope(x, profiles)
    ensures Lays(fold, x, log, Apply(fold, profiles, log, CommitTurn(t)), live, t, key)
  {
    hide IndexByKey, Indexed, AreCandidates, IsScope, Chain, Told, Recorded, LatestOf, Names, Mid, Alters, Tells, Over,
         Base, Sound, CoreSet, TurnIds, UniqueIds;
    CommitGains(fold, profiles, x, log, live, t);
    ListNames(x, log, live);
    var last := CommitChains(fold, profiles, x, log, live, t);
    var first, added := IndexByKey(Indexed(x, log)), Gained(x, log, Apply(fold, profiles, log, CommitTurn(t)), t.id);
    hide Gained, Shown, Apply;
    UniqueInside(Shown(x, log, live) + added, added);
    ChainIsOver(x, first, last, Shown(x, log, live), added, key);
    ToldIsTold(fold, first, last, added, key, LatestOf(x, t.candidates, key));
  }

  lemma CommitChains(fold: Fold, profiles: map<string, string>, x: Scope, log: Log, live: seq<Turn>, t: Turn)
    returns (last: map<Key, Fact>)
    requires MayCommit(x, log, live, t) && IsScope(x, profiles)
    ensures var first, added := IndexByKey(Indexed(x, log)),
                                Gained(x, log, Apply(fold, profiles, log, CommitTurn(t)), t.id);
            forall k :: Chain(first, last, added, k) && Told(fold, first, last, k, LatestOf(x, t.candidates, k))
                        && (Recorded(added, k) <==> Alters(fold, x, ValueIn(first, k), t.candidates, k))
  {
    var p := Start(log.facts, log.hidden, profiles, t.session);
    var q := CommitAll(fold, p, t.id, t.candidates);
    last := ScopeIndex(x, q);
    assert t.candidates[..|t.candidates|] == t.candidates;
    StartIsMid(x, profiles, log, t.session);
    StartIndex(x, profiles, log, t.session);
    assert p.facts == log.facts;
    hide Start, IndexByKey, Indexed, AreCandidates, IsScope, Chain, Told, Recorded, LatestOf, Mid, Alters, CommitAll;
    forall k
      ensures Chain(ScopeIndex(x, p), last, Gained(x, log, log.(facts := q.facts), t.id), k)
              && Told(fold, ScopeIndex(x, p), last, k, LatestOf(x, t.candidates, k))
              && (Recorded(Gained(x, log, log.(facts := q.facts), t.id), k) <==>
                  Alters(fold, x, ValueIn(ScopeIndex(x, p), k), t.candidates, k))
    {
      CommitAgain(fold, x, p, t.id, t.session, t.candidates, |t.candidates|, k);
    }
  }

  lemma AddedAreOfTheKind(x: Scope, cores: set<Fact>, earlier: set<Fact>, turn: string)
    requires LogOk(cores)
    ensures forall f | f in InScope(x, cores - earlier, {turn}) :: IsUserKey(f.key) == x.OneProfile?
  {
    hide IsUserKey;
  }
}
