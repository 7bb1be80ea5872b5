/** What one turn changes of the latest values, and the facts it records for that. */
module FactChanges {
  import opened Wrappers
  import opened ConversationFacts
  import opened FactRefinement

  predicate Says(fold: Fold, latest: Option<string>, value: string) {
    latest.Some? && fold(latest.value) == fold(value)
  }

  /** One of the turn's first candidates gives the key a value other than the one it then has. */
  ghost predicate ChangesBy(fold: Fold, x: Scope, history: seq<Turn>, turn: Turn, key: Key, n: nat)
    requires n <= |turn.candidates|
  {
    exists i | 0 <= i < n :: x.Contains(turn.candidates[i]) && turn.candidates[i].key == key
      && !Says(fold, Latest(x, history + [turn.(candidates := turn.candidates[..i])], key), turn.candidates[i].value)
  }

  ghost predicate Changes(fold: Fold, x: Scope, history: seq<Turn>, turn: Turn, key: Key) {
    ChangesBy(fold, x, history, turn, key, |turn.candidates|)
  }

  // ----- the chain of facts one turn records for a key -----

  ghost predicate Recorded(added: set<Fact>, key: Key) {
    exists g :: g in added && g.key == key
  }

  ghost predicate LinksInto(added: set<Fact>, index: map<Key, Fact>, g: Fact) {
    g.supersedes.Some? ==>
      || (exists h :: h in added && h.key == g.key && h.id == g.supersedes.value)
      || (g.key in index && g.supersedes.value == index[g.key].id)
  }

  /** From the first indexed fact of the key to the last: either nothing was added, or a chain. */
  ghost predicate Trail(first: map<Key, Fact>, last: map<Key, Fact>, added: set<Fact>, key: Key) {
    if Recorded(added, key) then
      && key in last && last[key].key == key && CoreOf(last[key]) in added
      && (forall g | g in added && g.key == key :: LinksInto(added, first, g))
      && (key in first ==> exists g :: g in added && g.key == key && g.supersedes == Some(first[key].id))
    else
      && (key in last <==> key in first)
      && (key in first ==> CoreOf(last[key]) == CoreOf(first[key]))
  }

  lemma TrailStep(fold: Fold, first: map<Key, Fact>, index: map<Key, Fact>, index': map<Key, Fact>, added: set<Fact>,
                  c: Fact, key: Key)
    requires Trail(first, index, added, key) && c.supersedes == None
    requires if Repeats(fold, index, c)
             then index'.Keys == index.Keys && (forall k | k in index :: CoreOf(index'[k]) == CoreOf(index[k]))
             else index' == index[c.key := Saved(index, c)]
    ensures var added' := if Repeats(fold, index, c) then added else added + {CoreOf(Saved(index, c))};
            && Trail(first, index', added', key)
            && (Recorded(added', key) <==> Recorded(added, key) || (c.key == key && !Repeats(fold, index, c)))
  {
    if Repeats(fold, index, c) {
      assert key in index ==> index'[key].key == CoreOf(index'[key]).key && index[key].key == CoreOf(index[key]).key;
      hide CoreOf;
    } else {
      var saved := CoreOf(Saved(index, c));
      var added' := added + {saved};
      assert saved in added' && saved.key == c.key;
      assert key in index ==> CoreOf(index[key]).id == index[key].id && CoreOf(index[key]).key == index[key].key;
      assert key in first ==> CoreOf(first[key]).id == first[key].id;
      forall g | g in added' && g.key == key ensures LinksInto(added', first, g) {
      }
      assert forall g :: g in added ==> g in added';
    }
  }

  lemma ChangesOneMore(fold: Fold, x: Scope, history: seq<Turn>, turn: Turn, key: Key, n: nat)
    requires 0 < n <= |turn.candidates|
    ensures var c := turn.candidates[n - 1];
            var latest := Latest(x, history + [turn.(candidates := turn.candidates[..n - 1])], key);
            ChangesBy(fold, x, history, turn, key, n) <==>
              ChangesBy(fold, x, history, turn, key, n - 1)
                || (x.Contains(c) && c.key == key && !Says(fold, latest, c.value))
  {
    hide Latest, Says;
  }

  // ----- two active facts -----

  ghost predicate TwoActive(facts: set<Fact>, key: Key) {
    exists f, g :: IsActive(facts, f) && IsActive(facts, g) && f.key == key && g.key == key && f != g
  }

  lemma NothingRecorded(added: set<Fact>)
    requires forall key :: !Recorded(added, key)
    ensures added == {}
  {
    assert forall g | g in added :: Recorded(added, g.key);
  }
}
