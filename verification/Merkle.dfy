/**
 The evidence Merkle root: sorted leaves, the last node duplicated on odd levels, and one
 digest at the top. Equal roots always mean equal sets of records; equal sets mean equal roots
 when no id is repeated. For all lists, roots are equal exactly when the padded lists are.
 */
module Merkle {
  import opened LedgerData
  import opened Ordering
  import opened Sorting

  datatype EvidenceRecord = EvidenceRecord(id: string, payloadSha: Digest)

  function Leaf(record: EvidenceRecord): Digest {
    ShaOfText(Canonical(LeafDocument(record.id, record.payloadSha)))
  }

  // ----- one level up -----

  function Padded(level: seq<Digest>): (r: seq<Digest>)
    requires level != []
    ensures |r| % 2 == 0
  {
    if |level| % 2 == 1 then level + [level[|level| - 1]] else level
  }

  function Parents(level: seq<Digest>): (r: seq<Digest>)
    requires level != []
    ensures |r| == (|level| + 1) / 2
  {
    var padded := Padded(level);
    seq(|padded| / 2, i requires 0 <= i < |padded| / 2 => Sha256(Concat(padded[2 * i], padded[2 * i + 1])))
  }

  function RootOf(level: seq<Digest>): Digest
    decreases |level|
  {
    if level == [] then Sha256(Bytes([]))
    else if |level| == 1 then level[0]
    else RootOf(Parents(level))
  }

  // ----- sorting the records -----

  /** By id. The program breaks ties by payload digest; records of one table never tie. */
  function ById(): (EvidenceRecord, EvidenceRecord) -> bool {
    (r: EvidenceRecord, q: EvidenceRecord) => Below(r.id, q.id)
  }

  function SortById(records: seq<EvidenceRecord>): seq<EvidenceRecord> {
    Sort(ById(), records)
  }

  function Leaves(records: seq<EvidenceRecord>): (r: seq<Digest>) {
    seq(|records|, i requires 0 <= i < |records| => Leaf(records[i]))
  }

  function MerkleRoot(records: seq<EvidenceRecord>): Digest {
    RootOf(Leaves(SortById(records)))
  }

  method ComputeParents(level: seq<Digest>) returns (next: seq<Digest>)
    requires level != []
    ensures next == Parents(level)
  {
    var padded := level;
    if |padded| % 2 == 1 {
      padded := padded + [padded[|padded| - 1]];
    }
    next := [];
    var index := 0;
    while index < |padded|
      invariant 0 <= index <= |padded| && index % 2 == 0 && |next| == index / 2
      invariant padded == Padded(level)
      invariant forall i :: 0 <= i < |next| ==> next[i] == Sha256(Concat(padded[2 * i], padded[2 * i + 1]))
    {
      next := next + [Sha256(Concat(padded[index], padded[index + 1]))];
      index := index + 2;
    }
  }

  /** The loop of the program, rewriting `leaves` level by level. */
  method ComputeMerkleRoot(records: seq<EvidenceRecord>) returns (root: Digest)
    ensures root == MerkleRoot(records)
  {
    var leaves := Leaves(SortById(records));
    if leaves == [] {
      return Sha256(Bytes([]));
    }
    while |leaves| > 1
      invariant leaves != []
      invariant RootOf(leaves) == MerkleRoot(records)
      decreases |leaves|
    {
      leaves := ComputeParents(leaves);
    }
    root := leaves[0];
  }

  // ----- sorting is a permutation, and is canonical for distinct ids -----

  ghost predicate DistinctIds(records: seq<EvidenceRecord>) {
    forall i, j :: 0 <= i < j < |records| ==> records[i].id != records[j].id
  }

  function Ids(records: seq<EvidenceRecord>): seq<string> {
    seq(|records|, i requires 0 <= i < |records| => records[i].id)
  }

  lemma {:induction false} DistinctAreComparable(records: seq<EvidenceRecord>)
    requires DistinctIds(records)
    ensures Comparable(ById(), records)
  {
    if records != [] {
      var before, last := records[..|records| - 1], records[|records| - 1];
      DistinctAreComparable(before);
      forall q | q in before ensures ById()(q, last) || ById()(last, q) {
        BelowIsTotal(q.id, last.id);
      }
      assert ComparableWith(ById(), before, last);
    }
  }

  lemma ByIdIsTransitive()
    ensures Transitive(ById())
  {
    forall a, b, c | ById()(a, b) && ById()(b, c) ensures ById()(a, c) {
      BelowIsTransitive(a.id, b.id, c.id);
    }
  }

  lemma SortByIdHolds(records: seq<EvidenceRecord>)
    ensures Elements(SortById(records)) == Elements(records)
    ensures |SortById(records)| == |records|
  {
    SortHolds(ById(), records);
  }

  lemma SortByIdSorts(records: seq<EvidenceRecord>)
    requires DistinctIds(records)
    ensures StrictlySorted(Ids(SortById(records)))
  {
    DistinctAreComparable(records);
    ByIdIsTransitive();
    SortSorts(ById(), records);
    var sorted := SortById(records);
    hide SortById, Sort, Sorted, Comparable;
    forall i, j | 0 <= i < j < |sorted| ensures Below(Ids(sorted)[i], Ids(sorted)[j]) {
      SortedAt(ById(), sorted, i, j);
    }
  }

  lemma EqualSetsSortEqually(a: seq<EvidenceRecord>, b: seq<EvidenceRecord>)
    requires StrictlySorted(Ids(a)) && StrictlySorted(Ids(b))
    requires Elements(a) == Elements(b)
    ensures a == b
  {
    assert Elements(Ids(a)) == set r | r in Elements(a) :: r.id by { IdsOfElements(a); }
    assert Elements(Ids(b)) == set r | r in Elements(b) :: r.id by { IdsOfElements(b); }
    SortedListsOfOneSetAreEqual(Ids(a), Ids(b));
    forall i | 0 <= i < |a| ensures |a| == |b| && a[i] == b[i] {
      assert |a| == |Ids(a)| == |Ids(b)| == |b|;
      assert a[i] in Elements(b);
      var j :| 0 <= j < |b| && b[j] == a[i];
      SortedHasNoDuplicates(Ids(b));
      assert Ids(b)[j] == b[j].id == a[i].id == Ids(a)[i] == Ids(b)[i];
    }
  }

  lemma IdsOfElements(a: seq<EvidenceRecord>)
    ensures Elements(Ids(a)) == set r | r in Elements(a) :: r.id
  {
    forall x | x in Elements(Ids(a)) ensures x in set r | r in Elements(a) :: r.id {
      var i :| 0 <= i < |a| && Ids(a)[i] == x;
      assert a[i] in Elements(a);
    }
    forall x | x in set r | r in Elements(a) :: r.id ensures x in Elements(Ids(a)) {
      var r :| r in Elements(a) && r.id == x;
      var i :| 0 <= i < |a| && a[i] == r;
      assert Ids(a)[i] == x;
    }
  }

  // ----- a root determines its level -----

  ghost predicate Distinct<T>(s: seq<T>) {
    forall i, j :: 0 <= i < j < |s| ==> s[i] != s[j]
  }

  /** How many `Concat` nodes lie on the leftmost path. */
  ghost function Height(d: Digest): nat {
    if d.message.Concat? then 1 + Height(d.message.left) else 0
  }

  ghost predicate AllOfHeight(level: seq<Digest>, h: nat) {
    forall i :: 0 <= i < |level| ==> Height(level[i]) == h
  }

  lemma ParentsKeepShape(level: seq<Digest>, h: nat)
    requires level != [] && Distinct(level) && AllOfHeight(level, h)
    ensures Distinct(Parents(level)) && AllOfHeight(Parents(level), h + 1)
  {
    var up, padded := Parents(level), Padded(level);
    forall i, j | 0 <= i < j < |up| ensures up[i] != up[j] {
      assert padded[2 * i] == level[2 * i] && padded[2 * j] == level[2 * j];
    }
  }

  lemma {:induction false} RootIsHigh(level: seq<Digest>, h: nat)
    requires level != [] && Distinct(level) && AllOfHeight(level, h)
    ensures Height(RootOf(level)) == h <==> |level| == 1
    ensures Height(RootOf(level)) >= h
    decreases |level|
  {
    if |level| > 1 {
      ParentsKeepShape(level, h);
      RootIsHigh(Parents(level), h + 1);
    }
  }

  lemma ParentsAreInjective(a: seq<Digest>, b: seq<Digest>)
    requires a != [] && b != [] && Distinct(a) && Distinct(b)
    requires Parents(a) == Parents(b)
    ensures a == b
  {
    var pa, pb := Padded(a), Padded(b);
    assert |pa| == |pb| by { assert |Parents(a)| == |Parents(b)|; }
    forall i | 0 <= i < |pa| ensures pa[i] == pb[i] {
      assert Parents(a)[i / 2] == Parents(b)[i / 2];
    }
    // A padded level ends in a repeated pair, which a distinct even level cannot.
    assert |a| % 2 == 1 ==> pa[|pa| - 1] == pa[|pa| - 2];
    assert |b| % 2 == 1 ==> pb[|pb| - 1] == pb[|pb| - 2];
    assert |a| == |b|;
    assert a == pa[..|a|] && b == pb[..|b|];
  }

  lemma {:induction false} RootDeterminesLevel(a: seq<Digest>, b: seq<Digest>, h: nat)
    requires Distinct(a) && Distinct(b) && AllOfHeight(a, h) && AllOfHeight(b, h)
    requires a != [] && b != []
    requires RootOf(a) == RootOf(b)
    ensures a == b
    decreases |a|
  {
    RootIsHigh(a, h);
    RootIsHigh(b, h);
    if |a| > 1 {
      ParentsKeepShape(a, h);
      ParentsKeepShape(b, h);
      RootDeterminesLevel(Parents(a), Parents(b), h + 1);
      ParentsAreInjective(a, b);
    }
  }

  lemma {:induction false} RootIsNotEmptyRoot(level: seq<Digest>)
    requires level != [] && forall d :: d in level ==> !d.message.Bytes?
    ensures RootOf(level) != RootOf([])
    decreases |level|
  {
    if |level| > 1 {
      RootIsNotEmptyRoot(Parents(level));
    } else {
      assert level[0] in level;
    }
  }

  // ----- the main theorem -----

  lemma LeavesAreInjective(a: seq<EvidenceRecord>, b: seq<EvidenceRecord>)
    requires Leaves(a) == Leaves(b)
    ensures a == b
  {
    assert |a| == |Leaves(a)| == |Leaves(b)| == |b|;
    forall i | 0 <= i < |a| ensures a[i] == b[i] {
      assert Leaf(a[i]) == Leaves(a)[i] == Leaves(b)[i] == Leaf(b[i]);
    }
  }

  // ----- padding out -----

  /** The pairing of one level, on lists instead of digests. */
  function JoinPairs<T>(blocks: seq<seq<T>>): (r: seq<seq<T>>)
    requires blocks != []
    ensures |r| == (|blocks| + 1) / 2
  {
    var padded := if |blocks| % 2 == 1 then blocks + [blocks[|blocks| - 1]] else blocks;
    seq(|padded| / 2, i requires 0 <= i < |padded| / 2 => padded[2 * i] + padded[2 * i + 1])
  }

  function PadOut<T>(blocks: seq<seq<T>>): seq<T>
    decreases |blocks|
  {
    if blocks == [] then []
    else if |blocks| == 1 then blocks[0]
    else PadOut(JoinPairs(blocks))
  }

  function Singletons<T>(s: seq<T>): seq<seq<T>> {
    seq(|s|, i requires 0 <= i < |s| => [s[i]])
  }

  /** The list with every repetition that the padding of the levels makes, a power of two long. */
  function PaddedOut<T>(s: seq<T>): seq<T> {
    PadOut(Singletons(s))
  }

  function Power(h: nat): nat {
    if h == 0 then 1 else 2 * Power(h - 1)
  }

  /** How many levels lie above this many nodes. */
  function Levels(n: nat): nat {
    if n <= 1 then 0 else 1 + Levels((n + 1) / 2)
  }

  /** The root over a full level. */
  function Tree(leaves: seq<Digest>, h: nat): Digest
    requires |leaves| == Power(h)
  {
    if h == 0 then leaves[0]
    else Sha256(Concat(Tree(leaves[..Power(h - 1)], h - 1), Tree(leaves[Power(h - 1)..], h - 1)))
  }

  ghost predicate AreTrees(level: seq<Digest>, blocks: seq<seq<Digest>>, h: nat) {
    && |blocks| == |level|
    && forall i | 0 <= i < |level| :: |blocks[i]| == Power(h) && Tree(blocks[i], h) == level[i]
  }

  lemma ParentsAreTrees(level: seq<Digest>, blocks: seq<seq<Digest>>, h: nat)
    requires level != [] && AreTrees(level, blocks, h)
    ensures AreTrees(Parents(level), JoinPairs(blocks), h + 1)
  {
    var padded := if |blocks| % 2 == 1 then blocks + [blocks[|blocks| - 1]] else blocks;
    hide Tree;
    forall i | 0 <= i < |Parents(level)|
      ensures |JoinPairs(blocks)[i]| == Power(h + 1) && Tree(JoinPairs(blocks)[i], h + 1) == Parents(level)[i]
    {
      TreeOfTwo(padded[2 * i], padded[2 * i + 1], h);
    }
  }

  lemma TreeOfTwo(a: seq<Digest>, b: seq<Digest>, h: nat)
    requires |a| == |b| == Power(h)
    ensures |a + b| == Power(h + 1) && Tree(a + b, h + 1) == Sha256(Concat(Tree(a, h), Tree(b, h)))
  {
    assert (a + b)[..Power(h)] == a && (a + b)[Power(h)..] == b;
  }

  /** The root is the tree over the padded list. */
  lemma {:induction false} RootIsTree(level: seq<Digest>, blocks: seq<seq<Digest>>, h: nat)
    requires level != [] && AreTrees(level, blocks, h)
    ensures |PadOut(blocks)| == Power(h + Levels(|level|)) && RootOf(level) == Tree(PadOut(blocks), h + Levels(|level|))
    decreases |level|
  {
    hide Tree, Power, Parents, JoinPairs;
    if |level| > 1 {
      ParentsAreTrees(level, blocks, h);
      RootIsTree(Parents(level), JoinPairs(blocks), h + 1);
    }
  }

  lemma RootOfList(level: seq<Digest>)
    requires level != []
    ensures |PaddedOut(level)| == Power(Levels(|level|)) && RootOf(level) == Tree(PaddedOut(level), Levels(|level|))
  {
    RootIsTree(level, Singletons(level), 0);
  }

  lemma {:induction false} TreesAreInjective(a: seq<Digest>, b: seq<Digest>, h: nat, k: nat)
    requires |a| == Power(h) && |b| == Power(k) && AllOfHeight(a, 0) && AllOfHeight(b, 0)
    requires Tree(a, h) == Tree(b, k)
    ensures h == k && a == b
  {
    if h == 0 || k == 0 {
      TreeIsHigh(a, h);
      TreeIsHigh(b, k);
      assert h == 0 ==> a == [a[0]];
      assert k == 0 ==> b == [b[0]];
    } else {
      var m, n := Power(h - 1), Power(k - 1);
      TreesAreInjective(a[..m], b[..n], h - 1, k - 1);
      TreesAreInjective(a[m..], b[n..], h - 1, k - 1);
      assert a == a[..m] + a[m..] && b == b[..n] + b[n..];
    }
  }

  lemma {:induction false} TreeIsHigh(a: seq<Digest>, h: nat)
    requires |a| == Power(h) && AllOfHeight(a, 0)
    ensures Height(Tree(a, h)) == h
  {
    if h > 0 {
      TreeIsHigh(a[..Power(h - 1)], h - 1);
    }
  }

  lemma {:induction false} PowersAreDifferent(h: nat, k: nat)
    requires Power(h) == Power(k)
    ensures h == k
  {
    if h > 0 && k > 0 {
      PowersAreDifferent(h - 1, k - 1);
    }
  }

  /** Two levels of leaves have equal roots exactly when they are padded out to one list. */
  lemma EqualRootsMeanEqualPadding(a: seq<Digest>, b: seq<Digest>)
    requires a != [] && b != [] && AllOfHeight(a, 0) && AllOfHeight(b, 0)
    ensures RootOf(a) == RootOf(b) <==> PaddedOut(a) == PaddedOut(b)
  {
    RootOfList(a);
    RootOfList(b);
    PaddingAddsNothing(a);
    PaddingAddsNothing(b);
    var pa, pb := PaddedOut(a), PaddedOut(b);
    forall i | 0 <= i < |pa| ensures Height(pa[i]) == 0 { assert pa[i] in Elements(pa); }
    forall i | 0 <= i < |pb| ensures Height(pb[i]) == 0 { assert pb[i] in Elements(pb); }
    hide PaddedOut, RootOf, Tree, Power, Levels, Height;
    if RootOf(a) == RootOf(b) {
      TreesAreInjective(pa, pb, Levels(|a|), Levels(|b|));
    }
    if pa == pb {
      PowersAreDifferent(Levels(|a|), Levels(|b|));
    }
  }

  // ----- padding adds no record -----

  ghost function Members<T>(blocks: seq<seq<T>>): set<T> {
    set b, x | b in blocks && x in b :: x
  }

  lemma JoinPairsKeepsMembers<T>(blocks: seq<seq<T>>)
    requires blocks != []
    ensures Members(JoinPairs(blocks)) == Members(blocks)
  {
    var joined := JoinPairs(blocks);
    var padded := if |blocks| % 2 == 1 then blocks + [blocks[|blocks| - 1]] else blocks;
    forall x | x in Members(blocks) ensures x in Members(joined) {
      var i :| 0 <= i < |blocks| && x in blocks[i];
      assert padded[i] == blocks[i] && joined[i / 2] == padded[2 * (i / 2)] + padded[2 * (i / 2) + 1];
      assert x in joined[i / 2] && joined[i / 2] in joined;
    }
    forall x | x in Members(joined) ensures x in Members(blocks) {
      var i :| 0 <= i < |joined| && x in joined[i];
      assert x in padded[2 * i] || x in padded[2 * i + 1];
      assert padded[2 * i] in blocks && padded[2 * i + 1] in blocks;
    }
  }

  lemma {:induction false} PadOutKeepsMembers<T>(blocks: seq<seq<T>>)
    ensures Elements(PadOut(blocks)) == Members(blocks)
    decreases |blocks|
  {
    if |blocks| > 1 {
      JoinPairsKeepsMembers(blocks);
      PadOutKeepsMembers(JoinPairs(blocks));
    } else if |blocks| == 1 {
      assert blocks == [blocks[0]];
    }
  }

  lemma PaddingAddsNothing<T>(s: seq<T>)
    ensures Elements(PaddedOut(s)) == Elements(s)
  {
    PadOutKeepsMembers(Singletons(s));
    forall x | x in Elements(s) ensures x in Members(Singletons(s)) {
      var i :| 0 <= i < |s| && s[i] == x;
      assert Singletons(s)[i] in Singletons(s) && x in Singletons(s)[i];
    }
  }

  // ----- padding records and padding their leaves -----

  function LeafBlocks(blocks: seq<seq<EvidenceRecord>>): seq<seq<Digest>> {
    seq(|blocks|, i requires 0 <= i < |blocks| => Leaves(blocks[i]))
  }

  lemma LeavesOfTwo(a: seq<EvidenceRecord>, b: seq<EvidenceRecord>)
    ensures Leaves(a + b) == Leaves(a) + Leaves(b)
  {
  }

  lemma LeavesOfJoinPairs(blocks: seq<seq<EvidenceRecord>>)
    requires blocks != []
    ensures LeafBlocks(JoinPairs(blocks)) == JoinPairs(LeafBlocks(blocks))
  {
    var padded := if |blocks| % 2 == 1 then blocks + [blocks[|blocks| - 1]] else blocks;
    hide Leaves;
    forall i | 0 <= i < |JoinPairs(blocks)|
      ensures LeafBlocks(JoinPairs(blocks))[i] == JoinPairs(LeafBlocks(blocks))[i]
    {
      LeavesOfTwo(padded[2 * i], padded[2 * i + 1]);
    }
  }

  lemma {:induction false} LeavesOfPadOut(blocks: seq<seq<EvidenceRecord>>)
    ensures PadOut(LeafBlocks(blocks)) == Leaves(PadOut(blocks))
    decreases |blocks|
  {
    hide JoinPairs, Leaves;
    if |blocks| > 1 {
      LeavesOfPadOut(JoinPairs(blocks));
      LeavesOfJoinPairs(blocks);
    } else if blocks == [] {
      LeavesOfNone();
    }
  }

  lemma LeavesOfNone()
    ensures Leaves([]) == []
  {
  }

  lemma LeavesOfPaddedOut(records: seq<EvidenceRecord>)
    ensures PaddedOut(Leaves(records)) == Leaves(PaddedOut(records))
  {
    LeavesOfPadOut(Singletons(records));
    forall i | 0 <= i < |records| ensures Leaves([records[i]]) == [Leaves(records)[i]] {
    }
    assert LeafBlocks(Singletons(records)) == Singletons(Leaves(records));
  }

  // ----- the main theorems -----

  /** For all record lists: equal roots exactly when the sorted lists are padded out to one list. */
  lemma EqualRootsMeanEqualPaddedRecords(a: seq<EvidenceRecord>, b: seq<EvidenceRecord>)
    ensures MerkleRoot(a) == MerkleRoot(b) <==> PaddedOut(SortById(a)) == PaddedOut(SortById(b))
  {
    var sa, sb := SortById(a), SortById(b);
    PaddingAddsNothing(sa);
    PaddingAddsNothing(sb);
    if sa != [] { RootIsNotEmptyRoot(Leaves(sa)); assert sa[0] in Elements(sa); }
    if sb != [] { RootIsNotEmptyRoot(Leaves(sb)); assert sb[0] in Elements(sb); }
    hide SortById, PaddedOut, RootOf;
    if sa != [] && sb != [] {
      EqualRootsMeanEqualPadding(Leaves(sa), Leaves(sb));
      LeavesOfPaddedOut(sa);
      LeavesOfPaddedOut(sb);
      if Leaves(PaddedOut(sa)) == Leaves(PaddedOut(sb)) {
        LeavesAreInjective(PaddedOut(sa), PaddedOut(sb));
      }
    }
  }

  /** Equal roots always mean equal sets of records; equal sets mean equal roots when no id is repeated. */
  lemma EqualRootsMeanEqualRecords(a: seq<EvidenceRecord>, b: seq<EvidenceRecord>)
    ensures MerkleRoot(a) == MerkleRoot(b) ==> Elements(a) == Elements(b)
    ensures DistinctIds(a) && DistinctIds(b) ==> (Elements(a) == Elements(b) ==> MerkleRoot(a) == MerkleRoot(b))
  {
    var sa, sb := SortById(a), SortById(b);
    EqualRootsMeanEqualPaddedRecords(a, b);
    PaddingAddsNothing(sa);
    PaddingAddsNothing(sb);
    SortByIdHolds(a);
    SortByIdHolds(b);
    hide SortById, PaddedOut;
    if DistinctIds(a) && DistinctIds(b) && Elements(a) == Elements(b) {
      SortByIdSorts(a);
      SortByIdSorts(b);
      EqualSetsSortEqually(sa, sb);
    }
  }

  /** With a repeated id, equal sets of records can have different roots. */
  lemma RepetitionCanChangeRoot(x: EvidenceRecord, y: EvidenceRecord)
    requires Below(x.id, y.id)
    ensures Elements([x, x, y]) == Elements([x, y])
    ensures MerkleRoot([x, x, y]) != MerkleRoot([x, y])
  {
    EqualRootsMeanEqualPaddedRecords([x, x, y], [x, y]);
    SortOfThree(x, y);
    PaddedPair(x, y);
    PaddedTriple(x, y);
    hide SortById, PaddedOut, MerkleRoot;
  }

  lemma SortOfThree(x: EvidenceRecord, y: EvidenceRecord)
    requires Below(x.id, y.id)
    ensures SortById([x, x, y]) == [x, x, y] && SortById([x, y]) == [x, y]
  {
    BelowIsIrreflexive(x.id);
    assert [x, x, y][..2] == [x, x] && [x, x][..1] == [x] && [x, y][..1] == [x] && [x][..0] == [];
    assert Sort(ById(), [x]) == [x];
    assert Sort(ById(), [x, x]) == [x, x];
  }

  lemma PaddedPair(x: EvidenceRecord, y: EvidenceRecord)
    ensures PaddedOut([x, y]) == [x, y]
  {
    assert Singletons([x, y]) == [[x], [y]];
    assert JoinPairs([[x], [y]]) == [[x] + [y]];
    assert PadOut([[x] + [y]]) == [x] + [y];
  }

  lemma PaddedTriple(x: EvidenceRecord, y: EvidenceRecord)
    ensures PaddedOut([x, x, y]) == [x, x, y, y]
  {
    assert Singletons([x, x, y]) == [[x], [x], [y]];
    var pairs := [[x] + [x], [y] + [y]];
    assert JoinPairs([[x], [x], [y]]) == pairs;
    assert JoinPairs(pairs) == [pairs[0] + pairs[1]];
    assert PadOut([pairs[0] + pairs[1]]) == pairs[0] + pairs[1];
    assert PadOut(pairs) == pairs[0] + pairs[1];
  }

  /** A root does not fix the list: repeating the last record of an odd list leaves it as it was. */
  lemma RepeatedLastRecordKeepsRoot(records: seq<EvidenceRecord>)
    requires |records| % 2 == 1 && |records| > 1 && StrictlySorted(Ids(records))
    ensures MerkleRoot(records) == MerkleRoot(records + [records[|records| - 1]])
  {
    var last := records[|records| - 1];
    SortedIsFixed(records);
    RepeatedLastStays(records);
    assert Leaves(records + [last]) == Leaves(records) + [Leaf(last)];
    hide SortById;
    PaddingByHand(Leaves(records));
  }

  lemma PaddingByHand(level: seq<Digest>)
    requires |level| % 2 == 1 && |level| > 1
    ensures RootOf(level + [level[|level| - 1]]) == RootOf(level)
  {
    assert Padded(level + [level[|level| - 1]]) == Padded(level);
    assert Parents(level + [level[|level| - 1]]) == Parents(level);
  }

  lemma {:induction false} SortedIsFixed(records: seq<EvidenceRecord>)
    requires StrictlySorted(Ids(records))
    ensures SortById(records) == records
  {
    var n := |records| - 1;
    if n >= 0 {
      assert Ids(records[..n]) == Ids(records)[..n];
      SortedIsFixed(records[..n]);
      assert n > 0 ==> Below(Ids(records)[n - 1], Ids(records)[n]);
    }
  }

  lemma RepeatedLastStays(records: seq<EvidenceRecord>)
    requires records != [] && StrictlySorted(Ids(records))
    ensures SortById(records + [records[|records| - 1]]) == records + [records[|records| - 1]]
  {
    var n := |records| - 1;
    var last := records[n];
    SortedIsFixed(records);
    BelowIsIrreflexive(last.id);
    assert (records + [last])[..n + 1] == records;
    assert n > 0 ==> Below(Ids(records)[n - 1], Ids(records)[n]);
    assert Place(ById(), records[..n], last) == records[..n] + [last];
  }
}
