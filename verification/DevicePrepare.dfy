/** Preparing a device join: which candidate the two heads lead to, and why both devices arrive at the same one. */
module DevicePrepare {
  import opened Results
  import opened Git
  import opened DeviceMerge

  datatype JoinStatus = Noop | FastForward | Join

  datatype PreparedJoin = PreparedJoin(status: JoinStatus, base: Commit, localHead: Commit, upstreamHead: Commit,
                                       candidate: Commit, candidateMap: Tree)

  // ---------- assembling a tree ----------

  /** What `update-index --index-info` leaves of the first records, fed to an empty index. */
  ghost predicate Assembling(index: Index, m: Files, fed: seq<Path>) {
    && ClashFree(index)
    && (forall p | p in index :: p in fed && p in m && index[p] == Staged(m[p]))
    && (ClashFree(m) ==> forall p | p in fed :: p in index)
  }

  lemma AssembleNext(index: Index, m: Files, fed: seq<Path>, p: Path)
    requires Assembling(index, m, fed) && p in m
    ensures Assembling(IndexInfo(index, p, Some(m[p])), m, fed + [p])
  {}

  function Listed(index: Index): Files {
    map p | p in index && index[p].Staged? :: index[p].entry
  }

  /** `assembleTree`: git drops entries that clash, so the listing equals the map only for a real tree. */
  method AssembleTree(m: Files) returns (r: Result<Tree, JoinError>)
    ensures r.Ok? <==> ClashFree(m)
    ensures r == if ClashFree(m) then Ok(m) else Err(CandidateTreeMismatch)
  {
    var index: Index := map[];
    var paths := SortedPaths(m.Keys);
    for i := 0 to |paths|
      invariant Assembling(index, m, paths[..i])
    {
      assert paths[i] in paths && paths[..i + 1] == paths[..i] + [paths[i]];
      AssembleNext(index, m, paths[..i], paths[i]);
      index := IndexInfo(index, paths[i], Some(m[paths[i]]));
    }
    assert paths[..|paths|] == paths;
    if Listed(index) != m {
      assert !ClashFree(m);
      return Err(CandidateTreeMismatch);
    }
    assert forall p | p in m :: p in Listed(index);
    r := Ok(m);
  }

  // ---------- merge bases ----------

  function Ancestors(c: Commit): (s: set<Commit>)
    ensures c in s
    decreases c
  {
    {c} + (set i, a | 0 <= i < |c.parents| && a in Ancestors(c.parents[i]) :: a)
  }

  lemma {:induction false} AncestorsAre(c: Commit, a: Commit)
    ensures a in Ancestors(c) <==> IsAncestor(a, c)
    decreases c
  {
    forall i | 0 <= i < |c.parents| ensures a in Ancestors(c.parents[i]) <==> IsAncestor(a, c.parents[i]) {
      AncestorsAre(c.parents[i], a);
    }
  }

  /** `merge-base --all`: the common ancestors that are not in the history of another one. */
  function MergeBases(h: Commit, u: Commit): set<Commit> {
    set a | a in Ancestors(h) && a in Ancestors(u)
            && !exists d :: d in Ancestors(h) && d in Ancestors(u) && d != a && IsAncestor(a, d)
  }

  /** The best common ancestor: every other one is in its history. */
  ghost predicate BestBase(b: Commit, h: Commit, u: Commit) {
    IsAncestor(b, h) && IsAncestor(b, u) && forall c | IsAncestor(c, h) && IsAncestor(c, u) :: IsAncestor(c, b)
  }

  /** The common ancestors that have `c` in their history. */
  ghost function Above(c: Commit, h: Commit, u: Commit): set<Commit> {
    set d | d in Ancestors(h) && d in Ancestors(u) && IsAncestor(c, d)
  }

  /** Every common ancestor is in the history of a merge base. */
  lemma {:induction false} BelowSomeBase(c: Commit, h: Commit, u: Commit) returns (b: Commit)
    requires IsAncestor(c, h) && IsAncestor(c, u)
    ensures b in MergeBases(h, u) && IsAncestor(c, b)
    decreases |Above(c, h, u)|
  {
    AncestorsAre(h, c);
    AncestorsAre(u, c);
    if c in MergeBases(h, u) { return c; }
    var d :| d in Ancestors(h) && d in Ancestors(u) && d != c && IsAncestor(c, d);
    AncestorsAre(h, d);
    AncestorsAre(u, d);
    forall e | e in Above(d, h, u) ensures e in Above(c, h, u) && e != c {
      AncestorTransitive(c, d, e);
      if e == c { AncestorAntisymmetric(c, d); }
    }
    assert c in Above(c, h, u);
    assert Above(d, h, u) <= Above(c, h, u) - {c};
    SmallerSet(Above(d, h, u), Above(c, h, u) - {c});
    b := BelowSomeBase(d, h, u);
    AncestorTransitive(c, d, b);
  }

  lemma {:induction false} SmallerSet<T>(a: set<T>, b: set<T>)
    requires a <= b
    ensures |a| <= |b|
  {
    if a != {} {
      var x :| x in a;
      SmallerSet(a - {x}, b - {x});
    }
  }

  /** There is one merge base exactly when there is a best common ancestor, and then it is that. */
  lemma MergeBaseIsBest(h: Commit, u: Commit, b: Commit)
    ensures MergeBases(h, u) == {b} <==> BestBase(b, h, u)
  {
    AncestorsAre(h, b);
    AncestorsAre(u, b);
    if MergeBases(h, u) == {b} {
      assert b in MergeBases(h, u);
      forall c | IsAncestor(c, h) && IsAncestor(c, u) ensures IsAncestor(c, b) {
        var base := BelowSomeBase(c, h, u);
        assert base in {b};
      }
    }
    if BestBase(b, h, u) {
      var base := BelowSomeBase(b, h, u);
      forall a | a in MergeBases(h, u) ensures a == b {
        AncestorsAre(h, a);
        AncestorsAre(u, a);
      }
    }
  }

  lemma MergeBasesSymmetric(h: Commit, u: Commit)
    ensures MergeBases(h, u) == MergeBases(u, h)
  {}

  // ---------- what a join is ----------

  function Views(m: Files): Files { map p | p in m && IsL2(p) :: m[p] }

  /** The views rebuilt from the event area; None when a parent's views or the events cannot be read. */
  function RebuiltViews(rules: Rules, l1: Files, left: Files, right: Files): Option<Files> {
    if rules.parentOk(left) && rules.parentOk(right) then rules.build(l1) else None
  }

  /** `after` extends the events of `before` and carries exactly the views its own events build. */
  ghost predicate LinearOk(rules: Rules, before: Files, after: Files) {
    exists l1 :: IsL1Union(l1, before, before, after) && RebuiltViews(rules, l1, before, after) == Some(Views(after))
  }

  /** `m` is the merge of two divergent heads over their base. */
  ghost predicate IsJoin(rules: Rules, m: Files, b: Files, h: Files, u: Files) {
    exists l1, ordinary ::
      && IsL1Union(l1, b, h, u) && IsOrdinaryMerge(ordinary, b, h, u)
      && RebuiltViews(rules, l1, h, u).Some? && m == ordinary + l1 + RebuiltViews(rules, l1, h, u).value
      && rules.contract(m) && ClashFree(m)
  }

  /** `m` is the tree that heads `h` and `u` lead to, whichever device asks. */
  ghost predicate LeadsTo(rules: Rules, h: Commit, u: Commit, m: Files) {
    if h == u then m == h.tree && rules.contract(m)
    else if IsAncestor(u, h) then m == h.tree && LinearOk(rules, u.tree, h.tree) && rules.contract(m)
    else if IsAncestor(h, u) then m == u.tree && LinearOk(rules, h.tree, u.tree) && rules.contract(m)
    else exists base :: MergeBases(h, u) == {base} && IsJoin(rules, m, base.tree, h.tree, u.tree)
  }

  // ---------- uniqueness and symmetry ----------

  lemma L1UnionUnique(l1: Files, other: Files, b: Files, h: Files, u: Files)
    requires IsL1Union(l1, b, h, u) && IsL1Union(other, b, h, u)
    ensures l1 == other
  {}

  lemma OrdinaryMergeUnique(m: Files, other: Files, b: Files, h: Files, u: Files)
    requires IsOrdinaryMerge(m, b, h, u) && IsOrdinaryMerge(other, b, h, u)
    ensures m == other
  {}

  lemma L1UnionSymmetric(l1: Files, b: Files, h: Files, u: Files)
    requires IsL1Union(l1, b, h, u)
    ensures IsL1Union(l1, b, u, h)
  {}

  lemma JoinSymmetric(rules: Rules, m: Files, b: Files, h: Files, u: Files)
    requires IsJoin(rules, m, b, h, u)
    ensures IsJoin(rules, m, b, u, h)
  {
    var l1, ordinary :| IsL1Union(l1, b, h, u) && IsOrdinaryMerge(ordinary, b, h, u)
                        && RebuiltViews(rules, l1, h, u).Some? && m == ordinary + l1 + RebuiltViews(rules, l1, h, u).value;
    L1UnionSymmetric(l1, b, h, u);
    assert IsOrdinaryMerge(ordinary, b, u, h);
    assert RebuiltViews(rules, l1, u, h) == RebuiltViews(rules, l1, h, u);
  }

  /** Joining on one device and joining on the other lead to the same tree, or both fail. */
  lemma LeadsToSymmetric(rules: Rules, h: Commit, u: Commit, m: Files)
    ensures LeadsTo(rules, h, u, m) <==> LeadsTo(rules, u, h, m)
  {
    if IsAncestor(u, h) && IsAncestor(h, u) { AncestorAntisymmetric(h, u); }
    MergeBasesSymmetric(h, u);
    if base :| MergeBases(h, u) == {base} && IsJoin(rules, m, base.tree, h.tree, u.tree) {
      JoinSymmetric(rules, m, base.tree, h.tree, u.tree);
    }
    if base :| MergeBases(u, h) == {base} && IsJoin(rules, m, base.tree, u.tree, h.tree) {
      JoinSymmetric(rules, m, base.tree, u.tree, h.tree);
    }
  }

  lemma JoinUnique(rules: Rules, m: Files, n: Files, b: Files, h: Files, u: Files)
    requires IsJoin(rules, m, b, h, u) && IsJoin(rules, n, b, h, u)
    ensures m == n
  {
    var l1, ordinary :| IsL1Union(l1, b, h, u) && IsOrdinaryMerge(ordinary, b, h, u)
                        && RebuiltViews(rules, l1, h, u).Some? && m == ordinary + l1 + RebuiltViews(rules, l1, h, u).value;
    var l1', ordinary' :| IsL1Union(l1', b, h, u) && IsOrdinaryMerge(ordinary', b, h, u)
                          && RebuiltViews(rules, l1', h, u).Some? && n == ordinary' + l1' + RebuiltViews(rules, l1', h, u).value;
    L1UnionUnique(l1, l1', b, h, u);
    OrdinaryMergeUnique(ordinary, ordinary', b, h, u);
  }

  /** The heads lead to at most one tree. */
  lemma LeadsToUnique(rules: Rules, h: Commit, u: Commit, m: Files, n: Files)
    requires LeadsTo(rules, h, u, m) && LeadsTo(rules, h, u, n)
    ensures m == n
  {
    if h != u && !IsAncestor(u, h) && !IsAncestor(h, u) {
      var base :| MergeBases(h, u) == {base} && IsJoin(rules, m, base.tree, h.tree, u.tree);
      var other :| MergeBases(h, u) == {other} && IsJoin(rules, n, other.tree, h.tree, u.tree);
      assert other in {base};
      JoinUnique(rules, m, n, base.tree, h.tree, u.tree);
    }
  }

  /** Two devices that each prepare the join of their own head with the other's get the same tree. */
  lemma DevicesAgree(rules: Rules, h: Commit, u: Commit, m: Files, n: Files)
    requires LeadsTo(rules, h, u, m) && LeadsTo(rules, u, h, n)
    ensures m == n
  {
    LeadsToSymmetric(rules, u, h, n);
    LeadsToUnique(rules, h, u, m, n);
  }

  /** Every event either head has is in the joined tree, unchanged. */
  lemma EventsSurvive(rules: Rules, m: Files, b: Files, h: Files, u: Files, p: Path)
    requires BuildsViews(rules) && IsJoin(rules, m, b, h, u) && IsL1(p) && (p in h || p in u)
    ensures p in m && (p in h ==> m[p] == h[p]) && (p in u ==> m[p] == u[p])
  {
    AreasDisjoint(p);
    var l1, ordinary :| IsL1Union(l1, b, h, u) && IsOrdinaryMerge(ordinary, b, h, u)
                        && RebuiltViews(rules, l1, h, u).Some? && m == ordinary + l1 + RebuiltViews(rules, l1, h, u).value;
    assert L1At(Get(b, p), Get(h, p), Get(u, p), p) == Ok(Get(l1, p));
  }

  /** Outside both machine-owned areas the joined tree follows the three-way rule, path by path. */
  lemma OrdinaryFollowsThreeWay(rules: Rules, m: Files, b: Files, h: Files, u: Files, p: Path)
    requires BuildsViews(rules) && IsJoin(rules, m, b, h, u) && Ordinary(p)
    ensures ThreeWay(Get(b, p), Get(h, p), Get(u, p)) == Some(Get(m, p))
  {}

  // ---------- preparing ----------

  method BuildViews(rules: Rules, l1: Files, left: Files, right: Files) returns (r: Result<Files, JoinError>)
    ensures r == match RebuiltViews(rules, l1, left, right) case Some(v) => Ok(v) case None => Err(L2Unbuildable)
  {
    if !rules.parentOk(left) || !rules.parentOk(right) { return Err(L2Unbuildable); }
    var built := rules.build(l1);
    r := if built.Some? then Ok(built.value) else Err(L2Unbuildable);
  }

  method ValidateLinearCanonicalTransition(rules: Rules, base: Files, candidate: Files) returns (error: Option<JoinError>)
    ensures error.None? <==> LinearOk(rules, base, candidate)
  {
    var l1 := UnionL1(base, base, candidate);
    if l1.Err? {
      assert forall l :: !IsL1Union(l, base, base, candidate);
      return Some(l1.error);
    }
    forall l | IsL1Union(l, base, base, candidate) ensures l == l1.value {
      L1UnionUnique(l, l1.value, base, base, candidate);
    }
    var views := BuildViews(rules, l1.value, base, candidate);
    if views.Err? { return Some(views.error); }
    if views.value != Views(candidate) { return Some(LinearL2Mismatch); }
    error := None;
  }

  /** The merge of two divergent heads. */
  method MergeDivergent(rules: Rules, b: Files, h: Files, u: Files) returns (r: Result<Tree, JoinError>)
    requires BuildsViews(rules)
    ensures r.Ok? <==> exists m :: IsJoin(rules, m, b, h, u)
    ensures r.Ok? ==> IsJoin(rules, r.value, b, h, u)
    ensures r.Err? ==> r.error != MergeBaseAmbiguous
  {
    var l1 := UnionL1(b, h, u);
    if l1.Err? {
      assert forall l :: !IsL1Union(l, b, h, u);
      return Err(l1.error);
    }
    var views := BuildViews(rules, l1.value, h, u);
    var ordinary := MergeOrdinaryPaths(b, h, u);
    OnlyJoin(rules, b, h, u, l1.value);
    if views.Err? { return Err(views.error); }
    if ordinary.Err? {
      assert forall o :: !IsOrdinaryMerge(o, b, h, u);
      return Err(ordinary.error);
    }
    var candidate := ordinary.value + l1.value + views.value;
    OnlyOrdinary(rules, b, h, u, l1.value, ordinary.value);
    if !rules.contract(candidate) { return Err(ContractBroken); }
    r := AssembleTree(candidate);
  }

  lemma OnlyJoin(rules: Rules, b: Files, h: Files, u: Files, l1: Files)
    requires IsL1Union(l1, b, h, u)
    ensures forall m | IsJoin(rules, m, b, h, u) :: RebuiltViews(rules, l1, h, u).Some? && exists o :: IsOrdinaryMerge(o, b, h, u)
  {
    forall l | IsL1Union(l, b, h, u) ensures l == l1 { L1UnionUnique(l, l1, b, h, u); }
  }

  lemma OnlyOrdinary(rules: Rules, b: Files, h: Files, u: Files, l1: Files, ordinary: Files)
    requires IsL1Union(l1, b, h, u) && IsOrdinaryMerge(ordinary, b, h, u) && RebuiltViews(rules, l1, h, u).Some?
    ensures var m := ordinary + l1 + RebuiltViews(rules, l1, h, u).value;
            && (forall n | IsJoin(rules, n, b, h, u) :: n == m)
            && (rules.contract(m) && ClashFree(m) ==> IsJoin(rules, m, b, h, u))
            && (IsJoin(rules, m, b, h, u) ==> rules.contract(m) && ClashFree(m))
  {
    forall l | IsL1Union(l, b, h, u) ensures l == l1 { L1UnionUnique(l, l1, b, h, u); }
    forall o | IsOrdinaryMerge(o, b, h, u) ensures o == ordinary { OrdinaryMergeUnique(o, ordinary, b, h, u); }
  }

  /** What a prepared join must be. */
  ghost predicate IsPrepared(rules: Rules, p: PreparedJoin) {
    var h, u := p.localHead, p.upstreamHead;
    && LeadsTo(rules, h, u, p.candidateMap) && p.candidate.tree == p.candidateMap
    && match p.status
       case Noop => p.candidate == h && (h == u || IsAncestor(u, h)) && p.base == u
       case FastForward => p.candidate == u && h != u && !IsAncestor(u, h) && IsAncestor(h, u) && p.base == h
       case Join => p.candidate == Commit([h, u], p.candidateMap, JOIN_MESSAGE) && !IsAncestor(h, u) && !IsAncestor(u, h)
                    && MergeBases(h, u) == {p.base}
  }

  /** The heads determine it completely, so a later run can recompute it. */
  lemma PreparedUnique(rules: Rules, p: PreparedJoin, q: PreparedJoin)
    requires IsPrepared(rules, p) && IsPrepared(rules, q) && p.localHead == q.localHead && p.upstreamHead == q.upstreamHead
    ensures p == q
  {
    LeadsToUnique(rules, p.localHead, p.upstreamHead, p.candidateMap, q.candidateMap);
    assert IsAncestor(p.localHead, p.localHead);
    if p.status == Join && q.status == Join { assert p.base in {q.base}; }
  }

  /** The events of the local head are in the candidate, unchanged. */
  lemma LocalEventsKept(rules: Rules, p: PreparedJoin, path: Path)
    requires BuildsViews(rules) && IsPrepared(rules, p) && IsL1(path) && path in p.localHead.tree
    ensures path in p.candidate.tree && p.candidate.tree[path] == p.localHead.tree[path]
  {
    var h, u := p.localHead, p.upstreamHead;
    match p.status
    case Noop =>
    case FastForward =>
      var l1 :| IsL1Union(l1, h.tree, h.tree, u.tree);
      assert L1At(Get(h.tree, path), Get(h.tree, path), Get(u.tree, path), path).Ok?;
    case Join => EventsSurvive(rules, p.candidateMap, p.base.tree, h.tree, u.tree, path);
  }

  /** What a joined tree holds, area by area: the events of both heads, which never disagree; the views built from just
      those events; and elsewhere whichever side changed the base. */
  ghost predicate JoinHolds(rules: Rules, m: Files, b: Files, h: Files, u: Files) {
    && rules.build(map p | p in m && IsL1(p) :: m[p]) == Some(map p | p in m && IsL2(p) :: m[p])
    && (forall p | IsL1(p) :: (p in m <==> p in h || p in u) && (p in h ==> m[p] == h[p]) && (p in u ==> m[p] == u[p]))
    && (forall p | !IsL1(p) && !IsL2(p) && Get(h, p) == Get(b, p) :: Get(m, p) == Get(u, p))
    && (forall p | !IsL1(p) && !IsL2(p) && Get(u, p) == Get(b, p) :: Get(m, p) == Get(h, p))
    && (forall p | !IsL1(p) && !IsL2(p) && Get(h, p) != Get(b, p) && Get(u, p) != Get(b, p) :: Get(m, p) == Get(h, p) == Get(u, p))
  }

  /** Three maps over separate areas, read off their sum. */
  lemma Areas(m: Files, ordinary: Files, l1: Files, views: Files)
    requires m == ordinary + l1 + views
    requires forall p | p in ordinary :: Ordinary(p)
    requires (forall p | p in l1 :: IsL1(p)) && forall p | p in views :: IsL2(p)
    ensures (map p | p in m && IsL1(p) :: m[p]) == l1 && (map p | p in m && IsL2(p) :: m[p]) == views
    ensures forall p | IsL1(p) :: Get(m, p) == Get(l1, p)
    ensures forall p | Ordinary(p) :: Get(m, p) == Get(ordinary, p)
  {
    forall p ensures !(IsL1(p) && IsL2(p)) { AreasDisjoint(p); }
    hide IsL1, IsL2;
    assert forall p | IsL1(p) :: Get(m, p) == Get(l1, p);
    assert forall p | IsL2(p) :: Get(m, p) == Get(views, p);
    SameFiles(map p | p in m && IsL1(p) :: m[p], l1);
    SameFiles(map p | p in m && IsL2(p) :: m[p], views);
  }

  lemma EventsOfUnion(l1: Files, b: Files, h: Files, u: Files)
    requires IsL1Union(l1, b, h, u)
    ensures forall p | IsL1(p) :: (p in l1 <==> p in h || p in u) && (p in h ==> Get(l1, p) == Get(h, p)) && (p in u ==> Get(l1, p) == Get(u, p))
  {
    hide IsL1;
    forall p | IsL1(p) ensures (p in l1 <==> p in h || p in u) && (p in h ==> Get(l1, p) == Get(h, p)) && (p in u ==> Get(l1, p) == Get(u, p)) {
      assert L1At(Get(b, p), Get(h, p), Get(u, p), p) == Ok(Get(l1, p));
    }
  }

  lemma RestOfMerge(m: Files, b: Files, h: Files, u: Files, p: Path)
    requires IsOrdinaryMerge(m, b, h, u) && Ordinary(p)
    ensures Get(h, p) == Get(b, p) ==> Get(m, p) == Get(u, p)
    ensures Get(u, p) == Get(b, p) ==> Get(m, p) == Get(h, p)
    ensures Get(h, p) != Get(b, p) && Get(u, p) != Get(b, p) ==> Get(m, p) == Get(h, p) == Get(u, p)
  {
    hide Ordinary;
    assert ThreeWay(Get(b, p), Get(h, p), Get(u, p)) == Some(Get(m, p));
  }

  lemma JoinMeans(rules: Rules, m: Files, b: Files, h: Files, u: Files)
    requires BuildsViews(rules) && IsJoin(rules, m, b, h, u)
    ensures JoinHolds(rules, m, b, h, u)
  {
    hide IsL1Union, IsOrdinaryMerge, JoinHolds, IsL1, IsL2;
    var l1, ordinary :| IsL1Union(l1, b, h, u) && IsOrdinaryMerge(ordinary, b, h, u)
                        && RebuiltViews(rules, l1, h, u).Some? && m == ordinary + l1 + RebuiltViews(rules, l1, h, u).value;
    var views := rules.build(l1).value;
    JoinPartsMean(rules, m, ordinary, l1, views, b, h, u);
  }

  lemma JoinPartsMean(rules: Rules, m: Files, ordinary: Files, l1: Files, views: Files, b: Files, h: Files, u: Files)
    requires IsL1Union(l1, b, h, u) && IsOrdinaryMerge(ordinary, b, h, u) && m == ordinary + l1 + views
    requires BuildsViews(rules) && rules.build(l1) == Some(views)
    ensures JoinHolds(rules, m, b, h, u)
  {
    Areas(m, ordinary, l1, views);
    EventsOfUnion(l1, b, h, u);
    hide IsL1, IsL2, IsL1Union, IsOrdinaryMerge;
    forall p | IsL1(p) ensures (p in m <==> p in h || p in u) && (p in h ==> m[p] == h[p]) && (p in u ==> m[p] == u[p]) {
      assert Get(m, p) == Get(l1, p);
    }
    forall p | !IsL1(p) && !IsL2(p)
      ensures Get(h, p) == Get(b, p) ==> Get(m, p) == Get(u, p)
      ensures Get(u, p) == Get(b, p) ==> Get(m, p) == Get(h, p)
      ensures Get(h, p) != Get(b, p) && Get(u, p) != Get(b, p) ==> Get(m, p) == Get(h, p) == Get(u, p)
    {
      RestOfMerge(ordinary, b, h, u, p);
      assert Get(ordinary, p) == Get(m, p);
    }
  }

  /** A linear transition only adds events and carries just the views its events build. */
  lemma LinearMeans(rules: Rules, before: Files, after: Files)
    requires LinearOk(rules, before, after)
    ensures forall p | p in before && IsL1(p) :: Get(after, p) == Get(before, p)
    ensures rules.build(map p | p in after && IsL1(p) :: after[p]) == Some(map p | p in after && IsL2(p) :: after[p])
  {
    var l1 :| IsL1Union(l1, before, before, after) && RebuiltViews(rules, l1, before, after) == Some(Views(after));
    hide IsL1, IsL2;
    forall p | IsL1(p) ensures Get(l1, p) == Get(after, p) && (p in before ==> Get(after, p) == Get(before, p)) {
      assert L1At(Get(before, p), Get(before, p), Get(after, p), p) == Ok(Get(l1, p));
    }
    assert (map p | p in after && IsL1(p) :: after[p]) == l1;
  }

  /** `prepareDeviceJoin`, without the ignore-file migration. */
  method PrepareDeviceJoin(rules: Rules, h: Commit, u: Commit) returns (r: Result<PreparedJoin, JoinError>)
    requires BuildsViews(rules)
    ensures r.Ok? <==> exists m :: LeadsTo(rules, h, u, m)
    ensures r.Ok? ==> r.value.localHead == h && r.value.upstreamHead == u && IsPrepared(rules, r.value)
    ensures r.Ok? ==> IsAncestor(h, r.value.candidate) && IsAncestor(u, r.value.candidate)
    ensures !IsAncestor(h, u) && !IsAncestor(u, h) ==> (r == Err(MergeBaseAmbiguous) <==> forall b :: !BestBase(b, h, u))
    ensures r.Ok? && !IsAncestor(h, u) && !IsAncestor(u, h) ==>
              BestBase(r.value.base, h, u) && JoinHolds(rules, r.value.candidate.tree, r.value.base.tree, h.tree, u.tree)
    ensures r.Ok? && h != u && IsAncestor(u, h) ==> r.value.candidate == h && LinearOk(rules, u.tree, h.tree)
    ensures r.Ok? && !IsAncestor(u, h) && IsAncestor(h, u) ==> r.value.candidate == u && LinearOk(rules, h.tree, u.tree)
  {
    hide LinearOk, IsJoin, MergeBases, BestBase, JoinHolds;
    if h == u {
      if !rules.contract(h.tree) { return Err(ContractBroken); }
      assert LeadsTo(rules, h, u, h.tree);
      return Ok(PreparedJoin(Noop, u, h, u, h, h.tree));
    }
    if IsAncestor(u, h) {
      var error := ValidateLinearCanonicalTransition(rules, u.tree, h.tree);
      if error.Some? { return Err(error.value); }
      if !rules.contract(h.tree) { return Err(ContractBroken); }
      assert LeadsTo(rules, h, u, h.tree);
      return Ok(PreparedJoin(Noop, u, h, u, h, h.tree));
    }
    if IsAncestor(h, u) {
      var error := ValidateLinearCanonicalTransition(rules, h.tree, u.tree);
      if error.Some? { return Err(error.value); }
      if !rules.contract(u.tree) { return Err(ContractBroken); }
      assert LeadsTo(rules, h, u, u.tree);
      return Ok(PreparedJoin(FastForward, h, h, u, u, u.tree));
    }
    var bases := MergeBases(h, u);
    forall b ensures bases == {b} <==> BestBase(b, h, u) { MergeBaseIsBest(h, u, b); }
    if |bases| != 1 { return Err(MergeBaseAmbiguous); }
    var base: Commit := OnlyMember(bases);
    var merged := MergeDivergent(rules, base.tree, h.tree, u.tree);
    if merged.Err? {
      assert forall other | bases == {other} :: other == base by { assert base in bases; }
      return Err(merged.error);
    }
    var candidate := Commit([h, u], merged.value, JOIN_MESSAGE);
    assert LeadsTo(rules, h, u, merged.value);
    JoinMeans(rules, merged.value, base.tree, h.tree, u.tree);
    ParentIsAncestor(candidate, 0);
    ParentIsAncestor(candidate, 1);
    r := Ok(PreparedJoin(Join, base, h, u, candidate, merged.value));
  }

  function OnlyMember<T(==)>(s: set<T>): (x: T)
    requires |s| == 1
    ensures s == {x}
  {
    assert s != {};
    var y :| y in s;
    assert |s - {y}| == 0;
    assert forall a, b | a in s && b in s :: a == b by {
      assert s == {y} + (s - {y});
    }
    var x :| x in s;
    x
  }
}
