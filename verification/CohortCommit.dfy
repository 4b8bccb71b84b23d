/** Preparing an exact cohort commit on a temporary index. */
module CohortCommit {
  import opened Order
  import opened Results
  import opened Git
  import opened Cohort

  // The real message also carries the manifest root, which the parent and the tree determine.
  const DRAIN_MESSAGE := "pi-astack local drain"

  datatype Prepared = Prepared(frozen: Commit, newTree: Tree, candidate: Commit, root: Root, entries: seq<PreparedEntry>)

  ghost function PathsOf(plan: seq<PlanEntry>): (s: set<Path>)
    ensures forall p :: p in s <==> exists i | 0 <= i < |plan| :: plan[i].path == p
  {
    set e | e in plan :: e.path
  }

  /** `t` is `base` with every plan step applied and nothing else. */
  ghost predicate Overlays(t: Files, base: Files, plan: seq<PlanEntry>) {
    && (forall i | 0 <= i < |plan| :: Get(t, plan[i].path) == TargetOf(plan[i]))
    && (forall p | p !in PathsOf(plan) :: Get(t, p) == Get(base, p))
  }

  /** The tree has the file that a step puts, with its mode and content, or no longer has the one it deletes. */
  predicate StepApplied(t: Files, e: PlanEntry) {
    if e.op == PutOp
    then e.path in t && Some(t[e.path].oid) == e.content && t[e.path].mode == if e.mode.Some? then e.mode.value else Regular
    else e.path !in t
  }

  /** Every step of the plan has been applied, and the tree is otherwise as before. */
  ghost predicate Applied(t: Files, base: Files, plan: seq<PlanEntry>) {
    && (forall e | e in plan :: StepApplied(t, e))
    && (forall p | forall e | e in plan :: e.path != p :: Get(t, p) == Get(base, p))
  }

  lemma StepMeans(t: Files, e: PlanEntry)
    requires e.op == PutOp ==> e.content.Some?
    ensures Get(t, e.path) == TargetOf(e) <==> StepApplied(t, e)
  {}

  /** What laying a valid plan over a tree gives. */
  lemma OverlaysMeans(t: Files, base: Files, plan: seq<PlanEntry>)
    requires ValidPlan(plan)
    ensures Overlays(t, base, plan) <==> Applied(t, base, plan)
  {
    ValidPlanDistinct(plan);
    hide ValidPlan, TargetOf, StepApplied;
    forall i | 0 <= i < |plan| ensures Get(t, plan[i].path) == TargetOf(plan[i]) <==> StepApplied(t, plan[i]) {
      assert plan[i] in plan;
      StepMeans(t, plan[i]);
    }
    forall p ensures p !in PathsOf(plan) <==> forall e | e in plan :: e.path != p {}
    if Overlays(t, base, plan) {
      forall e | e in plan ensures StepApplied(t, e) {
        var i :| 0 <= i < |plan| && plan[i] == e;
        assert Get(t, plan[i].path) == TargetOf(plan[i]);
      }
    }
  }

  /** The step changes the frozen tree. */
  predicate RealChange(base: Files, e: PlanEntry) {
    Get(base, e.path) != TargetOf(e)
  }

  /** A put over a symlink or gitlink shows up as a type change, which the diff check refuses. */
  predicate KeepsType(base: Files, e: PlanEntry) {
    e.op == PutOp && e.path in base ==> TypeOf(base[e.path].mode) == FileType
  }

  /** No put of the plan lands on a directory, and every file in the way of a put is deleted by the plan. */
  ghost predicate Placeable(base: Files, plan: seq<PlanEntry>) {
    && (forall e, q | e in plan && e.op == PutOp && q in base && Clash(q, e.path) ::
          Under(e.path, q) && exists d | d in plan :: d.op == DeleteOp && d.path == q)
    && (forall e, f | e in plan && f in plan && e.op == PutOp && f.op == PutOp :: !Clash(e.path, f.path))
  }

  ghost predicate Committable(base: Files, plan: seq<PlanEntry>) {
    && ValidPlan(plan) && plan != []
    && (forall e | e in plan :: RealChange(base, e) && KeepsType(base, e))
    && Placeable(base, plan)
  }

  /** `update-index --add --cacheinfo`: refused when the path clashes with another listed path. */
  predicate Refused(index: Files, p: Path) {
    p !in index && exists q | q in index :: Clash(q, p)
  }

  // What the temporary index looks like after the first `i` steps of the sorted plan.
  ghost predicate Staging(index: Files, base: Files, plan: seq<PlanEntry>, i: nat)
    requires i <= |plan|
  {
    && ClashFree(index)
    && Overlays(index, base, plan[..i])
    && forall j, q | 0 <= j < i && plan[j].op == PutOp && q in base :: !Under(q, plan[j].path)
  }

  ghost predicate PlanShape(plan: seq<PlanEntry>) {
    && (forall i, j | 0 <= i < j < |plan| :: plan[i].path != plan[j].path)
    && (forall e | e in plan :: e.op == PutOp || e.op == DeleteOp)
    && (forall e | e in plan && e.op == PutOp :: e.content.Some? && TypeOf(ModeOf(e)) == FileType)
  }

  lemma PathsOfNext(plan: seq<PlanEntry>, i: nat)
    requires i < |plan|
    ensures PathsOf(plan[..i + 1]) == PathsOf(plan[..i]) + {plan[i].path}
  {}

  lemma StageDelete(index: Files, base: Files, plan: seq<PlanEntry>, i: nat)
    requires i < |plan| && PlanShape(plan) && Staging(index, base, plan, i) && plan[i].op == DeleteOp
    ensures Staging(index - {plan[i].path}, base, plan, i + 1)
  {
    var next := index - {plan[i].path};
    assert plan[..i + 1] == plan[..i] + [plan[i]];
    forall j | 0 <= j < i + 1 ensures Get(next, plan[j].path) == TargetOf(plan[j]) {
      if j < i { assert plan[..i][j] == plan[j]; }
    }
    PathsOfNext(plan, i);
  }

  lemma StagePut(index: Files, base: Files, plan: seq<PlanEntry>, i: nat)
    requires ClashFree(base)
    requires i < |plan| && PlanShape(plan) && Sorted(PlanLe, plan)
    requires Staging(index, base, plan, i) && plan[i].op == PutOp && plan[i].content.Some?
    requires !Refused(index, plan[i].path)
    ensures Staging(index[plan[i].path := TargetOf(plan[i]).value], base, plan, i + 1)
  {
    var e := plan[i];
    var next := index[e.path := TargetOf(e).value];
    assert plan[..i + 1] == plan[..i] + [e];
    forall j | 0 <= j < i + 1 ensures Get(next, plan[j].path) == TargetOf(plan[j]) {
      if j < i { assert plan[..i][j] == plan[j]; }
    }
    PathsOfNext(plan, i);
    forall q | q in base ensures !Under(q, e.path) {
      if Under(q, e.path) { StillListed(index, base, plan, i, q); }
    }
    forall p, q | p in next && q in next ensures !Under(p, q) {
      if p != e.path && q == e.path { assert p in index; assert !Clash(p, e.path) || e.path in index; }
      if p == e.path && q != e.path { assert q in index; assert !Clash(q, e.path) || e.path in index; }
    }
  }

  /** A base path below the path being put has not been touched yet, so it is still listed. */
  lemma StillListed(index: Files, base: Files, plan: seq<PlanEntry>, i: nat, q: Path)
    requires i < |plan| && Sorted(PlanLe, plan) && Staging(index, base, plan, i)
    requires q in base && Under(q, plan[i].path)
    ensures q in index
  {
    UnderIsAfter(q, plan[i].path);
    assert forall j | 0 <= j < i :: PlanLe(plan[j], plan[i]) && plan[..i][j] == plan[j];
    assert q !in PathsOf(plan[..i]);
    assert Get(index, q) == Get(base, q);
  }

  /** A refused put means that the plan could not be placed. */
  lemma RefusedMeansUnplaceable(index: Files, base: Files, plan: seq<PlanEntry>, i: nat)
    requires i < |plan| && PlanShape(plan) && Sorted(PlanLe, plan)
    requires Staging(index, base, plan, i) && plan[i].op == PutOp && Refused(index, plan[i].path)
    ensures !Placeable(base, plan)
  {
    var e := plan[i];
    var q :| q in index && Clash(q, e.path);
    if j :| 0 <= j < i && plan[j].path == q {
      assert plan[..i][j] == plan[j];
      assert Get(index, q) == TargetOf(plan[j]);
      assert plan[j] in plan && e in plan;
    } else {
      assert q !in PathsOf(plan[..i]);
      assert Get(index, q) == Get(base, q);
      assert e in plan;
      if Under(e.path, q) {
        UnderIsAfter(e.path, q);
        if d :| d in plan && d.op == DeleteOp && d.path == q {
          var k :| 0 <= k < |plan| && plan[k] == d;
          assert k > i;
          assert PlanLe(e, d);
          PathAntisymmetric(e.path, q);
        }
      } else {
        UnderIsAfter(q, e.path);
        if Under(e.path, q) { UnderIsAfter(e.path, q); }
      }
    }
  }

  /** A fully staged plan was placeable. */
  lemma StagedMeansPlaceable(index: Files, base: Files, plan: seq<PlanEntry>)
    requires PlanShape(plan) && Staging(index, base, plan, |plan|)
    ensures Placeable(base, plan)
  {
    assert plan[..|plan|] == plan;
    forall e | e in plan && e.op == PutOp ensures e.path in index {
      var i :| 0 <= i < |plan| && plan[i] == e;
      assert Get(index, e.path) == TargetOf(e);
    }
    forall e, q | e in plan && e.op == PutOp && q in base && Clash(q, e.path)
      ensures Under(e.path, q) && exists d | d in plan :: d.op == DeleteOp && d.path == q
    {
      var i :| 0 <= i < |plan| && plan[i] == e;
      assert !Under(q, e.path);
      assert q !in index;
      assert Get(index, q) != Get(base, q);
      var j :| 0 <= j < |plan| && plan[j].path == q;
      assert Get(index, q) == TargetOf(plan[j]);
      assert plan[j] in plan;
    }
  }

  // ---------- the exact diff ----------

  /** Rows of `diff-tree base tree`, by path. */
  function DiffMap(base: Files, tree: Files): map<Path, DiffRow> {
    map p | p in base.Keys + tree.Keys && Get(base, p) != Get(tree, p) ::
      DiffRow(p, DiffStatus(Get(base, p), Get(tree, p)).value, Get(tree, p))
  }

  lemma RowAt(base: Files, tree: Files, p: Path)
    ensures p in DiffMap(base, tree) <==> Get(base, p) != Get(tree, p)
    ensures p in DiffMap(base, tree) ==>
              DiffMap(base, tree)[p] == DiffRow(p, DiffStatus(Get(base, p), Get(tree, p)).value, Get(tree, p))
  {}

  lemma {:induction false} PathsOfSize(plan: seq<PlanEntry>)
    requires forall i, j | 0 <= i < j < |plan| :: plan[i].path != plan[j].path
    ensures |PathsOf(plan)| == |plan|
  {
    if |plan| == 0 {
      assert PathsOf(plan) == {};
    } else {
      PathsOfSize(plan[1..]);
      assert plan == [plan[0]] + plan[1..];
      assert PathsOf(plan) == {plan[0].path} + PathsOf(plan[1..]);
      assert plan[0].path !in PathsOf(plan[1..]);
    }
  }

  lemma SubsetSameSize<T>(a: set<T>, b: set<T>)
    requires a <= b && |a| == |b|
    ensures a == b
  {
    if a != b {
      assert exists x :: x in b && x !in a;
      var x :| x in b && x !in a;
      assert a <= b - {x};
      SubsetSize(a, b - {x});
    }
  }

  lemma {:induction false} SubsetSize<T>(a: set<T>, b: set<T>)
    requires a <= b
    ensures |a| <= |b|
  {
    if a != {} {
      var x :| x in a;
      SubsetSize(a - {x}, b - {x});
    }
  }

  /** The observed delta has as many rows as the plan just when every step is a real change. */
  lemma DeltaSize(base: Files, tree: Files, plan: seq<PlanEntry>)
    requires PlanShape(plan) && Overlays(tree, base, plan)
    ensures DiffMap(base, tree).Keys <= PathsOf(plan)
    ensures |DiffMap(base, tree)| == |plan| <==> forall e | e in plan :: RealChange(base, e)
  {
    var keys := DiffMap(base, tree).Keys;
    PathsOfSize(plan);
    if |keys| == |plan| {
      SubsetSameSize(keys, PathsOf(plan));
      forall e | e in plan ensures RealChange(base, e) {
        var i :| 0 <= i < |plan| && plan[i] == e;
        assert e.path in keys;
      }
    }
    if forall e | e in plan :: RealChange(base, e) {
      forall p | p in PathsOf(plan) ensures p in keys {
        var i :| 0 <= i < |plan| && plan[i].path == p;
        assert plan[i] in plan;
        assert Get(tree, p) == TargetOf(plan[i]);
        assert Get(base, p) != Get(tree, p);
      }
      assert keys == PathsOf(plan);
    }
  }

  predicate RowMatches(row: DiffRow, e: PreparedEntry) {
    if e.op == DeleteOp then row.status == D
    else
      && (row.status == A || row.status == M)
      && row.after.Some? && row.after.value.oid == e.blobOid && Some(row.after.value.mode) == e.mode
  }

  /** Row by row, the check accepts a real change exactly when it keeps the object type. */
  lemma RowAccepted(base: Files, tree: Files, plan: seq<PlanEntry>, i: nat)
    requires i < |plan| && PlanShape(plan) && Overlays(tree, base, plan) && RealChange(base, plan[i])
    ensures plan[i].path in DiffMap(base, tree)
    ensures RowMatches(DiffMap(base, tree)[plan[i].path], PreparedOf(plan[i], true)) <==> KeepsType(base, plan[i])
  {}

  lemma PlaceableReordered(base: Files, plan: seq<PlanEntry>, other: seq<PlanEntry>)
    requires multiset(plan) == multiset(other)
    ensures Placeable(base, plan) <==> Placeable(base, other)
  {
    SameMembers(plan, other);
  }

  lemma OverlaysReordered(t: Files, base: Files, plan: seq<PlanEntry>, other: seq<PlanEntry>)
    requires multiset(plan) == multiset(other) && Overlays(t, base, plan)
    ensures Overlays(t, base, other)
  {
    SameMembers(plan, other);
    forall i | 0 <= i < |other| ensures Get(t, other[i].path) == TargetOf(other[i]) {
      assert other[i] in plan;
    }
    assert PathsOf(plan) == PathsOf(other) by {
      forall p ensures p in PathsOf(plan) <==> p in PathsOf(other) {
        if i :| 0 <= i < |plan| && plan[i].path == p { assert plan[i] in other; }
        if i :| 0 <= i < |other| && other[i].path == p { assert other[i] in plan; }
      }
    }
  }

  lemma SortedPlanIs(plan: seq<PlanEntry>, sorted: seq<PlanEntry>)
    requires Sorted(PlanLe, sorted) && multiset(sorted) == multiset(plan)
    requires forall i, j | 0 <= i < j < |sorted| :: sorted[i].path != sorted[j].path
    ensures sorted == SortBy(PlanLe, plan)
  {
    assert Sorted(PlanLe, SortBy(PlanLe, plan)) by {
      PathLePreorder();
      SortBySorted(PlanLe, plan);
    }
    forall x, y | x in sorted && y in sorted && PlanLe(x, y) && PlanLe(y, x) ensures x == y {
      var i :| 0 <= i < |sorted| && sorted[i] == x;
      var j :| 0 <= j < |sorted| && sorted[j] == y;
      PathAntisymmetric(x.path, y.path);
    }
    SortedUnique(PlanLe, sorted, SortBy(PlanLe, plan));
  }

  /** Run the sorted steps on a temporary index seeded with the frozen tree. */
  method StagePlan(base: Tree, plan: seq<PlanEntry>) returns (r: Result<Tree, CohortError>)
    requires PlanShape(plan) && Sorted(PlanLe, plan)
    ensures r.Ok? <==> Placeable(base, plan)
    ensures r.Ok? ==> Overlays(r.value, base, plan)
  {
    var index: Files := base;
    for i := 0 to |plan|
      invariant Staging(index, base, plan, i)
    {
      var entry := plan[i];
      assert entry in plan;
      if entry.op == DeleteOp {
        StageDelete(index, base, plan, i);
        index := index - {entry.path};
      } else {
        if entry.path !in index && exists q | q in index :: Clash(q, entry.path) {
          RefusedMeansUnplaceable(index, base, plan, i);
          return Err(GitClash);
        }
        StagePut(index, base, plan, i);
        index := index[entry.path := Entry(ModeOf(entry), entry.content.value)];
      }
    }
    assert plan[..|plan|] == plan;
    StagedMeansPlaceable(index, base, plan);
    r := Ok(index);
  }

  /** The delta of the new tree must be the plan, row for row. */
  method DeltaIsPlan(base: Tree, newTree: Tree, plan: seq<PlanEntry>, prepared: seq<PreparedEntry>) returns (ok: bool)
    requires PlanShape(plan) && Overlays(newTree, base, plan) && prepared == PreparedAll(plan, true)
    ensures ok <==> forall e | e in plan :: RealChange(base, e) && KeepsType(base, e)
  {
    hide DiffMap, Overlays, PlanShape, RowMatches, RealChange, KeepsType;
    var observed := DiffMap(base, newTree);
    DeltaSize(base, newTree, plan);
    if |observed| != |prepared| { return false; }
    for i := 0 to |prepared|
      invariant forall j | 0 <= j < i :: KeepsType(base, plan[j])
    {
      assert plan[i] in plan;
      RowAccepted(base, newTree, plan, i);
      if !RowMatches(observed[prepared[i].path], prepared[i]) { return false; }
    }
    ok := true;
  }

  method PrepareExactCohortCommit(frozen: Commit, plan: seq<PlanEntry>) returns (r: Result<Prepared, CohortError>)
    ensures r.Ok? <==> Committable(frozen.tree, plan)
    ensures r.Ok? ==>
      && Overlays(r.value.newTree, frozen.tree, plan) && Applied(r.value.newTree, frozen.tree, plan)
      && r.value.frozen == frozen
      && r.value.candidate == Commit([frozen], r.value.newTree, DRAIN_MESSAGE)
      && r.value.entries == PreparedAll(SortBy(PlanLe, plan), true)
      && r.value.root == ManifestRoot(r.value.entries)
  {
    hide Placeable, Overlays, Applied, RealChange, KeepsType, PlanErrorAt, TargetOf;
    var checked := ValidateCohortPlan(plan);
    if checked.Err? { return Err(checked.error); }
    var sorted := checked.value;
    ValidPlanDistinct(plan);
    DistinctInOrder(plan, sorted);
    SameMembers(plan, sorted);
    SortedPlanIs(plan, sorted);
    if |sorted| == 0 { return Err(EmptyPlan); }
    assert sorted[0] in plan;
    PlaceableReordered(frozen.tree, plan, sorted);
    var staged := StagePlan(frozen.tree, sorted);
    if staged.Err? { return Err(staged.error); }
    var newTree := staged.value;
    var prepared := PreparedAll(sorted, true);
    var exact := DeltaIsPlan(frozen.tree, newTree, sorted, prepared);
    if !exact { return Err(TreeMismatch); }
    OverlaysReordered(newTree, frozen.tree, sorted, plan);
    OverlaysMeans(newTree, frozen.tree, plan);
    r := Ok(Prepared(frozen, newTree, Commit([frozen], newTree, DRAIN_MESSAGE), ManifestRoot(prepared), prepared));
  }

  lemma PreparedSorted(s: seq<PlanEntry>, withBlob: bool)
    requires Sorted(PlanLe, s)
    requires forall i, j | 0 <= i < j < |s| :: s[i].path != s[j].path
    ensures SortBy(PreparedLe, PreparedAll(s, withBlob)) == PreparedAll(s, withBlob)
  {
    var all := PreparedAll(s, withBlob);
    forall i, j | 0 <= i < j < |s| ensures PreparedLe(all[i], all[j]) {
      assert PlanLe(s[i], s[j]);
    }
    SortedIsFixed(all);
  }

  /** Whatever order the caller lists the steps in, the root announced for the plan is the root of the
      prepared commit, and the sorted plan is the same. */
  lemma PlanRootIsPreparedRoot(plan: seq<PlanEntry>, other: seq<PlanEntry>)
    requires ValidPlan(plan) && multiset(plan) == multiset(other)
    ensures PlanSemanticRoot(other) == ManifestRoot(PreparedAll(SortBy(PlanLe, plan), true))
    ensures SortBy(PlanLe, other) == SortBy(PlanLe, plan)
  {
    ValidPlanDistinct(plan);
    SortedPlanUnique(plan, other);
    var s := SortBy(PlanLe, plan);
    DistinctInOrder(plan, s);
    assert Sorted(PlanLe, s) by {
      PathLePreorder();
      SortBySorted(PlanLe, plan);
    }
    PreparedSorted(s, false);
    PreparedSorted(s, true);
    assert Semantics(PreparedAll(s, false)) == Semantics(PreparedAll(s, true));
  }

  /** Steps that are all real changes can still be refused: a directory swapped for a file in one cohort
      (the put sorts before the delete that would make room), and a file put over a symlink. */
  lemma RealChangesAreNotEnough(fileEntry: Entry, link: Entry)
    requires link.mode == Symlink
    ensures var base: Files := map["a/b" := fileEntry];
            var plan := [PlanEntry("a", PutOp, None, Some("x")), PlanEntry("a/b", DeleteOp, None, None)];
            ClashFree(base) && (forall e | e in plan :: RealChange(base, e) && KeepsType(base, e)) && !Committable(base, plan)
    ensures var base: Files := map["a" := link];
            var plan := [PlanEntry("a", PutOp, None, Some("x"))];
            ClashFree(base) && Placeable(base, plan) && (forall e | e in plan :: RealChange(base, e)) && !Committable(base, plan)
  {}
}
