/** A content drain: freeze an operation, claim a slot for it, prepare the exact commit, record and recover it. */
module RecoveryDrain {
  import opened Order
  import opened Results
  import opened Git
  import opened Cohort
  import opened CohortCommit
  import opened CohortIndex
  import opened RecoveryFold
  import opened RecoveryLog
  import opened RecoveryWorld
  import opened RecoverySession

  const CLAIM_STEPS := DRAIN_BUDGET + 1

  datatype DrainResult = Empty | Blocked | Consumed | DrainConverged | PublishedPending

  function PlanPaths(plan: seq<PlanEntry>): (r: seq<Path>)
    ensures |r| == |plan| && forall i | 0 <= i < |r| :: r[i] == plan[i].path
  {
    seq(|plan|, i requires 0 <= i < |plan| => plan[i].path)
  }

  /** `snapshotIndexEntries`: the index line of every path, absence included. */
  function Snapshot(lines: Index, paths: seq<Path>): (r: map<Path, Option<Entry>>)
    ensures forall p :: p in r <==> p in paths
  {
    map p | p in paths :: if p in lines && lines[p].Staged? then Some(lines[p].entry) else None
  }

  /** The operation a plan stands for. */
  function OperationFor(symbolicRef: string, frozen: Commit, plan: seq<PlanEntry>, snapshot: map<Path, Option<Entry>>): Operation {
    Operation(symbolicRef, frozen, PlanSemanticRoot(plan), SnapshotRootOf(PreparedAll(SortBy(PlanLe, plan), false), snapshot))
  }

  lemma SnapshotRootIgnoresBlobs(plan: seq<PlanEntry>, snapshot: map<Path, Option<Entry>>)
    requires ValidPlan(plan)
    ensures SnapshotRootOf(PreparedAll(SortBy(PlanLe, plan), true), snapshot) == SnapshotRootOf(PreparedAll(SortBy(PlanLe, plan), false), snapshot)
  {
    var s := SortBy(PlanLe, plan);
    ValidPlanDistinct(plan);
    DistinctInOrder(plan, s);
    assert Sorted(PlanLe, s) by {
      PathLePreorder();
      SortBySorted(PlanLe, plan);
    }
    PreparedSorted(s, false);
    PreparedSorted(s, true);
  }

  /** A prepared commit always matches the operation frozen for its plan, and its event can be decoded. */
  lemma PreparedBinds(symbolicRef: string, frozen: Commit, plan: seq<PlanEntry>, prepared: Prepared, lines: Index)
    requires Committable(frozen.tree, plan)
    requires prepared.frozen == frozen && Overlays(prepared.newTree, frozen.tree, plan)
    requires prepared.candidate == Commit([frozen], prepared.newTree, DRAIN_MESSAGE)
    requires prepared.entries == PreparedAll(SortBy(PlanLe, plan), true) && prepared.root == ManifestRoot(prepared.entries)
    ensures var snapshot := Snapshot(lines, PlanPaths(plan));
            var op := OperationFor(symbolicRef, frozen, plan, snapshot);
            MatchesOperation(op, prepared, snapshot) && PreparedForSlot(BodyFor(op, prepared, snapshot), op)
  {
    var snapshot := Snapshot(lines, PlanPaths(plan));
    var op := OperationFor(symbolicRef, frozen, plan, snapshot);
    var body := BodyFor(op, prepared, snapshot);
    assert MatchesOperation(op, prepared, snapshot) by {
      PlanRootIsPreparedRoot(plan, plan);
      SnapshotRootIgnoresBlobs(plan, snapshot);
    }
    assert Built(body) by { assert BuiltFrom(body, plan); }
    PreparedDecodes(plan, body, op.symbolicRef, lines);
  }

  /** And the other way round: whatever commit was recorded for the operation is the commit for this plan on this base, with
      the index lines frozen now. */
  lemma OperationPins(op: Operation, b: PreparedBody, frozen: Commit, plan: seq<PlanEntry>, lines: Index)
    requires Binds(b, op) && Built(b) && ValidPlan(plan)
    requires op == OperationFor(op.symbolicRef, frozen, plan, Snapshot(lines, PlanPaths(plan)))
    ensures b.frozenCommit == frozen && FrozenFor(b, frozen.tree, plan, lines)
  {
    hide Committable, Overlays, SortBy, ValidPlan, Semantics, SnapshotRootOf, Snapshot, PreparedAll, PlanLe, PreparedLe;
    var built :| BuiltFrom(b, built);
    var sorted, s0 := SortBy(PlanLe, plan), SortBy(PlanLe, built);
    CommittableIsValid(b.frozenCommit.tree, built);
    SortedSemantics(plan, false);
    SortedSemantics(built, true);
    SameSteps(built, plan);
    assert b.entries == PreparedAll(sorted, true);
    OverlaysReordered(b.newTree, frozen.tree, built, s0);
    assert Overlays(b.newTree, frozen.tree, plan) by {
      PutsHaveContent(built, s0);
      PutsHaveContent(plan, sorted);
      AlikeLaid(b.newTree, frozen.tree, s0, sorted);
      OverlaysReordered(b.newTree, frozen.tree, sorted, plan);
    }
    SnapshotPinned(b, plan, lines);
  }

  lemma CommittableIsValid(base: Files, plan: seq<PlanEntry>)
    requires Committable(base, plan)
    ensures ValidPlan(plan) && |plan| > 0
  {}

  lemma PutsHaveContent(plan: seq<PlanEntry>, sorted: seq<PlanEntry>)
    requires ValidPlan(plan) && multiset(plan) == multiset(sorted)
    ensures forall e | e in sorted :: e.op == PutOp ==> e.content.Some?
  {
    ValidPlanDistinct(plan);
    SameMembers(plan, sorted);
  }

  lemma SortedSemantics(plan: seq<PlanEntry>, withBlob: bool)
    requires ValidPlan(plan)
    ensures var sorted := SortBy(PlanLe, plan);
            SortBy(PreparedLe, PreparedAll(sorted, withBlob)) == PreparedAll(sorted, withBlob)
  {
    var s := SortBy(PlanLe, plan);
    ValidPlanDistinct(plan);
    DistinctInOrder(plan, s);
    assert Sorted(PlanLe, s) by {
      PathLePreorder();
      SortBySorted(PlanLe, plan);
    }
    PreparedSorted(s, withBlob);
  }

  /** Plans with one semantic root prepare the same entries. */
  lemma SameSteps(built: seq<PlanEntry>, plan: seq<PlanEntry>)
    requires Semantics(PreparedAll(SortBy(PlanLe, built), true)) == Semantics(PreparedAll(SortBy(PlanLe, plan), false))
    ensures PreparedAll(SortBy(PlanLe, built), true) == PreparedAll(SortBy(PlanLe, plan), true)
  {
    hide SortBy;
    var a, b := SortBy(PlanLe, built), SortBy(PlanLe, plan);
    assert |a| == |Semantics(PreparedAll(a, true))| == |b|;
    forall i | 0 <= i < |a| ensures PreparedAll(a, true)[i] == PreparedAll(b, true)[i] {
      assert Semantics(PreparedAll(a, true))[i] == Semantics(PreparedAll(b, false))[i];
    }
  }

  lemma AlikeLaid(t: Files, base: Files, a: seq<PlanEntry>, b: seq<PlanEntry>)
    requires PreparedAll(a, true) == PreparedAll(b, true) && Overlays(t, base, a)
    requires forall e | e in a || e in b :: e.op == PutOp ==> e.content.Some?
    ensures Overlays(t, base, b)
  {
    assert |a| == |PreparedAll(b, true)|;
    forall i | 0 <= i < |b| ensures b[i].path == a[i].path && TargetOf(b[i]) == TargetOf(a[i]) {
      assert PreparedAll(a, true)[i] == PreparedAll(b, true)[i] && a[i] in a && b[i] in b;
    }
  }

  lemma SnapshotPinned(b: PreparedBody, plan: seq<PlanEntry>, lines: Index)
    requires ValidPlan(plan) && b.entries == PreparedAll(SortBy(PlanLe, plan), true)
    requires b.snapshot.Keys == set e | e in b.entries :: e.path
    requires var entries := PreparedAll(SortBy(PlanLe, plan), false);
             SnapshotRootOf(b.entries, b.snapshot) == SnapshotRootOf(entries, Snapshot(lines, PlanPaths(plan)))
    ensures b.snapshot == Snapshot(lines, PlanPaths(plan))
  {
    var now := Snapshot(lines, PlanPaths(plan));
    var sorted := SortBy(PlanLe, plan);
    SnapshotRootIgnoresBlobs(plan, now);
    SortedSemantics(plan, true);
    SnapshotKeys(plan, sorted, lines);
    hide *;
    RootPins(b.entries, b.snapshot, now);
  }

  /** The frozen index root determines the frozen lines. */
  lemma RootPins(entries: seq<PreparedEntry>, a: map<Path, Option<Entry>>, b: map<Path, Option<Entry>>)
    requires SortBy(PreparedLe, entries) == entries && SnapshotRootOf(entries, a) == SnapshotRootOf(entries, b)
    requires a.Keys == b.Keys && a.Keys == set e | e in entries :: e.path
    ensures a == b
  {
    hide SnapshotRootOf, SortBy, PreparedLe;
    forall p | p in a ensures a[p] == b[p] {
      var e :| e in entries && e.path == p;
      var i :| 0 <= i < |entries| && entries[i] == e;
      RootAt(entries, a, i);
      RootAt(entries, b, i);
    }
  }

  lemma RootAt(entries: seq<PreparedEntry>, snapshot: map<Path, Option<Entry>>, i: nat)
    requires SortBy(PreparedLe, entries) == entries && i < |entries| && entries[i].path in snapshot
    ensures SnapshotRootOf(entries, snapshot)[i].1 == snapshot[entries[i].path]
  {}

  lemma PreparedDecodes(plan: seq<PlanEntry>, body: PreparedBody, symbolicRef: string, lines: Index)
    requires ValidPlan(plan) && plan != []
    requires body.symbolicRef == symbolicRef && body.entries == PreparedAll(SortBy(PlanLe, plan), true)
    requires body.manifestRoot == ManifestRoot(body.entries) && body.snapshot == Snapshot(lines, PlanPaths(plan))
    ensures Decodes(body, symbolicRef)
  {
    var sorted := SortBy(PlanLe, plan);
    SameMembers(plan, sorted);
    assert |sorted| == |plan|;
    EntriesShaped(plan, sorted);
    EntriesAscend(plan, sorted);
    SnapshotKeys(plan, sorted, lines);
  }

  lemma EntriesShaped(plan: seq<PlanEntry>, sorted: seq<PlanEntry>)
    requires ValidPlan(plan) && multiset(plan) == multiset(sorted)
    ensures forall e | e in PreparedAll(sorted, true) :: EntryShape(e)
  {
    SameMembers(plan, sorted);
    ValidPlanDistinct(plan);
    forall i | 0 <= i < |sorted| ensures EntryShape(PreparedOf(sorted[i], true)) {
      assert sorted[i] in plan;
      var j :| 0 <= j < |plan| && plan[j] == sorted[i];
      assert PlanErrorAt(plan, j).None?;
    }
  }

  lemma EntriesAscend(plan: seq<PlanEntry>, sorted: seq<PlanEntry>)
    requires ValidPlan(plan) && sorted == SortBy(PlanLe, plan)
    ensures forall i | 0 < i < |sorted| :: PathLt(PreparedAll(sorted, true)[i - 1].path, PreparedAll(sorted, true)[i].path)
  {
    ValidPlanDistinct(plan);
    DistinctInOrder(plan, sorted);
    assert Sorted(PlanLe, sorted) by {
      PathLePreorder();
      SortBySorted(PlanLe, plan);
    }
    forall i | 0 < i < |sorted| ensures PathLt(sorted[i - 1].path, sorted[i].path) {
      assert PlanLe(sorted[i - 1], sorted[i]);
    }
  }

  lemma SnapshotKeys(plan: seq<PlanEntry>, sorted: seq<PlanEntry>, lines: Index)
    requires multiset(plan) == multiset(sorted)
    ensures Snapshot(lines, PlanPaths(plan)).Keys == set e | e in PreparedAll(sorted, true) :: e.path
  {
    SameMembers(plan, sorted);
    var entries := PreparedAll(sorted, true);
    forall p ensures p in PlanPaths(plan) <==> p in set e | e in entries :: e.path {
      if i :| 0 <= i < |plan| && PlanPaths(plan)[i] == p {
        assert plan[i] in sorted;
        var j :| 0 <= j < |sorted| && sorted[j] == plan[i];
        assert entries[j] in entries;
      }
      if e :| e in entries && e.path == p {
        var j :| 0 <= j < |entries| && entries[j] == e;
        assert sorted[j] in plan;
        var i :| 0 <= i < |plan| && plan[i] == sorted[j];
        assert PlanPaths(plan)[i] == p;
      }
    }
  }

  /** The index line that a put step asks for. */
  predicate Has(lines: Index, e: PlanEntry) {
    e.content.Some? && Get(lines, e.path) == Some(Staged(Entry(if e.mode.Some? then e.mode.value else Regular, e.content.value)))
  }

  /** A line outside the plan is a directory of a file the plan adds to the index, or lies below it. */
  ghost predicate InTheWay(lines: Index, plan: seq<PlanEntry>) {
    exists q, e | q in lines && e in plan :: e.op == PutOp && !Has(lines, e) && Clash(q, e.path) && forall f | f in plan :: f.path != q
  }

  /** No path of the plan, and nothing below one, is in conflict. */
  ghost predicate NoConflicts(lines: Index, plan: seq<PlanEntry>) {
    forall q, e | q in lines && lines[q].Conflicted? && e in plan :: q != e.path && !Under(q, e.path)
  }

  lemma ConflictsMean(lines: Index, plan: seq<PlanEntry>)
    ensures SnapshotConflicted(lines, PlanPaths(plan)) <==> !NoConflicts(lines, plan)
  {
    hide Under, PlanPaths;
    if SnapshotConflicted(lines, PlanPaths(plan)) {
      var q, p :| q in lines && lines[q].Conflicted? && p in PlanPaths(plan) && (p == q || Under(q, p));
      StepOf(plan, p);
      var e :| e in plan && e.path == p;
      assert q in lines && lines[q].Conflicted? && e in plan && (q == e.path || Under(q, e.path));
    }
    if !NoConflicts(lines, plan) {
      var q, e :| q in lines && lines[q].Conflicted? && e in plan && (q == e.path || Under(q, e.path));
      StepOf(plan, e.path);
      assert e.path in PlanPaths(plan) && (e.path == q || Under(q, e.path));
    }
  }

  /** The body of the commit for a plan prepared on `base`, with the lines it froze. */
  ghost predicate FrozenFor(b: PreparedBody, base: Files, plan: seq<PlanEntry>, lines: Index) {
    && Overlays(b.newTree, base, plan) && b.candidate.tree == b.newTree
    && b.entries == PreparedAll(SortBy(PlanLe, plan), true) && b.snapshot == Snapshot(lines, PlanPaths(plan))
  }

  /** A frozen index without conflicts can follow the commit exactly when nothing is in the way of an added file. */
  lemma FrozenCanFollow(b: PreparedBody, base: Tree, plan: seq<PlanEntry>, lines: Index)
    requires Committable(base, plan) && FrozenFor(b, base, plan, lines) && NoConflicts(lines, plan)
    ensures IndexCanFollow(lines, b.candidate, b) <==> !InTheWay(lines, plan)
  {
    hide Committable, FrozenFor, Unobstructed, InTheWay, PathReady, OwnedDirectory, NoConflicts, FrozenFiles;
    SamePaths(b, base, plan, lines);
    WayIsClear(b, base, plan, lines);
    ConflictsMean(lines, plan);
    assert b.candidate.tree == b.newTree by { FrozenTree(b, base, plan, lines); }
    forall p | p in BodyPaths(b)
      ensures PathReady(lines, b.newTree, FrozenFiles(b), p) && !OwnedDirectory(b.newTree, BodyPaths(b), p)
    {
      FrozenLine(b, base, plan, lines, p);
      NoOwnedDirectory(b, base, plan, lines, p);
    }
  }

  lemma FrozenTree(b: PreparedBody, base: Files, plan: seq<PlanEntry>, lines: Index)
    requires FrozenFor(b, base, plan, lines)
    ensures b.candidate.tree == b.newTree && Overlays(b.newTree, base, plan)
  {}

  lemma SamePaths(b: PreparedBody, base: Files, plan: seq<PlanEntry>, lines: Index)
    requires FrozenFor(b, base, plan, lines)
    ensures forall p :: p in BodyPaths(b) <==> p in PlanPaths(plan)
  {
    SnapshotKeys(plan, SortBy(PlanLe, plan), lines);
    forall p ensures p in BodyPaths(b) <==> p in b.snapshot {
      if e :| e in b.entries && e.path == p {
        var i :| 0 <= i < |b.entries| && b.entries[i] == e;
        assert BodyPaths(b)[i] == p;
      }
    }
  }

  lemma FrozenLine(b: PreparedBody, base: Tree, plan: seq<PlanEntry>, lines: Index, p: Path)
    requires FrozenFor(b, base, plan, lines) && NoConflicts(lines, plan) && p in PlanPaths(plan)
    ensures PathReady(lines, b.newTree, FrozenFiles(b), p)
  {
    var i :| 0 <= i < |plan| && PlanPaths(plan)[i] == p;
    assert plan[i] in plan;
  }

  lemma NoOwnedDirectory(b: PreparedBody, base: Tree, plan: seq<PlanEntry>, lines: Index, p: Path)
    requires Committable(base, plan) && FrozenFor(b, base, plan, lines) && p in PlanPaths(plan)
    requires forall p :: p in BodyPaths(b) <==> p in PlanPaths(plan)
    ensures !OwnedDirectory(b.newTree, BodyPaths(b), p)
  {
    var i :| 0 <= i < |plan| && PlanPaths(plan)[i] == p;
    assert plan[i] in plan && RealChange(base, plan[i]);
    forall q | q !in PlanPaths(plan) ensures Get(b.newTree, q) == Get(base, q) {
      assert q !in PathsOf(plan);
    }
  }

  lemma StepOf(plan: seq<PlanEntry>, p: Path)
    ensures p in PlanPaths(plan) <==> exists e | e in plan :: e.path == p
  {
    if e :| e in plan && e.path == p {
      var i :| 0 <= i < |plan| && plan[i] == e;
      assert PlanPaths(plan)[i] == p;
    }
    if i :| 0 <= i < |plan| && PlanPaths(plan)[i] == p { assert plan[i] in plan; }
  }

  /** A step adds its file to the index unless the line is there already. */
  lemma StepAdds(b: PreparedBody, base: Tree, plan: seq<PlanEntry>, lines: Index, e: PlanEntry)
    requires Committable(base, plan) && FrozenFor(b, base, plan, lines) && e in plan
    ensures e.op == PutOp && !Has(lines, e) <==> e.path in b.newTree && Get(lines, e.path) != Line(Get(b.newTree, e.path))
  {
    hide Placeable, RealChange, KeepsType, Snapshot;
    ValidPlanDistinct(plan);
    var i :| 0 <= i < |plan| && plan[i] == e;
    assert Get(b.newTree, plan[i].path) == TargetOf(e);
  }

  lemma WayIsClear(b: PreparedBody, base: Tree, plan: seq<PlanEntry>, lines: Index)
    requires Committable(base, plan) && FrozenFor(b, base, plan, lines)
    requires forall p :: p in BodyPaths(b) <==> p in PlanPaths(plan)
    ensures Unobstructed(lines, b.newTree, BodyPaths(b)) <==> !InTheWay(lines, plan)
  {
    hide Committable, FrozenFor, Has, Clash, PlanPaths, BodyPaths;
    if InTheWay(lines, plan) {
      var q, e :| q in lines && e in plan && e.op == PutOp && !Has(lines, e) && Clash(q, e.path) && forall f | f in plan :: f.path != q;
      StepAdds(b, base, plan, lines, e);
      StepOf(plan, q);
      StepOf(plan, e.path);
      assert q !in BodyPaths(b) && Displaces(lines, b.newTree, BodyPaths(b), q);
    }
    if !Unobstructed(lines, b.newTree, BodyPaths(b)) {
      var q, p :| q in lines && q !in BodyPaths(b) && p in BodyPaths(b)
                  && p in b.newTree && Get(lines, p) != Line(Get(b.newTree, p)) && Clash(q, p);
      StepOf(plan, q);
      StepOf(plan, p);
      var e :| e in plan && e.path == p;
      StepAdds(b, base, plan, lines, e);
      assert q in lines && e in plan && !Has(lines, e) && Clash(q, e.path);
    }
  }

  /** `recoverDrainSlotPublicationAware`: a failure after the candidate got into the ref's history is reported as
      published and pending (None); any other failure is passed on. */
  method RecoverAware(s: RecoverySession, op: Operation, slot: int, env: Env) returns (r: Outcome<Option<Action>>)
    requires s.Inv() && op in s.eps && slot == s.eps[op].slot
    requires !s.eps[op].stage.IsClosed() && !s.eps[op].stage.SAborted?
    modifies s`log, s`eps, s`fuel, s`ref, s`moves, s.shared
    ensures s.Inv() && Reaches(old(s.Now()), s.Now())
    ensures op in s.eps && s.eps == old(s.eps)[op := s.eps[op]] && s.eps[op].slot == slot
    ensures r.Crashed? ==> s.fuel == 0
    ensures r.Threw? ==> s.eps[op].stage.SPrepared? && !IsAncestor(s.eps[op].stage.body.candidate, s.ref)
    ensures r.Threw? ==> r.failure != Liveness && r.failure != OperationInvariant && r.failure != SlotUnclaimed
    ensures r == Done(None) ==> s.eps[op].stage.SPublished?
    ensures r.Done? && r.value.Some? ==>
              match old(s.eps[op]).stage
              case SClaimed => BurnedSlot(Done(r.value.value), slot, s.eps[op])
              case _ => r.value.value == Converged && s.eps[op].stage.SConverged? && IndexAtRef(s.shared.lines, s.ref, s.eps[op].stage.body)
    ensures old(s.eps[op]).stage.SClaimed? ==> s.ref == old(s.ref) && !r.Threw? && r != Done(None)
    ensures Calm(env) && old(s.eps[op]).stage.SPrepared? && old(s.ref) == op.base ==>
              !r.Threw? && (r.Done? && r.value.Some? ==> s.ref == s.eps[op].stage.body.candidate)
    ensures Calm(env) && old(s.eps[op]).stage.SPrepared? && old(s.ref) == op.base && !r.Crashed? ==>
              var b := old(s.eps[op]).stage.body;
              r == Done(if IndexCanFollow(old(s.shared.lines), b.candidate, b) then Some(Converged) else None)
    ensures s.fuel >= old(s.fuel) - 4
  {
    hide WorldOk, Reaches, Built, Binds, IndexAtRef, LinesKept, IndexCanFollow;
    EpisodeSound(s.Now(), op);
    var recovered := s.RecoverDrainSlotV3(op, slot, env);
    EpisodeSound(s.Now(), op);
    match recovered
    case Crashed => r := Crashed;
    case Done(action) => r := Done(Some(action));
    case Threw(failure) =>
      var folded := s.ReadFold(op);
      SlotFields(op, s.eps[op], slot);
      var state := folded[slot];
      if state.prepared.Some? && (state.published.Some? || IsAncestor(state.prepared.value.payload.body.candidate, s.ref)) {
        return Done(None);
      }
      r := Threw(failure);
  }

  datatype Claim = ForSlot(slot: nat) | Finished(result: DrainResult)

  /** One round of the claim loop: recover the pending slot; if that gives it up, the next slot is acquired. */
  method RecoverPending(s: RecoverySession, op: Operation, slot: nat, env: Env) returns (r: Outcome<Claim>)
    requires s.Inv() && op in s.eps && slot == s.eps[op].slot
    requires s.eps[op].stage.SClaimed? || OpenBodyStage(s.eps[op].stage)
    modifies s`log, s`eps, s`fuel, s`ref, s`moves, s.shared
    ensures s.Inv() && Reaches(old(s.Now()), s.Now())
    ensures op in s.eps && s.eps == old(s.eps)[op := s.eps[op]]
    ensures r.Crashed? ==> s.fuel == 0
    ensures r.Threw? ==> r.failure != Liveness && r.failure != OperationInvariant && r.failure != SlotUnclaimed
    ensures r.Done? && r.value.ForSlot? ==> s.eps[op] == Episode(r.value.slot, SClaimed) && s.ref == old(s.ref)
    ensures r.Done? && r.value.Finished? ==> ResultOk(r.value.result, op, s.eps, s.ref, s.shared.lines)
    ensures s.fuel >= old(s.fuel) - 5
  {
    hide WorldOk, Reaches, Built, Binds, IndexAtRef, IsAncestor;
    ghost var before := s.Now();
    EpisodeSound(before, op);
    var action :- RecoverAware(s, op, slot, env);
    EpisodeSound(s.Now(), op);
    Stays(s.Now());
    if action.None? { return Done(Finished(PublishedPending)); }
    if action.value == Converged || action.value == AlreadyComplete { return Done(Finished(DrainConverged)); }
    if action.value == Ended { return Done(Finished(Blocked)); }
    ghost var burned := s.Now();
    var claim := s.ClaimNextRecoverySlotV3(op);
    ReachesTransitive(before, burned, s.Now());
    var next :- claim;
    assert next.Acquired?;
    r := Done(ForSlot(next.slot));
  }

  /** The claim loop: a pending slot is recovered first, which may finish the drain. */
  method ClaimSlot(s: RecoverySession, op: Operation, env: Env) returns (r: Outcome<Claim>)
    requires s.Inv() && (op !in s.eps ==> OpenOps(s.eps) == {})
    modifies s`log, s`eps, s`fuel, s`ref, s`moves, s.shared
    ensures s.Inv() && Reaches(old(s.Now()), s.Now())
    ensures r.Crashed? ==> s.fuel == 0
    ensures op in old(s.eps) || r.Done? ==> op in s.eps && s.eps == old(s.eps)[op := s.eps[op]]
    ensures op !in old(s.eps) ==> s.ref == old(s.ref) && (if r.Crashed? then s.eps == old(s.eps) else r == Done(ForSlot(1)))
    ensures op !in old(s.eps) ==> s.shared.lines == old(s.shared.lines) && s.fuel >= old(s.fuel) - 1
    ensures r.Threw? ==> r.failure != Liveness && r.failure != OperationInvariant && r.failure != SlotUnclaimed
    ensures r.Done? && r.value.ForSlot? ==> s.eps[op] == Episode(r.value.slot, SClaimed) && s.ref == old(s.ref)
    ensures r.Done? && r.value.Finished? ==> ResultOk(r.value.result, op, s.eps, s.ref, s.shared.lines)
    ensures s.fuel >= old(s.fuel) - 6
  {
    hide WorldOk, Reaches, Built, Binds, IndexAtRef, IsAncestor;
    ghost var before := s.Now();
    Stays(before);
    var claim :- s.ClaimNextRecoverySlotV3(op);
    var step := 0;
    while step < CLAIM_STEPS && !claim.Acquired?
      invariant step <= 1 && (step > 0 ==> claim.Acquired?) && s.fuel >= old(s.fuel) - 1 - 5 * step
      invariant s.Inv() && Reaches(before, s.Now()) && s.ref == old(s.ref)
      invariant op in s.eps && s.eps == old(s.eps)[op := s.eps[op]]
      invariant match claim
                case Acquired(n) => s.eps[op] == Episode(n, SClaimed)
                case Pending(n) => n == s.eps[op].slot && (s.eps[op].stage.SClaimed? || OpenBodyStage(s.eps[op].stage))
                case EpisodeComplete => s.eps[op].stage.SConverged?
                case EpisodeTerminated => s.eps[op].stage.STerminal?
      invariant op !in old(s.eps) ==> claim == Acquired(1) && step == 0 && s.shared.lines == old(s.shared.lines)
      decreases CLAIM_STEPS - step
    {
      if claim.EpisodeTerminated? { return Done(Finished(Blocked)); }
      if claim.EpisodeComplete? { return Done(Finished(Consumed)); }
      ghost var start := s.Now();
      var round := RecoverPending(s, op, claim.slot, env);
      ReachesTransitive(before, start, s.Now());
      var next :- round;
      if next.Finished? { return Done(next); }
      claim := Acquired(next.slot);
      step := step + 1;
    }
    // The claim loop never runs out of steps.
    assert claim.Acquired?;
    r := Done(ForSlot(claim.slot));
  }

  /** What a finished drain says about its operation. */
  ghost predicate ResultOk(result: DrainResult, op: Operation, eps: Episodes, ref: Commit, lines: Index) {
    match result
    case Empty => true
    case Blocked => op in eps && eps[op].stage.STerminal?
    case Consumed => op in eps && eps[op].stage.SConverged?
    case PublishedPending => op in eps && eps[op].stage.SPublished?
    case DrainConverged => op in eps && eps[op].stage.SConverged? && IndexAtRef(lines, ref, eps[op].stage.body)
  }

  /** Prepare the commit for a claimed slot and record it. The recorded commit is always the operation's own. */
  method RecordCommit(s: RecoverySession, op: Operation, slot: nat, plan: seq<PlanEntry>, lines: Index) returns (r: Outcome<()>)
    requires s.Inv() && op in s.eps && s.eps[op] == Episode(slot, SClaimed)
    requires ValidPlan(plan) && op == OperationFor(op.symbolicRef, s.ref, plan, Snapshot(lines, PlanPaths(plan)))
    modifies s`log, s`eps, s`fuel
    ensures s.Inv() && Reaches(old(s.Now()), s.Now())
    ensures op in s.eps && s.eps == old(s.eps)[op := s.eps[op]]
    ensures r.Crashed? ==> s.fuel == 0
    ensures r.Threw? ==> r.failure.CohortFailed? && !Committable(s.ref.tree, plan)
    ensures if r.Done? then s.eps[op].slot == slot && s.eps[op].stage.SPrepared? && FrozenFor(s.eps[op].stage.body, s.ref.tree, plan, lines)
            else s.eps[op] == old(s.eps[op])
    ensures s.fuel >= old(s.fuel) - 1
  {
    hide WorldOk, Reaches, Built, Binds, Committable, Overlays, OperationFor, MatchesOperation, PreparedForSlot;
    Stays(s.Now());
    var prepared := PrepareExactCohortCommit(s.ref, plan);
    if prepared.Err? { return Threw(CohortFailed(prepared.error)); }
    PreparedBinds(op.symbolicRef, s.ref, plan, prepared.value, lines);
    r := s.RecordDrainPreparedV3(op, slot, prepared.value, Snapshot(lines, PlanPaths(plan)));
  }

  /** Prepare, record and recover. */
  method PrepareAndRecover(s: RecoverySession, op: Operation, slot: nat, plan: seq<PlanEntry>, lines: Index, env: Env) returns (r: Outcome<DrainResult>)
    requires s.Inv() && op in s.eps && s.eps[op] == Episode(slot, SClaimed)
    requires ValidPlan(plan) && op == OperationFor(op.symbolicRef, s.ref, plan, Snapshot(lines, PlanPaths(plan)))
    modifies s`log, s`eps, s`fuel, s`ref, s`moves, s.shared
    ensures s.Inv() && Reaches(old(s.Now()), s.Now())
    ensures op in s.eps && s.eps == old(s.eps)[op := s.eps[op]]
    ensures r.Crashed? ==> s.fuel == 0
    ensures r.Threw? ==> r.failure != Liveness && r.failure != OperationInvariant && r.failure != SlotUnclaimed
    ensures r.Done? ==> ResultOk(r.value, op, s.eps, s.ref, s.shared.lines)
    ensures s.eps[op].stage.HasBody() ==> Overlays(s.eps[op].stage.body.newTree, old(s.ref).tree, plan)
    ensures Calm(env) && r == Done(DrainConverged) ==> s.ref == s.eps[op].stage.body.candidate
    ensures Calm(env) && Committable(old(s.ref).tree, plan) ==> r.Crashed? || r == Done(DrainConverged) || r == Done(PublishedPending)
    ensures Calm(env) && Committable(old(s.ref).tree, plan) && old(s.shared.lines) == lines && NoConflicts(lines, plan) && !r.Crashed? ==>
              r == Done(if InTheWay(lines, plan) then PublishedPending else DrainConverged)
    ensures s.fuel >= old(s.fuel) - 5
  {
    hide WorldOk, Reaches, Built, Binds, IndexAtRef, IndexCanFollow, Committable, Overlays, OperationFor, FrozenFor, NoConflicts, InTheWay;
    ghost var before := s.Now();
    assert op.base == s.ref by { BaseOf(op.symbolicRef, s.ref, plan, Snapshot(lines, PlanPaths(plan))); }
    var _ :- RecordCommit(s, op, slot, plan, lines);
    ghost var ready := s.Now();
    ghost var b := s.eps[op].stage.body;
    FrozenTree(b, s.ref.tree, plan, lines);
    if Committable(s.ref.tree, plan) && NoConflicts(lines, plan) { FrozenCanFollow(b, s.ref.tree, plan, lines); }
    var recovered := RecoverAware(s, op, slot, env);
    KeepsBody(ready, s.Now(), op);
    ReachesTransitive(before, ready, s.Now());
    var action :- recovered;
    r := Done(if action.None? then PublishedPending else DrainConverged);
  }

  lemma BaseOf(symbolicRef: string, frozen: Commit, plan: seq<PlanEntry>, snapshot: map<Path, Option<Entry>>)
    ensures var op := OperationFor(symbolicRef, frozen, plan, snapshot); op.base == frozen && op.symbolicRef == symbolicRef
  {}

  lemma KeepsBody(v: World, w: World, op: Operation)
    requires Reaches(v, w) && op in v.eps && v.eps[op].stage.HasBody()
    ensures op in w.eps && w.eps[op].stage.HasBody() && w.eps[op].stage.body == v.eps[op].stage.body
  {}

  /** The history has the operation's commit, and that commit is the plan applied to the base. */
  ghost predicate Delivered(w: World, op: Operation, base: Files, plan: seq<PlanEntry>) {
    && op in w.eps && w.eps[op].stage.HasBody() && IsAncestor(w.eps[op].stage.body.candidate, w.ref)
    && Applied(w.eps[op].stage.body.candidate.tree, base, plan)
  }

  /** The index has what the tree has at every path of the plan. */
  ghost predicate IndexHas(lines: Index, tree: Files, plan: seq<PlanEntry>) {
    forall e | e in plan :: Get(lines, e.path) == if e.path in tree then Some(Staged(tree[e.path])) else None
  }

  lemma IndexAtPlan(b: PreparedBody, base: Files, plan: seq<PlanEntry>, lines: Index, now: Index, ref: Commit)
    requires FrozenFor(b, base, plan, lines) && IndexAtRef(now, ref, b)
    ensures IndexHas(now, ref.tree, plan)
  {
    hide FrozenFor;
    SamePaths(b, base, plan, lines);
    forall e | e in plan ensures Get(now, e.path) == Line(Get(ref.tree, e.path)) {
      StepOf(plan, e.path);
      var i :| 0 <= i < |BodyPaths(b)| && BodyPaths(b)[i] == e.path;
      assert b.entries[i] in b.entries;
    }
  }

  lemma RecordedIsDelivered(w: World, op: Operation, frozen: Commit, plan: seq<PlanEntry>, lines: Index, now: Index)
    requires WorldOk(w) && op in w.eps && w.eps[op].stage.HasBody() && ValidPlan(plan)
    requires op == OperationFor(op.symbolicRef, frozen, plan, Snapshot(lines, PlanPaths(plan)))
    ensures Applied(w.eps[op].stage.body.candidate.tree, frozen.tree, plan)
    ensures w.eps[op].stage.SPublished? || w.eps[op].stage.SConverged? ==> Delivered(w, op, frozen.tree, plan)
    ensures IndexAtRef(now, w.ref, w.eps[op].stage.body) ==> IndexHas(now, w.ref.tree, plan)
  {
    hide WorldOk, Built, Binds, OperationFor, ValidPlan, Overlays, Applied, IsAncestor, IndexAtRef, IndexHas;
    EpisodeSound(w, op);
    var b := w.eps[op].stage.body;
    OperationPins(op, b, frozen, plan, lines);
    OverlaysMeans(b.candidate.tree, frozen.tree, plan);
    if IndexAtRef(now, w.ref, b) { IndexAtPlan(b, frozen.tree, plan, lines, now, w.ref); }
  }

  /** No other episode has changed. */
  ghost predicate OthersStay(before: Episodes, after: Episodes, op: Operation) {
    forall o | o != op :: (o in after <==> o in before) && (o in after ==> after[o] == before[o])
  }

  /** Claim a slot and commit the plan in it, unless recovering what is pending already finishes the drain. */
  method CommitOperation(s: RecoverySession, op: Operation, plan: seq<PlanEntry>, lines: Index, env: Env) returns (r: Outcome<DrainResult>)
    requires s.Inv() && (op !in s.eps ==> OpenOps(s.eps) == {})
    requires ValidPlan(plan) && op == OperationFor(op.symbolicRef, s.ref, plan, Snapshot(lines, PlanPaths(plan)))
    modifies s`log, s`eps, s`fuel, s`ref, s`moves, s.shared
    ensures s.Inv() && Reaches(old(s.Now()), s.Now())
    ensures OthersStay(old(s.eps), s.eps, op)
    ensures r.Crashed? ==> s.fuel == 0
    ensures r.Threw? ==> r.failure != Liveness && r.failure != OperationInvariant && r.failure != SlotUnclaimed
    ensures r.Done? ==> ResultOk(r.value, op, s.eps, s.ref, s.shared.lines)
    ensures op !in old(s.eps) && op in s.eps && s.eps[op].stage.HasBody() ==>
              Applied(s.eps[op].stage.body.candidate.tree, old(s.ref).tree, plan)
    ensures r.Done? && r.value in {Consumed, DrainConverged, PublishedPending} ==> Delivered(s.Now(), op, old(s.ref).tree, plan)
    ensures r == Done(DrainConverged) ==> IndexHas(s.shared.lines, s.ref.tree, plan)
    ensures Calm(env) && op !in old(s.eps) && r == Done(DrainConverged) ==> s.ref == s.eps[op].stage.body.candidate
    ensures Calm(env) && op !in old(s.eps) && Committable(old(s.ref).tree, plan) ==>
              r.Crashed? || r == Done(DrainConverged) || r == Done(PublishedPending)
    ensures Calm(env) && op !in old(s.eps) && Committable(old(s.ref).tree, plan) && lines == old(s.shared.lines) && NoConflicts(lines, plan)
            && !r.Crashed? ==>
              r == Done(if InTheWay(lines, plan) then PublishedPending else DrainConverged)
    ensures s.fuel >= old(s.fuel) - if op in old(s.eps) then 11 else 6
  {
    hide WorldOk, Reaches, Built, Binds, IndexAtRef, Committable, Overlays, Applied, Delivered, IndexHas, OperationFor, NoConflicts, InTheWay;
    ghost var before := s.Now();
    var claimed := ClaimSlot(s, op, env);
    if op in s.eps && s.eps[op].stage.HasBody() { RecordedIsDelivered(s.Now(), op, before.ref, plan, lines, s.shared.lines); }
    var claim :- claimed;
    if claim.Finished? { return Done(claim.result); }
    ghost var between := s.Now();
    r := PrepareAndRecover(s, op, claim.slot, plan, lines, env);
    if s.eps[op].stage.HasBody() { RecordedIsDelivered(s.Now(), op, before.ref, plan, lines, s.shared.lines); }
    ReachesTransitive(before, between, s.Now());
  }

  /** The operation of a drain of `raw` on top of `frozen`. */
  ghost predicate DrainOperation(op: Operation, frozen: Commit, raw: seq<PlanEntry>) {
    op.base == frozen && op.cohortRoot == PlanSemanticRoot(Kept(frozen.tree, raw))
  }

  /** A drain is refused when its episode is terminal, or when another one is open. */
  method RefuseOperation(s: RecoverySession, op: Operation) returns (r: Option<Outcome<DrainResult>>)
    requires s.Inv()
    ensures r == Some(Done(Blocked)) <==> op in s.eps && s.eps[op].stage.STerminal?
    ensures r == Some(Threw(ConcurrentOperation)) <==> !(op in s.eps && s.eps[op].stage.STerminal?) && exists o :: o in OpenOps(s.eps) && o != op
    ensures r.None? || r == Some(Done(Blocked)) || r == Some(Threw(ConcurrentOperation))
  {
    hide WorldOk;
    var open, ended := s.OpenEpisodes();
    assert EpisodeId(op) in ended <==> op in s.eps && s.eps[op].stage.STerminal?;
    forall o ensures o in OpenOps(s.eps) <==> EpisodeId(o) in open {}
    if EpisodeId(op) in ended { return Some(Done(Blocked)); }
    if exists id | id in open :: id != EpisodeId(op) { return Some(Threw(ConcurrentOperation)); }
    r := None;
  }

  /** `requestDrainUnlocked`, from the raw plan on. `op` is the operation it stands for. */
  method RequestDrain(s: RecoverySession, raw: seq<PlanEntry>, env: Env) returns (r: Outcome<DrainResult>, ghost op: Operation)
    requires s.Inv()
    modifies s`log, s`eps, s`fuel, s`ref, s`moves, s.shared
    ensures s.Inv() && Reaches(old(s.Now()), s.Now())
    ensures OthersStay(old(s.eps), s.eps, op)
    ensures DrainOperation(op, old(s.ref), raw)
    ensures r.Crashed? ==> s.fuel == 0
    ensures r.Threw? ==> r.failure != Liveness && r.failure != OperationInvariant && r.failure != SlotUnclaimed
    ensures r.Done? ==> ResultOk(r.value, op, s.eps, s.ref, s.shared.lines)
    ensures op !in old(s.eps) && op in s.eps && s.eps[op].stage.HasBody() ==>
              Applied(s.eps[op].stage.body.candidate.tree, old(s.ref).tree, Kept(old(s.ref).tree, raw))
    ensures r.Done? && r.value in {Consumed, DrainConverged, PublishedPending} ==>
              Delivered(s.Now(), op, old(s.ref).tree, Kept(old(s.ref).tree, raw))
    ensures r == Done(DrainConverged) ==> IndexHas(s.shared.lines, s.ref.tree, Kept(old(s.ref).tree, raw))
    ensures Calm(env) && op !in old(s.eps) && r == Done(DrainConverged) ==> s.ref == s.eps[op].stage.body.candidate
    ensures var plan := Kept(old(s.ref).tree, raw);
            Calm(env) && op !in old(s.eps) && OpenOps(old(s.eps)) == {} && Committable(old(s.ref).tree, plan)
            && NoConflicts(old(s.shared.lines), plan) && old(s.fuel) > 6 ==>
              r == Done(if InTheWay(old(s.shared.lines), plan) then PublishedPending else DrainConverged)
    ensures s.fuel >= old(s.fuel) - if op in old(s.eps) then 11 else 6
  {
    hide WorldOk, Reaches, Built, Binds, IndexAtRef, Overlays, Applied, Delivered, IndexHas, SnapshotRootOf, PlanSemanticRoot, NoConflicts,
      InTheWay, Committable, ValidPlan, IsAncestor, Snapshot, PlanPaths;
    var frozen := s.ref;
    Stays(s.Now());
    var plan := PruneNoops(frozen.tree, raw);
    var lines := s.shared.lines;
    var operation := OperationFor(s.symbolicRef, frozen, plan, Snapshot(lines, PlanPaths(plan)));
    op := operation;
    if Committable(frozen.tree, plan) { CommittableIsValid(frozen.tree, plan); }
    if |plan| == 0 { return Done(Empty), op; }
    ConflictsMean(lines, plan);
    if SnapshotConflicted(lines, PlanPaths(plan)) { return Threw(IndexFailed(OwnedIndexConflict)), op; }
    var checked := ValidateCohortPlan(plan);
    if checked.Err? { return Threw(CohortFailed(checked.error)), op; }
    var refused := RefuseOperation(s, operation);
    if refused.Some? { return refused.value, op; }
    r := CommitOperation(s, operation, plan, lines, env);
  }
}
