/** Converging the shared index onto the publication ref for the cohort paths only, and dropping no-op steps. */
module CohortIndex {
  import opened Results
  import opened Git
  import opened Cohort
  import opened CohortCommit

  datatype ConvergeError = OwnedIndexConflict | IndexConvergeFailed | NonCohortIndexMutated

  function Line(target: Option<Entry>): Option<Staged> {
    if target.Some? then Some(Staged(target.value)) else None
  }

  /** `ls-tree` reports the owned path as a tree. It descends instead when another owned path lies below. */
  predicate OwnedDirectory(ref: Files, paths: seq<Path>, p: Path) {
    HasBelow(ref, p) && !exists q | q in paths :: Under(q, p)
  }

  /** `ls-files` meets conflict stages at or below an owned path. */
  predicate SnapshotConflicted(lines: Index, paths: seq<Path>) {
    exists q | q in lines :: lines[q].Conflicted? && exists p | p in paths :: p == q || Under(q, p)
  }

  /** The owned line is at its frozen value or already at the ref's. */
  predicate PathReady(lines: Index, ref: Files, frozen: Files, p: Path) {
    Get(lines, p) == Line(Get(ref, p)) || Get(lines, p) == Line(Get(frozen, p))
  }

  ghost predicate Ready(lines: Index, ref: Files, frozen: Files, paths: seq<Path>) {
    && (forall p | p in paths :: !OwnedDirectory(ref, paths, p) && PathReady(lines, ref, frozen, p))
    && !SnapshotConflicted(lines, paths)
  }

  /** The batch adds an owned path where an unowned line is in the way. */
  ghost predicate Displaces(lines: Index, ref: Files, paths: seq<Path>, q: Path) {
    exists p | p in paths :: p in ref && Get(lines, p) != Line(Get(ref, p)) && Clash(q, p)
  }

  ghost predicate Unobstructed(lines: Index, ref: Files, paths: seq<Path>) {
    forall q | q in lines && q !in paths :: !Displaces(lines, ref, paths, q)
  }

  /** The index after a completed batch. */
  ghost predicate BatchApplied(before: Index, after: Index, ref: Files, paths: seq<Path>) {
    && (forall p | p in paths :: Get(after, p) == Line(Get(ref, p)))
    && (forall q | q !in paths :: Get(after, q) == if Displaces(before, ref, paths, q) then None else Get(before, q))
  }

  /** `update-index --index-info` processes its records in order. */
  function Batch(lines: Index, ref: Files, updates: seq<Path>): Index {
    if |updates| == 0 then lines
    else
      var last := |updates| - 1;
      IndexInfo(Batch(lines, ref, updates[..last]), updates[last], Get(ref, updates[last]))
  }

  lemma {:induction false} BatchMeans(lines: Index, ref: Files, updates: seq<Path>, q: Path)
    requires ClashFree(ref)
    ensures Get(Batch(lines, ref, updates), q) ==
            if q in updates then Line(Get(ref, q))
            else if exists p | p in updates :: p in ref && Clash(q, p) then None
            else Get(lines, q)
  {
    if |updates| > 0 {
      var last := |updates| - 1;
      var p := updates[last];
      BatchMeans(lines, ref, updates[..last], q);
      assert updates == updates[..last] + [p];
      var before := Batch(lines, ref, updates[..last]);
      if q != p {
        assert q in updates <==> q in updates[..last];
        if p in ref && Clash(q, p) {
          assert q !in ref;
          assert Get(IndexInfo(before, p, Get(ref, p)), q) == None;
        } else {
          assert Get(IndexInfo(before, p, Get(ref, p)), q) == Get(before, q);
        }
      }
    }
  }

  /** The updates are the owned paths whose line differs from the ref. */
  ghost predicate UpdatesFor(updates: seq<Path>, lines: Index, ref: Files, paths: seq<Path>) {
    forall p :: p in updates <==> p in paths && Get(lines, p) != Line(Get(ref, p))
  }

  lemma BatchIsApplied(lines: Index, ref: Files, paths: seq<Path>, updates: seq<Path>)
    requires ClashFree(ref) && UpdatesFor(updates, lines, ref, paths)
    ensures BatchApplied(lines, Batch(lines, ref, updates), ref, paths)
  {
    var after := Batch(lines, ref, updates);
    forall p | p in paths ensures Get(after, p) == Line(Get(ref, p)) {
      BatchMeans(lines, ref, updates, p);
      if p !in updates && exists q | q in updates :: q in ref && Clash(p, q) {
        assert p !in ref;
      }
    }
    forall q | q !in paths
      ensures Get(after, q) == if Displaces(lines, ref, paths, q) then None else Get(lines, q)
    {
      BatchMeans(lines, ref, updates, q);
    }
  }

  class SharedIndex {
    var lines: Index

    constructor (initial: Index)
      ensures lines == initial
    {
      lines := initial;
    }

    /** Lines outside the cohort, the subject of the index fingerprint. */
    function Outside(paths: seq<Path>): (r: Index)
      reads this
      ensures forall q :: Get(r, q) == if q in paths then None else Get(lines, q)
    {
      map q | q in lines && q !in paths :: lines[q]
    }

    method ConvergeExactCohortIndex(ref: Tree, paths: seq<Path>, frozen: Files) returns (r: Result<seq<Path>, ConvergeError>)
      modifies this
      ensures r.Ok? <==> old(Ready(lines, ref, frozen, paths) && Unobstructed(lines, ref, paths))
      ensures !old(Ready(lines, ref, frozen, paths)) ==> r == Err(OwnedIndexConflict) && lines == old(lines)
      ensures old(Ready(lines, ref, frozen, paths)) ==>
                BatchApplied(old(lines), lines, ref, paths) && (r.Ok? || r == Err(NonCohortIndexMutated))
      ensures r.Ok? ==> UpdatesFor(r.value, old(lines), ref, paths)
      ensures r.Ok? ==> forall q | q !in paths :: Get(lines, q) == Get(old(lines), q)
    {
      var pre := Outside(paths);
      if exists p | p in paths :: OwnedDirectory(ref, paths, p) { return Err(OwnedIndexConflict); }
      if SnapshotConflicted(lines, paths) { return Err(OwnedIndexConflict); }
      var updates: seq<Path> := [];
      for i := 0 to |paths|
        invariant lines == old(lines)
        invariant forall j | 0 <= j < i :: PathReady(lines, ref, frozen, paths[j])
        invariant forall p :: p in updates <==> p in paths[..i] && Get(lines, p) != Line(Get(ref, p))
      {
        var p := paths[i];
        assert paths[..i + 1] == paths[..i] + [p];
        var now := Get(lines, p);
        if now != Line(Get(ref, p)) {
          if now != Line(Get(frozen, p)) {
            assert p in paths && !PathReady(lines, ref, frozen, p);
            return Err(OwnedIndexConflict);
          }
          updates := updates + [p];
        }
      }
      assert paths[..|paths|] == paths;
      assert Ready(lines, ref, frozen, paths);
      if |updates| > 0 {
        lines := Batch(lines, ref, updates);
      }
      BatchIsApplied(old(lines), ref, paths, updates);
      for i := 0 to |paths| {
        assert paths[i] in paths;
        if Get(lines, paths[i]) != Line(Get(ref, paths[i])) { return Err(IndexConvergeFailed); }
      }
      ghost var before := old(lines);
      var post := Outside(paths);
      if post != pre {
        assert !old(Unobstructed(lines, ref, paths)) by {
          if Unobstructed(before, ref, paths) {
            forall q ensures Get(post, q) == Get(pre, q) {}
            SameFiles(post, pre);
          }
        }
        return Err(NonCohortIndexMutated);
      }
      assert old(Unobstructed(lines, ref, paths)) by {
        forall q | q in before && q !in paths ensures !Displaces(before, ref, paths, q) {
          assert Get(post, q) == Get(pre, q);
        }
      }
      r := Ok(updates);
    }
  }

  /** Once a batch has run, converging again succeeds and changes nothing; also after a batch that was
      reported as NonCohortIndexMutated. */
  lemma ConvergingAgain(before: Index, after: Index, again: Index, ref: Files, frozen: Files, paths: seq<Path>)
    requires Ready(before, ref, frozen, paths) && BatchApplied(before, after, ref, paths)
    ensures Ready(after, ref, frozen, paths) && Unobstructed(after, ref, paths)
    ensures BatchApplied(after, again, ref, paths) ==> again == after
  {
    forall q | q in after ensures after[q].Staged? || !exists p | p in paths :: p == q || Under(q, p) {
      if q in paths {
        assert Get(after, q) == Line(Get(ref, q));
      } else {
        assert Get(after, q) == Get(before, q);
      }
    }
    if BatchApplied(after, again, ref, paths) {
      SameFiles(again, after);
    }
  }

  /** An unowned staged file where the cohort needs a directory: every owned path is at its frozen value,
      yet the run reports a failure after the batch has removed that line. */
  lemma FailureCanFollowTheBatch(e: Entry)
    ensures var before: Index := map["a" := Staged(e)];
            var ref: Files := map["a/b" := e];
            Ready(before, ref, map[], ["a/b"]) && !Unobstructed(before, ref, ["a/b"])
            && BatchApplied(before, map["a/b" := Staged(e)], ref, ["a/b"])
  {
    var before: Index := map["a" := Staged(e)];
    var ref: Files := map["a/b" := e];
    assert Under("a/b", "a") && Clash("a", "a/b");
    assert "a/b" in ["a/b"] && Displaces(before, ref, ["a/b"], "a");
    forall q | q !in ["a/b"]
      ensures Get(map["a/b" := Staged(e)], q) == if Displaces(before, ref, ["a/b"], q) then None else Get(before, q)
    {}
  }

  // ---------- pruning no-op steps ----------

  /** `git show frozen:path`: a file's bytes, a directory's listing, nothing for a gitlink. */
  function HeadBytes(frozen: Files, p: Path): Option<string> {
    if p in frozen then (if frozen[p].mode == Gitlink then None else Some(frozen[p].oid))
    else if HasBelow(frozen, p) then Some("tree " + p)
    else None
  }

  /** The mode `ls-tree` prints, when it is a file mode. */
  function HeadMode(frozen: Files, p: Path): Option<Mode> {
    if p in frozen && frozen[p].mode != Gitlink then Some(frozen[p].mode) else None
  }

  predicate Noop(frozen: Files, e: PlanEntry) {
    if e.op == DeleteOp then HeadBytes(frozen, e.path).None?
    else e.op == PutOp && HeadBytes(frozen, e.path).Some? && HeadBytes(frozen, e.path) == e.content
         && HeadMode(frozen, e.path) == Some(ModeOf(e))
  }

  /** The steps that are not no-ops, in plan order. */
  function Kept(frozen: Files, plan: seq<PlanEntry>): (r: seq<PlanEntry>)
    ensures forall e :: e in r <==> e in plan && !Noop(frozen, e)
  {
    if |plan| == 0 then []
    else
      var last := |plan| - 1;
      assert plan == plan[..last] + [plan[last]];
      Kept(frozen, plan[..last]) + if Noop(frozen, plan[last]) then [] else [plan[last]]
  }

  method PruneNoops(frozen: Files, plan: seq<PlanEntry>) returns (pruned: seq<PlanEntry>)
    ensures pruned == Kept(frozen, plan)
  {
    pruned := [];
    for i := 0 to |plan|
      invariant pruned == Kept(frozen, plan[..i])
    {
      assert plan[..i + 1][..i] == plan[..i];
      if !Noop(frozen, plan[i]) { pruned := pruned + [plan[i]]; }
    }
    assert plan[..|plan|] == plan;
  }

  /** Pruning keeps exactly the real changes if and only if no delete names a directory (kept although it
      changes nothing) or a gitlink (dropped although it would). */
  lemma PruningKeepsRealChanges(frozen: Tree, plan: seq<PlanEntry>)
    requires ValidPlan(plan)
    ensures (forall e | e in plan :: e in Kept(frozen, plan) <==> RealChange(frozen, e)) <==>
            (forall e | e in plan && e.op == DeleteOp ::
               !HasBelow(frozen, e.path) && !(e.path in frozen && frozen[e.path].mode == Gitlink))
  {
    ValidPlanDistinct(plan);
    forall e | e in plan
      ensures (!Noop(frozen, e) <==> RealChange(frozen, e)) <==>
              (e.op == DeleteOp ==> !HasBelow(frozen, e.path) && !(e.path in frozen && frozen[e.path].mode == Gitlink))
    {
      if e.path in frozen {
        assert !HasBelow(frozen, e.path);
      }
    }
  }
}
