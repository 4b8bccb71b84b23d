/** Whole runs: any sequence of barrier-serialised processes, each of which may crash at any durable write. */
module RecoveryRuns {
  import opened Results
  import opened Git
  import opened Order
  import opened Cohort
  import opened CohortCommit
  import opened CohortIndex
  import opened Csj
  import opened RecoveryFold
  import opened RecoveryLog
  import opened RefGate
  import opened RecoveryWorld
  import opened RecoverySession
  import opened RecoveryCsj
  import opened RecoveryStartup
  import opened RecoveryDrain

  /** One process, with the number of durable writes it makes before it dies; or something done to the
      repository by somebody else. */
  datatype Session =
    | StartUp(fuel: nat, envs: nat -> Env)
    | Drain(fuel: nat, plan: seq<PlanEntry>, env: Env)
    | OrdinaryMove(fuel: nat, purpose: Purpose, tip: Commit, env: Env)
    | OutsideCommit(tip: Commit)
    | IndexEdit(lines: Index)

  /** Run them all. Whatever happens, history has only grown, and the log of every episode folds. */
  method Run(s: RecoverySession, sessions: seq<Session>)
    requires s.Inv()
    modifies s, s.shared
    ensures s.Inv() && Reaches(old(s.Now()), s.Now())
    ensures forall e | e in s.log :: FoldOk(EventsOf(s.log, e.episode.operation))
  {
    hide WorldOk, Reaches;
    ghost var before := s.Now();
    Stays(before);
    for i := 0 to |sessions|
      invariant s.Inv() && Reaches(before, s.Now())
    {
      ghost var start := s.Now();
      Stays(start);
      match sessions[i] {
        case StartUp(fuel, envs) =>
          s.fuel := fuel;
          var _ := RecoverStartupEpisodes(s, envs);
        case Drain(fuel, plan, env) =>
          s.fuel := fuel;
          var _, _ := RequestDrain(s, plan, env);
        case OrdinaryMove(fuel, purpose, tip, env) =>
          s.fuel := fuel;
          if !OpenAllowed(purpose) && IsAncestor(s.ref, tip) {
            var _ := s.RefMove(purpose, None, s.ref, tip, env);
          }
        case OutsideCommit(tip) => s.Outside(Some(tip));
        case IndexEdit(lines) => s.shared.lines := lines;
      }
      ReachesTransitive(before, start, s.Now());
    }
    forall e | e in s.log ensures FoldOk(EventsOf(s.log, e.episode.operation)) {
      LoggedIsKnown(s.Now(), e);
      ReachableLogsFold(s.Now(), e.episode.operation);
    }
  }

  /** The smallest content drain: one file into an empty tree. */
  function OneFile(content: string): seq<PlanEntry> { [PlanEntry("a", PutOp, None, Some(content))] }

  lemma OneFileCommittable(content: string)
    ensures Kept(map[], OneFile(content)) == OneFile(content) && Committable(map[], OneFile(content))
  {
    var plan := OneFile(content);
    assert "a"[1..] == "" && Split("") == [""] && [""][1..] == [];
    assert ['a'] + "" == "a" && Split("a") == ["a"] + [];
    assert PlanErrorAt(plan, 0).None?;
    assert plan[..0] == [] && Kept(map[], []) == [] && [] + [plan[0]] == plan;
  }

  const START := Commit([], map[], "")

  /** A fresh store, left alone and given seven durable writes, commits its first drain and has it in the index. */
  method FirstDrain(symbolicRef: string, content: string) returns (s: RecoverySession)
    ensures fresh(s) && s.Inv()
    ensures s.ref.tree == map["a" := Entry(Regular, content)] && Get(s.shared.lines, "a") == Some(Staged(Entry(Regular, content)))
    ensures OpenOps(s.eps) == {} && exists op :: op in s.eps && s.eps[op].stage.SConverged?
  {
    hide WorldOk, Reaches, Built, Binds, Committable, IndexAtRef, Overlays, Applied, Delivered, IsAncestor, Kept;
    var shared := new SharedIndex(map[]);
    s := new RecoverySession(symbolicRef, START, shared);
    s.fuel := 7;
    OneFileCommittable(content);
    var r, op := RequestDrain(s, OneFile(content), Env(true, true, true, None, true, true));
    assert r == Done(DrainConverged);
    EpisodeSound(s.Now(), op);
    DeliveredTree(s.Now(), op, map[], OneFile(content));
    OneFileTree(s.ref.tree, content);
    assert OneFile(content)[0] in OneFile(content);
    assert Get(shared.lines, "a") == Some(Staged(Entry(Regular, content)));
  }

  lemma DeliveredTree(w: World, op: Operation, base: Files, plan: seq<PlanEntry>)
    requires Delivered(w, op, base, plan) && w.ref == w.eps[op].stage.body.candidate
    ensures Applied(w.ref.tree, base, plan)
  {}

  lemma OneFileTree(t: Files, content: string)
    requires Applied(t, map[], OneFile(content))
    ensures t == map["a" := Entry(Regular, content)]
  {
    var plan := OneFile(content);
    assert plan[0] in plan;
    forall p ensures Get(t, p) == Get(map["a" := Entry(Regular, content)], p) {
      if p != "a" { assert forall e | e in plan :: e.path != p; }
    }
    SameFiles(t, map["a" := Entry(Regular, content)]);
  }

  lemma OneFileEntries(content: string)
    ensures PreparedAll(SortBy(PlanLe, OneFile(content)), true) == [PreparedEntry("a", PutOp, Some(Regular), content, content)]
    ensures Snapshot(map[], PlanPaths(OneFile(content))) == map["a" := None]
  {
    var plan := OneFile(content);
    SameMembers(plan, SortBy(PlanLe, plan));
    assert SortBy(PlanLe, plan)[0] in plan;
    assert PlanPaths(plan) == ["a"];
  }

  /** What a drain of the one file on the empty commit has recorded. */
  ghost predicate OneFileBody(b: PreparedBody, content: string) {
    && b.frozenCommit == START && b.newTree == map["a" := Entry(Regular, content)]
    && b.candidate == Commit([START], b.newTree, DRAIN_MESSAGE)
    && b.entries == [PreparedEntry("a", PutOp, Some(Regular), content, content)] && b.snapshot == map["a" := None]
  }

  lemma OneFileRecorded(op: Operation, b: PreparedBody, content: string)
    requires Binds(b, op) && Built(b) && op.base == START && FrozenFor(b, map[], OneFile(content), map[])
    ensures OneFileBody(b, content)
  {
    hide Committable, Overlays, Applied, Snapshot, SortBy, SnapshotRootOf, ManifestRoot, Decodes;
    CommittableIsValid(map[], OneFile(content)) by { OneFileCommittable(content); }
    OverlaysMeans(b.newTree, map[], OneFile(content));
    OneFileTree(b.newTree, content);
    OneFileEntries(content);
  }

  function Sibling(other: Entry): Commit { Commit([START], map["z" := other], "") }

  lemma SiblingEligible(op: Operation, b: PreparedBody, content: string, other: Entry)
    requires op.base == START && OneFileBody(b, content)
    ensures !Fresh(op, Episode(1, SPrepared(b)), Sibling(other)) && Eligible(b, Sibling(other))
    ensures Placeable(Sibling(other).tree, Steps(b.entries))
  {
    var tip := Sibling(other);
    assert IsAncestor(START, tip) by { ParentIsAncestor(tip, 0); }
    assert !IsAncestor(tip, START) && !IsAncestor(b.candidate, START);
    assert Steps(b.entries) == [PlanEntry("a", PutOp, Some(Regular), Some(content))];
  }

  lemma MergeIsFollowed(b: PreparedBody, content: string, other: Entry, m: Commit)
    requires OneFileBody(b, content) && IsMerge(m, Sibling(other), b)
    ensures IndexCanFollow(map[], m, b)
  {
    assert BodyPaths(b) == ["a"];
    SiblingMerge(m, b, content, other);
  }

  lemma SiblingClears(op: Operation, b: PreparedBody, content: string, other: Entry, env: Env)
    requires op.base == START && OneFileBody(b, content) && Calm(env) && env.csjOther && env.certsOther
    ensures !Fresh(op, Episode(1, SPrepared(b)), Sibling(other)) && Clears(op, Episode(1, SPrepared(b)), Sibling(other), map[], env)
  {
    hide IsMerge, IndexCanFollow, Eligible, Placeable, Fresh;
    SiblingEligible(op, b, content, other);
    forall m | IsMerge(m, Sibling(other), b) ensures IndexCanFollow(map[], m, b) { MergeIsFollowed(b, content, other, m); }
  }

  lemma SiblingMerge(m: Commit, b: PreparedBody, content: string, other: Entry)
    requires OneFileBody(b, content) && IsMerge(m, Sibling(other), b)
    ensures m.tree == map["a" := Entry(Regular, content), "z" := other]
  {
    assert Steps(b.entries)[0].path == "a";
    var want := map["a" := Entry(Regular, content), "z" := other];
    forall p ensures Get(m.tree, p) == Get(want, p) {
      assert p in PathsOf(Steps(b.entries)) <==> p == "a";
    }
    SameFiles(m.tree, want);
  }

  /** A drain of a fresh store that dies once its commit is recorded. */
  method DiesPrepared(symbolicRef: string, content: string) returns (s: RecoverySession, ghost op: Operation, ghost b: PreparedBody)
    ensures fresh(s) && fresh(s.shared) && s.Inv() && s.ref == START && s.shared.lines == map[] && s.journal == NoJournal
    ensures op in s.eps && s.eps[op] == Episode(1, SPrepared(b)) && op.base == START && OneFileBody(b, content)
  {
    hide WorldOk, Reaches, Built, Binds, Committable, FrozenFor, IsAncestor, Snapshot, OneFileBody, OneFile, Kept, ValidPlan, OperationFor,
      PlanPaths;
    var shared := new SharedIndex(map[]);
    s := new RecoverySession(symbolicRef, START, shared);
    OneFileCommittable(content);
    CommittableIsValid(START.tree, OneFile(content));
    var operation := OperationFor(symbolicRef, START, OneFile(content), Snapshot(map[], PlanPaths(OneFile(content))));
    BaseOf(symbolicRef, START, OneFile(content), Snapshot(map[], PlanPaths(OneFile(content))));
    op := operation;
    s.fuel := 3;
    var claimed := s.ClaimNextRecoverySlotV3(operation);
    var recorded := RecordCommit(s, operation, 1, OneFile(content), map[]);
    b := s.eps[op].stage.body;
    EpisodeSound(s.Now(), op);
    OneFileRecorded(op, b, content);
  }

  /** A drain dies once its commit is prepared, somebody else commits another file on top of the ref, and the next start
      joins the two. */
  method FirstMerge(symbolicRef: string, content: string, other: Entry) returns (s: RecoverySession)
    ensures fresh(s) && s.Inv() && OpenOps(s.eps) == {}
    ensures s.ref.tree == map["a" := Entry(Regular, content), "z" := other]
    ensures s.ref.parents == [Sibling(other), Commit([START], map["a" := Entry(Regular, content)], DRAIN_MESSAGE)]
    ensures Get(s.shared.lines, "a") == Some(Staged(Entry(Regular, content)))
  {
    hide WorldOk, Reaches, Settling, IsAncestor, Clears, Fresh;
    ghost var op, b;
    s, op, b := DiesPrepared(symbolicRef, content);
    assert IsAncestor(START, Sibling(other)) by { ParentIsAncestor(Sibling(other), 0); }
    s.Outside(Some(Sibling(other)));
    var calm := Env(true, true, true, None, true, true);
    SiblingClears(op, b, content, other, calm);
    s.fuel := 121;
    assert op in OpenOps(s.eps);
    var r := RecoverStartupEpisodes(s, _ => calm);
    Joined(r, op, b, content, other, calm, s.eps[op], s.ref, s.shared.lines, s.journal);
  }

  lemma Joined(r: Outcome<()>, op: Operation, b: PreparedBody, content: string, other: Entry, env: Env,
               after: Episode, ref: Commit, lines: Index, journal: JournalPhase)
    requires OneFileBody(b, content) && !Fresh(op, Episode(1, SPrepared(b)), Sibling(other)) && !r.Crashed?
    requires Clears(op, Episode(1, SPrepared(b)), Sibling(other), map[], env)
    requires Settling(r, op, _ => env, Episode(1, SPrepared(b)), Sibling(other), map[], NoJournal, after, ref, lines, journal)
    ensures r.Done? && ref.parents == [Sibling(other), b.candidate] && ref.tree == map["a" := Entry(Regular, content), "z" := other]
    ensures Get(lines, "a") == Some(Staged(Entry(Regular, content)))
  {
    hide Clears, Fresh, MergeOf, IndexCanFollow;
    assert AlwaysClears(op, Episode(1, SPrepared(b)), Sibling(other), map[], _ => env);
    SiblingMerge(ref, b, content, other);
    assert b.entries[0] in b.entries;
  }
}
