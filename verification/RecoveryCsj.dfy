/** The stale-base merge run inside the barrier: eligibility, merge, certificates, one compare-and-set, recovery. */
module RecoveryCsj {
  import opened Order
  import opened Results
  import opened Git
  import opened Cohort
  import opened CohortCommit
  import opened Csj
  import opened RecoveryFold
  import opened RecoveryLog
  import opened RefGate
  import opened RecoveryWorld
  import opened RecoverySession

  datatype CsjResult = Joined(action: Action) | Ineligible | FailedBeforeMove | PostCasRecoverFailed

  /** The clauses of `evaluateCsjEligibility` on the two histories and the cohort: E4 to E7 and E16. */
  predicate Eligible(b: PreparedBody, head: Commit) {
    && CandidateShape(b)
    && IsAncestor(b.frozenCommit, head) && head != b.frozenCommit
    && !IsAncestor(b.candidate, head) && !IsAncestor(head, b.candidate)
    && (forall e | e in b.entries :: e.op == PutOp)
    && (forall e | e in b.entries :: Get(b.frozenCommit.tree, e.path) == Get(head.tree, e.path))
  }

  /** What preparing the commit left behind, restated for its entries. */
  lemma BuiltOverlay(op: Operation, b: PreparedBody)
    requires Binds(b, op) && Built(b) && forall e | e in b.entries :: e.op == PutOp
    ensures PutsOnly(b.entries) && Sorted(PreparedLe, b.entries)
    ensures Overlays(b.candidate.tree, b.frozenCommit.tree, Steps(b.entries))
    ensures forall e | e in Steps(b.entries) :: RealChange(b.frozenCommit.tree, e) && KeepsType(b.frozenCommit.tree, e)
  {
    hide Placeable, Overlays;
    var plan :| BuiltFrom(b, plan);
    var sorted := SortBy(PlanLe, plan);
    BuiltSteps(b, plan);
    ValidPlanDistinct(plan);
    DistinctInOrder(plan, sorted);
    OverlaysReordered(b.newTree, b.frozenCommit.tree, plan, sorted);
    assert Sorted(PlanLe, sorted) by {
      PathLePreorder();
      SortBySorted(PlanLe, plan);
    }
    SortedEntries(b.entries, sorted);
    SameMembers(plan, sorted);
    AlikeOverlay(b.newTree, b.frozenCommit.tree, sorted, Steps(b.entries));
    AlikeChanges(b.frozenCommit.tree, sorted, Steps(b.entries));
  }

  /** The steps of the entries are the sorted plan, with the default mode spelled out. */
  lemma BuiltSteps(b: PreparedBody, plan: seq<PlanEntry>)
    requires BuiltFrom(b, plan) && forall e | e in b.entries :: e.op == PutOp
    ensures AlikeSteps(SortBy(PlanLe, plan), Steps(b.entries))
  {
    var sorted := SortBy(PlanLe, plan);
    SameMembers(plan, sorted);
    ValidPlanDistinct(plan);
    forall i | 0 <= i < |sorted|
      ensures Steps(b.entries)[i].path == sorted[i].path && TargetOf(Steps(b.entries)[i]) == TargetOf(sorted[i])
      ensures sorted[i].op == PutOp
    {
      assert sorted[i] in sorted && sorted[i] in plan && b.entries[i] in b.entries;
    }
  }

  lemma SortedEntries(entries: seq<PreparedEntry>, sorted: seq<PlanEntry>)
    requires entries == PreparedAll(sorted, true) && Sorted(PlanLe, sorted)
    requires forall i, j | 0 <= i < j < |sorted| :: sorted[i].path != sorted[j].path
    requires forall e | e in entries :: EntryShape(e) && e.op == PutOp
    ensures PutsOnly(entries) && Sorted(PreparedLe, entries)
  {}

  ghost predicate AlikeSteps(plan: seq<PlanEntry>, steps: seq<PlanEntry>) {
    && |plan| == |steps|
    && forall i | 0 <= i < |steps| :: steps[i].path == plan[i].path && TargetOf(steps[i]) == TargetOf(plan[i]) && steps[i].op == plan[i].op
  }

  lemma AlikeOverlay(t: Files, base: Files, plan: seq<PlanEntry>, steps: seq<PlanEntry>)
    requires AlikeSteps(plan, steps) && Overlays(t, base, plan)
    ensures Overlays(t, base, steps)
  {}

  lemma AlikeChanges(base: Files, plan: seq<PlanEntry>, steps: seq<PlanEntry>)
    requires AlikeSteps(plan, steps)
    requires forall e | e in plan :: RealChange(base, e) && KeepsType(base, e)
    ensures forall e | e in steps :: RealChange(base, e) && KeepsType(base, e)
  {
    forall i | 0 <= i < |steps| ensures RealChange(base, steps[i]) && KeepsType(base, steps[i]) {
      assert plan[i] in plan;
    }
  }

  /** The merge that was built always passes both diff certificates. */
  lemma BuiltMergePasses(op: Operation, b: PreparedBody, head: Commit, m: Files)
    requires Binds(b, op) && Built(b) && Eligible(b, head) && MergeOf(m, head.tree, b.entries)
    ensures CertA(head.tree, m, b.entries) && CertB(b.candidate.tree, m, b.frozenCommit.tree, head.tree, CohortOf(b.entries))
  {
    hide Built, Binds, Overlays, MergeOf, PutsOnly, CertA, CertB;
    BuiltOverlay(op, b);
    forall e | e in Steps(b.entries) ensures Get(b.frozenCommit.tree, e.path) == Get(head.tree, e.path) {
      var i :| 0 <= i < |b.entries| && Steps(b.entries)[i] == e;
      assert b.entries[i] in b.entries;
    }
    CertificatesPinTheMerge(b.candidate.tree, m, b.frozenCommit.tree, head.tree, b.entries);
  }

  /** The trees of a finished merge: the ref's head has the old head and the candidate as parents, and its tree is
      the old one with the cohort laid over it. */
  ghost predicate IsMerge(ref: Commit, head: Commit, b: PreparedBody) {
    ref.parents == [head, b.candidate] && MergeOf(ref.tree, head.tree, b.entries)
  }

  /** The one open episode, its pending slot and the body prepared there. */
  method OpenPrepared(s: RecoverySession, ghost op: Operation) returns (episode: EpisodeId, slot: nat, b: PreparedBody)
    requires s.Inv() && op in s.eps && s.eps[op].stage.SPrepared?
    ensures episode == EpisodeId(op) && s.eps[op] == Episode(slot, SPrepared(b))
  {
    hide WorldOk, Built, Binds;
    EpisodeSound(s.Now(), op);
    OnlyOpen(s.Now(), op);
    var open, _ := s.OpenEpisodes();
    assert EpisodeId(op) in open;
    episode := open[0];
    var folded := s.ReadFold(episode.operation);
    slot := CursorOf(folded).pendingSlot.value;
    SlotFields(op, s.eps[op], slot);
    b := folded[slot].prepared.value.payload.body;
  }

  /** Nothing outside the modelled conditions stands in the way of a merge. */
  predicate Unhindered(env: Env) { env.csjOther && env.certsOther && env.historyAccepted && env.outside.None? }

  /** `runCsjInBarrier`, from eligibility to the recovery that follows the move. */
  method RunCsjInBarrier(s: RecoverySession, env: Env, ghost op: Operation) returns (r: Outcome<CsjResult>)
    requires s.Inv() && op in s.eps && s.eps[op].stage.SPrepared?
    modifies s, s.shared
    ensures s.Inv() && Reaches(old(s.Now()), s.Now())
    ensures op in s.eps && s.eps == old(s.eps)[op := s.eps[op]] && s.ownerAlert == old(s.ownerAlert)
    ensures r.Crashed? ==> s.fuel == 0
    ensures var b := old(s.eps[op]).stage.body;
            match r
            case Crashed => true
            case Threw(f) => f.CohortFailed? && s.Now() == old(s.Now())
            case Done(Ineligible) => !(Eligible(b, s.ref) && env.csjOther) && s.Now() == old(s.Now())
            case Done(FailedBeforeMove) => s.eps == old(s.eps) && !(env.certsOther && env.historyAccepted && env.outside.None?)
            case Done(Joined(action)) =>
              && action == Converged && s.eps[op].stage == SConverged(b)
              && Eligible(b, old(s.ref)) && IsMerge(s.ref, old(s.ref), b) && IndexAtRef(s.shared.lines, s.ref, b)
            case Done(PostCasRecoverFailed) =>
              && s.eps[op].stage == SPublished(b) && s.journal == FailedPostCas
              && Eligible(b, old(s.ref)) && IsMerge(s.ref, old(s.ref), b)
    ensures r == Done(Ineligible) <==> !(Eligible(old(s.eps[op]).stage.body, old(s.ref)) && env.csjOther)
    ensures var b := old(s.eps[op]).stage.body;
            !r.Crashed? ==> (r.Threw? <==> Eligible(b, old(s.ref)) && env.csjOther && !Placeable(old(s.ref).tree, Steps(b.entries)))
    ensures var b := old(s.eps[op]).stage.body;
            Eligible(b, old(s.ref)) && Placeable(old(s.ref).tree, Steps(b.entries)) && Unhindered(env) && !r.Crashed? ==>
              if IndexCanFollow(old(s.shared.lines), s.ref, b) then r == Done(Joined(Converged)) else r == Done(PostCasRecoverFailed)
    ensures s.fuel >= old(s.fuel) - 9
  {
    hide WorldOk, Reaches, Built, Binds, Recovered, Eligible, IsMerge, MergeOf, IndexCanFollow, Placeable, IndexAtRef;
    ghost var before := s.Now();
    Stays(before);
    EpisodeSound(before, op);
    var episode, slot, b := OpenPrepared(s, op);
    if !Eligible(b, s.ref) || !env.csjOther { return Done(Ineligible); }
    var moved :- TryMerge(s, episode.operation, slot, b, env);
    if !moved { return Done(FailedBeforeMove); }
    ghost var merged := s.Now();
    r := RecoverMerged(s, episode.operation, slot, b, env);
    ReachesTransitive(before, merged, s.Now());
  }

  /** From an eligible episode to the merge move: false when a certificate or the move refused it. */
  method TryMerge(s: RecoverySession, op: Operation, slot: nat, b: PreparedBody, env: Env) returns (r: Outcome<bool>)
    requires s.Inv() && op in s.eps && s.eps[op] == Episode(slot, SPrepared(b)) && Eligible(b, s.ref)
    modifies s`ref, s`moves, s`journal, s`fuel
    ensures s.Inv() && Reaches(old(s.Now()), s.Now())
    ensures r.Crashed? ==> s.fuel == 0
    ensures r.Threw? ==> r.failure.CohortFailed? && s.Now() == old(s.Now())
    ensures !r.Crashed? ==> (r.Threw? <==> !Placeable(old(s.ref).tree, Steps(b.entries)))
    ensures r == Done(true) ==> IsMerge(s.ref, old(s.ref), b) && s.ref != op.base && IsAncestor(b.candidate, s.ref)
    ensures r == Done(false) ==> !(env.certsOther && env.historyAccepted && env.outside.None?)
    ensures s.fuel >= old(s.fuel) - if r == Done(true) then 3 else 4
  {
    hide WorldOk, Reaches, Built, Binds, Eligible, IsMerge, Placeable, IsAncestor;
    Stays(s.Now());
    EpisodeSound(s.Now(), op);
    var head := s.ref;
    var _ :- s.WriteJournal(InProgress);
    var merge :- BuildCertified(op, b, head);
    if !env.certsOther {
      var _ :- s.WriteJournal(InProgress);
      return Done(false);
    }
    var _ :- s.WriteJournal(InProgress);
    r := MoveToMerge(s, op, slot, b, head, merge, env);
  }

  /** Build the merge and run the diff certificates, which it cannot fail. */
  method BuildCertified(op: Operation, b: PreparedBody, head: Commit) returns (r: Outcome<Commit>)
    requires Binds(b, op) && Built(b) && Eligible(b, head)
    ensures !r.Crashed?
    ensures r.Threw? ==> r.failure.CohortFailed?
    ensures r.Done? <==> Placeable(head.tree, Steps(b.entries))
    ensures r.Done? ==> IsMerge(r.value, head, b) && IsAncestor(head, r.value) && IsAncestor(b.candidate, r.value)
  {
    BuiltOverlay(op, b);
    var built := BuildProspectiveCsjMerge(head, b.candidate, b.entries);
    if built.Err? { return Threw(CohortFailed(built.error)); }
    var merge := built.value;
    BuiltMergePasses(op, b, head, merge.tree);
    assert CertA(head.tree, merge.tree, b.entries);
    assert CertB(b.candidate.tree, merge.tree, b.frozenCommit.tree, head.tree, CohortOf(b.entries));
    r := Done(merge);
  }

  /** The one merge move: false when it was refused, which the journal then says. */
  method MoveToMerge(s: RecoverySession, op: Operation, slot: nat, b: PreparedBody, head: Commit, merge: Commit, env: Env)
    returns (r: Outcome<bool>)
    requires s.Inv() && op in s.eps && s.eps[op] == Episode(slot, SPrepared(b))
    requires head == s.ref && Eligible(b, head) && IsAncestor(head, merge) && IsAncestor(b.candidate, merge)
    modifies s`ref, s`moves, s`journal, s`fuel
    ensures s.Inv() && Reaches(old(s.Now()), s.Now())
    ensures !r.Threw? && (r.Crashed? ==> s.fuel == 0)
    ensures r == Done(true) ==> s.ref == merge != op.base
    ensures r == Done(false) ==> !(env.historyAccepted && env.outside.None?)
    ensures s.fuel >= old(s.fuel) - 2
    ensures r == Done(true) ==> s.fuel >= old(s.fuel) - 1
  {
    hide WorldOk, Reaches, Built, Binds;
    OnlyOpen(s.Now(), op);
    EpisodeSound(s.Now(), op);
    MergeIsNotBase(op, b, head, merge);
    var moved := s.RefMove(CsjV1, Some(EpisodeId(op)), head, merge, env);
    if moved.Crashed? { return Crashed; }
    if moved.Threw? {
      var _ :- s.WriteJournal(InProgress);
      return Done(false);
    }
    r := Done(true);
  }

  /** The recovery in the same barrier, once the merge is the ref's head. */
  method RecoverMerged(s: RecoverySession, op: Operation, slot: nat, b: PreparedBody, env: Env) returns (r: Outcome<CsjResult>)
    requires s.Inv() && op in s.eps && s.eps[op] == Episode(slot, SPrepared(b))
    requires s.ref != op.base && IsAncestor(b.candidate, s.ref)
    modifies s`log, s`eps, s`ref, s`moves, s`journal, s`fuel, s.shared
    ensures s.Inv() && Reaches(old(s.Now()), s.Now())
    ensures op in s.eps && s.eps == old(s.eps)[op := s.eps[op]] && s.ref == old(s.ref)
    ensures r.Crashed? ==> s.fuel == 0
    ensures match r
            case Crashed => true
            case Done(Joined(action)) => action == Converged && s.eps[op].stage == SConverged(b) && IndexAtRef(s.shared.lines, s.ref, b)
            case Done(PostCasRecoverFailed) => s.eps[op].stage == SPublished(b) && s.journal == FailedPostCas
            case _ => false
    ensures !r.Crashed? ==> (r.value.Joined? <==> IndexCanFollow(old(s.shared.lines), s.ref, b))
    ensures s.fuel >= old(s.fuel) - 6
  {
    hide WorldOk, Reaches, Built, Binds, IndexAtRef, IndexCanFollow, LinesKept, IsAncestor;
    Stays(s.Now());
    var _ :- s.WriteJournal(InProgress);
    var recovered := s.RecoverDrainSlotV3(op, slot, env.(prePublishOk := true, preConvergeOk := true));
    match recovered
    case Crashed => return Crashed;
    case Done(action) =>
      var _ :- s.WriteJournal(InProgress);
      return Done(Joined(action));
    case Threw(_) =>
      var _ :- s.WriteJournal(FailedPostCas);
      r := Done(PostCasRecoverFailed);
  }

  lemma MergeIsNotBase(op: Operation, b: PreparedBody, head: Commit, merge: Commit)
    requires Binds(b, op) && Built(b) && Eligible(b, head) && IsAncestor(head, merge)
    ensures merge != op.base
  {
    if merge == op.base {
      BuiltOnBase(op, b);
      AncestorTransitive(head, op.base, b.candidate);
    }
  }
}
