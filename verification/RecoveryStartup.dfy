/** The start-up loop that settles every open episode. */
module RecoveryStartup {
  import opened Results
  import opened Git
  import opened CohortCommit
  import opened Csj
  import opened RecoveryFold
  import opened RecoveryLog
  import opened RecoveryWorld
  import opened RecoverySession
  import opened RecoveryCsj

  const MAX_PASSES := DRAIN_BUDGET * 2 + 2

  /** Passes of the loop that an episode still needs when no recovery fails. */
  function PassesLeft(ep: Episode): nat
    requires 1 <= ep.slot <= DRAIN_BUDGET
    ensures 1 <= PassesLeft(ep) <= 6
  {
    match ep.stage
    case SClaimed => 7 - ep.slot
    case SAborted => 6 - ep.slot
    case SPrepared(_) => 2
    case SPublished(_) => 2
    case SConverged(_) => 1
    case STerminal => 1
  }

  /** The prepared candidate is not a sibling of the ref: the ref is its base or contains it. */
  predicate Fresh(op: Operation, ep: Episode, ref: Commit) {
    ep.stage.SPrepared? ==> ref == op.base || IsAncestor(ep.stage.body.candidate, ref)
  }

  /** One pass: what it did to the episode. */
  datatype Pass = Settled | Advanced | Retry

  /** The decision of `decideCsjNextKick` for the last slot, from its folded record and the ref. */
  function KickFor(state: Slot, ref: Commit, exhausted: bool): Kick {
    var prepared := state.prepared.Some? && state.prepared.value.payload.CommitPrepared?;
    var published := state.published.Some?;
    var openPrepared := prepared && state.converged.None? && state.aborted.None? && state.terminal.None?;
    var ancestor := prepared && IsAncestor(state.prepared.value.payload.body.candidate, ref);
    var headBehind := prepared && IsAncestor(ref, state.prepared.value.payload.body.candidate);
    DecideCsjNextKick(ancestor, openPrepared, exhausted, published, !published && openPrepared && !ancestor && !headBehind)
  }

  /** What the decision amounts to, stage by stage. A published candidate is never found outside the history. */
  lemma KickMeans(w: World, op: Operation, exhausted: bool)
    requires WorldOk(w) && op in w.eps && !w.eps[op].stage.IsClosed()
    ensures var ep := w.eps[op]; var kick := KickFor(SlotAt(op, ep, ep.slot), w.ref, exhausted);
            if ep.stage.HasBody() && IsAncestor(ep.stage.body.candidate, w.ref)
            then kick == if exhausted then OwnerAlertBlocked else BoundedT2Recover
            else kick == if ep.stage.SPrepared? && !IsAncestor(w.ref, ep.stage.body.candidate) then RunCsj else Existing
    ensures var ep := w.eps[op]; var kick := KickFor(SlotAt(op, ep, ep.slot), w.ref, exhausted);
            if kick == RunCsj then !Fresh(op, ep, w.ref) else Fresh(op, ep, w.ref) || IsAncestor(w.ref, ep.stage.body.candidate)
  {
    EpisodeSound(w, op);
    if w.eps[op].stage.HasBody() { BuiltOnBase(op, w.eps[op].stage.body); }
    hide WorldOk, Binds, Built, IsAncestor;
    SlotFields(op, w.eps[op], w.eps[op].slot);
    BodyAt(op, w.eps[op]);
  }

  lemma BodyAt(op: Operation, ep: Episode)
    requires 1 <= ep.slot
    ensures var state := SlotAt(op, ep, ep.slot);
            && (state.prepared.Some? <==> ep.stage.HasBody())
            && (ep.stage.HasBody() ==> state.prepared == Some(Make(op, ep.slot, CommitPrepared(ep.stage.body))))
            && (state.published.Some? <==> ep.stage.SPublished? || ep.stage.SConverged?)
  {}

  /** The slot to work on, claiming the next one when none is pending; None when the episode is closed. */
  method SlotToRecover(s: RecoverySession, op: Operation) returns (r: Outcome<Option<int>>)
    requires s.Inv() && op in s.eps
    modifies s`log, s`eps, s`fuel
    ensures s.Inv() && Reaches(old(s.Now()), s.Now())
    ensures op in s.eps && s.eps == old(s.eps)[op := s.eps[op]]
    ensures r.Crashed? ==> s.fuel == 0 && s.eps == old(s.eps)
    ensures !r.Threw?
    ensures r.Done? ==> match r.value
      case None => s.eps[op].stage.IsClosed()
                   && (s.eps[op] == old(s.eps[op]) || old(s.eps[op]) == Episode(DRAIN_BUDGET, SAborted))
      case Some(n) => n == s.eps[op].slot && !s.eps[op].stage.IsClosed() && !s.eps[op].stage.SAborted?
                      && s.eps[op] == if old(s.eps[op]).stage.SAborted? then Episode(old(s.eps[op]).slot + 1, SClaimed) else old(s.eps[op])
    ensures s.ref == old(s.ref) && s.moves == old(s.moves)
    ensures s.fuel >= old(s.fuel) - 1
  {
    hide WorldOk, Reaches, Built, Binds;
    EpisodeSound(s.Now(), op);
    Stays(s.Now());
    var folded := s.ReadFold(op);
    var cursor := CursorOf(folded);
    if cursor.complete || cursor.terminal { return Done(None); }
    if cursor.pendingSlot.Some? { return Done(cursor.pendingSlot); }
    var claim :- s.ClaimNextRecoverySlotV3(op);
    EpisodeSound(s.Now(), op);
    match claim
    case EpisodeComplete => r := Done(None);
    case EpisodeTerminated => r := Done(None);
    case Pending(n) => r := Done(Some(n));
    case Acquired(n) => r := Done(Some(n));
  }

  /** A stale commit can be merged, and the index can follow the merge. */
  ghost predicate Mergeable(b: PreparedBody, ref: Commit, lines: Index) {
    && Eligible(b, ref) && Placeable(ref.tree, Steps(b.entries))
    && forall m | IsMerge(m, ref, b) :: IndexCanFollow(lines, m, b)
  }

  /** Nothing stands in the way of the episode: either it has no commit yet, or nobody interferes, the commit can be
      published or merged, and the index can follow. */
  ghost predicate Clears(op: Operation, ep: Episode, ref: Commit, lines: Index, env: Env) {
    OpenBodyStage(ep.stage) ==>
      && Calm(env)
      && if Fresh(op, ep, ref) then IndexCanFollow(lines, RefAfter(op, ep, ref), ep.stage.body)
         else env.csjOther && env.certsOther && Mergeable(ep.stage.body, ref, lines)
  }

  /** A stale commit that cannot be merged: the ref is behind its base, or the merge is not admitted, or git would refuse
      to place a path of the cohort. */
  ghost predicate Stuck(op: Operation, ep: Episode, ref: Commit) {
    && ep.stage.SPrepared? && !Fresh(op, ep, ref)
    && !(Eligible(ep.stage.body, ref) && Placeable(ref.tree, Steps(ep.stage.body.entries)))
  }

  /** The prepared commit got through: its episode is complete, the ref went to the candidate when it was at the base,
      stayed when it had the candidate already, and went to the merge when it was stale; and the index is there too. */
  ghost predicate Through(op: Operation, ep: Episode, ref: Commit, after: Episode, refAfter: Commit, linesAfter: Index) {
    OpenBodyStage(ep.stage) ==>
      && after.stage == SConverged(ep.stage.body) && IndexAtRef(linesAfter, refAfter, ep.stage.body)
      && if Fresh(op, ep, ref) then refAfter == RefAfter(op, ep, ref) else IsMerge(refAfter, ref, ep.stage.body)
  }

  /** The recovery after a merge has failed: the journal says so, and the candidate is in the history. */
  ghost predicate MergedBefore(ep: Episode, ref: Commit, journal: JournalPhase) {
    journal == FailedPostCas && ep.stage.HasBody() && IsAncestor(ep.stage.body.candidate, ref)
  }

  /** How one pass leaves the episode. In a calm environment only the index can make a fresh episode fail, and it does
      whenever it cannot follow, unless a failed recovery after a merge is being retried (`postCas`). */
  ghost predicate PassResult(r: Outcome<Pass>, op: Operation, env: Env, ep: Episode, ref: Commit, lines: Index, postCas: bool,
                             after: Episode, refAfter: Commit, linesAfter: Index)
  {
    && EpisodeOk(op, ep) && EpisodeOk(op, after)
    && (r == Done(Settled) ==> after.stage.IsClosed())
    && (r == Done(Advanced) ==> PassesLeft(after) < PassesLeft(ep))
    && (r == Done(Retry) ==> PassesLeft(after) <= PassesLeft(ep))
    && (Calm(env) && Fresh(op, ep, ref) && !r.Crashed? ==>
          Fresh(op, after, refAfter) && (r.Threw? ==> r.failure.IndexFailed? || r.failure == Liveness))
    && (Clears(op, ep, ref, lines, env) && !r.Crashed? && r != Threw(Liveness) ==>
          r.Done? && r.value != Retry && !OpenBodyStage(after.stage) && Through(op, ep, ref, after, refAfter, linesAfter))
    && (ep.stage.IsClosed() ==> after == ep && refAfter == ref && linesAfter == lines)
    && (Stuck(op, ep, ref) && !r.Crashed? ==> r.Threw? && after == ep && refAfter == ref)
    && (Calm(env) && Fresh(op, ep, ref) && !Clears(op, ep, ref, lines, env) && !postCas && !r.Crashed? ==> r.Threw?)
  }

  /** A candidate in the history stays there. */
  lemma StaysContained(v: World, w: World, op: Operation)
    requires Reaches(v, w) && op in v.eps && v.eps[op].stage.HasBody() && IsAncestor(v.eps[op].stage.body.candidate, v.ref)
    ensures op in w.eps && w.eps[op].stage.HasBody() && w.eps[op].stage.body == v.eps[op].stage.body
    ensures IsAncestor(w.eps[op].stage.body.candidate, w.ref)
  {
    AncestorTransitive(v.eps[op].stage.body.candidate, v.ref, w.ref);
  }

  /** The recovery of a pass. When the candidate was already in the ref's history (`bounded`) a stale base, or
      any failure after a merge, is retried. */
  method RecoverOnce(s: RecoverySession, op: Operation, slot: int, bounded: bool, postCas: bool, env: Env) returns (r: Outcome<Pass>)
    requires s.Inv() && op in s.eps && slot == s.eps[op].slot
    requires s.eps[op].stage.SClaimed? || s.eps[op].stage.SPrepared? || s.eps[op].stage.SPublished?
    requires bounded ==> s.eps[op].stage.HasBody() && IsAncestor(s.eps[op].stage.body.candidate, s.ref)
    requires !Fresh(op, s.eps[op], s.ref) ==> IsAncestor(s.ref, s.eps[op].stage.body.candidate)
    modifies s, s.shared
    ensures s.Inv() && Reaches(old(s.Now()), s.Now())
    ensures op in s.eps && s.eps == old(s.eps)[op := s.eps[op]] && s.ownerAlert == old(s.ownerAlert)
    ensures r.Crashed? ==> s.fuel == 0
    ensures r != Threw(Liveness) && r != Done(Settled) && s.journal == old(s.journal)
    ensures r == Done(Retry) ==> bounded && postCas
    ensures PassResult(r, op, env, old(s.eps[op]), old(s.ref), old(s.shared.lines), postCas, s.eps[op], s.ref, s.shared.lines)
    ensures s.fuel >= old(s.fuel) - 4
  {
    hide WorldOk, Reaches, Built, Binds, IndexCanFollow, IndexAtRef, LinesKept;
    ghost var before := s.Now();
    EpisodeSound(before, op);
    var recovered := s.RecoverDrainSlotV3(op, slot, env);
    EpisodeSound(s.Now(), op);
    if bounded { StaysContained(before, s.Now(), op); }
    match recovered
    case Crashed => r := Crashed;
    case Threw(f) => r := if bounded && (f == StaleBase || postCas) then Done(Retry) else Threw(f);
    case Done(_) => r := Done(Advanced);
  }

  /** The merge of a pass. */
  method MergeOnce(s: RecoverySession, op: Operation, env: Env) returns (r: Outcome<Pass>)
    requires s.Inv() && op in s.eps && s.eps[op].stage.SPrepared?
    requires !Fresh(op, s.eps[op], s.ref)
    modifies s, s.shared
    ensures s.Inv() && Reaches(old(s.Now()), s.Now())
    ensures op in s.eps && s.eps == old(s.eps)[op := s.eps[op]] && s.ownerAlert == old(s.ownerAlert)
    ensures r.Crashed? ==> s.fuel == 0
    ensures r != Threw(Liveness) && r != Done(Settled)
    ensures r == Done(Retry) ==> MergedBefore(s.eps[op], s.ref, s.journal)
    ensures PassResult(r, op, env, old(s.eps[op]), old(s.ref), old(s.shared.lines), false, s.eps[op], s.ref, s.shared.lines)
    ensures s.fuel >= old(s.fuel) - 9
  {
    hide WorldOk, Reaches, Built, Binds, IsMerge, Eligible, IndexAtRef;
    EpisodeSound(s.Now(), op);
    var joined := RunCsjInBarrier(s, env, op);
    EpisodeSound(s.Now(), op);
    match joined
    case Crashed => r := Crashed;
    case Threw(f) => r := Threw(f);
    case Done(Joined(_)) => r := Done(Advanced);
    case Done(PostCasRecoverFailed) => r := Done(Retry);
    case Done(_) => r := Threw(StaleBase);
  }

  /** The second half of a pass, over a pending slot: what `decideCsjNextKick` says. */
  method FollowKick(s: RecoverySession, op: Operation, slot: int, step: nat, postCas: bool, env: Env)
    returns (r: Outcome<Pass>, postCasNow: bool)
    requires s.Inv() && op in s.eps && !s.ownerAlert && slot == s.eps[op].slot
    requires s.eps[op].stage.SClaimed? || OpenBodyStage(s.eps[op].stage)
    requires postCas ==> MergedBefore(s.eps[op], s.ref, s.journal)
    modifies s, s.shared
    ensures s.Inv() && Reaches(old(s.Now()), s.Now())
    ensures op in s.eps && s.eps == old(s.eps)[op := s.eps[op]]
    ensures r.Crashed? ==> s.fuel == 0
    ensures (s.ownerAlert <==> r == Threw(Liveness)) && r != Done(Settled)
    ensures r == Threw(Liveness) ==>
              && step >= DRAIN_BUDGET * 2 && OpenBodyStage(old(s.eps[op]).stage)
              && s.eps == old(s.eps) && s.ref == old(s.ref) && s.shared.lines == old(s.shared.lines)
    ensures postCasNow ==> MergedBefore(s.eps[op], s.ref, s.journal)
    ensures postCas || r == Done(Retry) ==> postCasNow
    ensures r != Threw(Liveness) ==>
              PassResult(r, op, env, old(s.eps[op]), old(s.ref), old(s.shared.lines), old(s.journal) == FailedPostCas, s.eps[op], s.ref, s.shared.lines)
    ensures s.fuel >= old(s.fuel) - 9
  {
    hide WorldOk, Reaches, Built, Binds, IsAncestor, DecideCsjNextKick, SlotOk, CursorIn, KickFor, SlotAt, PassResult, EpisodeOk, Fresh;
    ghost var before := s.Now();
    EpisodeSound(before, op);
    var folded := s.ReadFold(op);
    var state := folded[slot];
    KickMeans(before, op, step >= DRAIN_BUDGET * 2);
    BodyAt(op, s.eps[op]);
    var contained := state.prepared.Some? && IsAncestor(state.prepared.value.payload.body.candidate, s.ref);
    postCasNow := postCas || (s.journal == FailedPostCas && contained);
    var kick := KickFor(state, s.ref, step >= DRAIN_BUDGET * 2);
    if kick == OwnerAlertBlocked {
      s.ownerAlert := true;
      Stays(before);
      return Threw(Liveness), postCasNow;
    }
    ghost var tried := kick != RunCsj && postCasNow;
    if kick == RunCsj {
      r := MergeOnce(s, op, env);
      postCasNow := postCasNow || r == Done(Retry);
    } else {
      r := RecoverOnce(s, op, slot, kick == BoundedT2Recover, postCasNow, env);
    }
    if contained { StaysContained(before, s.Now(), op); }
    TriedOrNot(r, op, env, before.eps[op], before.ref, old(s.shared.lines), tried, old(s.journal) == FailedPostCas, s.eps[op], s.ref, s.shared.lines);
  }

  lemma TriedOrNot(r: Outcome<Pass>, op: Operation, env: Env, ep: Episode, ref: Commit, lines: Index, tried: bool, postCas: bool,
                   after: Episode, refAfter: Commit, linesAfter: Index)
    requires PassResult(r, op, env, ep, ref, lines, tried, after, refAfter, linesAfter) && (tried ==> postCas)
    ensures PassResult(r, op, env, ep, ref, lines, postCas, after, refAfter, linesAfter)
  {
    hide IndexCanFollow, Mergeable, Placeable;
  }

  /** One pass of the loop over an open episode. `postCas` remembers a merge whose recovery failed. */
  method OnePass(s: RecoverySession, op: Operation, step: nat, postCas: bool, env: Env) returns (r: Outcome<Pass>, postCasNow: bool)
    requires s.Inv() && op in s.eps && !s.ownerAlert && step < MAX_PASSES
    requires postCas ==> MergedBefore(s.eps[op], s.ref, s.journal)
    modifies s, s.shared
    ensures s.Inv() && Reaches(old(s.Now()), s.Now())
    ensures op in s.eps && s.eps == old(s.eps)[op := s.eps[op]]
    ensures r.Crashed? ==> s.fuel == 0
    ensures s.ownerAlert <==> r == Threw(Liveness)
    ensures r == Threw(Liveness) ==>
              step >= DRAIN_BUDGET * 2 && old(s.eps[op]).stage.HasBody() && !old(s.eps[op]).stage.IsClosed()
    ensures postCasNow ==> MergedBefore(s.eps[op], s.ref, s.journal)
    ensures postCas || r == Done(Retry) ==> postCasNow
    ensures PassResult(r, op, env, old(s.eps[op]), old(s.ref), old(s.shared.lines), old(s.journal) == FailedPostCas, s.eps[op], s.ref, s.shared.lines)
    ensures s.fuel >= old(s.fuel) - 10
  {
    hide WorldOk, Reaches, Built, Binds, IsAncestor, PassResult, EpisodeOk;
    postCasNow := postCas;
    ghost var before, lines := s.Now(), s.shared.lines;
    EpisodeSound(before, op);
    var slot := SlotToRecover(s, op);
    EpisodeSound(s.Now(), op);
    if slot.Crashed? {
      EndsEarly(Crashed, op, env, before.eps[op], s.ref, lines, old(s.journal) == FailedPostCas, s.eps[op]);
      return Crashed, postCasNow;
    }
    if slot.value.None? {
      EndsEarly(Done(Settled), op, env, before.eps[op], s.ref, lines, old(s.journal) == FailedPostCas, s.eps[op]);
      return Done(Settled), postCasNow;
    }
    ghost var between := s.Now();
    r, postCasNow := FollowKick(s, op, slot.value.value, step, postCas, env);
    EpisodeSound(s.Now(), op);
    ReachesTransitive(before, between, s.Now());
    if r == Threw(Liveness) {
      EndsEarly(r, op, env, before.eps[op], s.ref, lines, old(s.journal) == FailedPostCas, s.eps[op]);
    } else {
      ClaimedFirst(r, op, env, before.eps[op], between.eps[op], between.ref, lines, old(s.journal) == FailedPostCas, s.eps[op], s.ref, s.shared.lines);
    }
  }

  /** A pass that claims the next slot first. */
  lemma ClaimedFirst(r: Outcome<Pass>, op: Operation, env: Env, ep: Episode, claimed: Episode, ref: Commit, lines: Index, postCas: bool,
                     after: Episode, refAfter: Commit, linesAfter: Index)
    requires PassResult(r, op, env, claimed, ref, lines, postCas, after, refAfter, linesAfter) && EpisodeOk(op, ep)
    requires claimed == ep || (ep.stage.SAborted? && claimed == Episode(ep.slot + 1, SClaimed))
    ensures PassResult(r, op, env, ep, ref, lines, postCas, after, refAfter, linesAfter)
  {
    hide IndexCanFollow, Mergeable, Placeable;
  }

  /** A pass that ends before it recovers anything. */
  lemma EndsEarly(r: Outcome<Pass>, op: Operation, env: Env, ep: Episode, ref: Commit, lines: Index, postCas: bool, after: Episode)
    requires EpisodeOk(op, ep) && EpisodeOk(op, after)
    requires r.Crashed? || r == Threw(Liveness) || (r == Done(Settled) && after.stage.IsClosed() && !OpenBodyStage(ep.stage))
    requires ep.stage.IsClosed() || r.Threw? ==> after == ep
    ensures PassResult(r, op, env, ep, ref, lines, postCas, after, ref, lines)
  {
    hide IndexCanFollow, Mergeable, Placeable;
  }


  /** Calm passes only. */
  ghost predicate AlwaysCalm(env: nat -> Env) {
    forall i :: Calm(env(i))
  }

  ghost predicate AlwaysClears(op: Operation, ep: Episode, ref: Commit, lines: Index, env: nat -> Env) {
    forall i :: Clears(op, ep, ref, lines, env(i))
  }

  /** How the loop over an episode ends. The liveness failure takes a merge whose recovery failed; an episode with
      nothing in its way is settled; and without a failed merge on record, a fresh one with nobody around is settled
      exactly when the index can follow. */
  ghost predicate Settling(r: Outcome<()>, op: Operation, env: nat -> Env, ep: Episode, ref: Commit, lines: Index, journal: JournalPhase,
                           after: Episode, refAfter: Commit, linesAfter: Index, journalAfter: JournalPhase)
  {
    && (r == Threw(Liveness) ==> MergedBefore(after, refAfter, journalAfter))
    && (Stuck(op, ep, ref) && !r.Crashed? ==> r.Threw? && after == ep && refAfter == ref)
    && (AlwaysClears(op, ep, ref, lines, env) ==> r.Crashed? || (r.Done? && Through(op, ep, ref, after, refAfter, linesAfter)))
    && (AlwaysCalm(env) && Fresh(op, ep, ref) ==>
          && (r.Threw? ==> r.failure.IndexFailed? || r.failure == Liveness)
          && (journal != FailedPostCas && !r.Crashed? ==> (r.Done? <==> Clears(op, ep, ref, lines, env(0)))))
  }

  /** What the loop knows after `step` passes. */
  ghost predicate Halfway(op: Operation, env: nat -> Env, ep: Episode, ref: Commit, lines: Index, journal: JournalPhase,
                          step: nat, now: Episode, refNow: Commit, linesNow: Index, journalNow: JournalPhase, swallowed: nat)
  {
    && (step == 0 ==> now == ep && refNow == ref && linesNow == lines && journalNow == journal && swallowed == 0)
    && (step > 0 ==> !Stuck(op, ep, ref))
    && (step > 0 && AlwaysClears(op, ep, ref, lines, env) ==>
          swallowed == 0 && !OpenBodyStage(now.stage) && Through(op, ep, ref, now, refNow, linesNow))
    && (AlwaysCalm(env) && Fresh(op, ep, ref) ==>
          && Fresh(op, now, refNow)
          && (step > 0 && journal != FailedPostCas ==> Clears(op, ep, ref, lines, env(0))))
  }

  lemma HalfwayStart(op: Operation, env: nat -> Env, ep: Episode, ref: Commit, lines: Index, journal: JournalPhase)
    ensures Halfway(op, env, ep, ref, lines, journal, 0, ep, ref, lines, journal, 0)
  {}

  lemma CalmClears(op: Operation, env: nat -> Env, ep: Episode, ref: Commit, lines: Index)
    requires AlwaysCalm(env) && Fresh(op, ep, ref) && Clears(op, ep, ref, lines, env(0))
    ensures AlwaysClears(op, ep, ref, lines, env)
  {
    hide Calm, Fresh, IndexCanFollow;
    forall i ensures Clears(op, ep, ref, lines, env(i)) { assert Calm(env(i)); }
  }

  lemma PassDone(op: Operation, env: nat -> Env, ep: Episode, ref: Commit, lines: Index, journal: JournalPhase,
                 step: nat, now: Episode, refNow: Commit, linesNow: Index, journalNow: JournalPhase, swallowed: nat,
                 pass: Pass, after: Episode, refAfter: Commit, linesAfter: Index, journalAfter: JournalPhase)
    requires Halfway(op, env, ep, ref, lines, journal, step, now, refNow, linesNow, journalNow, swallowed)
    requires PassResult(Done(pass), op, env(step), now, refNow, linesNow, journalNow == FailedPostCas, after, refAfter, linesAfter)
    ensures Halfway(op, env, ep, ref, lines, journal, step + 1, after, refAfter, linesAfter, journalAfter,
                    swallowed + if pass == Retry then 1 else 0)
  {
    hide Calm, Fresh, IndexCanFollow, Mergeable, Placeable;
    assert AlwaysCalm(env) ==> Calm(env(step));
    assert AlwaysClears(op, ep, ref, lines, env) ==> Clears(op, ep, ref, lines, env(step));
  }

  lemma PassFailed(op: Operation, env: nat -> Env, ep: Episode, ref: Commit, lines: Index, journal: JournalPhase,
                   step: nat, now: Episode, refNow: Commit, linesNow: Index, journalNow: JournalPhase, swallowed: nat,
                   pass: Outcome<Pass>, after: Episode, refAfter: Commit, linesAfter: Index, journalAfter: JournalPhase)
    requires Halfway(op, env, ep, ref, lines, journal, step, now, refNow, linesNow, journalNow, swallowed)
    requires PassResult(pass, op, env(step), now, refNow, linesNow, journalNow == FailedPostCas, after, refAfter, linesAfter) && !pass.Done?
    requires pass == Threw(Liveness) ==> step > 0 && OpenBodyStage(now.stage) && MergedBefore(after, refAfter, journalAfter)
    ensures Settling(if pass.Crashed? then Crashed else Threw(pass.failure), op, env, ep, ref, lines, journal, after, refAfter, linesAfter, journalAfter)
  {
    hide Calm, Fresh, IndexCanFollow, Mergeable, Placeable, MergedBefore;
    assert AlwaysCalm(env) ==> Calm(env(step));
    if AlwaysClears(op, ep, ref, lines, env) { assert Clears(op, ep, ref, lines, env(step)); }
    if AlwaysCalm(env) && Fresh(op, ep, ref) && Clears(op, ep, ref, lines, env(0)) {
      CalmClears(op, env, ep, ref, lines);
    }
  }

  lemma LoopDone(op: Operation, env: nat -> Env, ep: Episode, ref: Commit, lines: Index, journal: JournalPhase,
                 step: nat, now: Episode, refNow: Commit, linesNow: Index, journalNow: JournalPhase, swallowed: nat, r: Outcome<()>)
    requires Halfway(op, env, ep, ref, lines, journal, step, now, refNow, linesNow, journalNow, swallowed) && step > 0
    requires r.Done? || (r == Threw(Liveness) && swallowed > 0 && MergedBefore(now, refNow, journalNow))
    ensures Settling(r, op, env, ep, ref, lines, journal, now, refNow, linesNow, journalNow)
  {
    hide Calm, Fresh, IndexCanFollow, Mergeable, Placeable, MergedBefore;
    if AlwaysCalm(env) && Fresh(op, ep, ref) && Clears(op, ep, ref, lines, env(0)) {
      CalmClears(op, env, ep, ref, lines);
    }
  }

  /** The loop of `recoverStartupEpisodesUnlocked` for one episode, in the environment `env(i)` on pass i. It closes
      the episode or fails; `passes` counts the passes and `swallowed` those whose failure was retried. */
  method SettleEpisode(s: RecoverySession, op: Operation, env: nat -> Env)
    returns (r: Outcome<()>, ghost passes: nat, ghost swallowed: nat)
    requires s.Inv() && op in s.eps && !s.ownerAlert
    modifies s, s.shared
    ensures s.Inv() && Reaches(old(s.Now()), s.Now())
    ensures op in s.eps && s.eps == old(s.eps)[op := s.eps[op]]
    ensures r.Crashed? ==> s.fuel == 0
    ensures r.Done? ==> s.eps[op].stage.IsClosed() && passes <= 6 + swallowed && !s.ownerAlert
    ensures r == Threw(Liveness) ==> swallowed >= 6
    ensures Settling(r, op, env, old(s.eps[op]), old(s.ref), old(s.shared.lines), old(s.journal), s.eps[op], s.ref, s.shared.lines, s.journal)
    ensures s.fuel >= old(s.fuel) - 10 * MAX_PASSES
  {
    hide WorldOk, Reaches, Built, Binds, IsAncestor, Fresh, Halfway, Settling, MergedBefore, Clears, Calm;
    passes, swallowed := 0, 0;
    ghost var before, lines, journal := s.Now(), s.shared.lines, s.journal;
    Stays(before);
    EpisodeSound(before, op);
    HalfwayStart(op, env, s.eps[op], s.ref, lines, journal);
    var postCas, settled := false, false;
    var step := 0;
    while step < MAX_PASSES && !settled
      invariant step <= MAX_PASSES && passes == step && (settled ==> step > 0)
      invariant s.Inv() && Reaches(before, s.Now()) && !s.ownerAlert && s.fuel >= old(s.fuel) - 10 * step
      invariant op in s.eps && s.eps == old(s.eps)[op := s.eps[op]] && EpisodeOk(op, s.eps[op])
      invariant if settled then s.eps[op].stage.IsClosed() && passes <= 6 + swallowed
                else passes + PassesLeft(s.eps[op]) <= 6 + swallowed
      invariant (postCas ==> MergedBefore(s.eps[op], s.ref, s.journal)) && (swallowed > 0 ==> postCas)
      invariant Halfway(op, env, before.eps[op], before.ref, lines, journal, step, s.eps[op], s.ref, s.shared.lines, s.journal, swallowed)
      decreases MAX_PASSES - step
    {
      ghost var start, linesNow, journalNow := s.Now(), s.shared.lines, s.journal;
      var pass;
      pass, postCas := OnePass(s, op, step, postCas, env(step));
      ReachesTransitive(before, start, s.Now());
      if pass.IsFailure() {
        PassFailed(op, env, before.eps[op], before.ref, lines, journal, step, start.eps[op], start.ref, linesNow, journalNow, swallowed,
                   pass, s.eps[op], s.ref, s.shared.lines, s.journal);
        return pass.PropagateFailure(), passes, swallowed;
      }
      PassDone(op, env, before.eps[op], before.ref, lines, journal, step, start.eps[op], start.ref, linesNow, journalNow, swallowed,
               pass.value, s.eps[op], s.ref, s.shared.lines, s.journal);
      settled := pass.value == Settled;
      if pass.value == Retry { swallowed := swallowed + 1; }
      step := step + 1;
      passes := passes + 1;
    }
    EpisodeSound(s.Now(), op);
    var folded := s.ReadFold(op);
    var final := CursorOf(folded);
    r := if !settled && !final.complete && !final.terminal then Threw(Liveness) else Done(());
    LoopDone(op, env, before.eps[op], before.ref, lines, journal, step, s.eps[op], s.ref, s.shared.lines, s.journal, swallowed, r);
  }

  /** Start-up recovery: settle every open episode. Afterwards none is open. With none open before, it does nothing;
      otherwise it ends as the loop over the one open episode does, and dies only when it runs out of writes. */
  method RecoverStartupEpisodes(s: RecoverySession, env: nat -> Env) returns (r: Outcome<()>)
    requires s.Inv()
    modifies s, s.shared
    ensures s.Inv() && Reaches(old(s.Now()), s.Now())
    ensures r.Crashed? ==> s.fuel == 0
    ensures r.Done? ==> OpenOps(s.eps) == {}
    ensures s.eps.Keys == old(s.eps.Keys)
    ensures OpenOps(old(s.eps)) == {} ==>
              r == Done(()) && s.Now() == old(s.Now()) && s.shared.lines == old(s.shared.lines) && s.journal == old(s.journal)
    ensures forall op | op in OpenOps(old(s.eps)) ::
              && op in s.eps && s.eps == old(s.eps)[op := s.eps[op]]
              && Settling(r, op, env, old(s.eps[op]), old(s.ref), old(s.shared.lines), old(s.journal), s.eps[op], s.ref, s.shared.lines, s.journal)
    ensures old(s.fuel) > 10 * MAX_PASSES ==> !r.Crashed?
    ensures s.fuel >= old(s.fuel) - 10 * MAX_PASSES
  {
    hide WorldOk, Reaches, Built, Binds, IsAncestor, Fresh, Settling;
    ghost var before := s.Now();
    Stays(before);
    s.ownerAlert := false;
    var open, _ := s.OpenEpisodes();
    if |open| == 1 {
      var op := open[0].operation;
      assert open[0] in open;
      OnlyOpen(before, op);
      var settled, passes, swallowed := SettleEpisode(s, op, env);
      assert forall o | o in OpenOps(before.eps) :: o == op;
      r := settled;
      if r.IsFailure() { return; }
      forall o | o in s.eps ensures s.eps[o].stage.IsClosed() {
        assert o != op ==> o in before.eps && o !in OpenOps(before.eps);
      }
    } else {
      assert forall op | op in OpenOps(before.eps) :: EpisodeId(op) in open;
      r := Done(());
    }
  }
}
