/** The v3 protocol as run by one process holding the mutation barrier. A process may crash before any of its
    durable writes: `fuel` counts the writes it still gets to make, and the next process starts from what is there. */
module RecoverySession {
  import opened Results
  import opened Git
  import opened Cohort
  import opened CohortCommit
  import opened CohortIndex
  import opened Csj
  import opened RecoveryFold
  import opened RecoveryLog
  import opened RefGate
  import opened RecoveryWorld

  datatype Failure =
    | SlotUnclaimed | OperationInvariant | StaleBase | CheckFailed | GateClosed(gate: GateError) | CasFailed
    | IndexFailed(index: ConvergeError) | CohortFailed(cohort: CohortError) | ConcurrentOperation | Liveness

  type Outcome<T> = Ending<T, Failure>

  /** What the protocol cannot control during one call: the history classifier, the caller's checks, a process
      outside the protocol that commits on top of the ref, and the merge conditions that are not modelled. */
  datatype Env = Env(historyAccepted: bool, prePublishOk: bool, preConvergeOk: bool, outside: Option<Commit>,
                     csjOther: bool, certsOther: bool)

  datatype ClaimStatus = Acquired(slot: nat) | Pending(slot: nat) | EpisodeComplete | EpisodeTerminated
  datatype Action = Burned | Ended | AlreadyComplete | Converged
  datatype AbortAfterRefold = AbortedNow | PreparedMeanwhile | CompleteMeanwhile | TerminalMeanwhile
  datatype MoveStatus = MovedRef | AlreadyAtTip
  datatype PublishStatus = Published | AlreadyPublished | RemoteContained | CasConflict

  /** The diagnostic journal's phases that a later start reads. */
  datatype JournalPhase = NoJournal | InProgress | FailedPostCas

  /** The events of one episode, in log order. */
  function EventsFor(log: seq<Event>, episode: EpisodeId): (r: seq<Event>)
    ensures forall e :: e in r <==> e in log && e.episode == episode
  {
    if |log| == 0 then []
    else
      var last := |log| - 1;
      assert log == log[..last] + [log[last]];
      EventsFor(log[..last], episode) + if log[last].episode == episode then [log[last]] else []
  }

  /** The slots an episode's events fold to. */
  function FoldedFor(eps: Episodes, op: Operation): map<int, Slot> {
    if op in eps then SlotsOf(op, eps[op]) else map[]
  }

  function CursorIn(eps: Episodes, op: Operation): Cursor {
    if op in eps then CursorFor(eps[op]) else Cursor(Some(1), None, false, false, None)
  }

  lemma EmptyFolds()
    ensures FoldOk({}) && FoldMap({}) == map[] && CursorOf(map[]) == Cursor(Some(1), None, false, false, None)
  {
    assert Slots({}) == {};
    NoneClaimed(DRAIN_BUDGET);
  }

  lemma {:induction false} NoneClaimed(n: nat)
    ensures LastClaimed(map[], n) == None
  {
    if n > 0 { NoneClaimed(n - 1); }
  }

  function AfterOutside(ref: Commit, outside: Option<Commit>): Commit {
    if outside.Some? && IsAncestor(ref, outside.value) then outside.value else ref
  }

  /** The gate lets the move through. */
  ghost predicate GateOpens(purpose: Purpose, episode: Option<EpisodeId>, eps: Episodes, historyAccepted: bool) {
    && historyAccepted
    && if OpenAllowed(purpose) then episode.Some? && OpenOps(eps) == {episode.value.operation} else OpenOps(eps) == {}
  }

  /** The shared index agrees with the ref on the cohort. */
  ghost predicate IndexAtRef(lines: Index, ref: Commit, body: PreparedBody) {
    forall e | e in body.entries :: Get(lines, e.path) == Line(Get(ref.tree, e.path))
  }

  ghost predicate LinesKept(before: Index, after: Index, body: PreparedBody) {
    forall q | q !in CohortOf(body.entries) :: Get(after, q) == Get(before, q)
  }

  function BodyPaths(body: PreparedBody): (r: seq<Path>)
    ensures |r| == |body.entries| && forall i | 0 <= i < |r| :: r[i] == body.entries[i].path
  {
    seq(|body.entries|, i requires 0 <= i < |body.entries| => body.entries[i].path)
  }

  /** The frozen lines as a map of entries. */
  function FrozenFiles(body: PreparedBody): Files {
    map p | p in body.snapshot && body.snapshot[p].Some? :: body.snapshot[p].value
  }

  /** `verifyCandidateShape`. */
  predicate CandidateShape(b: PreparedBody) {
    b.candidate.parents == [b.frozenCommit] && b.candidate.tree == b.newTree
  }

  class RecoverySession {
    const symbolicRef: string
    const shared: SharedIndex
    var log: seq<Event>
    var ref: Commit
    var journal: JournalPhase
    var fuel: nat
    var ownerAlert: bool
    ghost var eps: Episodes
    ghost var moves: seq<Move>

    constructor (symbolicRef: string, ref: Commit, shared: SharedIndex)
      ensures this.symbolicRef == symbolicRef && this.shared == shared
      ensures Inv() && Now() == World([], ref, map[], []) && fuel == 0 && journal == NoJournal && !ownerAlert
    {
      this.symbolicRef := symbolicRef;
      this.shared := shared;
      this.log, this.ref, this.journal, this.fuel, this.ownerAlert := [], ref, NoJournal, 0, false;
      this.eps, this.moves := map[], [];
    }

    ghost function Now(): World
      reads this
    {
      World(log, ref, eps, moves)
    }

    ghost predicate Inv()
      reads this
    {
      WorldOk(Now())
    }

    /** One durable write is due: false when the process dies first. */
    method Tick() returns (alive: bool)
      modifies `fuel
      ensures alive <==> old(fuel) > 0
      ensures fuel == if alive then old(fuel) - 1 else 0
    {
      alive := fuel > 0;
      if alive { fuel := fuel - 1; }
    }

    /** Write the diagnostic journal. */
    method WriteJournal(phase: JournalPhase) returns (r: Outcome<()>)
      modifies `journal, `fuel
      ensures r.Done? ==> journal == phase
      ensures !r.Done? ==> r.Crashed? && fuel == 0
      ensures fuel >= old(fuel) - 1
    {
      var alive := Tick();
      if !alive { return Crashed; }
      journal := phase;
      r := Done(());
    }

    /** `appendRecoveryEventV3`: under the barrier the event of a step is always new. */
    method Append(op: Operation, slot: nat, payload: Payload, ghost after: Episode) returns (r: Outcome<()>)
      requires Inv() && Advances(op, Current(eps, op), after, payload) && slot == after.slot
      modifies `log, `eps, `fuel
      ensures Make(op, slot, payload) !in old(log)
      ensures r.Done? ==> Now() == Recorded(old(Now()), op, after, payload)
      ensures !r.Done? ==> r.Crashed? && fuel == 0 && Now() == old(Now())
      ensures !r.Done? || MayRecord(old(ref), old(eps), op, after, payload) ==> Inv() && Reaches(old(Now()), Now())
      ensures fuel >= old(fuel) - 1
    {
      hide WorldOk, Reaches, MayRecord, Advances;
      ghost var w := Now();
      StepIsNew(w, op, after, payload);
      Stays(w);
      if MayRecord(ref, eps, op, after, payload) { RecordKeepsWorld(w, op, after, payload); }
      var alive := Tick();
      if !alive {
        assert Now() == w;
        return Crashed;
      }
      log := log + [Make(op, slot, payload)];
      eps := eps[op := after];
      assert Now() == Recorded(w, op, after, payload);
      r := Done(());
    }

    /** Reading back an episode never fails. */
    method ReadFold(op: Operation) returns (folded: map<int, Slot>)
      requires Inv()
      ensures folded == FoldedFor(eps, op)
      ensures CursorOf(folded) == CursorIn(eps, op)
    {
      var events := EventsFor(log, EpisodeId(op));
      assert Members(events) == EventsOf(log, op);
      var r := FoldRecoveryEventsV3(events);
      if op in eps {
        ShapeFolds(EventsOf(log, op), op, eps[op]);
        CursorOfSlots(op, eps[op]);
      } else {
        assert EventsOf(log, op) == {};
        EmptyFolds();
      }
      assert r.Ok?;
      folded := r.value;
    }

    /** The open and the terminal episodes; none is ever quarantined. */
    method OpenEpisodes() returns (open: seq<EpisodeId>, ended: seq<EpisodeId>)
      requires Inv()
      ensures forall id :: id in open <==> id.operation in OpenOps(eps)
      ensures forall id :: id in ended <==> id.operation in eps && eps[id.operation].stage.STerminal?
      ensures |open| <= 1
    {
      hide Reaches, Built, Binds, PublishedOk, MovesOk, FoldedFor;
      open, ended := [], [];
      var seen: set<EpisodeId> := {};
      for i := 0 to |log|
        invariant forall id :: id in seen <==> exists j | 0 <= j < i :: log[j].episode == id
        invariant forall id :: id in open <==> id in seen && id.operation in OpenOps(eps)
        invariant forall id :: id in ended <==> id in seen && id.operation in eps && eps[id.operation].stage.STerminal?
        invariant |open| <= 1 && (open != [] ==> open[0] in seen && open[0].operation in OpenOps(eps))
      {
        var id := log[i].episode;
        if id !in seen {
          seen := seen + {id};
          assert log[i] in log && id.operation in eps;
          var folded := ReadFold(id.operation);
          var cursor := CursorOf(folded);
          if cursor.terminal { ended := ended + [id]; } else if !cursor.complete { open := open + [id]; }
        }
      }
      forall op | op in eps ensures EpisodeId(op) in seen { FirstClaimInLog(Now(), op); }
    }

    /** A process that does not know the protocol commits on top of the ref. */
    method Outside(commit: Option<Commit>)
      requires Inv()
      modifies `ref, `moves
      ensures Inv() && Reaches(old(Now()), Now())
      ensures ref == AfterOutside(old(ref), commit)
    {
      hide WorldOk, Reaches;
      ghost var w := Now();
      Stays(w);
      if commit.Some? && IsAncestor(ref, commit.value) {
        ghost var m := Move(None, None, {});
        MoveKeepsWorld(w, commit.value, m);
        ref, moves := commit.value, moves + [m];
        assert Now() == Moved(w, commit.value, m);
      }
    }

    /** The successful compare-and-set. */
    method CompareAndSet(purpose: Purpose, episode: Option<EpisodeId>, newTip: Commit)
      requires Inv() && GateOpens(purpose, episode, eps, true)
      modifies `ref, `moves
      ensures ref == newTip && moves == old(moves) + [Move(Some(purpose), episode, OpenOps(eps))]
      ensures MayMove(old(Now()), purpose, episode, old(ref), newTip) ==> Inv() && Reaches(old(Now()), Now())
    {
      hide WorldOk, Reaches;
      ghost var w := Now();
      ghost var m := Move(Some(purpose), episode, OpenOps(eps));
      if MayMove(w, purpose, episode, ref, newTip) { MoveKeepsWorld(w, newTip, m); }
      ref, moves := newTip, moves + [m];
      assert Now() == Moved(w, newTip, m);
    }

    /** `canonicalRefMovePrimitive`: the gate, then a compare-and-set. Someone outside may commit in between. */
    method RefMove(purpose: Purpose, episode: Option<EpisodeId>, expectedTip: Commit, newTip: Commit, env: Env)
      returns (r: Outcome<MoveStatus>)
      requires Inv()
      modifies `ref, `moves, `fuel
      ensures r != Done(MovedRef) || MayMove(old(Now()), purpose, episode, expectedTip, newTip) ==> Inv() && Reaches(old(Now()), Now())
      ensures r.Threw? && r.failure.GateClosed? <==> !GateOpens(purpose, episode, eps, env.historyAccepted)
      ensures r.Threw? && r.failure.GateClosed? ==> Now() == old(Now())
      ensures var tip := AfterOutside(old(ref), env.outside);
              GateOpens(purpose, episode, eps, env.historyAccepted) ==>
                if r.Crashed? then ref == tip && fuel == 0
                else if tip == expectedTip then r == Done(MovedRef) && ref == newTip
                else ref == tip && r == if tip == newTip then Done(AlreadyAtTip) else Threw(CasFailed)
      ensures fuel >= old(fuel) - 1
    {
      var open, _ := OpenEpisodes();
      GateIs(purpose, episode, open, eps, env.historyAccepted);
      var gate := EvaluateGate(purpose, episode, open, 0, env.historyAccepted);
      if gate.Some? {
        Stays(Now());
        return Threw(GateClosed(gate.value));
      }
      Outside(env.outside);
      ghost var between := Now();
      var alive := Tick();
      if !alive { return Crashed; }
      if ref != expectedTip {
        return if ref == newTip then Done(AlreadyAtTip) else Threw(CasFailed);
      }
      CompareAndSet(purpose, episode, newTip);
      if MayMove(old(Now()), purpose, episode, expectedTip, newTip) { ReachesTransitive(old(Now()), between, Now()); }
      r := Done(MovedRef);
    }

    /** `publishExactCohortCommit` for recovery, with what it makes of a refused move. */
    method Publish(op: Operation, candidate: Commit, env: Env) returns (r: Outcome<PublishStatus>)
      requires Inv()
      modifies `ref, `moves, `fuel
      ensures IsAncestor(op.base, candidate) ==> Inv() && Reaches(old(Now()), Now())
      ensures r.Crashed? ==> fuel == 0
      ensures r.Done? ==> (r.value == CasConflict <==> !IsAncestor(candidate, ref))
      ensures r.Threw? ==> !IsAncestor(candidate, ref) && r.failure.GateClosed? && ref == old(ref) == op.base
      ensures old(ref) == op.base && env.outside.None? && GateOpens(RecoverV3, Some(EpisodeId(op)), eps, env.historyAccepted) ==>
                r.Crashed? || (r == Done(Published) && ref == candidate)
      ensures fuel >= old(fuel) - 1
    {
      var moved := RefMove(RecoverV3, Some(EpisodeId(op)), op.base, candidate, env);
      match moved
      case Crashed => return Crashed;
      case Done(_) =>
        assert IsAncestor(candidate, candidate);
        return Done(Published);
      case Threw(failure) =>
        if ref == candidate { return Done(AlreadyPublished); }
        if IsAncestor(candidate, ref) { return Done(RemoteContained); }
        if ref != op.base { return Done(CasConflict); }
        r := Threw(failure);
    }

    /** `claimNextRecoverySlotV3`. */
    method ClaimNextRecoverySlotV3(op: Operation) returns (r: Outcome<ClaimStatus>)
      requires Inv()
      modifies `log, `eps, `fuel
      ensures op in old(eps) || OpenOps(old(eps)) == {} || !r.Done? ==> Inv() && Reaches(old(Now()), Now())
      ensures !r.Threw?
      ensures r.Crashed? ==> fuel == 0 && Now() == old(Now())
      ensures r.Done? ==> op in eps
      ensures op in old(eps) ==> op in eps && eps == old(eps)[op := eps[op]]
      ensures r.Done? && (r.value.Pending? || r.value.EpisodeComplete?) ==> Now() == old(Now())
      ensures r.Done? ==> match r.value
        case EpisodeComplete => eps[op].stage.SConverged?
        case EpisodeTerminated => eps[op].stage.STerminal?
                                  && (Now() == old(Now()) || (op in old(eps) && old(eps[op]) == Episode(DRAIN_BUDGET, SAborted)))
        case Pending(n) => n == eps[op].slot && (eps[op].stage.SClaimed? || OpenBodyStage(eps[op].stage))
        case Acquired(n) =>
          && n == (if op in old(eps) then old(eps[op]).slot + 1 else 1)
          && (op in old(eps) ==> old(eps[op]).stage.SAborted?)
          && eps == old(eps)[op := Episode(n, SClaimed)]
      ensures fuel >= old(fuel) - 1
    {
      hide WorldOk, Reaches, Built, Binds;
      if op in eps { EpisodeSound(Now(), op); }
      var folded := ReadFold(op);
      var cursor := CursorOf(folded);
      Stays(Now());
      if cursor.complete { return Done(EpisodeComplete); }
      if cursor.terminal { return Done(EpisodeTerminated); }
      if cursor.pendingSlot.Some? { return Done(Pending(cursor.pendingSlot.value)); }
      if cursor.nextSlot.None? {
        var _ :- EnsureTerminal(op);
        return Done(EpisodeTerminated);
      }
      var slot := cursor.nextSlot.value;
      var _ :- Append(op, slot, ClaimOf(op, slot), Episode(slot, SClaimed));
      r := Done(Acquired(slot));
    }

    /** `ensureTerminalV3` after an abort in the last budgeted slot. */
    method EnsureTerminal(op: Operation) returns (r: Outcome<()>)
      requires Inv() && op in eps && eps[op] == Episode(DRAIN_BUDGET, SAborted)
      modifies `log, `eps, `fuel
      ensures Inv() && Reaches(old(Now()), Now())
      ensures r.Done? ==> eps == old(eps)[op := Episode(DRAIN_BUDGET, STerminal)]
      ensures !r.Done? ==> r.Crashed? && fuel == 0 && Now() == old(Now())
      ensures fuel >= old(fuel) - 1
    {
      r := Append(op, DRAIN_BUDGET, TERMINAL, Episode(DRAIN_BUDGET, STerminal));
    }

    /** `recordDrainPreparedV3`: refuses a commit that is not the operation's. */
    method RecordDrainPreparedV3(op: Operation, slot: nat, prepared: Prepared, snapshot: map<Path, Option<Entry>>) returns (r: Outcome<()>)
      requires Inv() && op in eps && eps[op] == Episode(slot, SClaimed)
      modifies `log, `eps, `fuel
      ensures !r.Done? || PreparedForSlot(BodyFor(op, prepared, snapshot), op) ==> Inv() && Reaches(old(Now()), Now())
      ensures r.Threw? <==> !MatchesOperation(op, prepared, snapshot)
      ensures r.Done? ==> eps == old(eps)[op := Episode(slot, SPrepared(BodyFor(op, prepared, snapshot)))]
      ensures !r.Done? ==> Now() == old(Now())
      ensures r.Crashed? ==> fuel == 0
      ensures fuel >= old(fuel) - 1
    {
      hide WorldOk, Reaches, Built, Decodes, SnapshotRootOf;
      EpisodeSound(Now(), op);
      if !MatchesOperation(op, prepared, snapshot) {
        Stays(Now());
        return Threw(OperationInvariant);
      }
      var body := BodyFor(op, prepared, snapshot);
      r := Append(op, slot, CommitPrepared(body), Episode(slot, SPrepared(body)));
    }

    /** `abortRecoverySlotV3AfterRefold`. */
    method AbortRecoverySlotV3AfterRefold(op: Operation, slot: int) returns (r: Outcome<AbortAfterRefold>)
      requires Inv()
      modifies `log, `eps, `fuel
      ensures Inv() && Reaches(old(Now()), Now())
      ensures r.Threw? <==> !(op in old(eps) && 1 <= slot <= old(eps[op]).slot)
      ensures r.Threw? ==> r.failure == SlotUnclaimed && Now() == old(Now())
      ensures r.Crashed? ==> fuel == 0
      ensures !r.Threw? ==> op in eps && eps == old(eps)[op := eps[op]]
      ensures r.Crashed? && eps[op] != old(eps[op]) ==> slot == DRAIN_BUDGET && eps[op] == Episode(slot, SAborted)
      ensures r.Done? ==>
        var ep := old(eps[op]);
        if slot < ep.slot then r.value == AbortedNow && eps == old(eps)
        else if ep.stage.SConverged? then r.value == CompleteMeanwhile && eps == old(eps)
        else if ep.stage.STerminal? then r.value == TerminalMeanwhile && eps == old(eps)
        else if ep.stage.HasBody() then r.value == PreparedMeanwhile && eps == old(eps)
        else r.value == AbortedNow && eps == old(eps)[op := Episode(slot, if slot == DRAIN_BUDGET then STerminal else SAborted)]
      ensures fuel >= old(fuel) - 2
    {
      hide WorldOk, Reaches, Built, Binds, CursorIn;
      if op in eps { EpisodeSound(Now(), op); }
      var folded := ReadFold(op);
      Stays(Now());
      if slot !in folded { return Threw(SlotUnclaimed); }
      var state := folded[slot];
      SlotFields(op, eps[op], slot);
      if state.converged.Some? { return Done(CompleteMeanwhile); }
      if state.terminal.Some? { return Done(TerminalMeanwhile); }
      if state.prepared.Some? { return Done(PreparedMeanwhile); }
      ghost var before := Now();
      if state.aborted.None? {
        var _ :- Append(op, slot, ABORT, Episode(slot, SAborted));
      }
      ghost var between := Now();
      if slot == DRAIN_BUDGET {
        var ended := EnsureTerminal(op);
        ReachesTransitive(before, between, Now());
        var _ :- ended;
      }
      r := Done(AbortedNow);
    }

    /** Bring the candidate into the ref's history, or find it there. */
    method ReachRef(op: Operation, b: PreparedBody, env: Env) returns (r: Outcome<()>)
      requires Inv() && op in eps && eps[op].stage == SPrepared(b)
      modifies `fuel, `ref, `moves
      ensures Inv() && Reaches(old(Now()), Now())
      ensures r.Crashed? ==> fuel == 0
      ensures r.Done? ==> IsAncestor(b.candidate, ref)
      ensures r.Threw? ==> !IsAncestor(b.candidate, ref) && (r.failure == StaleBase || (ref == op.base && (r.failure == CheckFailed || r.failure.GateClosed?)))
      ensures Calm(env) && (old(ref) == op.base || IsAncestor(b.candidate, old(ref))) ==> !r.Threw?
      ensures Calm(env) && old(ref) == op.base && r.Done? ==> ref == b.candidate
      ensures old(ref) != op.base ==> ref == old(ref) && moves == old(moves)
      ensures !env.prePublishOk && old(ref) == op.base ==> r == Threw(CheckFailed) && Now() == old(Now())
      ensures fuel >= old(fuel) - 1
    {
      hide WorldOk, Reaches, Built, Binds;
      EpisodeSound(Now(), op);
      BuiltOnBase(op, b);
      OnlyOpen(Now(), op);
      Stays(Now());
      if ref == op.base {
        if !env.prePublishOk {
          NotInOwnBase(op, b);
          return Threw(CheckFailed);
        }
        var status :- Publish(op, b.candidate, env);
        if status == CasConflict { return Threw(StaleBase); }
      } else if !IsAncestor(b.candidate, ref) {
        return Threw(StaleBase);
      }
      r := Done(());
    }

    /** The publication half of recovery: from prepared to published. */
    method EnsurePublished(op: Operation, slot: nat, b: PreparedBody, env: Env) returns (r: Outcome<()>)
      requires Inv() && op in eps && eps[op] == Episode(slot, SPrepared(b))
      modifies `log, `eps, `fuel, `ref, `moves
      ensures Inv() && Reaches(old(Now()), Now())
      ensures eps == old(eps)[op := eps[op]]
      ensures r.Crashed? ==> fuel == 0
      ensures eps[op] == Episode(slot, if r.Done? then SPublished(b) else SPrepared(b))
      ensures r.Done? ==> IsAncestor(b.candidate, ref)
      ensures r.Threw? ==> !IsAncestor(b.candidate, ref) && (r.failure == StaleBase || (ref == op.base && (r.failure == CheckFailed || r.failure.GateClosed?)))
      ensures Calm(env) && (old(ref) == op.base || IsAncestor(b.candidate, old(ref))) ==> !r.Threw?
      ensures Calm(env) && old(ref) == op.base && r.Done? ==> ref == b.candidate
      ensures old(ref) != op.base ==> ref == old(ref) && moves == old(moves)
      ensures !env.prePublishOk && old(ref) == op.base ==> r == Threw(CheckFailed) && Now() == old(Now())
      ensures fuel >= old(fuel) - 2
    {
      hide WorldOk, Reaches, Built, Binds;
      ghost var before := Now();
      var _ :- ReachRef(op, b, env);
      EpisodeSound(Now(), op);
      ghost var between := Now();
      r := Append(op, slot, CommitPublished(b.candidate, true), Episode(slot, SPublished(b)));
      ReachesTransitive(before, between, Now());
    }

    /** The index half: from published to converged. The batch of index records is a durable write of its own: a
        process that dies here leaves the index as it was, or at the ref without the event that says so. */
    method EnsureConverged(op: Operation, slot: nat, b: PreparedBody, env: Env) returns (r: Outcome<()>)
      requires Inv() && op in eps && eps[op] == Episode(slot, SPublished(b))
      modifies `log, `eps, `fuel, shared
      ensures Inv() && Reaches(old(Now()), Now())
      ensures eps == old(eps)[op := eps[op]]
      ensures r.Crashed? ==> fuel == 0
      ensures r.Crashed? ==> shared.lines == old(shared.lines) || (IndexAtRef(shared.lines, ref, b) && LinesKept(old(shared.lines), shared.lines, b))
      ensures eps[op] == Episode(slot, if r.Done? then SConverged(b) else SPublished(b))
      ensures r.Done? ==> IndexAtRef(shared.lines, ref, b) && LinesKept(old(shared.lines), shared.lines, b)
      ensures r.Threw? ==> r.failure == CheckFailed || r.failure.IndexFailed?
      ensures r.Threw? && r.failure == CheckFailed ==> !env.preConvergeOk && shared.lines == old(shared.lines)
      ensures !r.Crashed? ==> (r.Threw? && r.failure.IndexFailed? <==> env.preConvergeOk && !IndexCanFollow(old(shared.lines), ref, b))
      ensures !env.preConvergeOk ==> r == Threw(CheckFailed) && Now() == old(Now())
      ensures fuel >= old(fuel) - 2
    {
      hide WorldOk, Reaches, Built, Binds;
      Stays(Now());
      EpisodeSound(Now(), op);
      if !env.preConvergeOk { return Threw(CheckFailed); }
      var alive := Tick();
      if !alive { return Crashed; }
      var converged := shared.ConvergeExactCohortIndex(ref.tree, BodyPaths(b), FrozenFiles(b));
      if converged.Err? { return Threw(IndexFailed(converged.error)); }
      ConvergedMeans(old(shared.lines), shared.lines, ref, b);
      r := Append(op, slot, IndexConverged(b.candidate), Episode(slot, SConverged(b)));
    }

    /** `recoverDrainSlotV3`. */
    method RecoverDrainSlotV3(op: Operation, slot: int, env: Env) returns (r: Outcome<Action>)
      requires Inv()
      modifies `log, `eps, `fuel, `ref, `moves, shared
      ensures Inv() && Reaches(old(Now()), Now())
      ensures r == Threw(SlotUnclaimed) <==> !(op in old(eps) && 1 <= slot <= old(eps[op]).slot)
      ensures r == Threw(SlotUnclaimed) ==> Now() == old(Now()) && shared.lines == old(shared.lines)
      ensures r.Crashed? ==> fuel == 0
      ensures op in old(eps) ==> op in eps && eps == old(eps)[op := eps[op]]
      ensures op in old(eps) && 1 <= slot < old(eps[op]).slot ==> r == Done(Burned) && Now() == old(Now())
      ensures op in old(eps) && slot == old(eps[op]).slot ==>
                match old(eps[op]).stage
                case STerminal => r == Done(Ended) && Now() == old(Now())
                case SConverged(_) => r == Done(AlreadyComplete) && Now() == old(Now())
                case SAborted => BurnedSlot(r, slot, eps[op])
                case SClaimed => BurnedSlot(r, slot, eps[op])
                case SPrepared(b) => Recovered(op, slot, b, env, r, ref, eps[op], old(shared.lines), shared.lines)
                case SPublished(b) => Recovered(op, slot, b, env, r, ref, eps[op], old(shared.lines), shared.lines) && eps[op].stage != SPrepared(b)
      ensures op in old(eps) && slot == old(eps[op]).slot && old(eps[op]).stage.HasBody() && Calm(env)
              && (old(eps[op]).stage.SPublished? || old(ref) == op.base || IsAncestor(old(eps[op]).stage.body.candidate, old(ref))) ==>
                r.Threw? ==> r.failure.IndexFailed?
      ensures op in old(eps) && slot == old(eps[op]).slot && old(eps[op]).stage.SPrepared? && Calm(env) && old(ref) == op.base && r.Done? ==>
                ref == old(eps[op]).stage.body.candidate
      ensures op in old(eps) && slot == old(eps[op]).slot ==> Exactly(op, old(eps[op]), old(Now()), old(shared.lines), env, r)
      ensures ref != old(ref) || moves != old(moves) ==> op in old(eps) && old(eps[op]).stage.SPrepared? && old(ref) == op.base
      ensures shared.lines != old(shared.lines) ==> op in old(eps) && (old(eps[op]).stage.SPrepared? || old(eps[op]).stage.SPublished?)
      ensures fuel >= old(fuel) - 4
    {
      hide WorldOk, Reaches, Recovered, Built, Binds, IndexCanFollow, RefAfter;
      if op in eps { EpisodeSound(Now(), op); }
      var folded := ReadFold(op);
      Stays(Now());
      if slot !in folded { return Threw(SlotUnclaimed); }
      var state := folded[slot];
      SlotFields(op, eps[op], slot);
      if state.terminal.Some? { return Done(Ended); }
      if state.converged.Some? { return Done(AlreadyComplete); }
      if state.aborted.Some? {
        if slot != DRAIN_BUDGET { return Done(Burned); }
        var _ :- EnsureTerminal(op);
        return Done(Ended);
      }
      if state.prepared.None? {
        var aborted :- AbortRecoverySlotV3AfterRefold(op, slot);
        assert aborted == AbortedNow;
        return Done(if slot == DRAIN_BUDGET then Ended else Burned);
      }
      var b := state.prepared.value.payload.body;
      BuiltOnBase(op, b);
      assert CandidateShape(b);
      r := RecoverPrepared(op, slot, b, state.published.Some?, env);
    }

    /** When recovering a slot with a commit converges: exactly when the index can follow the ref, once the candidate is
        there. A check that fails leaves everything as it was. */
    ghost predicate Exactly(op: Operation, ep: Episode, before: World, lines: Index, env: Env, r: Outcome<Action>)
      reads this, shared
    {
      && (Reachable(op, ep, before.ref, env) && env.preConvergeOk && !r.Crashed? ==>
            && ref == RefAfter(op, ep, before.ref)
            && (r == Done(Converged) <==> IndexCanFollow(lines, ref, ep.stage.body)))
      && (ep.stage.SPrepared? && !env.prePublishOk && before.ref == op.base ==>
            r == Threw(CheckFailed) && Now() == before && shared.lines == lines)
      && (ep.stage.SPublished? && !env.preConvergeOk ==> r == Threw(CheckFailed) && Now() == before && shared.lines == lines)
    }

    /** Recovery of a prepared slot: publish when that is not recorded yet, then converge the index. */
    method RecoverPrepared(op: Operation, slot: nat, b: PreparedBody, published: bool, env: Env) returns (r: Outcome<Action>)
      requires Inv() && op in eps && eps[op] == Episode(slot, if published then SPublished(b) else SPrepared(b))
      modifies `log, `eps, `fuel, `ref, `moves, shared
      ensures Inv() && Reaches(old(Now()), Now())
      ensures r.Crashed? ==> fuel == 0
      ensures op in eps && eps == old(eps)[op := eps[op]]
      ensures Recovered(op, slot, b, env, r, ref, eps[op], old(shared.lines), shared.lines)
      ensures published ==> eps[op].stage != SPrepared(b)
      ensures r != Threw(SlotUnclaimed)
      ensures Calm(env) && !published && old(ref) == op.base && r.Done? ==> ref == b.candidate
      ensures Calm(env) && (published || old(ref) == op.base || IsAncestor(b.candidate, old(ref))) && r.Threw? ==> r.failure.IndexFailed?
      ensures ref != old(ref) || moves != old(moves) ==> !published && old(ref) == op.base
      ensures Exactly(op, old(eps[op]), old(Now()), old(shared.lines), env, r)
      ensures fuel >= old(fuel) - 4
    {
      hide WorldOk, Reaches, Built, Binds, IndexCanFollow, IndexAtRef, LinesKept;
      EpisodeSound(Now(), op);
      ghost var before := Now();
      Stays(before);
      if !published {
        var _ :- EnsurePublished(op, slot, b, env);
      } else {
        // The published-diverged check cannot fail.
        assert IsAncestor(b.candidate, ref);
      }
      ghost var between := Now();
      var converged := EnsureConverged(op, slot, b, env);
      ReachesTransitive(before, between, Now());
      var _ :- converged;
      r := Done(Converged);
    }
  }

  /** No check of the caller fails, the history is accepted, and nobody outside commits. */
  predicate Calm(env: Env) {
    env.historyAccepted && env.prePublishOk && env.preConvergeOk && env.outside.None?
  }

  /** The candidate is in the history of the ref, or can be published without anybody interfering. */
  ghost predicate Reachable(op: Operation, ep: Episode, ref: Commit, env: Env) {
    ep.stage.SPublished? || (ep.stage.SPrepared? && (if ref == op.base then Calm(env) else IsAncestor(ep.stage.body.candidate, ref)))
  }

  /** Where the ref then is: at the candidate, or where it was. */
  function RefAfter(op: Operation, ep: Episode, ref: Commit): Commit {
    if ep.stage.SPrepared? && ref == op.base then ep.stage.body.candidate else ref
  }

  ghost predicate IndexCanFollow(lines: Index, ref: Commit, b: PreparedBody) {
    Ready(lines, ref.tree, FrozenFiles(b), BodyPaths(b)) && Unobstructed(lines, ref.tree, BodyPaths(b))
  }

  /** An unprepared slot is given up; the last one ends the episode. A crash may leave the first half. */
  predicate BurnedSlot(r: Outcome<Action>, slot: int, after: Episode) {
    && after.slot == slot
    && (r.Crashed? || r == Done(if slot == DRAIN_BUDGET then Ended else Burned))
    && (r.Done? ==> after.stage == if slot == DRAIN_BUDGET then STerminal else SAborted)
    && (r.Crashed? ==> after.stage.SClaimed? || (after.stage.SAborted? && slot == DRAIN_BUDGET))
  }

  /** How recovering a prepared or published slot can end. The published-diverged and candidate-invalid
      failures are not among the possibilities. */
  ghost predicate Recovered(op: Operation, slot: int, b: PreparedBody, env: Env, r: Outcome<Action>, ref: Commit, after: Episode,
                            linesBefore: Index, lines: Index)
  {
    && after.slot == slot
    && (after.stage.SPrepared? || after.stage.SPublished? || after.stage.SConverged?) && after.stage.body == b
    && (r.Done? <==> after.stage.SConverged?)
    && (r.Done? ==> r.value == Converged && IsAncestor(b.candidate, ref)
                    && IndexAtRef(lines, ref, b) && LinesKept(linesBefore, lines, b))
    && (r.Threw? && after.stage.SPrepared? ==>
          && !IsAncestor(b.candidate, ref)
          && (r.failure == StaleBase || (ref == op.base && (r.failure == CheckFailed || r.failure.GateClosed?))))
    && (r.Threw? && after.stage.SPublished? ==>
          || (r.failure == CheckFailed && !env.preConvergeOk)
          || (r.failure.IndexFailed? && env.preConvergeOk && !IndexCanFollow(linesBefore, ref, b)))
  }

  lemma BuiltOnBase(op: Operation, b: PreparedBody)
    requires Binds(b, op) && Built(b)
    ensures CandidateShape(b) && IsAncestor(op.base, b.candidate)
  {
    ParentIsAncestor(b.candidate, 0);
  }

  /** A commit is not in the history of its own parent. */
  lemma NotInOwnBase(op: Operation, b: PreparedBody)
    requires Binds(b, op) && Built(b)
    ensures !IsAncestor(b.candidate, op.base)
  {
    NoCycle(b.candidate, op.base);
  }

  lemma OnlyOpen(w: World, op: Operation)
    requires WorldOk(w) && op in w.eps && !w.eps[op].stage.IsClosed()
    ensures OpenOps(w.eps) == {op}
  {
    assert op in OpenOps(w.eps);
  }

  lemma ConvergedMeans(before: Index, after: Index, ref: Commit, b: PreparedBody)
    requires BatchApplied(before, after, ref.tree, BodyPaths(b))
    requires forall q | q !in BodyPaths(b) :: Get(after, q) == Get(before, q)
    ensures IndexAtRef(after, ref, b) && LinesKept(before, after, b)
  {}

  predicate OpenBodyStage(stage: Stage) { stage.SPrepared? || stage.SPublished? }

  /** `preparedBody`. */
  function BodyFor(op: Operation, prepared: Prepared, snapshot: map<Path, Option<Entry>>): PreparedBody {
    PreparedBody(op.symbolicRef, prepared.frozen, prepared.newTree, prepared.candidate, prepared.root, prepared.entries, snapshot)
  }

  predicate MatchesOperation(op: Operation, prepared: Prepared, snapshot: map<Path, Option<Entry>>) {
    && prepared.frozen == op.base && prepared.root == op.cohortRoot
    && SnapshotRootOf(prepared.entries, snapshot) == op.snapshotRoot
  }

  /** A body built by the exact-cohort commit, in a form its event can be decoded from. */
  ghost predicate PreparedForSlot(body: PreparedBody, op: Operation) {
    Built(body) && Decodes(body, op.symbolicRef)
  }

  lemma EpisodeSound(w: World, op: Operation)
    requires WorldOk(w) && op in w.eps
    ensures EpisodeOk(op, w.eps[op])
    ensures w.eps[op].stage.HasBody() ==> Built(w.eps[op].stage.body)
    ensures w.eps[op].stage.SPublished? || w.eps[op].stage.SConverged? ==> IsAncestor(w.eps[op].stage.body.candidate, w.ref)
  {}

  lemma FirstClaimInLog(w: World, op: Operation)
    requires WorldOk(w) && op in w.eps
    ensures exists i :: 0 <= i < |w.log| && w.log[i].episode == EpisodeId(op)
  {
    var e := Make(op, 1, ClaimOf(op, 1));
    assert InLog(op, w.eps[op], e);
    assert e in EventsOf(w.log, op);
  }

  lemma GateIs(purpose: Purpose, episode: Option<EpisodeId>, open: seq<EpisodeId>, eps: Episodes, historyAccepted: bool)
    requires forall id :: id in open <==> id.operation in OpenOps(eps)
    requires |open| <= 1
    ensures EvaluateGate(purpose, episode, open, 0, historyAccepted).None? <==> GateOpens(purpose, episode, eps, historyAccepted)
  {
    GatePasses(purpose, episode, open, 0, historyAccepted);
    forall op ensures op in OpenOps(eps) <==> EpisodeId(op) in open {}
    if |open| == 1 { assert OpenOps(eps) == {open[0].operation}; }
  }
}
