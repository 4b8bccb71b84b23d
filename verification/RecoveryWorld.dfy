/** The invariant of the recovery protocol over its durable state: event log, ref, and the trace of ref moves. */
module RecoveryWorld {
  import opened Order
  import opened Results
  import opened Git
  import opened Cohort
  import opened CohortCommit
  import opened Csj
  import opened RecoveryFold
  import opened RecoveryLog
  import opened RefGate

  type Episodes = map<Operation, Episode>

  /** One change of the ref: by the primitive for a purpose and episode, or by someone outside it. */
  datatype Move = Move(purpose: Option<Purpose>, episode: Option<EpisodeId>, open: set<Operation>)

  ghost function EventsOf(log: seq<Event>, op: Operation): set<Event> {
    set e | e in log && e.episode == EpisodeId(op)
  }

  /** The body of a prepared event was built by the exact-cohort commit. */
  ghost predicate Built(b: PreparedBody) {
    exists plan :: BuiltFrom(b, plan)
  }

  ghost predicate BuiltFrom(b: PreparedBody, plan: seq<PlanEntry>) {
    && Committable(b.frozenCommit.tree, plan)
    && Overlays(b.newTree, b.frozenCommit.tree, plan)
    && b.candidate == Commit([b.frozenCommit], b.newTree, DRAIN_MESSAGE)
    && b.entries == PreparedAll(SortBy(PlanLe, plan), true)
  }

  ghost predicate LogOk(log: seq<Event>, eps: Episodes) {
    && (forall e | e in log :: e.episode.operation in eps)
    && (forall op | op in eps :: Shape(EventsOf(log, op), op, eps[op]) && EpisodeOk(op, eps[op])
                                 && (eps[op].stage.HasBody() ==> Built(eps[op].stage.body)))
  }

  /** A published candidate is in the history of the ref. */
  ghost predicate PublishedOk(eps: Episodes, ref: Commit) {
    forall op | op in eps && (eps[op].stage.SPublished? || eps[op].stage.SConverged?) ::
      IsAncestor(eps[op].stage.body.candidate, ref)
  }

  ghost function OpenOps(eps: Episodes): set<Operation> {
    set op | op in eps && !eps[op].stage.IsClosed()
  }

  ghost predicate OneOpen(eps: Episodes) {
    forall a, b | a in OpenOps(eps) && b in OpenOps(eps) :: a == b
  }

  predicate IsCsj(m: Move, op: Operation) {
    m.purpose == Some(CsjV1) && m.episode == Some(EpisodeId(op))
  }

  /** Each episode has at most one merge move, and that move put its candidate into the ref's history. */
  ghost predicate MovesOk(moves: seq<Move>, eps: Episodes, ref: Commit) {
    && (forall i | 0 <= i < |moves| && moves[i].purpose == Some(CsjV1) ::
          && moves[i].episode.Some? && moves[i].episode.value.operation in eps
          && var st := eps[moves[i].episode.value.operation].stage; st.HasBody() && IsAncestor(st.body.candidate, ref))
    && (forall i, j | 0 <= i < j < |moves| && moves[i].purpose == Some(CsjV1) && moves[j].purpose == Some(CsjV1) ::
          moves[i].episode != moves[j].episode)
    && (forall i | 0 <= i < |moves| :: Gated(moves[i]))
  }

  /** While an episode is open, the primitive moved the ref only for a recovery purpose naming that episode. */
  predicate Gated(m: Move) {
    m.purpose.Some? ==> forall op | op in m.open :: OpenAllowed(m.purpose.value) && m.episode == Some(EpisodeId(op))
  }

  /** The durable state, with the stage every episode has reached and the moves made so far. */
  datatype World = World(log: seq<Event>, ref: Commit, eps: Episodes, moves: seq<Move>)

  ghost predicate WorldOk(w: World) {
    LogOk(w.log, w.eps) && PublishedOk(w.eps, w.ref) && OneOpen(w.eps) && MovesOk(w.moves, w.eps, w.ref)
  }

  /** What every run keeps: the log and the moves only grow, the ref goes to descendants, no episode is lost
      or goes back, and a closed episode is left alone. */
  ghost predicate Reaches(v: World, w: World) {
    && v.log <= w.log && v.moves <= w.moves && IsAncestor(v.ref, w.ref)
    && (forall op | op in v.eps :: op in w.eps && Forward(v.eps[op], w.eps[op]))
    && (forall i | |v.log| <= i < |w.log| :: !ClosedIn(v.eps, w.log[i].episode.operation))
  }

  predicate Forward(a: Episode, b: Episode) {
    && Remaining(Some(b)) <= Remaining(Some(a))
    && (a.stage.HasBody() ==> b.stage.HasBody() && b.slot == a.slot && b.stage.body == a.stage.body)
    && (a.stage.IsClosed() ==> b == a)
  }

  predicate ClosedIn(eps: Episodes, op: Operation) {
    op in eps && eps[op].stage.IsClosed()
  }

  lemma Stays(w: World)
    ensures Reaches(w, w)
  {}

  lemma ReachesTransitive(u: World, v: World, w: World)
    requires Reaches(u, v) && Reaches(v, w)
    ensures Reaches(u, w)
  {
    AncestorTransitive(u.ref, v.ref, w.ref);
    forall i | |u.log| <= i < |w.log| ensures !ClosedIn(u.eps, w.log[i].episode.operation) {
      if i < |v.log| { assert w.log[i] == v.log[i]; }
    }
  }

  function Current(eps: Episodes, op: Operation): Option<Episode> {
    if op in eps then Some(eps[op]) else None
  }

  /** The step may be recorded in this world. */
  ghost predicate MayRecord(ref: Commit, eps: Episodes, op: Operation, after: Episode, payload: Payload) {
    && Advances(op, Current(eps, op), after, payload)
    && EpisodeOk(op, after)
    && (op !in eps ==> OpenOps(eps) == {})
    && (after.stage.HasBody() ==> Built(after.stage.body))
    && (after.stage.SPublished? ==> IsAncestor(after.stage.body.candidate, ref))
  }

  lemma OtherEvents(log: seq<Event>, op: Operation, slot: int, payload: Payload, other: Operation)
    ensures EventsOf(log + [Make(op, slot, payload)], other) ==
            if other == op then EventsOf(log, op) + {Make(op, slot, payload)} else EventsOf(log, other)
  {}

  lemma RecordKeepsLog(log: seq<Event>, eps: Episodes, op: Operation, after: Episode, payload: Payload)
    requires LogOk(log, eps) && Advances(op, Current(eps, op), after, payload) && EpisodeOk(op, after)
    requires after.stage.HasBody() ==> Built(after.stage.body)
    ensures LogOk(log + [Make(op, after.slot, payload)], eps[op := after])
  {
    var e := Make(op, after.slot, payload);
    var next := log + [e];
    if op !in eps {
      assert EventsOf(log, op) == {};
    }
    ShapeAdvances(EventsOf(log, op), op, Current(eps, op), after, payload);
    assert e !in EventsOf(log, op) && e.episode == EpisodeId(op);
    forall o | o in eps[op := after] ensures Shape(EventsOf(next, o), o, eps[op := after][o]) {
      OtherEvents(log, op, after.slot, payload, o);
    }
    forall f | f in next ensures f.episode.operation in eps[op := after] {
      assert f in log || f == e;
    }
  }

  function Recorded(w: World, op: Operation, after: Episode, payload: Payload): World {
    w.(log := w.log + [Make(op, after.slot, payload)], eps := w.eps[op := after])
  }

  /** A step's event has not been logged before. */
  lemma StepIsNew(w: World, op: Operation, after: Episode, payload: Payload)
    requires WorldOk(w) && Advances(op, Current(w.eps, op), after, payload)
    ensures Make(op, after.slot, payload) !in w.log
  {
    hide PublishedOk, OneOpen, MovesOk, Built, Advances, Shape;
    var e := Make(op, after.slot, payload);
    if op !in w.eps { assert EventsOf(w.log, op) == {}; }
    ShapeAdvances(EventsOf(w.log, op), op, Current(w.eps, op), after, payload);
    assert e !in EventsOf(w.log, op) && e.episode == EpisodeId(op);
  }

  /** Every step of the protocol keeps the invariant and goes forward. */
  lemma RecordKeepsWorld(w: World, op: Operation, after: Episode, payload: Payload)
    requires WorldOk(w) && MayRecord(w.ref, w.eps, op, after, payload)
    ensures WorldOk(Recorded(w, op, after, payload)) && Reaches(w, Recorded(w, op, after, payload))
  {
    hide LogOk, PublishedOk, MovesOk, IsAncestor, EpisodeOk, Built;
    var next := Recorded(w, op, after, payload);
    EpisodeBounds(w, op);
    RecordKeepsLog(w.log, w.eps, op, after, payload);
    if op in w.eps {
      AdvancesProgress(op, Current(w.eps, op), after, payload);
    }
    assert OneOpen(next.eps) by {
      assert OpenOps(next.eps) <= OpenOps(w.eps) + {op};
      if op in w.eps { assert op in OpenOps(w.eps); }
    }
    assert PublishedOk(next.eps, w.ref) by { RecordKeepsPublished(w, op, after, payload); }
    assert MovesOk(w.moves, next.eps, w.ref) by { RecordKeepsMoves(w.ref, w.eps, w.moves, op, after, payload); }
    SelfAncestor(w.ref);
  }

  lemma EpisodeBounds(w: World, op: Operation)
    requires LogOk(w.log, w.eps)
    ensures op in w.eps ==> EpisodeOk(op, w.eps[op])
  {}

  lemma SelfAncestor(c: Commit)
    ensures IsAncestor(c, c)
  {}

  lemma RecordKeepsPublished(w: World, op: Operation, after: Episode, payload: Payload)
    requires PublishedOk(w.eps, w.ref) && MayRecord(w.ref, w.eps, op, after, payload)
    ensures PublishedOk(w.eps[op := after], w.ref)
  {}

  lemma RecordKeepsMoves(ref: Commit, eps: Episodes, moves: seq<Move>, op: Operation, after: Episode, payload: Payload)
    requires MovesOk(moves, eps, ref) && Advances(op, Current(eps, op), after, payload)
    requires op in eps ==> EpisodeOk(op, eps[op])
    ensures MovesOk(moves, eps[op := after], ref)
  {}

  function Moved(w: World, tip: Commit, m: Move): World {
    w.(ref := tip, moves := w.moves + [m])
  }

  /** A merge move may be added for an episode whose candidate is in the new history but was not in the old. */
  ghost predicate MergeMay(w: World, tip: Commit, m: Move) {
    m.purpose == Some(CsjV1) ==>
      && m.episode.Some? && m.episode.value.operation in w.eps && w.eps[m.episode.value.operation].stage.HasBody()
      && var candidate := w.eps[m.episode.value.operation].stage.body.candidate;
         !IsAncestor(candidate, w.ref) && IsAncestor(candidate, tip)
  }

  /** A gated move from `expected` may be made: to a descendant, and a merge only as `MergeMay` says. */
  ghost predicate MayMove(w: World, purpose: Purpose, episode: Option<EpisodeId>, expected: Commit, tip: Commit) {
    IsAncestor(expected, tip) && MergeMay(w.(ref := expected), tip, Move(Some(purpose), episode, {}))
  }

  /** Moving the ref to a descendant, through the gate or from outside, keeps the invariant. */
  lemma MoveKeepsWorld(w: World, tip: Commit, m: Move)
    requires WorldOk(w) && IsAncestor(w.ref, tip) && Gated(m) && MergeMay(w, tip, m)
    ensures WorldOk(Moved(w, tip, m)) && Reaches(w, Moved(w, tip, m))
  {
    hide LogOk, MovesOk, PublishedOk, OneOpen, MergeMay, Gated, IsAncestor;
    MoveKeepsPublished(w.eps, w.ref, tip);
    MoveKeepsMoves(w, tip, m);
    assert forall op | op in w.eps :: Forward(w.eps[op], w.eps[op]);
  }

  lemma MoveKeepsPublished(eps: Episodes, ref: Commit, tip: Commit)
    requires PublishedOk(eps, ref) && IsAncestor(ref, tip)
    ensures PublishedOk(eps, tip)
  {}

  lemma MoveKeepsMoves(w: World, tip: Commit, m: Move)
    requires MovesOk(w.moves, w.eps, w.ref) && IsAncestor(w.ref, tip) && Gated(m) && MergeMay(w, tip, m)
    ensures MovesOk(w.moves + [m], w.eps, tip)
  {
    hide IsAncestor, Gated;
    forall i | 0 <= i < |w.moves| && w.moves[i].purpose == Some(CsjV1)
      ensures IsAncestor(w.eps[w.moves[i].episode.value.operation].stage.body.candidate, tip)
      ensures m.purpose == Some(CsjV1) ==> w.moves[i].episode != m.episode
    {
      AncestorTransitive(w.eps[w.moves[i].episode.value.operation].stage.body.candidate, w.ref, tip);
    }
  }

  // ---------- what the invariant means for readers ----------

  /** While an episode was open, whoever went through the gate to move the ref did so to recover or merge that
      episode. */
  lemma OnlyRecoveryMovesWhileOpen(w: World, i: nat, op: Operation)
    requires WorldOk(w) && i < |w.moves| && w.moves[i].purpose.Some? && op in w.moves[i].open
    ensures w.moves[i].purpose == Some(RecoverV3) || w.moves[i].purpose == Some(CsjV1)
    ensures w.moves[i].episode == Some(EpisodeId(op))
  {
    assert Gated(w.moves[i]);
  }

  /** In every state a run can reach from a sound one, a published candidate is still in the history of the
      ref, so the diverged failure cannot come up. */
  lemma PublishedForever(v: World, w: World, op: Operation)
    requires WorldOk(v) && WorldOk(w) && Reaches(v, w) && op in v.eps
    requires v.eps[op].stage.SPublished? || v.eps[op].stage.SConverged?
    ensures op in w.eps && w.eps[op].stage.HasBody() && IsAncestor(v.eps[op].stage.body.candidate, w.ref)
  {
    assert EpisodeOk(op, v.eps[op]);
    assert Forward(v.eps[op], w.eps[op]);
    assert w.eps[op].stage.SPublished? || w.eps[op].stage.SConverged?;
  }

  /** After the one merge of an episode its candidate stays in the history too, so every later decision is a
      bounded recovery, an owner alert or the ordinary path. */
  lemma MergedForever(v: World, w: World, op: Operation, i: nat, openPrepared: bool, exhausted: bool, published: bool, deadlock: bool)
    requires WorldOk(v) && WorldOk(w) && Reaches(v, w) && i < |v.moves| && IsCsj(v.moves[i], op)
    ensures op in w.eps && w.eps[op].stage.HasBody()
    ensures DecideCsjNextKick(IsAncestor(w.eps[op].stage.body.candidate, w.ref), openPrepared, exhausted, published, deadlock)
            in {OwnerAlertBlocked, BoundedT2Recover, Existing}
    ensures forall j | 0 <= j < |w.moves| && IsCsj(w.moves[j], op) :: j == i
  {
    assert w.moves[i] == v.moves[i];
    assert w.moves[i].episode.value.operation == op;
  }

  lemma LoggedIsKnown(w: World, e: Event)
    requires WorldOk(w) && e in w.log
    ensures e.episode.operation in w.eps
  {}

  /** Nothing is appended to an episode that is complete or terminal. */
  lemma ClosedForever(v: World, w: World, op: Operation)
    requires Reaches(v, w) && ClosedIn(v.eps, op)
    ensures w.eps[op] == v.eps[op] && EventsOf(w.log, op) == EventsOf(v.log, op)
  {}

  /** Every reachable log folds: slots 1 to n with n at most 5, all but the last aborted. */
  lemma ReachableLogsFold(w: World, op: Operation)
    requires WorldOk(w) && op in w.eps
    ensures FoldOk(EventsOf(w.log, op))
    ensures 1 <= w.eps[op].slot <= DRAIN_BUDGET
    ensures forall n :: n in FoldMap(EventsOf(w.log, op)) <==> 1 <= n <= w.eps[op].slot
    ensures forall n | 1 <= n < w.eps[op].slot :: FoldMap(EventsOf(w.log, op))[n].aborted.Some? && FoldMap(EventsOf(w.log, op))[n].claimed.Some?
    ensures CursorOf(FoldMap(EventsOf(w.log, op))) == CursorFor(w.eps[op])
  {
    hide FoldOk, FoldMap, SlotAt, CursorOf, CursorFor, Shape, MovesOk, PublishedOk;
    var ep := w.eps[op];
    ShapeFolds(EventsOf(w.log, op), op, ep);
    assert CursorOf(FoldMap(EventsOf(w.log, op))) == CursorFor(ep) by { CursorOfSlots(op, ep); }
    forall n | 1 <= n < ep.slot ensures SlotsOf(op, ep)[n].aborted.Some? && SlotsOf(op, ep)[n].claimed.Some? {
      SlotFields(op, ep, n);
    }
  }
}
