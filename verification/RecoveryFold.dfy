/** The v3 recovery events, and the fold that turns an unordered bag of them into slot records. */
module RecoveryFold {
  import opened Order
  import opened Results
  import opened Git
  import opened Cohort

  const DRAIN_BUDGET := 5
  const EVENT_SCHEMA_V3 := "local-drain-recovery-event/v3"
  const ABORT_REASON := "recovery_slot_aborted"
  const ABORT_ERROR_CODE := "RECOVERY_SLOT_ABORTED"
  const TERMINAL_REASON := "owner_intervention_required"

  /** The frozen index lines of the cohort paths, in path order. */
  type SnapshotRoot = seq<(Path, Option<Entry>)>

  datatype Operation = Operation(symbolicRef: string, base: Commit, cohortRoot: Root, snapshotRoot: SnapshotRoot)

  // Digests of their contents.
  datatype EpisodeId = EpisodeId(operation: Operation)
  datatype ClaimId = ClaimId(episode: EpisodeId, slot: int)

  datatype PreparedBody = PreparedBody(
    symbolicRef: string, frozenCommit: Commit, newTree: Tree, candidate: Commit, manifestRoot: Root,
    entries: seq<PreparedEntry>, snapshot: map<Path, Option<Entry>>)

  datatype Payload =
    | Claimed(claimId: ClaimId)
    | CommitPrepared(body: PreparedBody)
    | CommitPublished(candidate: Commit, confirmed: bool)
    | IndexConverged(candidate: Commit)
    | SlotAborted(reason: string, errorCode: string)
    | EpisodeTerminal(reason: string, ownerAlert: bool)

  datatype Event = Event(schema: string, lane: string, episode: EpisodeId, operation: Operation, slot: int, payload: Payload)

  datatype Kind = KClaimed | KPrepared | KPublished | KConverged | KAborted | KTerminal

  function KindOf(p: Payload): Kind {
    match p
    case Claimed(_) => KClaimed
    case CommitPrepared(_) => KPrepared
    case CommitPublished(_, _) => KPublished
    case IndexConverged(_) => KConverged
    case SlotAborted(_, _) => KAborted
    case EpisodeTerminal(_, _) => KTerminal
  }

  /** `makeEventV3`. */
  function Make(op: Operation, slot: int, payload: Payload): Event {
    Event(EVENT_SCHEMA_V3, "drain", EpisodeId(op), op, slot, payload)
  }

  // ---------- the prepared body ----------

  function SnapshotRootOf(entries: seq<PreparedEntry>, snapshot: map<Path, Option<Entry>>): (r: SnapshotRoot)
    ensures |r| == |entries|
  {
    var sorted := SortBy(PreparedLe, entries);
    seq(|sorted|, i requires 0 <= i < |sorted| =>
      (sorted[i].path, if sorted[i].path in snapshot then snapshot[sorted[i].path] else None))
  }

  predicate EntryShape(e: PreparedEntry) {
    && CanonicalPath(e.path)
    && (e.op == PutOp ==> e.mode == Some(Regular) || e.mode == Some(Executable))
    && (e.op == DeleteOp ==> e.mode == None && e.blobOid == "" && e.bytesSha256 == "")
    && e.op != UnknownOp
  }

  /** `decodePreparedRecoveryEvent` accepts the body under this symbolic ref. */
  predicate Decodes(b: PreparedBody, symbolicRef: string) {
    && b.symbolicRef == symbolicRef
    && b.entries != []
    && (forall e | e in b.entries :: EntryShape(e))
    && (forall i | 0 < i < |b.entries| :: PathLt(b.entries[i - 1].path, b.entries[i].path))
    && ManifestRoot(b.entries) == b.manifestRoot
    && b.snapshot.Keys == set e | e in b.entries :: e.path
  }

  /** The body is the one the episode's operation stands for. */
  predicate Binds(b: PreparedBody, op: Operation) {
    && Decodes(b, op.symbolicRef)
    && b.frozenCommit == op.base
    && b.manifestRoot == op.cohortRoot
    && SnapshotRootOf(b.entries, b.snapshot) == op.snapshotRoot
  }

  // ---------- slots ----------

  datatype Slot = Slot(
    claimed: Option<Event>, prepared: Option<Event>, published: Option<Event>, converged: Option<Event>,
    aborted: Option<Event>, terminal: Option<Event>, staleAbort: Option<Event>, staleTerminal: Option<Event>)

  const EMPTY_SLOT := Slot(None, None, None, None, None, None, None, None)

  function Field(s: Slot, k: Kind): Option<Event> {
    match k
    case KClaimed => s.claimed
    case KPrepared => s.prepared
    case KPublished => s.published
    case KConverged => s.converged
    case KAborted => s.aborted
    case KTerminal => s.terminal
  }

  function WithField(s: Slot, k: Kind, e: Event): Slot {
    match k
    case KClaimed => s.(claimed := Some(e))
    case KPrepared => s.(prepared := Some(e))
    case KPublished => s.(published := Some(e))
    case KConverged => s.(converged := Some(e))
    case KAborted => s.(aborted := Some(e))
    case KTerminal => s.(terminal := Some(e))
  }

  predicate EventOk(e: Event) {
    && 1 <= e.slot <= DRAIN_BUDGET
    && e.lane == "drain" && e.schema == EVENT_SCHEMA_V3
    && e.episode == EpisodeId(e.operation)
    && (e.payload.Claimed? ==> e.payload.claimId == ClaimId(e.episode, e.slot))
  }

  predicate CandidateMatches(e: Option<Event>, prepared: Option<Event>) {
    e.Some? ==>
      && prepared.Some? && prepared.value.payload.CommitPrepared?
      && ((e.value.payload.CommitPublished? && e.value.payload.candidate == prepared.value.payload.body.candidate)
          || (e.value.payload.IndexConverged? && e.value.payload.candidate == prepared.value.payload.body.candidate))
  }

  /** The checks on one slot record. */
  predicate SlotOk(s: Slot) {
    && (s.claimed.None? ==> s.prepared.None? && s.published.None? && s.converged.None? && s.aborted.None? && s.terminal.None?)
    && (s.published.Some? ==> s.prepared.Some?)
    && (s.converged.Some? ==> s.published.Some?)
    && (s.aborted.Some? ==> s.aborted.value.payload == SlotAborted(ABORT_REASON, ABORT_ERROR_CODE))
    && (s.terminal.Some? ==> s.terminal.value.payload == EpisodeTerminal(TERMINAL_REASON, true))
    && (s.prepared.Some? ==>
          && s.prepared.value.payload.CommitPrepared?
          && Binds(s.prepared.value.payload.body, s.prepared.value.operation)
          && (s.terminal.Some? ==> s.aborted.Some?))
    && CandidateMatches(s.published, s.prepared)
    && CandidateMatches(s.converged, s.prepared)
  }

  /** A prepared event is positive evidence: a stale abort beside it, and that abort's terminal, are set aside. */
  function Revive(s: Slot): Slot {
    if s.prepared.Some? && s.aborted.Some?
    then s.(staleAbort := s.aborted, aborted := None, staleTerminal := s.terminal, terminal := None)
    else s
  }

  /** The checks on the whole episode. */
  predicate ClosuresOk(m: map<int, Slot>) {
    && (forall a, b | a in m && b in m && m[a].converged.Some? && m[b].converged.Some? :: a == b)
    && (forall a, b | a in m && b in m && m[a].terminal.Some? && m[b].terminal.Some? :: a == b)
    && (forall a, b | a in m && b in m :: !(m[a].converged.Some? && m[b].terminal.Some?))
    && (forall a, n | a in m && n in m && (m[a].converged.Some? || m[a].terminal.Some?) :: n <= a)
    && (forall n | n in m && m[n].claimed.Some? && n != 1 :: n - 1 in m && m[n - 1].claimed.Some?)
  }

  // ---------- the fold as a function of the set of events ----------

  ghost function The(s: set<Event>, n: int, k: Kind): Option<Event> {
    if exists e :: e in s && e.slot == n && KindOf(e.payload) == k
    then var e :| e in s && e.slot == n && KindOf(e.payload) == k; Some(e)
    else None
  }

  ghost function Raw(s: set<Event>, n: int): Slot {
    Slot(The(s, n, KClaimed), The(s, n, KPrepared), The(s, n, KPublished), The(s, n, KConverged),
         The(s, n, KAborted), The(s, n, KTerminal), None, None)
  }

  ghost function Slots(s: set<Event>): set<int> {
    set e | e in s :: e.slot
  }

  ghost predicate Unique(s: set<Event>) {
    forall e, f | e in s && f in s && e.slot == f.slot && KindOf(e.payload) == KindOf(f.payload) :: e == f
  }

  ghost predicate Consistent(s: set<Event>) {
    && (forall e | e in s :: EventOk(e))
    && (forall e, f | e in s && f in s :: e.episode == f.episode)
    && Unique(s)
  }

  ghost function RawMap(s: set<Event>): map<int, Slot> {
    map n | n in Slots(s) :: Raw(s, n)
  }

  predicate SlotsOk(m: map<int, Slot>) {
    forall n | n in m :: SlotOk(m[n])
  }

  function ReviveAll(m: map<int, Slot>): map<int, Slot> {
    map n | n in m :: Revive(m[n])
  }

  ghost function FoldMap(s: set<Event>): map<int, Slot> {
    ReviveAll(RawMap(s))
  }

  ghost predicate FoldOk(s: set<Event>) {
    Consistent(s) && SlotsOk(RawMap(s)) && ClosuresOk(FoldMap(s))
  }

  /** Adding one event changes one field of one slot. */
  lemma RawAfter(s: set<Event>, e: Event, n: int)
    requires Unique(s + {e})
    ensures Raw(s + {e}, n) == if n == e.slot then WithField(Raw(s, n), KindOf(e.payload), e) else Raw(s, n)
  {
    hide The, Unique;
    forall k: Kind ensures The(s + {e}, n, k) == if n == e.slot && k == KindOf(e.payload) then Some(e) else The(s, n, k) {
      TheAfter(s, e, n, k);
    }
  }

  lemma TheAfter(s: set<Event>, e: Event, n: int, k: Kind)
    requires Unique(s + {e})
    ensures The(s + {e}, n, k) == if n == e.slot && k == KindOf(e.payload) then Some(e) else The(s, n, k)
  {}

  datatype FoldError = SlotInvalid | LaneInvariant | EpisodeInvariant | MixedEpisode | ClaimInvariant | EventInvariant
                     | ResultWithoutClaim | StateOrder | OperationMismatch | StateInvariant | SlotGap

  ghost function Members<T>(events: seq<T>): set<T> { set e | e in events }

  lemma ConsistentPart(part: set<Event>, s: set<Event>)
    requires part <= s && Consistent(s)
    ensures Consistent(part)
  {}

  /** When one more event keeps the bag consistent. */
  lemma ConsistentAfter(s: set<Event>, e: Event)
    requires Consistent(s)
    ensures Consistent(s + {e}) <==>
            EventOk(e) && (forall f | f in s :: f.episode == e.episode)
            && (The(s, e.slot, KindOf(e.payload)) == None || The(s, e.slot, KindOf(e.payload)) == Some(e))
  {}

  /** The slot record an event is filed in. */
  function SlotFor(folded: map<int, Slot>, n: int): Slot {
    if n in folded then folded[n] else EMPTY_SLOT
  }

  lemma SlotForIsRaw(s: set<Event>, n: int)
    ensures SlotFor(RawMap(s), n) == Raw(s, n)
  {}

  lemma FieldOfRaw(s: set<Event>, n: int, k: Kind)
    ensures Field(Raw(s, n), k) == The(s, n, k)
  {}

  /** What is wrong with one more event. */
  method EventProblem(folded: map<int, Slot>, episode: Option<EpisodeId>, event: Event, ghost s: set<Event>)
    returns (problem: Option<FoldError>)
    requires Consistent(s) && folded == RawMap(s)
    requires episode.None? <==> s == {}
    requires forall e | e in s :: episode == Some(e.episode)
    ensures problem.None? <==> Consistent(s + {event})
  {
    hide Consistent, RawMap, Raw;
    ConsistentAfter(s, event);
    FieldOfRaw(s, event.slot, KindOf(event.payload));
    if !(1 <= event.slot <= DRAIN_BUDGET) { return Some(SlotInvalid); }
    if event.lane != "drain" || event.schema != EVENT_SCHEMA_V3 { return Some(LaneInvariant); }
    if event.episode != EpisodeId(event.operation) { return Some(EpisodeInvariant); }
    if episode.Some? && episode.value != event.episode { return Some(MixedEpisode); }
    if event.payload.Claimed? && event.payload.claimId != ClaimId(event.episode, event.slot) { return Some(ClaimInvariant); }
    SlotForIsRaw(s, event.slot);
    var existing := Field(SlotFor(folded, event.slot), KindOf(event.payload));
    if existing.Some? && existing.value != event { return Some(EventInvariant); }
    problem := None;
  }

  /** First loop: file every event under its slot. */
  method FileEvents(events: seq<Event>) returns (r: Result<map<int, Slot>, FoldError>)
    ensures r.Ok? <==> Consistent(Members(events))
    ensures r.Ok? ==> r.value == RawMap(Members(events))
  {
    var folded: map<int, Slot> := map[];
    var episode: Option<EpisodeId> := None;
    ghost var s: set<Event> := {};
    for i := 0 to |events|
      invariant s == Members(events[..i])
      invariant Consistent(s) && folded == RawMap(s)
      invariant episode.None? <==> s == {}
      invariant forall e | e in s :: episode == Some(e.episode)
    {
      var event := events[i];
      MembersNext(events, i);
      var problem := EventProblem(folded, episode, event, s);
      if problem.Some? {
        if Consistent(Members(events)) { ConsistentPart(s + {event}, Members(events)); }
        return Err(problem.value);
      }
      SlotForIsRaw(s, event.slot);
      FiledAfter(s, event);
      folded := folded[event.slot := WithField(SlotFor(folded, event.slot), KindOf(event.payload), event)];
      s := s + {event};
      episode := Some(event.episode);
    }
    assert events[..|events|] == events;
    r := Ok(folded);
  }

  lemma MembersNext<T>(events: seq<T>, i: nat)
    requires i < |events|
    ensures Members(events[..i + 1]) == Members(events[..i]) + {events[i]} <= Members(events)
  {}

  lemma FiledAfter(s: set<Event>, e: Event)
    requires Unique(s + {e})
    ensures RawMap(s + {e}) == RawMap(s)[e.slot := WithField(Raw(s, e.slot), KindOf(e.payload), e)]
  {
    assert Slots(s + {e}) == Slots(s) + {e.slot};
    forall n | n in Slots(s + {e}) ensures Raw(s + {e}, n) == if n == e.slot then WithField(Raw(s, n), KindOf(e.payload), e) else Raw(s, n) {
      RawAfter(s, e, n);
    }
  }

  /** What is wrong with one slot record. */
  method SlotProblem(s: Slot) returns (problem: Option<FoldError>)
    ensures problem.None? <==> SlotOk(s)
  {
    hide Binds;
    if s.claimed.None? && (s.prepared.Some? || s.published.Some? || s.converged.Some? || s.aborted.Some? || s.terminal.Some?) {
      return Some(ResultWithoutClaim);
    }
    if s.published.Some? && s.prepared.None? { return Some(StateOrder); }
    if s.converged.Some? && s.published.None? { return Some(StateOrder); }
    if s.aborted.Some? && s.aborted.value.payload != SlotAborted(ABORT_REASON, ABORT_ERROR_CODE) { return Some(StateInvariant); }
    if s.terminal.Some? && s.terminal.value.payload != EpisodeTerminal(TERMINAL_REASON, true) { return Some(StateInvariant); }
    if s.prepared.Some? {
      var e := s.prepared.value;
      if !e.payload.CommitPrepared? || !Binds(e.payload.body, e.operation) { return Some(OperationMismatch); }
      if s.aborted.None? && s.terminal.Some? { return Some(StateInvariant); }
      var candidate := e.payload.body.candidate;
      if s.published.Some? && CandidateOf(s.published.value) != Some(candidate) { return Some(StateInvariant); }
      if s.converged.Some? && CandidateOf(s.converged.value) != Some(candidate) { return Some(StateInvariant); }
    }
    problem := None;
  }

  /** The candidate a publication or convergence event names. */
  function CandidateOf(e: Event): Option<Commit> {
    match e.payload
    case CommitPublished(candidate, _) => Some(candidate)
    case IndexConverged(candidate) => Some(candidate)
    case _ => None
  }

  /** The slots that have an event of this kind, in ascending order. */
  method SlotsWith(folded: map<int, Slot>, k: Kind) returns (slots: seq<int>)
    requires forall n | n in folded :: 1 <= n <= DRAIN_BUDGET
    ensures forall n :: n in slots <==> n in folded && Field(folded[n], k).Some?
    ensures forall i, j | 0 <= i < j < |slots| :: slots[i] < slots[j]
  {
    slots := [];
    for n := 1 to DRAIN_BUDGET + 1
      invariant forall m :: m in slots <==> m < n && m in folded && Field(folded[m], k).Some?
      invariant forall i, j | 0 <= i < j < |slots| :: slots[i] < slots[j]
    {
      if n in folded && Field(folded[n], k).Some? {
        assert forall i | 0 <= i < |slots| :: slots[i] in slots;
        slots := slots + [n];
      }
    }
  }

  /** What is wrong with the slots taken together. */
  method ClosureProblem(folded: map<int, Slot>) returns (problem: Option<FoldError>)
    requires forall n | n in folded :: 1 <= n <= DRAIN_BUDGET
    ensures problem.None? <==> ClosuresOk(folded)
  {
    var complete := SlotsWith(folded, KConverged);
    var ended := SlotsWith(folded, KTerminal);
    AtMostOne(complete);
    AtMostOne(ended);
    ClosuresAre(folded, complete, ended);
    hide ClosuresOk;
    if |complete| > 1 || |ended| > 1 || (|complete| > 0 && |ended| > 0) { return Some(StateInvariant); }
    for n := 1 to DRAIN_BUDGET + 1
      invariant forall b | 1 <= b < n && b in folded :: NothingAfter(complete + ended, b) && Follows(folded, b)
    {
      if n in folded {
        if exists a | a in complete + ended :: n > a {
          assert !NothingAfter(complete + ended, n);
          return Some(StateInvariant);
        }
        if folded[n].claimed.Some? && n != 1 && !(n - 1 in folded && folded[n - 1].claimed.Some?) {
          assert !Follows(folded, n);
          return Some(SlotGap);
        }
      }
    }
    problem := None;
  }

  predicate NothingAfter(closed: seq<int>, n: int) { forall a | a in closed :: n <= a }

  predicate Follows(folded: map<int, Slot>, n: int)
    requires n in folded
  {
    folded[n].claimed.Some? && n != 1 ==> n - 1 in folded && folded[n - 1].claimed.Some?
  }

  lemma ClosuresAre(folded: map<int, Slot>, complete: seq<int>, ended: seq<int>)
    requires forall n :: n in complete <==> n in folded && folded[n].converged.Some?
    requires forall n :: n in ended <==> n in folded && folded[n].terminal.Some?
    ensures ClosuresOk(folded) <==>
            && (forall a, b | a in complete && b in complete :: a == b)
            && (forall a, b | a in ended && b in ended :: a == b)
            && (complete == [] || ended == [])
            && (forall n | n in folded :: NothingAfter(complete + ended, n) && Follows(folded, n))
  {
    assert complete != [] ==> complete[0] in complete;
    assert ended != [] ==> ended[0] in ended;
    var closed := complete + ended;
    assert forall a :: a in closed <==> a in folded && (folded[a].converged.Some? || folded[a].terminal.Some?);
    if ClosuresOk(folded) {
      forall n | n in folded ensures NothingAfter(closed, n) && Follows(folded, n) {}
    }
    if forall n | n in folded :: NothingAfter(closed, n) && Follows(folded, n) {
      forall a, n | a in folded && n in folded && a in closed ensures n <= a { assert NothingAfter(closed, n); }
      forall n | n in folded ensures Follows(folded, n) {}
    }
  }

  lemma AtMostOne(s: seq<int>)
    requires forall i, j | 0 <= i < j < |s| :: s[i] < s[j]
    ensures |s| <= 1 <==> forall a, b | a in s && b in s :: a == b
  {
    if |s| > 1 { assert s[0] in s && s[1] in s && s[0] < s[1]; }
  }

  /** Second loop: check and revive the slots in order. */
  method SettleSlots(filed: map<int, Slot>) returns (r: Result<map<int, Slot>, FoldError>)
    requires forall n | n in filed :: 1 <= n <= DRAIN_BUDGET
    ensures r.Ok? <==> SlotsOk(filed)
    ensures r.Ok? ==> r.value == ReviveAll(filed)
  {
    hide SlotOk, Revive;
    var folded := filed;
    for n := 1 to DRAIN_BUDGET + 1
      invariant folded.Keys == filed.Keys
      invariant forall k | k in filed && k < n :: SlotOk(filed[k]) && folded[k] == Revive(filed[k])
      invariant forall k | k in filed && n <= k :: folded[k] == filed[k]
    {
      if n in folded {
        var problem := SlotProblem(folded[n]);
        if problem.Some? { return Err(problem.value); }
        folded := folded[n := Revive(folded[n])];
      }
    }
    r := Ok(folded);
  }

  /** `foldRecoveryEventsV3`. Order and repetition of the events play no part in its outcome. */
  method FoldRecoveryEventsV3(events: seq<Event>) returns (r: Result<map<int, Slot>, FoldError>)
    ensures r.Ok? <==> FoldOk(Members(events))
    ensures r.Ok? ==> r.value == FoldMap(Members(events))
  {
    ghost var s := Members(events);
    var filed := FileEvents(events);
    if filed.Err? { return filed; }
    assert forall n | n in Slots(s) :: 1 <= n <= DRAIN_BUDGET;
    var settled := SettleSlots(filed.value);
    if settled.Err? { return settled; }
    var problem := ClosureProblem(settled.value);
    if problem.Some? { return Err(problem.value); }
    r := settled;
  }

  // ---------- the cursor ----------

  datatype Cursor = Cursor(nextSlot: Option<int>, lastClaimedSlot: Option<int>, complete: bool, terminal: bool, pendingSlot: Option<int>)

  /** The highest claimed slot not above `n`. */
  function LastClaimed(m: map<int, Slot>, n: nat): Option<int> {
    if n == 0 then None
    else if n in m && m[n].claimed.Some? then Some(n)
    else LastClaimed(m, n - 1)
  }

  /** `recoveryEpisodeCursorV3`. */
  function CursorOf(m: map<int, Slot>): Cursor {
    var last := LastClaimed(m, DRAIN_BUDGET);
    var complete := exists n | n in m :: m[n].converged.Some?;
    var terminal := exists n | n in m :: m[n].terminal.Some?;
    var pending := if last.Some? && last.value in m && m[last.value].aborted.None? && m[last.value].converged.None? && !terminal
                   then last else None;
    var candidate := (if last.Some? then last.value else 0) + 1;
    Cursor(if complete || terminal || candidate > DRAIN_BUDGET then None else Some(candidate), last, complete, terminal, pending)
  }
}
