/** The logs that the recovery protocol can leave behind, and what folding them yields. */
module RecoveryLog {
  import opened Results
  import opened RecoveryFold

  /** How far the last claimed slot has come. */
  datatype Stage =
    | SClaimed
    | SPrepared(body: PreparedBody)
    | SPublished(body: PreparedBody)
    | SConverged(body: PreparedBody)
    | SAborted
    | STerminal
  {
    predicate HasBody() { SPrepared? || SPublished? || SConverged? }
    predicate IsClosed() { SConverged? || STerminal? }
  }

  /** An episode that has claimed slots 1 to `slot`, all but the last of them aborted. */
  datatype Episode = Episode(slot: nat, stage: Stage)

  predicate EpisodeOk(op: Operation, ep: Episode) {
    && 1 <= ep.slot <= DRAIN_BUDGET
    && (ep.stage.STerminal? ==> ep.slot == DRAIN_BUDGET)
    && (ep.stage.HasBody() ==> Binds(ep.stage.body, op))
  }

  function ClaimOf(op: Operation, n: int): Payload { Claimed(ClaimId(EpisodeId(op), n)) }

  const ABORT := SlotAborted(ABORT_REASON, ABORT_ERROR_CODE)
  const TERMINAL := EpisodeTerminal(TERMINAL_REASON, true)

  /** The payload of kind `k` in slot `n` of such an episode. */
  function PayloadAt(op: Operation, ep: Episode, n: int, k: Kind): Option<Payload> {
    if !(1 <= n <= ep.slot) then None
    else match k
      case KClaimed => Some(ClaimOf(op, n))
      case KAborted => if n < ep.slot || ep.stage.SAborted? || ep.stage.STerminal? then Some(ABORT) else None
      case KTerminal => if n == ep.slot && ep.stage.STerminal? then Some(TERMINAL) else None
      case KPrepared => if n == ep.slot && ep.stage.HasBody() then Some(CommitPrepared(ep.stage.body)) else None
      case KPublished => if n == ep.slot && (ep.stage.SPublished? || ep.stage.SConverged?)
                         then Some(CommitPublished(ep.stage.body.candidate, true)) else None
      case KConverged => if n == ep.slot && ep.stage.SConverged? then Some(IndexConverged(ep.stage.body.candidate)) else None
  }

  predicate InLog(op: Operation, ep: Episode, e: Event) {
    PayloadAt(op, ep, e.slot, KindOf(e.payload)) == Some(e.payload) && e == Make(op, e.slot, e.payload)
  }

  /** `s` is the log of the episode, event for event. */
  ghost predicate Shape(s: set<Event>, op: Operation, ep: Episode) {
    forall e :: e in s <==> InLog(op, ep, e)
  }

  function EventAt(op: Operation, ep: Episode, n: int, k: Kind): Option<Event> {
    var p := PayloadAt(op, ep, n, k);
    if p.Some? then Some(Make(op, n, p.value)) else None
  }

  function SlotAt(op: Operation, ep: Episode, n: int): Slot {
    Slot(EventAt(op, ep, n, KClaimed), EventAt(op, ep, n, KPrepared), EventAt(op, ep, n, KPublished),
         EventAt(op, ep, n, KConverged), EventAt(op, ep, n, KAborted), EventAt(op, ep, n, KTerminal), None, None)
  }

  lemma KindAt(op: Operation, ep: Episode, n: int, k: Kind)
    ensures PayloadAt(op, ep, n, k).Some? ==> KindOf(PayloadAt(op, ep, n, k).value) == k
  {}

  lemma ShapeRaw(s: set<Event>, op: Operation, ep: Episode, n: int)
    requires Shape(s, op, ep)
    ensures Raw(s, n) == SlotAt(op, ep, n)
  {
    forall k: Kind ensures The(s, n, k) == EventAt(op, ep, n, k) {
      KindAt(op, ep, n, k);
      if EventAt(op, ep, n, k).Some? {
        assert InLog(op, ep, EventAt(op, ep, n, k).value);
      }
    }
  }

  lemma ShapeSlots(s: set<Event>, op: Operation, ep: Episode)
    requires Shape(s, op, ep)
    ensures forall n :: n in Slots(s) <==> 1 <= n <= ep.slot
  {
    forall n | 1 <= n <= ep.slot ensures n in Slots(s) {
      var e := Make(op, n, ClaimOf(op, n));
      assert InLog(op, ep, e);
      assert e in s;
    }
  }

  lemma ShapeConsistent(s: set<Event>, op: Operation, ep: Episode)
    requires Shape(s, op, ep) && EpisodeOk(op, ep)
    ensures Consistent(s)
  {}

  lemma SlotAtOk(op: Operation, ep: Episode, n: int)
    requires EpisodeOk(op, ep) && 1 <= n <= ep.slot
    ensures SlotOk(SlotAt(op, ep, n)) && Revive(SlotAt(op, ep, n)) == SlotAt(op, ep, n)
  {
    hide Binds;
    SlotFields(op, ep, n);
  }

  function SlotsOf(op: Operation, ep: Episode): map<int, Slot> {
    map n | 1 <= n <= ep.slot :: SlotAt(op, ep, n)
  }

  lemma SlotFields(op: Operation, ep: Episode, n: int)
    requires 1 <= n <= ep.slot
    ensures SlotAt(op, ep, n).claimed.Some?
    ensures SlotAt(op, ep, n).converged.Some? <==> n == ep.slot && ep.stage.SConverged?
    ensures SlotAt(op, ep, n).terminal.Some? <==> n == ep.slot && ep.stage.STerminal?
    ensures SlotAt(op, ep, n).aborted.Some? <==> n < ep.slot || ep.stage.SAborted? || ep.stage.STerminal?
  {}

  lemma SlotsClose(op: Operation, ep: Episode)
    ensures ClosuresOk(SlotsOf(op, ep))
  {
    var m := SlotsOf(op, ep);
    forall n | n in m
      ensures m[n].claimed.Some?
      ensures m[n].converged.Some? || m[n].terminal.Some? ==> n == ep.slot
      ensures !(m[n].converged.Some? && m[n].terminal.Some?)
    {
      SlotFields(op, ep, n);
    }
    assert forall n | n in m && m[n].converged.Some? :: ep.stage.SConverged? by {
      forall n | n in m ensures m[n].converged.Some? ==> ep.stage.SConverged? { SlotFields(op, ep, n); }
    }
    assert forall n | n in m && m[n].terminal.Some? :: ep.stage.STerminal? by {
      forall n | n in m ensures m[n].terminal.Some? ==> ep.stage.STerminal? { SlotFields(op, ep, n); }
    }
  }

  /** Every such log folds without error, to the slot records the stage describes. */
  lemma ShapeFolds(s: set<Event>, op: Operation, ep: Episode)
    requires Shape(s, op, ep) && EpisodeOk(op, ep)
    ensures FoldOk(s)
    ensures FoldMap(s) == SlotsOf(op, ep)
  {
    hide SlotOk, Revive, SlotAt, EpisodeOk, InLog, ClosuresOk, Consistent, Raw, Shape;
    ShapeConsistent(s, op, ep);
    ShapeRawMap(s, op, ep);
    ShapeSlots(s, op, ep);
    forall n | 1 <= n <= ep.slot ensures SlotOk(SlotAt(op, ep, n)) && Revive(SlotAt(op, ep, n)) == SlotAt(op, ep, n) {
      SlotAtOk(op, ep, n);
    }
    assert FoldMap(s) == SlotsOf(op, ep);
    SlotsClose(op, ep);
  }

  lemma ShapeRawMap(s: set<Event>, op: Operation, ep: Episode)
    requires Shape(s, op, ep)
    ensures RawMap(s) == SlotsOf(op, ep)
  {
    hide SlotAt, Shape, Raw;
    ShapeSlots(s, op, ep);
    forall n | 1 <= n <= ep.slot ensures Raw(s, n) == SlotAt(op, ep, n) { ShapeRaw(s, op, ep, n); }
  }

  /** The cursor of such a log. */
  function CursorFor(ep: Episode): Cursor {
    Cursor(if ep.stage.IsClosed() || ep.slot >= DRAIN_BUDGET then None else Some(ep.slot + 1),
           Some(ep.slot), ep.stage.SConverged?, ep.stage.STerminal?,
           if ep.stage.SClaimed? || ep.stage.SPrepared? || ep.stage.SPublished? then Some(ep.slot) else None)
  }

  /** The last claimed slot is the highest one listed. */
  lemma {:induction false} LastClaimedIs(m: map<int, Slot>, n: nat, top: nat)
    requires 1 <= n <= top && n in m && m[n].claimed.Some?
    requires forall k | k in m :: k <= n
    ensures LastClaimed(m, top) == Some(n)
  {
    if n < top {
      LastClaimedIs(m, n, top - 1);
    }
  }

  lemma CursorOfSlots(op: Operation, ep: Episode)
    requires 1 <= ep.slot <= DRAIN_BUDGET
    ensures CursorOf(SlotsOf(op, ep)) == CursorFor(ep)
  {
    var m := SlotsOf(op, ep);
    forall n | n in m
      ensures m[n].claimed.Some?
      ensures m[n].converged.Some? <==> n == ep.slot && ep.stage.SConverged?
      ensures m[n].terminal.Some? <==> n == ep.slot && ep.stage.STerminal?
    {
      SlotFields(op, ep, n);
    }
    assert ep.slot in m;
    SlotFields(op, ep, ep.slot);
    LastClaimedIs(m, ep.slot, DRAIN_BUDGET);
  }

  // ---------- transitions ----------

  /** The steps the protocol may take, one durable event each. */
  ghost predicate Advances(op: Operation, before: Option<Episode>, after: Episode, payload: Payload) {
    || (before.None? && after == Episode(1, SClaimed) && payload == ClaimOf(op, 1))
    || (before.Some? && before.value.stage.SAborted? && before.value.slot < DRAIN_BUDGET
        && after == Episode(before.value.slot + 1, SClaimed) && payload == ClaimOf(op, after.slot))
    || (before.Some? && before.value.stage.SClaimed?
        && after.stage.SPrepared? && after.slot == before.value.slot && payload == CommitPrepared(after.stage.body))
    || (before.Some? && before.value.stage.SClaimed? && after == Episode(before.value.slot, SAborted) && payload == ABORT)
    || (before.Some? && before.value.stage.SPrepared?
        && after == Episode(before.value.slot, SPublished(before.value.stage.body))
        && payload == CommitPublished(before.value.stage.body.candidate, true))
    || (before.Some? && before.value.stage.SPublished?
        && after == Episode(before.value.slot, SConverged(before.value.stage.body))
        && payload == IndexConverged(before.value.stage.body.candidate))
    || (before.Some? && before.value.stage.SAborted? && before.value.slot == DRAIN_BUDGET
        && after == Episode(DRAIN_BUDGET, STerminal) && payload == TERMINAL)
  }

  ghost predicate ShapeOpt(s: set<Event>, op: Operation, ep: Option<Episode>) {
    if ep.None? then s == {} else Shape(s, op, ep.value)
  }

  lemma PayloadAdvances(op: Operation, before: Option<Episode>, after: Episode, payload: Payload, n: int, k: Kind)
    requires Advances(op, before, after, payload) && (before.Some? ==> 1 <= before.value.slot)
    ensures PayloadAt(op, after, n, k) ==
            if n == after.slot && k == KindOf(payload) then Some(payload)
            else if before.None? then None
            else PayloadAt(op, before.value, n, k)
    ensures before.Some? ==> PayloadAt(op, before.value, after.slot, KindOf(payload)) == None
  {}

  /** Each step adds one new event and leaves the log of the next stage. */
  lemma ShapeAdvances(s: set<Event>, op: Operation, before: Option<Episode>, after: Episode, payload: Payload)
    requires ShapeOpt(s, op, before) && Advances(op, before, after, payload) && (before.Some? ==> 1 <= before.value.slot)
    ensures Shape(s + {Make(op, after.slot, payload)}, op, after)
    ensures Make(op, after.slot, payload) !in s
  {
    var e := Make(op, after.slot, payload);
    PayloadAdvances(op, before, after, payload, after.slot, KindOf(payload));
    if before.Some? { assert !InLog(op, before.value, e); }
    forall f ensures f in s + {e} <==> InLog(op, after, f) {
      PayloadAdvances(op, before, after, payload, f.slot, KindOf(f.payload));
      if before.Some? { assert f in s <==> InLog(op, before.value, f); }
    }
  }

  /** What is still left to do; every step makes it smaller. */
  function Remaining(ep: Option<Episode>): nat {
    if ep.None? then 6 * DRAIN_BUDGET + 1
    else if ep.value.slot > DRAIN_BUDGET then 0
    else 6 * (DRAIN_BUDGET - ep.value.slot) + StepsLeft(ep.value.stage)
  }

  function StepsLeft(stage: Stage): nat {
    match stage
    case SClaimed => 4
    case SPrepared(_) => 3
    case SPublished(_) => 2
    case SAborted => 1
    case SConverged(_) => 0
    case STerminal => 0
  }

  lemma AdvancesProgress(op: Operation, before: Option<Episode>, after: Episode, payload: Payload)
    requires Advances(op, before, after, payload)
    requires before.Some? ==> EpisodeOk(op, before.value)
    ensures Remaining(Some(after)) < Remaining(before)
    ensures before.Some? ==> !before.value.stage.IsClosed()
    ensures before.Some? && before.value.stage.HasBody() ==>
              after.slot == before.value.slot && after.stage.HasBody() && after.stage.body == before.value.stage.body
  {}

  // ---------- stale aborts ----------

  /** A valid prepared event beside an abort in the last slot (and beside the terminal that followed it in
      the last budgeted slot) makes that slot the pending one again. */
  lemma PreparedRevivesAbortedSlot(s: set<Event>, op: Operation, n: int, body: PreparedBody, t: set<Event>)
    requires FoldOk(s) && n in Slots(s) && (forall k | k in Slots(s) :: k <= n)
    requires forall e | e in s :: e.episode == EpisodeId(op)
    requires Raw(s, n).aborted.Some? && Raw(s, n).prepared.None?
    requires Binds(body, op) && t == s + {Make(op, n, CommitPrepared(body))}
    ensures FoldOk(t)
    ensures CursorOf(FoldMap(t)).pendingSlot == Some(n)
    ensures FoldMap(t) == FoldMap(s)[n := RevivedSlot(Raw(s, n), Make(op, n, CommitPrepared(body)))]
  {
    AddPrepared(s, op, n, body);
    RevivedMap(s, op, n, body);
    RevivedEpisode(FoldMap(s), FoldMap(t), RevivedSlot(Raw(s, n), Make(op, n, CommitPrepared(body))), n) by {
      assert SlotOk(RawMap(s)[n]);
      var f :| f in s && f.slot == n;
      assert EventOk(f);
    }
  }

  /** Publishing goes on in a prepared last slot, revived or not: the event of its candidate is folded in, and the slot
      stays the pending one. */
  lemma PublishedFolds(s: set<Event>, op: Operation, n: int, body: PreparedBody, confirmed: bool)
    requires FoldOk(s) && n in Slots(s) && (forall k | k in Slots(s) :: k <= n)
    requires forall e | e in s :: e.episode == EpisodeId(op)
    requires Raw(s, n).prepared == Some(Make(op, n, CommitPrepared(body))) && Raw(s, n).published.None?
    ensures var e := Make(op, n, CommitPublished(body.candidate, confirmed));
            && FoldOk(s + {e}) && FoldMap(s + {e}) == FoldMap(s)[n := Revive(Raw(s, n)).(published := Some(e))]
  {
    var e := Make(op, n, CommitPublished(body.candidate, confirmed));
    ResultConsistent(s, op, n, e);
    RawMapAt(s, n);
    var slot := WithField(Raw(s, n), KPublished, e);
    ResultSlotOk(Raw(s, n), e);
    ResultFolds(s, n, e, slot);
  }

  /** And so does convergence, which completes the episode. */
  lemma ConvergedFolds(s: set<Event>, op: Operation, n: int, body: PreparedBody)
    requires FoldOk(s) && n in Slots(s) && (forall k | k in Slots(s) :: k <= n)
    requires forall e | e in s :: e.episode == EpisodeId(op)
    requires Raw(s, n).prepared == Some(Make(op, n, CommitPrepared(body))) && Raw(s, n).published.Some? && Raw(s, n).converged.None?
    ensures var e := Make(op, n, IndexConverged(body.candidate));
            && FoldOk(s + {e}) && FoldMap(s + {e}) == FoldMap(s)[n := Revive(Raw(s, n)).(converged := Some(e))]
            && CursorOf(FoldMap(s + {e})).complete
  {
    var e := Make(op, n, IndexConverged(body.candidate));
    ResultConsistent(s, op, n, e);
    RawMapAt(s, n);
    var slot := WithField(Raw(s, n), KConverged, e);
    ResultSlotOk(Raw(s, n), e);
    ResultFolds(s, n, e, slot);
    assert FoldMap(s + {e})[n].converged.Some?;
  }

  lemma ResultConsistent(s: set<Event>, op: Operation, n: int, e: Event)
    requires Consistent(s) && n in Slots(s) && e == Make(op, n, e.payload) && !e.payload.Claimed?
    requires forall f | f in s :: f.episode == EpisodeId(op)
    requires Field(Raw(s, n), KindOf(e.payload)).None?
    ensures Consistent(s + {e})
  {
    ConsistentAfter(s, e);
    FieldOfRaw(s, n, KindOf(e.payload));
    hide Raw, The, Unique;
    var f :| f in s && f.slot == n;
    assert EventOk(f);
  }

  lemma ResultSlotOk(slot: Slot, e: Event)
    requires SlotOk(slot) && slot.prepared.Some? && slot.prepared.value.payload.CommitPrepared?
    requires var candidate := slot.prepared.value.payload.body.candidate;
             (e.payload.CommitPublished? && e.payload.candidate == candidate)
             || (e.payload.IndexConverged? && e.payload.candidate == candidate && slot.published.Some?)
    ensures SlotOk(WithField(slot, KindOf(e.payload), e))
  {
    hide Binds;
  }

  /** One more result in the last slot of an open episode. */
  lemma ResultFolds(s: set<Event>, n: int, e: Event, slot: Slot)
    requires FoldOk(s) && Consistent(s + {e}) && n in Slots(s) && (forall k | k in Slots(s) :: k <= n) && e.slot == n
    requires slot == WithField(Raw(s, n), KindOf(e.payload), e) && SlotOk(slot)
    requires (e.payload.CommitPublished? || e.payload.IndexConverged?) && Raw(s, n).prepared.Some?
    ensures FoldOk(s + {e}) && FoldMap(s + {e}) == FoldMap(s)[n := Revive(slot)]
  {
    hide SlotOk, Consistent, RawMap, Raw, Slots, ClosuresOk;
    ConsistentIsUnique(s + {e});
    FiledAfter(s, e);
    RawMapAt(s, n);
    ReviveOne(RawMap(s), n, slot);
    RawKeys(s);
    ResultClosures(FoldMap(s), FoldMap(s + {e}), Raw(s, n), slot, n);
  }

  lemma ResultClosures(before: map<int, Slot>, after: map<int, Slot>, raw: Slot, slot: Slot, n: int)
    requires ClosuresOk(before) && n in before && before[n] == Revive(raw) && (forall k | k in before :: k <= n)
    requires SlotOk(raw) && raw.prepared.Some? && after == before[n := Revive(slot)]
    requires slot.prepared == raw.prepared && slot.claimed == raw.claimed && slot.aborted == raw.aborted && slot.terminal == raw.terminal
    ensures ClosuresOk(after)
  {
    PreparedNotEnded(raw);
    hide SlotOk;
    forall a | a in before && a != n ensures before[a].converged.None? && before[a].terminal.None? { assert !(n <= a); }
  }

  lemma RawKeys(s: set<Event>)
    ensures RawMap(s).Keys == Slots(s) && FoldMap(s).Keys == Slots(s)
  {}

  lemma PreparedNotEnded(slot: Slot)
    requires SlotOk(slot) && slot.prepared.Some?
    ensures Revive(slot).terminal.None?
  {}

  lemma RevivedEpisode(before: map<int, Slot>, after: map<int, Slot>, revived: Slot, n: int)
    requires ClosuresOk(before) && n in before && 1 <= n <= DRAIN_BUDGET && after == before[n := revived]
    requires forall k | k in before :: k <= n
    requires revived.claimed.Some? && revived.terminal.None? && revived.converged.None? && revived.aborted.None?
    requires before[n].claimed.Some? && before[n].converged.None?
    ensures ClosuresOk(after) && CursorOf(after).pendingSlot == Some(n)
  {
    RevivedClosures(before, revived, after, n);
    RevivedCursor(after, n);
  }

  lemma RevivedMap(s: set<Event>, op: Operation, n: int, body: PreparedBody)
    requires n in Slots(s) && Raw(s, n).aborted.Some? && Raw(s, n).prepared.None?
    requires Unique(s + {Make(op, n, CommitPrepared(body))})
    ensures FoldMap(s)[n] == Raw(s, n)
    ensures FoldMap(s + {Make(op, n, CommitPrepared(body))})
            == FoldMap(s)[n := RevivedSlot(Raw(s, n), Make(op, n, CommitPrepared(body)))]
  {
    var e := Make(op, n, CommitPrepared(body));
    FiledAfter(s, e);
    ReviveOne(RawMap(s), n, WithField(Raw(s, n), KPrepared, e));
    assert RawMap(s)[n] == Raw(s, n);
  }

  lemma ReviveOne(m: map<int, Slot>, n: int, slot: Slot)
    ensures ReviveAll(m[n := slot]) == ReviveAll(m)[n := Revive(slot)]
  {}

  function RevivedSlot(s: Slot, prepared: Event): Slot {
    s.(prepared := Some(prepared), staleAbort := s.aborted, staleTerminal := s.terminal, aborted := None, terminal := None)
  }

  lemma AddPrepared(s: set<Event>, op: Operation, n: int, body: PreparedBody)
    requires FoldOk(s) && n in Slots(s)
    requires forall e | e in s :: e.episode == EpisodeId(op)
    requires Raw(s, n).aborted.Some? && Raw(s, n).prepared.None?
    requires Binds(body, op)
    ensures var t := s + {Make(op, n, CommitPrepared(body))};
            Consistent(t) && SlotsOk(RawMap(t))
  {
    hide SlotOk, Binds, Consistent, RawMap;
    var e := Make(op, n, CommitPrepared(body));
    var slot := Raw(s, n);
    PreparedEventOk(s, op, n, body);
    assert Unique(s + {e}) by { ConsistentIsUnique(s + {e}); }
    FiledAfter(s, e);
    RawMapAt(s, n);
    PreparedSlotOk(slot, e);
  }

  lemma ConsistentIsUnique(s: set<Event>)
    requires Consistent(s)
    ensures Unique(s)
  {}

  lemma RawMapAt(s: set<Event>, n: int)
    requires n in Slots(s) && SlotsOk(RawMap(s))
    ensures n in RawMap(s) && RawMap(s)[n] == Raw(s, n) && SlotOk(Raw(s, n))
  {}

  lemma PreparedEventOk(s: set<Event>, op: Operation, n: int, body: PreparedBody)
    requires Consistent(s) && n in Slots(s) && Raw(s, n).prepared.None?
    requires forall e | e in s :: e.episode == EpisodeId(op)
    ensures Consistent(s + {Make(op, n, CommitPrepared(body))})
  {}

  /** A valid prepared event beside an abort, and beside that abort's terminal, is well-formed. */
  lemma PreparedSlotOk(slot: Slot, e: Event)
    requires SlotOk(slot) && slot.aborted.Some? && slot.prepared.None?
    requires e.payload.CommitPrepared? && Binds(e.payload.body, e.operation)
    ensures SlotOk(WithField(slot, KPrepared, e))
  {}

  lemma RevivedClosures(before: map<int, Slot>, revived: Slot, after: map<int, Slot>, n: int)
    requires after == before[n := revived]
    requires ClosuresOk(before) && n in before
    requires forall k | k in before :: k <= n
    requires revived.claimed.Some? && revived.terminal.None? && revived.converged.None?
    requires before[n].claimed.Some? && before[n].converged.None?
    ensures ClosuresOk(after)
    ensures forall k | k in after :: after[k].terminal.None? && after[k].converged.None?
  {
    assert forall k | k in before && k != n :: !(n <= k);
  }

  lemma RevivedCursor(m: map<int, Slot>, n: int)
    requires 1 <= n <= DRAIN_BUDGET && n in m && (forall k | k in m :: k <= n)
    requires m[n].claimed.Some? && m[n].aborted.None?
    requires forall k | k in m :: m[k].terminal.None? && m[k].converged.None?
    ensures CursorOf(m).pendingSlot == Some(n)
  {
    LastClaimedIs(m, n, DRAIN_BUDGET);
  }
}
