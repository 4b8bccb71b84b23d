/** The keyed serial queue: one job per key at a time, the newest waiting job wins, exact duplicates are dropped. */
module KeyedQueue {
  import opened Results

  const COMPLETED_TTL_MS := 15 * 60000
  const MAX_COMPLETED_PER_KEY := 64

  datatype Job = Job(key: string, dedupeKey: string, run: nat)

  /** A job whose code is running, or whose failure is being reported. */
  datatype Active = Active(job: Job, aborted: bool, reporting: bool)

  /** An entry of the insertion-ordered map of recent jobs. */
  datatype Recent = Recent(dedupeKey: string, at: int)

  datatype Slot = Slot(active: Option<Active>, pending: Option<Job>, scheduled: bool, dropWhenIdle: bool,
                       completed: seq<Recent>, idleWaiters: seq<nat>)

  const NEW_SLOT := Slot(None, None, false, false, [], [])

  datatype Stats = Stats(enqueued: nat, duplicate: nat, coalesced: nat, started: nat, completed: nat, cancelled: nat,
                         errors: nat, concurrent: nat, maxConcurrent: nat)

  type Slots = map<string, Slot>

  function SlotFor(slots: Slots, key: string): Slot { if key in slots then slots[key] else NEW_SLOT }

  predicate Idle(s: Slot) { s.active.None? && s.pending.None? && !s.scheduled }

  // ---------- recently completed jobs ----------

  predicate Fresh(r: Recent, now: int) { now - r.at <= COMPLETED_TTL_MS }

  function Unexpired(completed: seq<Recent>, now: int): (r: seq<Recent>)
    ensures |r| <= |completed|
    ensures forall e :: e in r <==> e in completed && Fresh(e, now)
  {
    if |completed| == 0 then []
    else
      var last := |completed| - 1;
      assert completed == completed[..last] + [completed[last]];
      Unexpired(completed[..last], now) + (if Fresh(completed[last], now) then [completed[last]] else [])
  }

  /** The newest `n` entries. */
  function Newest(completed: seq<Recent>, n: nat): seq<Recent> {
    if |completed| <= n then completed else completed[|completed| - n..]
  }

  function Pruned(completed: seq<Recent>, now: int): seq<Recent> {
    Newest(Unexpired(completed, now), MAX_COMPLETED_PER_KEY)
  }

  /** `pruneCompleted`: expired entries first, then the oldest beyond the limit. */
  method PruneCompleted(completed: seq<Recent>, now: int) returns (r: seq<Recent>)
    ensures r == Pruned(completed, now) && |r| <= MAX_COMPLETED_PER_KEY
  {
    r := DropExpired(completed, now);
    r := DropOldest(r);
  }

  method DropExpired(completed: seq<Recent>, now: int) returns (r: seq<Recent>)
    ensures r == Unexpired(completed, now)
  {
    r := [];
    for i := 0 to |completed|
      invariant r == Unexpired(completed[..i], now)
    {
      assert completed[..i + 1][..i] == completed[..i];
      if Fresh(completed[i], now) { r := r + [completed[i]]; }
    }
    assert completed[..|completed|] == completed;
  }

  method DropOldest(completed: seq<Recent>) returns (r: seq<Recent>)
    ensures r == Newest(completed, MAX_COMPLETED_PER_KEY)
  {
    r := completed;
    while |r| > MAX_COMPLETED_PER_KEY
      invariant |r| <= |completed| && r == completed[|completed| - |r|..]
      invariant |r| >= MAX_COMPLETED_PER_KEY || r == completed
    {
      r := r[1..];
    }
  }

  /** `completed.set`: an entry already there keeps its place. */
  function SetCompleted(completed: seq<Recent>, key: string, now: int): seq<Recent> {
    if |completed| == 0 then [Recent(key, now)]
    else if completed[0].dedupeKey == key then [Recent(key, now)] + completed[1..]
    else [completed[0]] + SetCompleted(completed[1..], key, now)
  }

  predicate HasCompleted(completed: seq<Recent>, key: string) {
    exists i | 0 <= i < |completed| :: completed[i].dedupeKey == key
  }

  /** The exact job is running, waiting or recently done. */
  predicate Known(s: Slot, completed: seq<Recent>, job: Job) {
    || (s.active.Some? && s.active.value.job.dedupeKey == job.dedupeKey)
    || (s.pending.Some? && s.pending.value.dedupeKey == job.dedupeKey)
    || HasCompleted(completed, job.dedupeKey)
  }

  // ---------- counting keys ----------

  function KeysWhere(slots: Slots, p: Slot -> bool): set<string> { set k | k in slots && p(slots[k]) }

  function IsActive(): Slot -> bool { (s: Slot) => s.active.Some? }

  function IsPending(): Slot -> bool { (s: Slot) => s.pending.Some? }

  /** Started, and its promise not settled yet. */
  function IsRunning(): Slot -> bool { (s: Slot) => s.active.Some? && !s.active.value.reporting }

  /** Math.max(0, n - 1). */
  function OneLess(n: nat): nat { if n > 0 then n - 1 else 0 }

  function One(b: bool): nat { if b then 1 else 0 }

  lemma CountUpdate(slots: Slots, key: string, s: Slot, p: Slot -> bool)
    requires !p(NEW_SLOT)
    ensures |KeysWhere(slots[key := s], p)| + One(p(SlotFor(slots, key))) == |KeysWhere(slots, p)| + One(p(s))
  {
    var before, after := KeysWhere(slots, p), KeysWhere(slots[key := s], p);
    assert key in before <==> p(SlotFor(slots, key));
    assert key in after <==> p(s);
    assert after - {key} == before - {key};
    assert |after - {key}| == |after| - One(key in after) && |before - {key}| == |before| - One(key in before);
  }

  lemma CountRemove(slots: Slots, key: string, p: Slot -> bool)
    requires key in slots && !p(slots[key])
    ensures |KeysWhere(slots - {key}, p)| == |KeysWhere(slots, p)|
  {
    assert KeysWhere(slots - {key}, p) == KeysWhere(slots, p);
  }

  // ---------- the invariant ----------

  predicate SlotOk(s: Slot) {
    && (s.pending.Some? ==> s.active.Some? || s.scheduled)
    && !(s.active.Some? && s.scheduled)
    && (s.idleWaiters != [] ==> !Idle(s))
    && (Idle(s) ==> s.completed != [])
    && |s.completed| <= MAX_COMPLETED_PER_KEY
  }

  /** The slot record after `settleSlot`; None when the key is dropped. */
  function Settled(s: Slot, now: int): Option<Slot> {
    if !Idle(s) then Some(s)
    else
      var kept := Pruned(if s.dropWhenIdle then [] else s.completed, now);
      if kept == [] then None else Some(s.(idleWaiters := [], completed := kept))
  }

  function PutSlot(slots: Slots, key: string, s: Option<Slot>): Slots {
    if s.Some? then slots[key := s.value] else slots - {key}
  }

  /** The whole state; `released` are the waiters that were told, `dropped` the waiting jobs a cancel discarded. */
  datatype Queue = Queue(slots: Slots, stats: Stats, released: set<nat>, nextWaiter: nat, dropped: nat)

  /** Every enqueued job is accounted for, and the counters count. */
  ghost predicate Conserved(q: Queue) {
    && q.stats.enqueued == q.stats.duplicate + q.stats.coalesced + q.stats.started + |KeysWhere(q.slots, IsPending())| + q.dropped
    && q.stats.started == q.stats.completed + q.stats.errors + |KeysWhere(q.slots, IsRunning())|
    && q.stats.concurrent == |KeysWhere(q.slots, IsActive())| <= q.stats.maxConcurrent
  }

  ghost predicate Waits(slots: Slots, w: nat) {
    exists k | k in slots :: w in slots[k].idleWaiters
  }

  /** Every waiter has been told or waits on a key that is not idle. */
  ghost predicate NobodyForgotten(q: Queue) {
    && (forall w | 0 <= w < q.nextWaiter :: w in q.released || Waits(q.slots, w))
    && (forall k, w | k in q.slots && w in q.slots[k].idleWaiters :: w < q.nextWaiter)
  }

  ghost predicate SlotsOk(slots: Slots) {
    forall k | k in slots :: SlotOk(slots[k])
  }

  ghost predicate QueueOk(q: Queue) {
    SlotsOk(q.slots) && Conserved(q) && NobodyForgotten(q)
  }

  /** The effect of a change of one slot on the three counts. */
  lemma CountsAfter(slots: Slots, key: string, s: Slot)
    ensures |KeysWhere(slots[key := s], IsPending())| + One(SlotFor(slots, key).pending.Some?) == |KeysWhere(slots, IsPending())| + One(s.pending.Some?)
    ensures |KeysWhere(slots[key := s], IsActive())| + One(SlotFor(slots, key).active.Some?) == |KeysWhere(slots, IsActive())| + One(s.active.Some?)
    ensures |KeysWhere(slots[key := s], IsRunning())| + One(Running(SlotFor(slots, key))) == |KeysWhere(slots, IsRunning())| + One(Running(s))
  {
    CountUpdate(slots, key, s, IsPending());
    CountUpdate(slots, key, s, IsActive());
    CountUpdate(slots, key, s, IsRunning());
  }

  predicate Running(s: Slot) { s.active.Some? && !s.active.value.reporting }

  /** Settling changes no count. */
  lemma SettleKeepsCounts(q: Queue, key: string, now: int)
    requires key in q.slots && Conserved(q)
    ensures Conserved(q.(slots := PutSlot(q.slots, key, Settled(q.slots[key], now))))
  {
    var s := q.slots[key];
    if Idle(s) {
      if Settled(s, now).Some? {
        CountsAfter(q.slots, key, Settled(s, now).value);
      } else {
        CountRemove(q.slots, key, IsPending());
        CountRemove(q.slots, key, IsActive());
        CountRemove(q.slots, key, IsRunning());
      }
    } else {
      assert q.slots[key := s] == q.slots;
    }
  }

  /** The waiters of the slot, who are told when it is idle. */
  function ToTell(s: Slot): set<nat> { if Idle(s) then (set w | w in s.idleWaiters) else {} }

  function SettledQueue(q: Queue, key: string, now: int): Queue
    requires key in q.slots
  {
    q.(slots := PutSlot(q.slots, key, Settled(q.slots[key], now)), released := q.released + ToTell(q.slots[key]))
  }

  /** Settling one slot restores the invariant. */
  lemma SettleKeeps(q: Queue, key: string, now: int)
    requires key in q.slots && Conserved(q) && NobodyForgotten(q)
    requires forall k | k in q.slots && k != key :: SlotOk(q.slots[k])
    requires Idle(q.slots[key]) || SlotOk(q.slots[key])
    ensures QueueOk(SettledQueue(q, key, now))
  {
    hide Conserved, IsPending, IsActive, IsRunning;
    var next := SettledQueue(q, key, now);
    SettleKeepsCounts(q, key, now);
    SameCounts(q.(slots := next.slots), next);
    assert next.slots == if Settled(q.slots[key], now).Some? then q.slots[key := Settled(q.slots[key], now).value] else q.slots - {key};
    forall w | 0 <= w < next.nextWaiter && w !in next.released ensures Waits(next.slots, w) {
      var k :| k in q.slots && w in q.slots[k].idleWaiters;
      assert k in next.slots && w in next.slots[k].idleWaiters;
    }
  }

  lemma SameCounts(p: Queue, q: Queue)
    requires Conserved(p) && q.slots == p.slots && q.stats == p.stats && q.dropped == p.dropped
    ensures Conserved(q)
  {}

  // ---------- what each operation does ----------

  function WithSlot(q: Queue, key: string, s: Slot): Queue { q.(slots := q.slots[key := s]) }

  /** A wake-up is due when a job waits and none runs. */
  function Scheduled(s: Slot): Slot {
    if s.active.Some? || s.scheduled || s.pending.None? then s else s.(scheduled := true)
  }

  /** After `enqueueKeyedDetached`. */
  function EnqueuedQueue(q: Queue, job: Job, now: int): Queue {
    var prior := SlotFor(q.slots, job.key);
    var s := prior.(dropWhenIdle := false, completed := Pruned(prior.completed, now));
    var counted := q.stats.(enqueued := q.stats.enqueued + 1);
    if Known(s, s.completed, job) then WithSlot(q, job.key, s).(stats := counted.(duplicate := counted.duplicate + 1))
    else WithSlot(q, job.key, Scheduled(s.(pending := Some(job)))).(stats := counted.(coalesced := counted.coalesced + One(s.pending.Some?)))
  }

  /** After the wake-up of a key: its waiting job starts, or the slot settles. */
  function FiredQueue(q: Queue, key: string, now: int): Queue
    requires key in q.slots
  {
    var s := q.slots[key].(scheduled := false);
    if s.active.Some? || s.pending.None? then SettledQueue(WithSlot(q, key, s), key, now)
    else
      var running := q.stats.concurrent + 1;
      WithSlot(q, key, s.(pending := None, active := Some(Active(s.pending.value, false, false))))
      .(stats := q.stats.(started := q.stats.started + 1, concurrent := running,
                          maxConcurrent := if q.stats.maxConcurrent > running then q.stats.maxConcurrent else running))
  }

  /** After the last part of `runNext`: the job is recent, the next wake-up is due, the slot settles. */
  function FinishedQueue(q: Queue, key: string, now: int): Queue
    requires key in q.slots && q.slots[key].active.Some?
  {
    var prior := q.slots[key];
    var s := prior.(active := None, completed := Pruned(SetCompleted(prior.completed, prior.active.value.job.dedupeKey, now), now));
    SettledQueue(WithSlot(q, key, Scheduled(s)).(stats := q.stats.(concurrent := OneLess(q.stats.concurrent))), key, now)
  }

  /** The job's promise is fulfilled. */
  function ResolvedQueue(q: Queue, key: string, now: int): Queue
    requires key in q.slots && q.slots[key].active.Some?
  {
    FinishedQueue(q.(stats := q.stats.(completed := q.stats.completed + 1)), key, now)
  }

  /** The job's promise is rejected, and its error goes to the reporter. */
  function RejectedQueue(q: Queue, key: string): Queue
    requires key in q.slots && q.slots[key].active.Some?
  {
    var s := q.slots[key];
    WithSlot(q, key, s.(active := Some(s.active.value.(reporting := true)))).(stats := q.stats.(errors := q.stats.errors + 1))
  }

  /** After `cancelKeyedDetached` on a key that has a slot. */
  function CancelledQueue(q: Queue, key: string, now: int): Queue
    requires key in q.slots
  {
    var prior := q.slots[key];
    var s := prior.(dropWhenIdle := true, completed := [], pending := None,
                   active := if prior.active.Some? then Some(prior.active.value.(aborted := true)) else None);
    var next := WithSlot(q, key, s).(dropped := q.dropped + One(prior.pending.Some?),
                                     stats := q.stats.(cancelled := q.stats.cancelled + One(Changes(prior))));
    SettledQueue(next, key, now)
  }

  predicate Changes(s: Slot) { s.pending.Some? || (s.active.Some? && !s.active.value.aborted) }

  /** After `waitForKeyedDetachedIdle` on a key that is not idle. */
  function WaitingQueue(q: Queue, key: string): Queue
    requires key in q.slots
  {
    var s := q.slots[key];
    WithSlot(q, key, s.(idleWaiters := s.idleWaiters + [q.nextWaiter])).(nextWaiter := q.nextWaiter + 1)
  }

  // ---------- every operation keeps the invariant ----------

  /** Changing one slot without touching its waiters forgets nobody. */
  lemma WaitersStay(q: Queue, key: string, s: Slot)
    requires NobodyForgotten(q) && s.idleWaiters == SlotFor(q.slots, key).idleWaiters
    ensures NobodyForgotten(WithSlot(q, key, s))
  {
    forall w | 0 <= w < q.nextWaiter && w !in q.released ensures Waits(q.slots[key := s], w) {
      var k :| k in q.slots && w in q.slots[k].idleWaiters;
      assert k in q.slots[key := s] && w in q.slots[key := s][k].idleWaiters;
    }
  }

  lemma NoneForgotten(p: Queue, q: Queue)
    requires NobodyForgotten(p) && q.slots == p.slots && q.released == p.released && q.nextWaiter == p.nextWaiter
    ensures NobodyForgotten(q)
  {}

  lemma EnqueueKeeps(q: Queue, job: Job, now: int)
    requires QueueOk(q)
    ensures QueueOk(EnqueuedQueue(q, job, now))
  {
    hide NobodyForgotten, IsPending, IsActive, IsRunning, Waits, Pruned;
    var next := EnqueuedQueue(q, job, now);
    var s := next.slots[job.key];
    PrunedShort(SlotFor(q.slots, job.key).completed, now);
    WaitersStay(q, job.key, s);
    NoneForgotten(WithSlot(q, job.key, s), next);
    CountsAfter(q.slots, job.key, s);
    assert SlotOk(s);
  }

  lemma PrunedShort(completed: seq<Recent>, now: int)
    ensures |Pruned(completed, now)| <= MAX_COMPLETED_PER_KEY
  {}

  lemma StartKeeps(q: Queue, key: string, now: int)
    requires QueueOk(q) && key in q.slots && q.slots[key].scheduled && q.slots[key].pending.Some?
    ensures QueueOk(FiredQueue(q, key, now))
  {
    hide NobodyForgotten, IsPending, IsActive, IsRunning, Waits, Pruned;
    var next := FiredQueue(q, key, now);
    assert SlotOk(q.slots[key]);
    WaitersStay(q, key, next.slots[key]);
    NoneForgotten(WithSlot(q, key, next.slots[key]), next);
    CountsAfter(q.slots, key, next.slots[key]);
  }

  /** A change that leaves the slot idle or sound, with the counts in order, may be settled. */
  lemma ReadyToSettle(q: Queue, key: string, s: Slot, stats: Stats, dropped: nat)
    requires QueueOk(q) && key in q.slots && s.idleWaiters == q.slots[key].idleWaiters
    requires Conserved(WithSlot(q, key, s).(stats := stats, dropped := dropped))
    requires Idle(s) || SlotOk(s)
    ensures forall now :: QueueOk(SettledQueue(WithSlot(q, key, s).(stats := stats, dropped := dropped), key, now))
  {
    var next := WithSlot(q, key, s).(stats := stats, dropped := dropped);
    WaitersStay(q, key, s);
    NoneForgotten(WithSlot(q, key, s), next);
    forall now ensures QueueOk(SettledQueue(next, key, now)) { SettleKeeps(next, key, now); }
  }

  lemma FireKeeps(q: Queue, key: string, now: int)
    requires QueueOk(q) && key in q.slots && q.slots[key].scheduled
    ensures QueueOk(FiredQueue(q, key, now))
  {
    hide NobodyForgotten, IsPending, IsActive, IsRunning, Waits, Settled;
    assert SlotOk(q.slots[key]);
    if q.slots[key].pending.Some? {
      StartKeeps(q, key, now);
    } else {
      var s := q.slots[key].(scheduled := false);
      CountsAfter(q.slots, key, s);
      ReadyToSettle(q, key, s, q.stats, q.dropped);
    }
  }

  lemma FinishKeeps(q: Queue, key: string, now: int, stats: Stats)
    requires QueueOk(q) && key in q.slots && q.slots[key].active.Some?
    requires stats == if q.slots[key].active.value.reporting then q.stats else q.stats.(completed := q.stats.completed + 1)
    ensures QueueOk(FinishedQueue(q.(stats := stats), key, now))
  {
    hide NobodyForgotten, IsPending, IsActive, IsRunning, Waits, Settled, Pruned;
    var prior := q.slots[key];
    assert SlotOk(prior);
    var completed := SetCompleted(prior.completed, prior.active.value.job.dedupeKey, now);
    PrunedShort(completed, now);
    var s := Scheduled(prior.(active := None, completed := Pruned(completed, now)));
    CountsAfter(q.slots, key, s);
    ReadyToSettle(q, key, s, stats.(concurrent := OneLess(stats.concurrent)), q.dropped);
  }

  lemma RejectKeeps(q: Queue, key: string)
    requires QueueOk(q) && key in q.slots && Running(q.slots[key])
    ensures QueueOk(RejectedQueue(q, key))
  {
    hide NobodyForgotten, IsPending, IsActive, IsRunning, Waits;
    var next := RejectedQueue(q, key);
    assert SlotOk(q.slots[key]);
    WaitersStay(q, key, next.slots[key]);
    NoneForgotten(WithSlot(q, key, next.slots[key]), next);
    CountsAfter(q.slots, key, next.slots[key]);
  }

  lemma WaitKeeps(q: Queue, key: string)
    requires QueueOk(q) && key in q.slots && !Idle(q.slots[key])
    ensures QueueOk(WaitingQueue(q, key))
  {
    hide IsPending, IsActive, IsRunning;
    var next := WaitingQueue(q, key);
    CountsAfter(q.slots, key, next.slots[key]);
    assert SlotOk(q.slots[key]);
    forall w | 0 <= w < next.nextWaiter && w !in next.released ensures Waits(next.slots, w) {
      if w == q.nextWaiter {
        assert w in next.slots[key].idleWaiters;
      } else {
        var k :| k in q.slots && w in q.slots[k].idleWaiters;
        assert k in next.slots && w in next.slots[k].idleWaiters;
      }
    }
  }

  class KeyedDetachedQueue {
    var slots: Slots
    var stats: Stats
    var released: set<nat>
    var nextWaiter: nat
    ghost var dropped: nat

    constructor ()
      ensures QueueOk(Now()) && slots == map[] && stats == Stats(0, 0, 0, 0, 0, 0, 0, 0, 0)
    {
      slots, stats, released, nextWaiter, dropped := map[], Stats(0, 0, 0, 0, 0, 0, 0, 0, 0), {}, 0, 0;
      new;
      assert KeysWhere(slots, IsActive()) == KeysWhere(slots, IsPending()) == KeysWhere(slots, IsRunning()) == {};
    }

    ghost function Now(): Queue
      reads this
    {
      Queue(slots, stats, released, nextWaiter, dropped)
    }

    /** `settleSlot`: an idle slot releases its waiters, and goes when nothing recent is left in it. */
    method SettleSlot(key: string, now: int)
      requires key in slots && Conserved(Now()) && NobodyForgotten(Now())
      requires forall k | k in slots && k != key :: SlotOk(slots[k])
      requires Idle(slots[key]) || SlotOk(slots[key])
      modifies `slots, `released
      ensures QueueOk(Now()) && Now() == SettledQueue(old(Now()), key, now)
    {
      hide Conserved, NobodyForgotten, SlotsOk, SlotOk, Pruned;
      SettleKeeps(Now(), key, now);
      var slot := slots[key];
      if slot.active.Some? || slot.pending.Some? || slot.scheduled {
        assert slots[key := slot] == slots;
        return;
      }
      released := released + (set w | w in slot.idleWaiters);
      slot := slot.(idleWaiters := []);
      var kept := PruneCompleted(if slot.dropWhenIdle then [] else slot.completed, now);
      slot := slot.(completed := kept);
      slots := if kept == [] then slots - {key} else slots[key := slot];
    }

    /** `enqueueKeyedDetached`: false exactly for a job already known. */
    method Enqueue(job: Job, now: int) returns (accepted: bool)
      requires QueueOk(Now())
      modifies `slots, `stats
      ensures QueueOk(Now()) && Now() == EnqueuedQueue(old(Now()), job, now)
      ensures accepted <==> !Known(SlotFor(old(slots), job.key), Pruned(SlotFor(old(slots), job.key).completed, now), job)
      ensures accepted ==> job.key in slots && slots[job.key].pending == Some(job) && (slots[job.key].active.Some? || slots[job.key].scheduled)
      ensures !accepted ==> SlotFor(slots, job.key).pending == SlotFor(old(slots), job.key).pending
      ensures SlotFor(slots, job.key).active == SlotFor(old(slots), job.key).active
      ensures forall k | k != job.key :: SlotFor(slots, k) == SlotFor(old(slots), k)
      ensures var prior := SlotFor(old(slots), job.key);
              || (prior.active.Some? && prior.active.value.job.dedupeKey == job.dedupeKey)
              || (prior.pending.Some? && prior.pending.value.dedupeKey == job.dedupeKey)
              || (|prior.completed| <= 64 && exists e | e in prior.completed :: e.dedupeKey == job.dedupeKey && now - e.at <= 900000) ==>
                !accepted
      ensures var prior := SlotFor(old(slots), job.key);
              && (prior.active.Some? ==> prior.active.value.job.dedupeKey != job.dedupeKey)
              && (prior.pending.Some? ==> prior.pending.value.dedupeKey != job.dedupeKey)
              && (forall e | e in prior.completed :: e.dedupeKey != job.dedupeKey || now - e.at > 900000) ==>
                accepted
    {
      PrunedRecent(SlotFor(slots, job.key).completed, job.dedupeKey, now);
      hide QueueOk, Pruned;
      EnqueueKeeps(Now(), job, now);
      var slot := SlotFor(slots, job.key).(dropWhenIdle := false);
      var kept := PruneCompleted(slot.completed, now);
      slot := slot.(completed := kept);
      stats := stats.(enqueued := stats.enqueued + 1);
      if Known(slot, slot.completed, job) {
        stats := stats.(duplicate := stats.duplicate + 1);
        slots := slots[job.key := slot];
        return false;
      }
      if slot.pending.Some? { stats := stats.(coalesced := stats.coalesced + 1); }
      slot := Scheduled(slot.(pending := Some(job)));
      slots := slots[job.key := slot];
      accepted := true;
    }

    /** The wake-up set by `schedule`: it exists exactly while the slot says so. */
    method Fire(key: string, now: int)
      requires QueueOk(Now()) && key in slots && slots[key].scheduled
      modifies `slots, `stats, `released
      ensures QueueOk(Now()) && Now() == FiredQueue(old(Now()), key, now)
      ensures old(slots[key]).active.None? && old(slots[key]).pending.Some? ==>
                && key in slots && slots[key].active == Some(Active(old(slots[key]).pending.value, false, false))
                && slots[key].pending.None? && !slots[key].scheduled
    {
      hide Settled, Pruned, Conserved, NobodyForgotten;
      ghost var before := Now();
      FireKeeps(before, key, now);
      var slot := slots[key].(scheduled := false);
      assert SlotOk(slots[key]);
      slots := slots[key := slot];
      if slot.active.Some? || slot.pending.None? {
        FireReady(before, key);
        SettleSlot(key, now);
        return;
      }
      slot := slot.(pending := None, active := Some(Active(slot.pending.value, false, false)));
      var running := stats.concurrent + 1;
      stats := stats.(started := stats.started + 1, concurrent := running,
                      maxConcurrent := if stats.maxConcurrent > running then stats.maxConcurrent else running);
      slots := slots[key := slot];
      assert before.slots[key := before.slots[key].(scheduled := false)][key := slot] == before.slots[key := slot];
    }

    /** The job of a key is fulfilled. */
    method Resolve(key: string, now: int)
      requires QueueOk(Now()) && key in slots && Running(slots[key])
      modifies `slots, `stats, `released
      ensures QueueOk(Now()) && Now() == ResolvedQueue(old(Now()), key, now)
    {
      hide FinishedQueue, Conserved, NobodyForgotten, SlotsOk;
      FinishKeeps(Now(), key, now, stats.(completed := stats.completed + 1));
      Finish(key, now, stats.(completed := stats.completed + 1));
    }

    /** The job of a key is rejected; its reporter runs. */
    method Reject(key: string)
      requires QueueOk(Now()) && key in slots && Running(slots[key])
      modifies `slots, `stats
      ensures QueueOk(Now()) && Now() == RejectedQueue(old(Now()), key)
    {
      hide QueueOk;
      RejectKeeps(Now(), key);
      var active := slots[key].active.value;
      stats := stats.(errors := stats.errors + 1);
      slots := slots[key := slots[key].(active := Some(active.(reporting := true)))];
    }

    /** The reporter of a rejected job is done. */
    method Reported(key: string, now: int)
      requires QueueOk(Now()) && key in slots && slots[key].active.Some? && slots[key].active.value.reporting
      modifies `slots, `stats, `released
      ensures QueueOk(Now()) && Now() == FinishedQueue(old(Now()), key, now)
    {
      hide FinishedQueue, Conserved, NobodyForgotten, SlotsOk;
      FinishKeeps(Now(), key, now, stats);
      Finish(key, now, stats);
    }

    /** The last part of `runNext`. */
    method Finish(key: string, now: int, counted: Stats)
      requires QueueOk(Now()) && key in slots && slots[key].active.Some?
      requires counted == if slots[key].active.value.reporting then stats else stats.(completed := stats.completed + 1)
      modifies `slots, `stats, `released
      ensures QueueOk(Now()) && Now() == FinishedQueue(old(Now()).(stats := counted), key, now)
    {
      hide Settled, Pruned, Conserved, NobodyForgotten;
      ghost var before := Now();
      var slot := slots[key];
      var completed := SetCompleted(slot.completed, slot.active.value.job.dedupeKey, now);
      var kept := PruneCompleted(completed, now);
      slot := Scheduled(slot.(active := None, completed := kept));
      FinishReady(before, key, slot, counted);
      stats := counted.(concurrent := OneLess(counted.concurrent));
      slots := slots[key := slot];
      SettleSlot(key, now);
    }

    /** `cancelKeyedDetached`. */
    method Cancel(key: string, now: int) returns (changed: bool)
      requires QueueOk(Now())
      modifies `slots, `stats, `released, `dropped
      ensures QueueOk(Now())
      ensures key !in old(slots) ==> !changed && Now() == old(Now())
      ensures key in old(slots) ==> changed == Changes(old(slots[key])) && Now() == CancelledQueue(old(Now()), key, now)
    {
      hide Settled, Pruned, Conserved, NobodyForgotten;
      if key !in slots { return false; }
      ghost var before := Now();
      changed := false;
      var slot := slots[key].(dropWhenIdle := true, completed := []);
      if slot.pending.Some? {
        slot := slot.(pending := None);
        dropped := dropped + 1;
        changed := true;
      }
      if slot.active.Some? && !slot.active.value.aborted {
        slot := slot.(active := Some(slot.active.value.(aborted := true)));
        changed := true;
      }
      if changed { stats := stats.(cancelled := stats.cancelled + 1); }
      slots := slots[key := slot];
      CancelReady(before, key, slot);
      SettleSlot(key, now);
    }

    /** `waitForKeyedDetachedIdle` for one key: None when there is nothing to wait for. */
    method WaitForIdle(key: string) returns (waiter: Option<nat>)
      requires QueueOk(Now())
      modifies `slots, `nextWaiter
      ensures QueueOk(Now())
      ensures waiter.None? <==> Idle(SlotFor(old(slots), key))
      ensures Now() == if waiter.None? then old(Now()) else WaitingQueue(old(Now()), key)
      ensures waiter.Some? ==> waiter.value == old(nextWaiter) && waiter.value in slots[key].idleWaiters
    {
      hide QueueOk;
      if key !in slots || Idle(slots[key]) { return None; }
      WaitKeeps(Now(), key);
      waiter := Some(nextWaiter);
      slots := slots[key := slots[key].(idleWaiters := slots[key].idleWaiters + [nextWaiter])];
      nextWaiter := nextWaiter + 1;
    }

    /** Everyone listed has been told. */
    ghost predicate Told(waiters: seq<nat>)
      reads this
    {
      forall w | w in waiters :: w in released
    }

    /** The next event of a key that is not at rest; `fails` says how a job that is running ends. */
    method NextEvent(key: string, now: int, fails: bool)
      requires QueueOk(Now()) && !Idle(SlotFor(slots, key))
      modifies `slots, `stats, `released
      ensures QueueOk(Now()) && EventsLeft(SlotFor(slots, key)) < EventsLeft(SlotFor(old(slots), key))
      ensures if Idle(SlotFor(slots, key)) then Told(SlotFor(old(slots), key).idleWaiters)
              else SlotFor(slots, key).idleWaiters == SlotFor(old(slots), key).idleWaiters
      ensures forall k | k != key :: SlotFor(slots, k) == SlotFor(old(slots), k)
    {
      hide Conserved, NobodyForgotten, Pruned, SetCompleted;
      assert SlotOk(slots[key]);
      if slots[key].scheduled {
        Fire(key, now);
      } else if slots[key].active.value.reporting {
        Reported(key, now);
      } else if fails {
        Reject(key);
      } else {
        Resolve(key, now);
      }
    }

    /** With no new work for a key, its wake-up and its jobs coming to an end, well or badly, bring it to rest after at
        most five events, and then everyone who waited for it has been told. */
    method DrainKey(key: string, now: int, fails: nat -> bool) returns (events: nat)
      requires QueueOk(Now())
      modifies `slots, `stats, `released
      ensures QueueOk(Now()) && Idle(SlotFor(slots, key)) && events <= 5
      ensures forall w | w in SlotFor(old(slots), key).idleWaiters :: w in released
      ensures forall k | k != key :: SlotFor(slots, k) == SlotFor(old(slots), k)
    {
      hide QueueOk;
      events := 0;
      NobodyAtRest(Now(), key);
      ghost var waiters := SlotFor(slots, key).idleWaiters;
      while !Idle(SlotFor(slots, key))
        invariant QueueOk(Now()) && events + EventsLeft(SlotFor(slots, key)) <= 5
        invariant if Idle(SlotFor(slots, key)) then Told(waiters) else SlotFor(slots, key).idleWaiters == waiters
        invariant forall k | k != key :: SlotFor(slots, k) == SlotFor(old(slots), k)
        decreases EventsLeft(SlotFor(slots, key))
      {
        NextEvent(key, now, fails(events));
        events := events + 1;
      }
    }
  }

  /** Up to the limit, pruning keeps exactly the jobs done in the last fifteen minutes. */
  lemma PrunedRecent(completed: seq<Recent>, dedupeKey: string, now: int)
    ensures HasCompleted(Pruned(completed, now), dedupeKey) ==> exists e | e in completed :: e.dedupeKey == dedupeKey && now - e.at <= 900000
    ensures |completed| <= 64 && (exists e | e in completed :: e.dedupeKey == dedupeKey && now - e.at <= 900000) ==>
              HasCompleted(Pruned(completed, now), dedupeKey)
  {
    var kept := Pruned(completed, now);
    forall i | 0 <= i < |kept| ensures kept[i] in completed && Fresh(kept[i], now) { assert kept[i] in Unexpired(completed, now); }
    if |completed| <= 64 {
      forall e | e in completed && Fresh(e, now) ensures e in kept {}
    }
  }

  lemma NobodyAtRest(q: Queue, key: string)
    requires QueueOk(q)
    ensures Idle(SlotFor(q.slots, key)) ==> SlotFor(q.slots, key).idleWaiters == []
    ensures EventsLeft(SlotFor(q.slots, key)) <= 5
  {}

  /** Events until a slot is at rest, at most: a running job may be rejected and reported, and a waiting one still has
      such a run ahead of it, and perhaps its wake-up. */
  function EventsLeft(s: Slot): nat {
    One(s.scheduled) + RunLeft(s) + if s.pending.Some? then (if s.scheduled then 2 else 3) else 0
  }

  function RunLeft(s: Slot): nat {
    if s.active.None? then 0 else if s.active.value.reporting then 1 else 2
  }

  lemma FireReady(q: Queue, key: string)
    requires QueueOk(q) && key in q.slots && q.slots[key].scheduled && q.slots[key].pending.None?
    ensures var next := WithSlot(q, key, q.slots[key].(scheduled := false));
            Conserved(next) && NobodyForgotten(next) && Idle(next.slots[key])
  {
    hide IsPending, IsActive, IsRunning, NobodyForgotten;
    var s := q.slots[key].(scheduled := false);
    assert SlotOk(q.slots[key]);
    CountsAfter(q.slots, key, s);
    WaitersStay(q, key, s);
  }

  lemma FinishReady(q: Queue, key: string, s: Slot, counted: Stats)
    requires QueueOk(q) && key in q.slots && q.slots[key].active.Some?
    requires counted == if q.slots[key].active.value.reporting then q.stats else q.stats.(completed := q.stats.completed + 1)
    requires |s.completed| <= MAX_COMPLETED_PER_KEY && s == Scheduled(q.slots[key].(active := None, completed := s.completed))
    ensures var next := WithSlot(q, key, s).(stats := counted.(concurrent := OneLess(counted.concurrent)));
            Conserved(next) && NobodyForgotten(next) && (Idle(s) || SlotOk(s))
  {
    hide IsPending, IsActive, IsRunning, NobodyForgotten;
    var next := WithSlot(q, key, s).(stats := counted.(concurrent := OneLess(counted.concurrent)));
    assert SlotOk(q.slots[key]);
    CountsAfter(q.slots, key, s);
    WaitersStay(q, key, s);
    NoneForgotten(WithSlot(q, key, s), next);
  }

  lemma CancelReady(q: Queue, key: string, s: Slot)
    requires QueueOk(q) && key in q.slots
    requires s == q.slots[key].(dropWhenIdle := true, completed := [], pending := None,
                                active := if q.slots[key].active.Some? then Some(q.slots[key].active.value.(aborted := true)) else None)
    ensures var next := WithSlot(q, key, s).(dropped := q.dropped + One(q.slots[key].pending.Some?),
                                             stats := q.stats.(cancelled := q.stats.cancelled + One(Changes(q.slots[key]))));
            Conserved(next) && NobodyForgotten(next) && (Idle(s) || SlotOk(s))
  {
    hide IsPending, IsActive, IsRunning, NobodyForgotten;
    var next := WithSlot(q, key, s).(dropped := q.dropped + One(q.slots[key].pending.Some?),
                                     stats := q.stats.(cancelled := q.stats.cancelled + One(Changes(q.slots[key]))));
    assert SlotOk(q.slots[key]);
    CountsAfter(q.slots, key, s);
    WaitersStay(q, key, s);
    NoneForgotten(WithSlot(q, key, s), next);
  }

  // ---------- whole runs ----------

  /** One event: a caller's, or the event loop's. */
  datatype Step =
    | Enqueuing(job: Job) | WakingUp(key: string) | Fulfilled(key: string) | Failed(key: string) | ErrorReported(key: string)
    | Cancelling(key: string) | Waiting(key: string)

  /** In any run, events in any order and at any times, every job is accounted for, a waiting job has a run or a
      wake-up ahead of it, and nobody waits for a key at rest. Events that cannot occur are passed over. */
  method Run(queue: KeyedDetachedQueue, steps: seq<(Step, int)>)
    requires QueueOk(queue.Now())
    modifies queue
    ensures QueueOk(queue.Now())
  {
    hide QueueOk, Known;
    for i := 0 to |steps|
      invariant QueueOk(queue.Now())
    {
      var (step, now) := steps[i];
      match step {
        case Enqueuing(job) => var _ := queue.Enqueue(job, now);
        case WakingUp(key) => if key in queue.slots && queue.slots[key].scheduled { queue.Fire(key, now); }
        case Fulfilled(key) => if key in queue.slots && Running(queue.slots[key]) { queue.Resolve(key, now); }
        case Failed(key) => if key in queue.slots && Running(queue.slots[key]) { queue.Reject(key); }
        case ErrorReported(key) =>
          if key in queue.slots && queue.slots[key].active.Some? && queue.slots[key].active.value.reporting { queue.Reported(key, now); }
        case Cancelling(key) => var _ := queue.Cancel(key, now);
        case Waiting(key) => var _ := queue.WaitForIdle(key);
      }
    }
  }
}
