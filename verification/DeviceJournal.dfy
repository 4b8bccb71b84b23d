/** The journalled transition of HEAD, worktree and index to a prepared join. The worktree is the map of its leaves;
    directories are implied by them, and what its links lead to is known through `Links`. */
module DeviceJournal {
  import opened Order
  import opened Results
  import opened Git
  import opened CohortIndex
  import opened DeviceMerge
  import opened DevicePrepare
  import opened DeviceOrder
  import opened DeviceLinks
  import opened DeviceGuard

  datatype Journal = Journal(base: Commit, localHead: Commit, upstreamHead: Commit, candidate: Commit, delta: seq<Item>)

  /** Whether the recovery gate lets a device join move the ref, and who commits in between. */
  datatype JoinEnv = JoinEnv(gateOpen: bool, outside: Option<Commit>)

  /** Where HEAD is once the others have committed: they only add to its history. */
  function Committed(head: Commit, outside: Option<Commit>): Commit {
    if outside.Some? && IsAncestor(head, outside.value) then outside.value else head
  }

  /** One run of the recovery: the durable writes it makes before it dies, whether the gate is open, and who commits
      before the compare-and-set. */
  datatype Life = Life(fuel: nat, gateOpen: bool, outside: Option<Commit>)

  /** How many of the runs find the gate open and make at least `n` durable writes. */
  function LongLives(lives: seq<Life>, n: nat): nat {
    if |lives| == 0 then 0
    else LongLives(lives[..|lives| - 1], n) + if lives[|lives| - 1].gateOpen && lives[|lives| - 1].fuel >= n then 1 else 0
  }

  /** Nobody puts a third commit on top of H. */
  ghost predicate Undisputed(lives: seq<Life>, j: Journal) {
    forall i | 0 <= i < |lives| :: Committed(j.localHead, lives[i].outside) in {j.localHead, j.candidate}
  }

  datatype PublishResult = NothingToDo | PublishedJoin | Stale(head: Commit)

  /** `journalForPrepared`. */
  function JournalOf(p: PreparedJoin): Journal {
    Journal(p.base, p.localHead, p.upstreamHead, p.candidate, TreeDelta(p.localHead.tree, p.candidate.tree))
  }

  /** The journal of some prepared join. */
  ghost predicate JournalOk(rules: Rules, j: Journal) {
    exists p :: IsPrepared(rules, p) && p.status != Noop && j == JournalOf(p)
  }

  ghost predicate ClearFor(links: Links, w: Files, j: Journal) {
    LinksClear(links, w, j.localHead.tree, j.candidate.tree, j.delta)
  }

  ghost predicate StraightFor(links: Links, w: Files, j: Journal) {
    Straight(links, w, j.localHead.tree, j.candidate.tree, j.delta)
  }

  predicate Passes(links: Links, w: Files, ix: Index, j: Journal) {
    GuardError(links, w, ix, j.localHead.tree, j.candidate.tree, j.delta).None?
  }

  /** Worktree and index went from H to M on every path in which the two trees differ, and on no other. */
  ghost predicate Arrived(j: Journal, w: Files, v: Files, ix: Index, lines: Index) {
    forall p ::
      var was, will := Get(j.localHead.tree, p), Get(j.candidate.tree, p);
      && Get(v, p) == (if was == will then Get(w, p) else will)
      && Get(lines, p) == (if was == will then Get(ix, p) else Staging(will))
  }

  lemma ContractHolds(rules: Rules, j: Journal)
    requires JournalOk(rules, j)
    ensures rules.contract(j.candidate.tree) && j.localHead != j.candidate && IsAncestor(j.localHead, j.candidate)
    ensures DeltaOf(j.delta, j.localHead.tree, j.candidate.tree)
  {
    var p :| IsPrepared(rules, p) && p.status != Noop && j == JournalOf(p);
    if p.status == Join {
      ParentIsAncestor(p.candidate, 0);
      assert IsAncestor(p.upstreamHead, p.upstreamHead) && IsAncestor(p.localHead, p.localHead);
      NoCycle(p.candidate, p.localHead);
    }
  }

  /** An event path of the delta is a creation. */
  lemma EventsCreated(rules: Rules, j: Journal)
    requires BuildsViews(rules) && JournalOk(rules, j)
    ensures forall item | item in j.delta && IsL1(item.path) :: item.before.None? && item.after.Some?
  {
    var p :| IsPrepared(rules, p) && p.status != Noop && j == JournalOf(p);
    forall item | item in j.delta && IsL1(item.path) ensures item.before.None? && item.after.Some? {
      if item.path in p.localHead.tree { LocalEventsKept(rules, p, item.path); }
    }
  }

  // ---------- the device ----------

  class Device {
    const links: Links
    var head: Commit
    var worktree: Files
    var index: Index
    var journal: Option<Journal>
    var fuel: nat
    /** Deletions that went through a link. */
    ghost var strays: nat

    constructor (links: Links, head: Commit, worktree: Files, index: Index)
      ensures this.links == links && this.head == head && this.worktree == worktree && this.index == index
      ensures journal == None && fuel == 0 && strays == 0
    {
      this.links, this.head, this.worktree, this.index := links, head, worktree, index;
      this.journal, this.fuel, this.strays := None, 0, 0;
    }

    /** The journal can be carried on from here. */
    ghost predicate Resumable(rules: Rules)
      reads this
    {
      && journal.Some? && JournalOk(rules, journal.value)
      && (head == journal.value.localHead || head == journal.value.candidate)
      && Passes(links, worktree, index, journal.value)
    }

    method Tick() returns (alive: bool)
      modifies `fuel
      ensures alive <==> old(fuel) > 0
      ensures fuel == if alive then old(fuel) - 1 else 0
    {
      alive := fuel > 0;
      if alive { fuel := fuel - 1; }
    }

    /** The ref move of a device join: the gate, then a compare-and-set, with the others committing in between. */
    method MoveHead(expected: Commit, tip: Commit, env: JoinEnv) returns (r: Ending<(), JoinFailure>)
      modifies `head, `fuel
      ensures !env.gateOpen ==> r == Threw(GateClosed) && head == old(head) && fuel == old(fuel)
      ensures var now := Committed(old(head), env.outside);
              env.gateOpen ==>
                if old(fuel) == 0 then r == Crashed && head == now && fuel == 0
                else if now == expected then r == Done(()) && head == tip && fuel == old(fuel) - 1
                else head == now && r == (if now == tip then Done(()) else Threw(CasFailed)) && fuel == old(fuel) - 1
    {
      if !env.gateOpen { return Threw(GateClosed); }
      head := Committed(head, env.outside);
      var alive := Tick();
      if !alive { return Crashed; }
      if head != expected { return if head == tip then Done(()) else Threw(CasFailed); }
      head := tip;
      r := Done(());
    }

    /** Write one leaf, refusing when a file stands in a parent position or the target is a directory with leaves; or
        remove one, which a link may lead away from its path. */
    method WriteItem(item: Item) returns (r: Ending<(), JoinFailure>)
      modifies `worktree, `fuel, `strays
      ensures r.Threw? <==> if item.after.Some? then exists q | q in old(worktree) :: Clash(q, item.path)
                            else Through(old(worktree), item.path) && old(fuel) > 0 && !links.unlinked(old(worktree), item.path).1
      ensures var through := item.after.None? && Through(old(worktree), item.path) && !r.Crashed?;
              && strays == old(strays) + (if through then 1 else 0)
              && worktree == if through then links.unlinked(old(worktree), item.path).0
                             else if r.Done? then Put(old(worktree), item.path, item.after)
                             else old(worktree)
      ensures r.Crashed? ==> fuel == 0
      ensures fuel >= old(fuel) - 1
      ensures old(fuel) >= 1 ==> !r.Crashed?
    {
      if item.after.Some? && exists q | q in worktree :: Clash(q, item.path) { return Threw(ParentUnsafe); }
      var alive := Tick();
      if !alive { return Crashed; }
      if item.after.None? && Through(worktree, item.path) {
        var removed := links.unlinked(worktree, item.path);
        worktree, strays := removed.0, strays + 1;
        return if removed.1 then Done(()) else Threw(PruneFailed);
      }
      worktree := Put(worktree, item.path, item.after);
      r := Done(());
    }

    /** One round of the writing loop. */
    method WriteNext(item: Item) returns (r: Ending<(), JoinFailure>)
      requires IsL1(item.path) ==> item.before.None? && item.after.Some?
      modifies `worktree, `fuel, `strays
      ensures Plain(links, old(worktree), item) ==>
                && !r.Threw? && strays == old(strays)
                && worktree == if r.Done? then Put(old(worktree), item.path, item.after) else old(worktree)
      ensures r.Done? && strays == old(strays) && (item.after.Some? ==> forall q | q in old(worktree) :: !Clash(q, item.path)) ==>
                Plain(links, old(worktree), item)
      ensures strays >= old(strays)
      ensures r.Crashed? ==> fuel == 0
      ensures fuel >= old(fuel) - 1
      ensures old(fuel) >= 1 ==> !r.Crashed?
    {
      OneStep(links, worktree, item);
      hide Clash, Plain, Look, Through, Matches;
      var seen := Look(links, worktree, item.path);
      if Matches(seen, item.after) { return Done(()); }
      if !Matches(seen, item.before) { return Threw(WorktreeThirdState); }
      // An event is only ever created.
      assert IsL1(item.path) ==> item.before.None? && item.after.Some?;
      r := WriteItem(item);
    }

    /** The writing loop of `materializeJournal`. It takes every item to M if and only if each step is plain, unless a
        deletion strays or the process dies. */
    method WriteAll(ordered: seq<Item>, ghost m: Files) returns (r: Ending<(), JoinFailure>)
      requires Distinct(ordered) && DeletesFirst(ordered, m) && ClashFree(m) && Clear(worktree, ordered)
      requires forall item | item in ordered && IsL1(item.path) :: item.before.None? && item.after.Some?
      modifies `worktree, `fuel, `strays
      ensures AllPlain(links, old(worktree), ordered) ==>
                !r.Threw? && strays == old(strays) && exists i | 0 <= i <= |ordered| :: worktree == Reached(old(worktree), ordered, i)
      ensures r.Done? && strays == old(strays) ==>
                AllPlain(links, old(worktree), ordered) && worktree == Reached(old(worktree), ordered, |ordered|)
      ensures strays >= old(strays)
      ensures r.Crashed? ==> fuel == 0
      ensures fuel >= old(fuel) - |ordered|
      ensures old(fuel) >= |ordered| ==> !r.Crashed?
    {
      hide Clash, Clear, DeletesFirst, Plain, Distinct, Reached, AllPlain, PlainUpTo, IsL1;
      ghost var start := worktree;
      PlainToTheEnd(links, start, ordered);
      for i := 0 to |ordered|
        invariant strays >= old(strays) && fuel >= old(fuel) - i
        invariant strays == old(strays) ==> worktree == Reached(start, ordered, i) && PlainUpTo(links, start, ordered, i)
        invariant AllPlain(links, start, ordered) ==> strays == old(strays)
      {
        assert ordered[i] in ordered;
        if ordered[i].after.Some? { NeverBlocked(start, ordered, i, m); }
        PlainNext(links, start, ordered, i);
        ReachedNext(start, ordered, i);
        var _ :- WriteNext(ordered[i]);
      }
      r := Done(());
    }

    /** `convergeDeltaIndex`. */
    method ConvergeDeltaIndex(delta: seq<Item>, m: Tree) returns (r: Ending<(), JoinFailure>)
      requires forall item | item in delta :: item.after == Get(m, item.path)
      modifies `index, `fuel
      ensures r.Crashed? ==> fuel == 0 && index == old(index)
      ensures !r.Crashed? ==> IndexMoved(old(index), index, delta)
      ensures !r.Crashed? ==> (r.Done? <==> !Obstructed(old(index), delta))
      ensures r.Threw? ==> r.failure == OutsideIndexMutated
      ensures fuel >= old(fuel) - 1
      ensures old(fuel) >= 1 ==> !r.Crashed?
    {
      var paths := DeltaPaths(delta);
      var pre := OutsideOf(index, paths);
      var alive := Tick();
      if !alive { return Crashed; }
      index := Batch(index, m, paths);
      BatchMoves(old(index), index, delta, m);
      var post := OutsideOf(index, paths);
      SameOutside(old(index), index, delta, pre, post);
      if post != pre { return Threw(OutsideIndexMutated); }
      r := Done(());
    }

    /** The worktree half of `materializeJournal`. */
    method WriteDelta(rules: Rules, j: Journal) returns (r: Ending<(), JoinFailure>)
      requires BuildsViews(rules) && journal == Some(j) && Resumable(rules)
      modifies `worktree, `fuel, `strays
      ensures r.Done? && strays == old(strays) ==>
                AllPlain(links, old(worktree), WriteOrder(j.delta)) && worktree == At(old(worktree), j.delta, |j.delta|)
      ensures AllPlain(links, old(worktree), WriteOrder(j.delta)) ==> !r.Threw? && strays == old(strays)
      ensures ClearFor(links, old(worktree), j) ==>
                !r.Threw? && strays == old(strays) && Underway(old(worktree), worktree, j.delta) && Resumable(rules) && ClearFor(links, worktree, j)
      ensures strays >= old(strays)
      ensures r.Crashed? ==> fuel == 0
      ensures fuel >= old(fuel) - |j.delta|
      ensures old(fuel) >= |j.delta| ==> !r.Crashed?
    {
      hide GuardError, JournalOk, Clear, DeletesFirst, Distinct, Underway, AllPlain, LinksClear, Straight, IsL1, Reached, TreeDelta;
      ghost var w := worktree;
      ContractHolds(rules, j);
      var ordered := WriteOrder(j.delta);
      OrderReady(links, w, index, j);
      WriteOrderMeans(j.delta);
      EventsCreated(rules, j);
      r := WriteAll(ordered, j.candidate.tree);
      if ClearFor(links, w, j) {
        StraightNow(links, w, index, j);
        Somewhere(links, w, worktree, index, j);
      }
      assert AllPlain(links, w, ordered) ==> !r.Threw?;
    }

    /** The index half, the final verification, and the removal of the journal. */
    method MoveIndexAndClear(rules: Rules, j: Journal) returns (r: Ending<(), JoinFailure>)
      requires journal == Some(j) && JournalOk(rules, j) && head == j.candidate
      modifies `index, `journal, `fuel
      ensures index == old(index) || IndexMoved(old(index), index, j.delta)
      ensures r.Done? ==> journal.None? && Verified(links, worktree, index, j.candidate.tree, j.delta)
      ensures !r.Done? ==> journal == Some(j)
      ensures r.Crashed? ==> fuel == 0
      ensures !r.Crashed? ==> IndexMoved(old(index), index, j.delta)
      ensures r.Threw? ==> r.failure == if Obstructed(old(index), j.delta) then OutsideIndexMutated else VerifyFailed
      ensures Obstructed(old(index), j.delta) ==> !r.Done?
      ensures !Obstructed(old(index), j.delta) && r.Threw? ==> !Verified(links, worktree, index, j.candidate.tree, j.delta)
      ensures old(fuel) >= 2 ==> !r.Crashed?
    {
      hide IndexMoved, Verified, JournalOk, Obstructed;
      ContractHolds(rules, j);
      DeltaItems(j.delta, j.localHead.tree, j.candidate.tree);
      var _ :- ConvergeDeltaIndex(j.delta, j.candidate.tree);
      if head != j.candidate || !rules.contract(j.candidate.tree) || !Verified(links, worktree, index, j.candidate.tree, j.delta) {
        return Threw(VerifyFailed);
      }
      var alive := Tick();
      if !alive { return Crashed; }
      journal := None;
      r := Done(());
    }

    /** `materializeJournal` and the removal of the journal. */
    method FinishJournal(rules: Rules, j: Journal) returns (r: Ending<(), JoinFailure>)
      requires BuildsViews(rules) && journal == Some(j) && Resumable(rules) && head == j.candidate
      modifies `worktree, `index, `journal, `fuel, `strays
      ensures index == old(index) || IndexMoved(old(index), index, j.delta)
      ensures r.Done? ==> Settled(j) && !Obstructed(old(index), j.delta)
      ensures !r.Done? ==> journal == Some(j)
      ensures r.Done? && strays == old(strays) ==> Finished(j) && Underway(old(worktree), worktree, j.delta)
      ensures ClearFor(links, old(worktree), j) ==>
                && strays == old(strays) && Underway(old(worktree), worktree, j.delta)
                && (!r.Done? ==> Resumable(rules) && ClearFor(links, worktree, j))
                && (r.Threw? ==> r.failure == OutsideIndexMutated && Obstructed(old(index), j.delta) && IndexMoved(old(index), index, j.delta))
      ensures !Obstructed(old(index), j.delta) && old(fuel) >= |j.delta| + 2 ==>
                (r.Done? && strays == old(strays) <==> StraightFor(links, old(worktree), j))
      ensures r.Crashed? ==> fuel == 0
      ensures old(fuel) >= |j.delta| + 2 ==> !r.Crashed?
      ensures strays >= old(strays)
    {
      hide GuardError, IndexMoved, JournalOk, Obstructed, Underway, Verified, LinksClear, ClearAt, AllPlain, AtM, At;
      ghost var w, ix := worktree, index;
      ContractHolds(rules, j);
      if ClearFor(links, w, j) { StraightNow(links, w, ix, j); }
      var written := WriteDelta(rules, j);
      if !written.Done? { return written; }
      r := MoveIndexAndClear(rules, j);
      if strays == old(strays) { FinishedAt(links, w, ix, index, j); }
    }

    /** The state a lost compare-and-set leaves when the journal stays behind: HEAD is somebody else's commit, and
        nothing else has changed. */
    ghost predicate Stranded(j: Journal, w: Files, ix: Index, outside: Option<Commit>)
      reads this
    {
      && journal == Some(j) && head == Committed(j.localHead, outside) && head != j.localHead && head != j.candidate
      && worktree == w && index == ix
    }

    /** Only the delta moved, each of its paths between H and M, and obstructing index lines are all that was lost. */
    ghost predicate Continued(j: Journal, w: Files, ix: Index)
      reads this
    {
      && (head == j.localHead || head == j.candidate)
      && Underway(w, worktree, j.delta) && (index == ix || IndexMoved(ix, index, j.delta))
      && (journal == None || journal == Some(j))
    }

    /** The journal is gone, HEAD is M, and the final verification has passed. */
    ghost predicate Settled(j: Journal)
      reads this
    {
      head == j.candidate && journal.None? && Verified(links, worktree, index, j.candidate.tree, j.delta)
    }

    /** Besides, every path of the delta is itself at M in the worktree. */
    ghost predicate Finished(j: Journal)
      reads this
    {
      && head == j.candidate && journal.None? && AtM(worktree, j.delta)
      && forall item | item in j.delta :: Get(index, item.path) == Line(item.after)
    }

    /** What a run that did not end normally leaves behind: a stranded journal, or one on its way, which can be carried
        on when what stands behind links is clear. */
    ghost predicate LeftBehind(rules: Rules, j: Journal, w: Files, ix: Index, outside: Option<Commit>)
      reads this
    {
      || Stranded(j, w, ix, outside)
      || (&& journal == Some(j) && (head == j.localHead || head == j.candidate)
          && (index == ix || IndexMoved(ix, index, j.delta))
          && (head == j.localHead ==> worktree == w && index == ix)
          && (ClearFor(links, w, j) ==> Resumable(rules) && Continued(j, w, ix) && ClearFor(links, worktree, j)))
    }

    /** How a run ends that carries on journal `j` from HEAD at `tip`. The journal goes only when the final verification
        has passed. A third commit that wins the race strands it. Otherwise, with the gate open, enough writes and no
        staged path in the way, the run finishes without straying if and only if it is straight. */
    ghost predicate Carried(rules: Rules, j: Journal, env: JoinEnv, tip: Commit, w: Files, ix: Index, writes: nat, strayed: nat,
                            r: Ending<bool, JoinFailure>)
      reads this
    {
      && (r.Done? ==> r.value && Settled(j) && !Obstructed(ix, j.delta))
      && (r.Done? && strays == strayed ==> Finished(j) && Continued(j, w, ix))
      && (!r.Done? ==> LeftBehind(rules, j, w, ix, env.outside))
      && (index == ix || IndexMoved(ix, index, j.delta))
      && (tip == j.candidate ==> head == tip)
      && (ClearFor(links, w, j) ==> strays == strayed && (r.Threw? ==> FailsClearly(j, env, tip, w, ix, r.failure)))
      && (env.gateOpen && Lost(tip, j, env) ==> !r.Done? && Stranded(j, w, ix, env.outside))
      && (writes >= |j.delta| + 3 ==> !r.Crashed?)
      && (writes >= |j.delta| + 3 && env.gateOpen && !Lost(tip, j, env) && !Obstructed(ix, j.delta) ==>
            (r == Done(true) && strays == strayed <==> StraightFor(links, w, j)))
    }

    /** The failures that are left when what stands behind links is clear. */
    ghost predicate FailsClearly(j: Journal, env: JoinEnv, tip: Commit, w: Files, ix: Index, failure: JoinFailure)
      reads this
    {
      || (failure == GateClosed && !env.gateOpen && tip == j.localHead && head == tip && worktree == w && index == ix)
      || (failure == CasFailed && Stranded(j, w, ix, env.outside))
      || (failure == OutsideIndexMutated && Obstructed(ix, j.delta) && !Obstructed(index, j.delta) && head == j.candidate)
    }

    /** The part of the recovery that changes something: move HEAD if that is still due, and finish. */
    method CarryOn(rules: Rules, j: Journal, env: JoinEnv) returns (r: Ending<bool, JoinFailure>)
      requires BuildsViews(rules) && journal == Some(j) && Resumable(rules)
      modifies this
      ensures r.Crashed? ==> fuel == 0
      ensures r.Done? ==> journal == None
      ensures Carried(rules, j, env, old(head), old(worktree), old(index), old(fuel), old(strays), r)
    {
      hide GuardError, Obstructed, IndexMoved, IsAncestor, Underway, Verified, LinksClear, Straight, AtM, JournalOk;
      ContractHolds(rules, j);
      UnderwayAtOnce(links, worktree, index, j);
      if head == j.localHead {
        var _ :- MoveHead(j.localHead, j.candidate, env);
      }
      ghost var ix := index;
      var finished := FinishJournal(rules, j);
      ClearedOnce(ix, index, j.delta, j.localHead.tree, j.candidate.tree);
      var _ :- finished;
      r := Done(true);
    }

    /** `recoverDeviceJoinJournalUnderBarrier`: false when there is no journal. */
    method RecoverJournal(rules: Rules, env: JoinEnv) returns (r: Ending<bool, JoinFailure>)
      requires BuildsViews(rules)
      modifies this
      ensures r.Crashed? ==> fuel == 0
      ensures old(journal).None? ==>
                r == Done(false) && head == old(head) && worktree == old(worktree) && index == old(index) && fuel == old(fuel) && strays == old(strays)
      ensures r.Done? ==> journal == None
      ensures old(journal).Some? && MustRefuse(old(worktree), old(index), old(journal).value.localHead.tree, old(journal).value.candidate.tree) ==>
                r.Threw? && head == old(head) && worktree == old(worktree) && index == old(index) && journal == old(journal)
      ensures old(journal).Some? && !old(Resumable(rules)) ==>
                && r.Threw? && head == old(head) && worktree == old(worktree) && index == old(index) && journal == old(journal)
                && strays == old(strays)
      ensures old(Resumable(rules)) ==>
                Carried(rules, old(journal).value, env, old(head), old(worktree), old(index), old(fuel), old(strays), r)
    {
      hide GuardError, IsPrepared, Carried, MustRefuse;
      if journal.None? { return Done(false); }
      var j := journal.value;
      var again := PrepareDeviceJoin(rules, j.localHead, j.upstreamHead);
      RecomputedExactly(rules, j, again);
      if again.Err? || again.value.status == Noop || JournalOf(again.value) != j { return Threw(JournalCandidateInvalid); }
      if head != j.localHead && head != j.candidate { return Threw(HeadThirdState); }
      var error := GuardError(links, worktree, index, j.localHead.tree, j.candidate.tree, j.delta);
      if error.Some? { return Threw(error.value); }
      NothingToRefuse(rules, links, worktree, index, j);
      r := CarryOn(rules, j, env);
    }

    /** Paths outside the delta are as they were, in worktree and index. */
    ghost predicate OutsideKept(j: Journal, w: Files, ix: Index)
      reads this
    {
      forall q | q !in DeltaPaths(j.delta) :: Get(worktree, q) == Get(w, q) && Get(index, q) == Get(ix, q)
    }

    /** HEAD is a third commit, and nothing else has changed. */
    ghost predicate Disputed(j: Journal, w: Files, ix: Index)
      reads this
    {
      journal == Some(j) && head != j.localHead && head != j.candidate && worktree == w && index == ix
    }

    /** From any point after the journal was written, through any number of crashes, closed gates and foreign commits,
        the journal stays until the final verification has passed. When what stands behind links is clear, recovery stays
        resumable until it has finished or a foreign commit has stranded it, and the only lines lost outside the delta
        are those in the way of a path it adds. Two undisputed runs that live long enough then always finish, the first
        of which may fail for such a line; without one in the way a single run is enough and nothing outside the delta
        changes. */
    method RecoverAcrossCrashes(rules: Rules, lives: seq<Life>)
      requires BuildsViews(rules) && Resumable(rules)
      modifies this
      ensures journal == old(journal) || Settled(old(journal).value)
      ensures index == old(index) || IndexMoved(old(index), index, old(journal).value.delta)
      ensures ClearFor(links, old(worktree), old(journal).value) ==>
                var j := old(journal).value;
                var need := |j.delta| + 3;
                && strays == old(strays)
                && (Disputed(j, old(worktree), old(index)) || Continued(j, old(worktree), old(index)))
                && (Disputed(j, old(worktree), old(index)) || Finished(j) || (Resumable(rules) && journal == Some(j)))
                && (Undisputed(lives, j) && LongLives(lives, need) >= 2 ==> Finished(j))
                && (!Obstructed(old(index), j.delta) ==>
                      && OutsideKept(j, old(worktree), old(index)) && (Finished(j) ==> Arrived(j, old(worktree), worktree, old(index), index))
                      && (Undisputed(lives, j) && LongLives(lives, need) >= 1 ==> Finished(j)))
    {
      hide GuardError, IsPrepared, JournalOk, Obstructed, IndexMoved, Underway, IsAncestor, LinksClear, Verified, Straight, AtM, Arrived, MustRefuse;
      ghost var j, w, ix := journal.value, worktree, index;
      ghost var need := |j.delta| + 3;
      ghost var clear := ClearFor(links, w, j);
      ContractHolds(rules, j);
      UnderwayAtOnce(links, w, ix, j);
      for i := 0 to |lives|
        invariant journal == Some(j) || Settled(j)
        invariant index == ix || IndexMoved(ix, index, j.delta)
        invariant journal == Some(j) && head == j.localHead ==> worktree == w && index == ix
        invariant clear ==> strays == old(strays) && OnItsWay(rules, j, w, ix)
        invariant clear && Undisputed(lives[..i], j) ==>
                    && !Disputed(j, w, ix)
                    && (LongLives(lives[..i], need) >= 1 ==> Finished(j) || !Obstructed(index, j.delta))
                    && (LongLives(lives[..i], need) >= 2 ==> Finished(j))
                    && (!Obstructed(ix, j.delta) && LongLives(lives[..i], need) >= 1 ==> Finished(j))
      {
        assert lives[..i + 1][..i] == lives[..i];
        UndisputedBefore(lives, i, j);
        ghost var between, lines := worktree, index;
        fuel := lives[i].fuel;
        if clear && journal == Some(j) && Resumable(rules) { StraightNow(links, worktree, index, j); }
        var recovered := RecoverJournal(rules, JoinEnv(lives[i].gateOpen, lives[i].outside));
        if clear { ContinuedOn(w, ix, between, lines, worktree, index, j.delta); }
        MovedOn(ix, lines, index, j.delta);
        NothingCleared(lines, index, j.delta);
        NothingCleared(ix, lines, j.delta);
      }
      assert lives[..|lives|] == lives;
      NothingCleared(ix, index, j.delta);
      if clear { OnlyDeltaMoved(w, worktree, j.delta); }
      if clear && Finished(j) && !Obstructed(ix, j.delta) { TreesArrived(j, w, worktree, ix, index); }
    }

    /** What holds between two runs when what stands behind links is clear. */
    ghost predicate OnItsWay(rules: Rules, j: Journal, w: Files, ix: Index)
      reads this
    {
      && Underway(w, worktree, j.delta)
      && (Disputed(j, w, ix) || Finished(j) || (Resumable(rules) && journal == Some(j) && ClearFor(links, worktree, j)))
    }

    /** HEAD was H, and what is committed on top of it is neither H nor M. */
    ghost predicate Lost(was: Commit, j: Journal, env: JoinEnv) {
      was == j.localHead && Committed(j.localHead, env.outside) != j.localHead && Committed(j.localHead, env.outside) != j.candidate
    }

    /** `publishPreparedDeviceJoin`, with nothing left to settle. */
    method PublishPreparedDeviceJoin(rules: Rules, prepared: PreparedJoin, env: JoinEnv) returns (r: Ending<PublishResult, JoinFailure>)
      requires BuildsViews(rules) && IsPrepared(rules, prepared)
      modifies this
      ensures r.Crashed? ==> fuel == 0
      ensures old(journal).None? && r.Done? ==> match r.value
                case NothingToDo => prepared.status == Noop && head == old(head) == prepared.localHead && Untouched(old(worktree), old(index))
                case Stale(tip) => tip == head != prepared.localHead && Untouched(old(worktree), old(index))
                case PublishedJoin => Published(JournalOf(prepared), old(worktree), old(index), old(strays))
      ensures old(journal).None? && !r.Done? ==>
                || (head == old(head) && Untouched(old(worktree), old(index)))
                || LeftBehind(rules, JournalOf(prepared), old(worktree), old(index), env.outside)
      ensures old(journal).None? && prepared.status != Noop && old(head) == prepared.localHead ==>
                Ran(rules, prepared, env, old(fuel), old(worktree), old(index), old(strays), r)
      ensures old(journal).None? && prepared.status != Noop && old(head) == prepared.localHead
              && MustRefuse(old(worktree), old(index), prepared.localHead.tree, prepared.candidate.tree) ==>
                r.Threw? && head == old(head) && Untouched(old(worktree), old(index))
      ensures old(journal).Some? && !old(Resumable(rules)) ==>
                r.Threw? && head == old(head) && worktree == old(worktree) && index == old(index) && journal == old(journal)
      ensures old(Resumable(rules)) && old(journal).value.candidate != prepared.localHead ==>
                if r.Done? then r.value == Stale(head) && Settled(old(journal).value) && !Obstructed(old(index), old(journal).value.delta)
                else LeftBehind(rules, old(journal).value, old(worktree), old(index), env.outside)
    {
      hide GuardError, IsPrepared, Obstructed, IndexMoved, Ran, JournalOk, LeftBehind, Continued, Verified, LinksClear, Straight, AtM, Published, MustRefuse;
      var recovered :- RecoverJournal(rules, env);
      if recovered && head != prepared.localHead { return Done(Stale(head)); }
      if head != prepared.localHead { return Done(Stale(head)); }
      if prepared.status == Noop {
        PreparedNoop(rules, prepared);
        return Done(NothingToDo);
      }
      r := PublishFresh(rules, prepared, env);
    }

    /** The final verification passed; unless a deletion strayed, the delta and nothing else is at M. */
    ghost predicate Published(j: Journal, w: Files, ix: Index, strayed: nat)
      reads this
    {
      && Settled(j) && !Obstructed(ix, j.delta)
      && (strays == strayed ==> Finished(j) && Underway(w, worktree, j.delta) && Arrived(j, w, worktree, ix, index))
    }

    /** Publishing on the prepared head with the gate open and the checks passed. When the compare-and-set is lost, three
        durable writes are enough to end stale, and one or two strand the journal. When nobody commits and there are
        enough writes, the join is published without straying if and only if every write is plain and the final lookups
        find M; with a staged path in the way it fails once and can be resumed with that path gone. */
    ghost predicate Ran(rules: Rules, prepared: PreparedJoin, env: JoinEnv, writes: nat, w: Files, ix: Index, strayed: nat,
                        r: Ending<PublishResult, JoinFailure>)
      reads this
    {
      var j := JournalOf(prepared);
      env.gateOpen && Passes(links, w, ix, j) ==>
        var now := Committed(j.localHead, env.outside);
        && (now != j.localHead && now != j.candidate && writes > 0 ==>
              if writes >= 3 then r == Done(Stale(now)) && head == now && Untouched(w, ix)
              else r == Crashed && Stranded(j, w, ix, env.outside))
        && (now == j.localHead && writes >= |j.delta| + 4 ==> Completed(rules, j, w, ix, strayed, r))
    }

    /** How a run ends that nothing from outside disturbs. */
    ghost predicate Completed(rules: Rules, j: Journal, w: Files, ix: Index, strayed: nat, r: Ending<PublishResult, JoinFailure>)
      reads this
    {
      && !r.Crashed? && (if r.Done? then r.value == PublishedJoin else head == j.candidate && journal == Some(j))
      && (!Obstructed(ix, j.delta) ==> (r == Done(PublishedJoin) && strays == strayed <==> StraightFor(links, w, j)))
      && (Obstructed(ix, j.delta) && ClearFor(links, w, j) ==>
            && r == Threw(OutsideIndexMutated) && head == j.candidate && journal == Some(j)
            && Resumable(rules) && ClearFor(links, worktree, j) && !Obstructed(index, j.delta))
    }

    /** Publishing on the prepared head: the checks, the journal, and the rest. */
    method PublishFresh(rules: Rules, prepared: PreparedJoin, env: JoinEnv) returns (r: Ending<PublishResult, JoinFailure>)
      requires BuildsViews(rules) && IsPrepared(rules, prepared) && prepared.status != Noop
      requires journal.None? && head == prepared.localHead
      modifies this
      ensures r.Crashed? ==> fuel == 0
      ensures r.Done? ==> match r.value
                case NothingToDo => false
                case Stale(tip) => tip == head != prepared.localHead && Untouched(old(worktree), old(index))
                case PublishedJoin => Published(JournalOf(prepared), old(worktree), old(index), old(strays))
      ensures !r.Done? ==>
                || (head == old(head) && Untouched(old(worktree), old(index)))
                || LeftBehind(rules, JournalOf(prepared), old(worktree), old(index), env.outside)
      ensures Ran(rules, prepared, env, old(fuel), old(worktree), old(index), old(strays), r)
      ensures MustRefuse(old(worktree), old(index), prepared.localHead.tree, prepared.candidate.tree) ==>
                r.Threw? && head == old(head) && Untouched(old(worktree), old(index))
    {
      hide GuardError, IsPrepared, Obstructed, IndexMoved, LeftBehind, Continued, Verified, LinksClear, Straight, AtM, Published, Completed,
        MustRefuse;
      var j := JournalOf(prepared);
      assert JournalOk(rules, j);
      if Passes(links, worktree, index, j) { NothingToRefuse(rules, links, worktree, index, j); }
      hide JournalOk;
      var error := GuardError(links, worktree, index, j.localHead.tree, j.candidate.tree, j.delta);
      if error.Some? { return Threw(error.value); }
      var alive := Tick();
      if !alive { return Crashed; }
      journal := Some(j);
      r := MoveAndFinish(rules, j, env);
    }

    /** What publishing does once the journal is written: move HEAD, or find out who moved it, and finish. */
    method MoveAndFinish(rules: Rules, j: Journal, env: JoinEnv) returns (r: Ending<PublishResult, JoinFailure>)
      requires BuildsViews(rules) && journal == Some(j) && Resumable(rules) && head == j.localHead
      modifies this
      ensures r.Crashed? ==> fuel == 0
      ensures r.Done? ==> match r.value
                case NothingToDo => false
                case Stale(tip) => tip == head != j.localHead && Untouched(old(worktree), old(index))
                case PublishedJoin => Published(j, old(worktree), old(index), old(strays))
      ensures !r.Done? ==> LeftBehind(rules, j, old(worktree), old(index), env.outside)
      ensures var now := Committed(j.localHead, env.outside);
              env.gateOpen && now != j.localHead && now != j.candidate ==>
                if old(fuel) >= 2 then r == Done(Stale(now)) && head == now && Untouched(old(worktree), old(index))
                else r == Crashed && Stranded(j, old(worktree), old(index), env.outside)
      ensures env.gateOpen && Committed(j.localHead, env.outside) == j.localHead && old(fuel) >= |j.delta| + 3 ==>
                Completed(rules, j, old(worktree), old(index), old(strays), r)
    {
      hide GuardError, IsPrepared, Obstructed, IndexMoved, JournalOk, IsAncestor, Underway, Verified, LinksClear, Straight, AtM, Arrived;
      ContractHolds(rules, j);
      UnderwayAtOnce(links, worktree, index, j);
      var moved := MoveHead(j.localHead, j.candidate, env);
      if moved.Crashed? { return Crashed; }
      if moved.Threw? && head != j.candidate {
        if head == j.localHead { return Threw(moved.failure); }
        var stillAlive := Tick();
        if !stillAlive { return Crashed; }
        journal := None;
        return Done(Stale(head));
      }
      ghost var ix := index;
      var finished := FinishJournal(rules, j);
      ClearedOnce(ix, index, j.delta, j.localHead.tree, j.candidate.tree);
      var _ :- finished;
      if strays == old(strays) { TreesArrived(j, old(worktree), worktree, ix, index); }
      r := Done(PublishedJoin);
    }

    ghost predicate Untouched(w: Files, ix: Index)
      reads this
    {
      worktree == w && index == ix && journal.None?
    }
  }

  // ---------- around the device's steps ----------

  /** One step of the writing loop, by what the lookup finds. */
  lemma OneStep(links: Links, w: Files, item: Item)
    ensures item.after.Some? && (forall q | q in w :: !Clash(q, item.path)) ==> !Through(w, item.path)
    ensures Matches(Look(links, w, item.path), item.after) && (Through(w, item.path) ==> item.after.None?) ==>
              Plain(links, w, item) && Put(w, item.path, item.after) == w
    ensures Matches(Look(links, w, item.path), item.after) && Plain(links, w, item) ==> Put(w, item.path, item.after) == w
    ensures !Matches(Look(links, w, item.path), item.after) && Plain(links, w, item) ==>
              && !Through(w, item.path) && Matches(Look(links, w, item.path), item.before)
              && (item.after.Some? ==> forall q | q in w :: !Clash(q, item.path))
    ensures Matches(Look(links, w, item.path), item.before) && !Through(w, item.path)
            && (item.after.Some? ==> forall q | q in w :: !Clash(q, item.path)) ==>
              Plain(links, w, item)
  {
    if !Through(w, item.path) {
      MatchesHere(links, w, item.path, item.after);
      MatchesHere(links, w, item.path, item.before);
    }
    if Get(w, item.path) == item.after { SameFiles(Put(w, item.path, item.after), w); }
  }

  ghost predicate PlainUpTo(links: Links, start: Files, ordered: seq<Item>, i: nat)
    requires i <= |ordered|
  {
    forall k | 0 <= k < i :: Plain(links, Reached(start, ordered, k), ordered[k])
  }

  lemma PlainNext(links: Links, start: Files, ordered: seq<Item>, i: nat)
    requires i < |ordered|
    ensures PlainUpTo(links, start, ordered, i + 1) <==>
            PlainUpTo(links, start, ordered, i) && Plain(links, Reached(start, ordered, i), ordered[i])
    ensures AllPlain(links, start, ordered) ==> Plain(links, Reached(start, ordered, i), ordered[i])
  {
    hide Reached, Plain;
    if PlainUpTo(links, start, ordered, i) && Plain(links, Reached(start, ordered, i), ordered[i]) {
      forall k | 0 <= k < i + 1 ensures Plain(links, Reached(start, ordered, k), ordered[k]) {}
    }
  }

  lemma ReachedNext(start: Files, ordered: seq<Item>, i: nat)
    requires i < |ordered|
    ensures Reached(start, ordered, i + 1) == Put(Reached(start, ordered, i), ordered[i].path, ordered[i].after)
  {}

  lemma PlainToTheEnd(links: Links, start: Files, ordered: seq<Item>)
    ensures PlainUpTo(links, start, ordered, |ordered|) <==> AllPlain(links, start, ordered)
    ensures PlainUpTo(links, start, ordered, 0) && Reached(start, ordered, 0) == start
  {}

  lemma OrderReady(links: Links, w: Files, ix: Index, j: Journal)
    requires DeltaOf(j.delta, j.localHead.tree, j.candidate.tree) && Passes(links, w, ix, j)
    ensures Distinct(WriteOrder(j.delta)) && DeletesFirst(WriteOrder(j.delta), j.candidate.tree) && Clear(w, WriteOrder(j.delta))
  {
    OrderFits(links, w, j.localHead.tree, j.candidate.tree, j.delta);
  }

  lemma StraightNow(links: Links, w: Files, ix: Index, j: Journal)
    requires DeltaOf(j.delta, j.localHead.tree, j.candidate.tree) && Passes(links, w, ix, j)
    ensures ClearFor(links, w, j) ==> StraightFor(links, w, j) && AllPlain(links, w, WriteOrder(j.delta))
  {
    hide GuardError, LinksClear, AllPlain, ClearAt;
    if ClearFor(links, w, j) { StraightFrom(links, w, ix, j.localHead.tree, j.candidate.tree, j.delta, 0); }
  }

  /** Any point on the way of a clear run passes the checks and is clear. */
  lemma OnTheWay(links: Links, w: Files, ix: Index, nextIx: Index, j: Journal, k: nat)
    requires DeltaOf(j.delta, j.localHead.tree, j.candidate.tree) && Passes(links, w, ix, j) && k <= |j.delta| && ClearFor(links, w, j)
    requires nextIx == ix || IndexMoved(ix, nextIx, j.delta)
    ensures Underway(w, At(w, j.delta, k), j.delta)
    ensures Passes(links, At(w, j.delta, k), nextIx, j) && ClearFor(links, At(w, j.delta, k), j)
  {
    var h, m, delta := j.localHead.tree, j.candidate.tree, j.delta;
    AtUnderway(links, w, h, m, delta, k);
    assert ClearAt(links, At(w, delta, k), h, m, delta, k);
    hide ClearAt, GuardError, LinksClear, At;
    GuardStays(links, w, ix, nextIx, h, m, delta, k);
    ClearFrom(links, w, h, m, delta, k);
  }

  lemma Somewhere(links: Links, w: Files, v: Files, ix: Index, j: Journal)
    requires DeltaOf(j.delta, j.localHead.tree, j.candidate.tree) && Passes(links, w, ix, j) && ClearFor(links, w, j)
    requires exists i | 0 <= i <= |j.delta| :: v == Reached(w, WriteOrder(j.delta), i)
    ensures Underway(w, v, j.delta) && Passes(links, v, ix, j) && ClearFor(links, v, j)
  {
    hide GuardError, LinksClear, Underway;
    var i :| 0 <= i <= |j.delta| && v == Reached(w, WriteOrder(j.delta), i);
    OnTheWay(links, w, ix, ix, j, i);
  }

  /** The end of a run that did not stray. */
  lemma FinishedAt(links: Links, w: Files, ix: Index, lines: Index, j: Journal)
    requires DeltaOf(j.delta, j.localHead.tree, j.candidate.tree) && Passes(links, w, ix, j)
    ensures var v := At(w, j.delta, |j.delta|);
            && Underway(w, v, j.delta) && AtM(v, j.delta)
            && (IndexMoved(ix, lines, j.delta) ==>
                  && (forall item | item in j.delta :: Get(lines, item.path) == Line(item.after))
                  && (AllPlain(links, w, WriteOrder(j.delta)) ==> (Verified(links, v, lines, j.candidate.tree, j.delta) <==> StraightFor(links, w, j))))
            && (lines == ix || IndexMoved(ix, lines, j.delta) ==>
                  ClearFor(links, w, j) ==> Passes(links, v, lines, j) && ClearFor(links, v, j))
  {
    var h, m, delta := j.localHead.tree, j.candidate.tree, j.delta;
    AtUnderway(links, w, h, m, delta, |delta|);
    hide GuardError, LinksClear, ClearAt, At, AllPlain, Verified, Underway, AtM;
    if IndexMoved(ix, lines, delta) {
      MovedMeans(ix, lines, delta);
      AlwaysVerified(links, w, ix, lines, h, m, delta);
    }
    if ClearFor(links, w, j) && (lines == ix || IndexMoved(ix, lines, delta)) { OnTheWay(links, w, ix, lines, j, |delta|); }
  }

  lemma UndisputedBefore(lives: seq<Life>, i: nat, j: Journal)
    requires i < |lives|
    ensures Undisputed(lives[..i + 1], j) <==> Undisputed(lives[..i], j) && Committed(j.localHead, lives[i].outside) in {j.localHead, j.candidate}
  {
    var upTo := lives[..i + 1];
    assert upTo[..i] == lives[..i] && upTo[i] == lives[i];
    assert forall k | 0 <= k < i :: upTo[k] == lives[..i][k];
  }

  lemma MovedOn(ix: Index, lines: Index, nextIx: Index, delta: seq<Item>)
    requires lines == ix || IndexMoved(ix, lines, delta)
    requires nextIx == lines || IndexMoved(lines, nextIx, delta)
    ensures nextIx == ix || IndexMoved(ix, nextIx, delta)
  {}

  lemma NothingCleared(before: Index, after: Index, delta: seq<Item>)
    ensures !Obstructed(before, delta) && (after == before || IndexMoved(before, after, delta)) ==>
              !Obstructed(after, delta) && forall q | q !in DeltaPaths(delta) :: Get(after, q) == Get(before, q)
  {}

  /** Going on from where an earlier run stopped is still on the way from where that run began. */
  lemma ContinuedOn(w: Files, ix: Index, between: Files, lines: Index, next: Files, nextIx: Index, delta: seq<Item>)
    requires Underway(w, between, delta) && (lines == ix || IndexMoved(ix, lines, delta))
    ensures Underway(between, next, delta) ==> Underway(w, next, delta)
    ensures nextIx == lines || IndexMoved(lines, nextIx, delta) ==> nextIx == ix || IndexMoved(ix, nextIx, delta)
  {}

  lemma OnlyDeltaMoved(w: Files, next: Files, delta: seq<Item>)
    requires Underway(w, next, delta)
    ensures forall q | q !in DeltaPaths(delta) :: Get(next, q) == Get(w, q)
  {}

  lemma PreparedNoop(rules: Rules, p: PreparedJoin)
    requires IsPrepared(rules, p) && p.status == Noop
    ensures p.candidate == p.localHead
  {}

  lemma NothingToRefuse(rules: Rules, links: Links, w: Files, ix: Index, j: Journal)
    requires JournalOk(rules, j) && Passes(links, w, ix, j)
    ensures !MustRefuse(w, ix, j.localHead.tree, j.candidate.tree)
  {
    ContractHolds(rules, j);
    hide GuardError, MustRefuse;
    RefusesWhatItMust(links, w, ix, j.localHead.tree, j.candidate.tree, j.delta);
  }

  /** The end of a run, said of the two trees. */
  lemma TreesArrived(j: Journal, w: Files, v: Files, ix: Index, lines: Index)
    requires DeltaOf(j.delta, j.localHead.tree, j.candidate.tree) && Underway(w, v, j.delta) && AtM(v, j.delta)
    requires (lines == ix || IndexMoved(ix, lines, j.delta)) && !Obstructed(ix, j.delta)
    requires forall item | item in j.delta :: Get(lines, item.path) == Line(item.after)
    ensures Arrived(j, w, v, ix, lines)
  {
    NothingCleared(ix, lines, j.delta);
    hide Obstructed, IndexMoved, Underway, AtM;
    forall p
      ensures Get(v, p) == (if Get(j.localHead.tree, p) == Get(j.candidate.tree, p) then Get(w, p) else Get(j.candidate.tree, p))
      ensures Get(lines, p) == (if Get(j.localHead.tree, p) == Get(j.candidate.tree, p) then Get(ix, p) else Staging(Get(j.candidate.tree, p)))
    {
      PathArrived(j, w, v, ix, lines, p);
    }
  }

  lemma PathArrived(j: Journal, w: Files, v: Files, ix: Index, lines: Index, p: Path)
    requires DeltaOf(j.delta, j.localHead.tree, j.candidate.tree) && Underway(w, v, j.delta) && AtM(v, j.delta)
    requires forall q | q !in DeltaPaths(j.delta) :: Get(lines, q) == Get(ix, q)
    requires forall item | item in j.delta :: Get(lines, item.path) == Line(item.after)
    ensures Get(v, p) == (if Get(j.localHead.tree, p) == Get(j.candidate.tree, p) then Get(w, p) else Get(j.candidate.tree, p))
    ensures Get(lines, p) == (if Get(j.localHead.tree, p) == Get(j.candidate.tree, p) then Get(ix, p) else Staging(Get(j.candidate.tree, p)))
  {
    var h, m := j.localHead.tree, j.candidate.tree;
    DeltaItems(j.delta, h, m);
    hide DeltaOf;
    if p in DeltaPaths(j.delta) {
      assert ItemAt(h, m, p) in j.delta;
      DeltaDiffers(j, p);
    } else {
      assert Get(h, p) == Get(m, p);
    }
  }

  lemma DeltaDiffers(j: Journal, p: Path)
    requires DeltaOf(j.delta, j.localHead.tree, j.candidate.tree) && p in DeltaPaths(j.delta)
    ensures Get(j.localHead.tree, p) != Get(j.candidate.tree, p)
  {
    DeltaItems(j.delta, j.localHead.tree, j.candidate.tree);
    assert ItemAt(j.localHead.tree, j.candidate.tree, p) in j.delta;
  }

  lemma UnderwayAtOnce(links: Links, w: Files, ix: Index, j: Journal)
    requires DeltaOf(j.delta, j.localHead.tree, j.candidate.tree) && Passes(links, w, ix, j)
    ensures Underway(w, w, j.delta)
  {
    KnownHere(links, w, j.localHead.tree, j.candidate.tree, j.delta);
  }

  /** What obstructed is gone after one convergence, and moving twice is moving once. */
  lemma ClearedOnce(ix: Index, after: Index, delta: seq<Item>, h: Files, m: Files)
    requires DeltaOf(delta, h, m)
    ensures IndexMoved(ix, after, delta) ==> !Obstructed(after, delta)
  {}

  /** The journal's candidate recomputes from its heads exactly when some prepared join wrote it. */
  lemma RecomputedExactly(rules: Rules, j: Journal, again: Result<PreparedJoin, JoinError>)
    requires again.Ok? <==> exists m :: LeadsTo(rules, j.localHead, j.upstreamHead, m)
    requires again.Ok? ==> again.value.localHead == j.localHead && again.value.upstreamHead == j.upstreamHead && IsPrepared(rules, again.value)
    ensures JournalOk(rules, j) <==> again.Ok? && again.value.status != Noop && JournalOf(again.value) == j
  {
    if p :| IsPrepared(rules, p) && p.status != Noop && j == JournalOf(p) {
      assert LeadsTo(rules, j.localHead, j.upstreamHead, p.candidateMap);
      PreparedUnique(rules, p, again.value);
    }
  }

  /** The lines outside the delta, which are fingerprinted before and after. */
  function OutsideOf(ix: Index, paths: seq<Path>): (r: Index)
    ensures forall q :: Get(r, q) == if q in paths then None else Get(ix, q)
  {
    map q | q in ix && q !in paths :: ix[q]
  }

  lemma BatchMoves(before: Index, after: Index, delta: seq<Item>, m: Files)
    requires ClashFree(m) && after == Batch(before, m, DeltaPaths(delta))
    requires forall item | item in delta :: item.after == Get(m, item.path)
    ensures IndexMoved(before, after, delta)
  {
    var paths := DeltaPaths(delta);
    forall item | item in delta ensures Get(after, item.path) == Line(item.after) {
      var k :| 0 <= k < |delta| && delta[k] == item;
      BatchMeans(before, m, paths, item.path);
    }
    forall q | q !in paths ensures Get(after, q) == if Blocks(delta, q) then None else Get(before, q) {
      BatchMeans(before, m, paths, q);
      assert Blocks(delta, q) <==> exists p | p in paths :: p in m && Clash(q, p) by {
        if item :| item in delta && item.after.Some? && Clash(q, item.path) {
          var k :| 0 <= k < |delta| && delta[k] == item;
          assert item.path in paths && item.path in m;
        }
        if p :| p in paths && p in m && Clash(q, p) {
          var k :| 0 <= k < |delta| && delta[k].path == p;
          assert delta[k] in delta;
        }
      }
    }
  }

  lemma SameOutside(before: Index, after: Index, delta: seq<Item>, pre: Index, post: Index)
    requires IndexMoved(before, after, delta)
    requires pre == OutsideOf(before, DeltaPaths(delta)) && post == OutsideOf(after, DeltaPaths(delta))
    ensures post == pre <==> !Obstructed(before, delta)
  {}

  // ---------- instances ----------

  /** A view area that is always empty, and no other demands. */
  function NoViews(): Rules { Rules((l1: Files) => Some(map[]), (m: Files) => true, (m: Files) => true) }

  function Root(h: Tree): Commit { Commit([], h, "") }

  /** The other device went on from `h` to `m`. */
  function OneAhead(h: Tree, m: Tree): Commit { Commit([Root(h)], m, "") }

  ghost predicate NoneCanonical(t: Files) { forall p | p in t :: !Canonical(p) }

  lemma OneAheadLeads(h: Tree, m: Tree)
    requires NoneCanonical(h) && NoneCanonical(m)
    ensures BuildsViews(NoViews()) && LeadsTo(NoViews(), Root(h), OneAhead(h, m), m)
    ensures IsAncestor(Root(h), OneAhead(h, m)) && !IsAncestor(OneAhead(h, m), Root(h))
  {
    var u := OneAhead(h, m);
    ParentIsAncestor(u, 0);
    NoCycle(u, Root(h));
    assert IsL1Union(map[], h, h, m);
    assert Views(m) == map[];
    assert RebuiltViews(NoViews(), map[], h, m) == Some(Views(m));
  }

  /** The join that catches up with it. */
  method OneBehind(h: Tree, m: Tree) returns (prepared: PreparedJoin)
    requires NoneCanonical(h) && NoneCanonical(m)
    ensures IsPrepared(NoViews(), prepared) && prepared.status != Noop
    ensures prepared.localHead == Root(h) && prepared.candidate == OneAhead(h, m)
    ensures JournalOf(prepared).delta == TreeDelta(h, m)
  {
    OneAheadLeads(h, m);
    var made := PrepareDeviceJoin(NoViews(), Root(h), OneAhead(h, m));
    prepared := made.value;
  }

  function OneFile(path: Path, content: string): Tree { map[path := Entry(Regular, content)] }

  /** One regular file into an empty worktree: the delta, and that nothing is in the way of the join but index lines. */
  lemma OneFileDelta(links: Links, path: Path, content: string, ix: Index)
    requires !Canonical(path) && path !in ix && (forall q | q in ix :: !Canonical(q)) && !RootTaken(OneFile(path, content))
    ensures var delta := TreeDelta(map[], OneFile(path, content));
            && delta == [Item(path, None, Some(Entry(Regular, content)))]
            && GuardError(links, map[], ix, map[], OneFile(path, content), delta).None?
            && LinksClear(links, map[], map[], OneFile(path, content), delta)
  {
    var delta := TreeDelta(map[], OneFile(path, content));
    assert Changed(map[], OneFile(path, content)) == {path};
    OnePath(path);
    PlainTreesAreClear(links, map[], map[], OneFile(path, content), delta);
  }

  lemma NotTaken(path: Path, content: string)
    requires path == "a" || path == "a/b"
    ensures !Canonical(path) && NoneCanonical(OneFile(path, content)) && !RootTaken(OneFile(path, content))
  {
    assert path[0] == 'a' && KNOWLEDGE_ROOT[0] == 'l' && CONSTRAINT_ROOT[0] == 'l' && L1_PREFIX[0] == 'l';
  }

  /** A device one commit behind, left alone and given ten durable writes, ends with that commit, file included. */
  method FirstJoin(links: Links, content: string) returns (d: Device)
    ensures fresh(d) && d.head == OneAhead(map[], OneFile("a", content)) && d.journal == None
    ensures d.worktree == d.head.tree && Get(d.index, "a") == Some(Staged(Entry(Regular, content)))
  {
    hide IsPrepared, JournalOk, GuardError, LinksClear, Straight, Verified, RootTaken;
    NotTaken("a", content);
    var prepared := OneBehind(map[], OneFile("a", content));
    OneFileDelta(links, "a", content, map[]);
    d := new Device(links, Root(map[]), map[], map[]);
    d.fuel := 10;
    StraightNow(links, map[], map[], JournalOf(prepared));
    var r := d.PublishPreparedDeviceJoin(NoViews(), prepared, JoinEnv(true, None));
    assert r == Done(PublishedJoin);
    OneFileThere(d.worktree, content);
  }

  /** The first run of a device with a staged file that nobody committed where the join needs a directory. */
  method FailsObstructed(links: Links, content: string, mine: Entry)
    returns (d: Device, j: Journal, first: Ending<PublishResult, JoinFailure>)
    ensures fresh(d) && d.links == links && first == Threw(OutsideIndexMutated) && d.journal == Some(j)
    ensures d.head == j.candidate == OneAhead(map[], OneFile("a/b", content)) && d.Resumable(NoViews())
    ensures j.delta == TreeDelta(map[], OneFile("a/b", content))
    ensures ClearFor(links, d.worktree, j) && !Obstructed(d.index, j.delta)
    ensures d.index == map["a" := Staged(mine)] || IndexMoved(map["a" := Staged(mine)], d.index, j.delta)
  {
    hide IsPrepared, JournalOk, GuardError, LinksClear, Straight, Verified, RootTaken, IndexMoved, Obstructed, Underway, OneFile;
    NotTaken("a/b", content);
    NotTaken("a", content);
    var prepared := OneBehind(map[], OneFile("a/b", content));
    j := JournalOf(prepared);
    var staged: Index := map["a" := Staged(mine)];
    OneFileDelta(links, "a/b", content, staged);
    d := new Device(links, Root(map[]), map[], staged);
    d.fuel := 10;
    InTheWay(staged, j.delta);
    first := d.PublishPreparedDeviceJoin(NoViews(), prepared, JoinEnv(true, None));
  }

  /** All checks pass, the first run moves HEAD and writes the worktree, removes that line and fails; the next run
      finishes. */
  method ObstructedJoin(links: Links, content: string, mine: Entry)
    returns (d: Device, first: Ending<PublishResult, JoinFailure>, second: Ending<bool, JoinFailure>)
    ensures fresh(d) && first == Threw(OutsideIndexMutated) && second == Done(true)
    ensures d.head == OneAhead(map[], OneFile("a/b", content)) && d.journal == None
    ensures d.index == map["a/b" := Staged(Entry(Regular, content))]
  {
    hide IsPrepared, GuardError, LinksClear, Straight, Verified, RootTaken, IndexMoved, Obstructed, Underway, OneFile;
    NotTaken("a/b", content);
    OneFileDelta(links, "a/b", content, map[]);
    var j;
    d, j, first := FailsObstructed(links, content, mine);
    ghost var between := d.index;
    StraightNow(links, d.worktree, d.index, j);
    d.fuel := 10;
    second := d.RecoverJournal(NoViews(), JoinEnv(true, None));
    MovedOn(map["a" := Staged(mine)], between, d.index, j.delta);
    OneLineThere(map["a" := Staged(mine)], d.index, content, mine, j.delta);
  }

  /** Someone commits between the gate and the compare-and-set, and the process dies before it has removed its
      journal: whatever the next run meets, it refuses the journal and changes nothing. */
  method StrandedJoin(links: Links, content: string, theirs: Commit, later: JoinEnv, fuel: nat)
    returns (d: Device, first: Ending<PublishResult, JoinFailure>, second: Ending<bool, JoinFailure>)
    requires IsAncestor(Root(map[]), theirs) && theirs != Root(map[]) && theirs != OneAhead(map[], OneFile("a", content))
    ensures fresh(d) && first == Crashed && second.Threw?
    ensures d.head == theirs && d.journal.Some? && d.worktree == map[] && d.index == map[]
  {
    hide IsPrepared, JournalOk, GuardError, LinksClear, Straight, Verified, RootTaken;
    NotTaken("a", content);
    var prepared := OneBehind(map[], OneFile("a", content));
    OneFileDelta(links, "a", content, map[]);
    d := new Device(links, Root(map[]), map[], map[]);
    d.fuel := 2;
    first := d.PublishPreparedDeviceJoin(NoViews(), prepared, JoinEnv(true, Some(theirs)));
    d.fuel := fuel;
    second := d.RecoverJournal(NoViews(), later);
  }

  // ---------- a directory moved, with a link left in its place ----------

  function Unmoved(content: string): Tree { map["a/b" := Entry(Regular, content)] }

  function MovedAndLinked(content: string): Tree {
    var t := map["a" := Entry(Symlink, "c"), "c/b" := Entry(Regular, content)];
    assert ClashFree(t) by { ThreePaths(); }
    t
  }

  /** What the leaves of a worktree show at a path. */
  function Here(w: Files, p: Path): Seen {
    if p in w then Leaf(w[p]) else if HasBelow(w, p) then Directory(false) else Absent
  }

  function Relink(p: Path): Path
    requires Under(p, "a")
  {
    "c" + p[1..]
  }

  /** Links in a worktree whose only link is "a", leading to "c" beside it: removing a leaf directly below "a" ends with an
      attempt to remove "a" as a directory. */
  function LinkBeside(): Links {
    Links((w: Files, p: Path) => if Under(p, "a") then Here(w, Relink(p)) else Absent,
          (w: Files, p: Path) => if Under(p, "a") then (w - {Relink(p)}, false) else (w, false),
          (w: Files) => None)
  }

  lemma ThreePaths()
    ensures Under("a/b", "a") && !Under("a", "a/b") && !Under("c/b", "a/b") && !Under("a/b", "c/b") && !Under("a", "c/b") && !Under("c/b", "a")
    ensures !Canonical("a") && !Canonical("a/b") && !Canonical("c/b")
  {
    assert "c/b"[0] == 'c' && "a"[0] == 'a' && "a/b"[0] == 'a' && "c/b"[..1][0] == 'c';
    assert KNOWLEDGE_ROOT[0] == 'l' && CONSTRAINT_ROOT[0] == 'l' && L1_PREFIX[0] == 'l';
  }

  function MoveItems(content: string): set<Item> {
    {Item("a", None, Some(Entry(Symlink, "c"))), Item("a/b", Some(Entry(Regular, content)), None),
     Item("c/b", None, Some(Entry(Regular, content)))}
  }

  lemma MoveDelta(content: string)
    ensures NoneCanonical(Unmoved(content)) && NoneCanonical(MovedAndLinked(content))
    ensures forall item :: item in TreeDelta(Unmoved(content), MovedAndLinked(content)) <==> item in MoveItems(content)
  {
    var h, m := Unmoved(content), MovedAndLinked(content);
    ThreePaths();
    hide Canonical;
    assert Changed(h, m) == {"a", "a/b", "c/b"};
    assert ItemAt(h, m, "a") == Item("a", None, Some(Entry(Symlink, "c")));
    assert ItemAt(h, m, "a/b") == Item("a/b", Some(Entry(Regular, content)), None);
    assert ItemAt(h, m, "c/b") == Item("c/b", None, Some(Entry(Regular, content)));
  }

  lemma MovePasses(content: string, delta: seq<Item>)
    requires forall item :: item in delta <==> item in MoveItems(content)
    ensures GuardError(LinkBeside(), Unmoved(content), map["a/b" := Staged(Entry(Regular, content))],
                       Unmoved(content), MovedAndLinked(content), delta).None?
  {
    var w, ix := Unmoved(content), map["a/b" := Staged(Entry(Regular, content))];
    ThreePaths();
    NotTaken("a/b", content);
    hide Under, Canonical, RootTaken, InViews;
    assert Item("a/b", Some(Entry(Regular, content)), None) in delta;
    assert "a/b" in Deleted(delta);
    assert forall p :: !Through(w, p);
    assert ViewsKnown(LinkBeside(), w, Unmoved(content), MovedAndLinked(content));
  }

  /** In no worktree does every lookup find M: where "a" is the link and c/b is there, a/b is found through the link. */
  lemma NeverVerified(content: string, w: Files, ix: Index)
    ensures !Verified(LinkBeside(), w, ix, MovedAndLinked(content), TreeDelta(Unmoved(content), MovedAndLinked(content)))
  {
    MoveDelta(content);
    var delta := TreeDelta(Unmoved(content), MovedAndLinked(content));
    assert Item("a", None, Some(Entry(Symlink, "c"))) in delta && Item("c/b", None, Some(Entry(Regular, content))) in delta;
    assert Item("a/b", Some(Entry(Regular, content)), None) in delta;
    hide TreeDelta, ViewsKnown, Canonical;
    LinkShows(content, w);
  }

  lemma LinkShows(content: string, w: Files)
    ensures Look(LinkBeside(), w, "a") == Leaf(Entry(Symlink, "c")) && Look(LinkBeside(), w, "c/b") == Leaf(Entry(Regular, content)) ==>
              !Matches(Look(LinkBeside(), w, "a/b"), None)
  {
    ThreePaths();
    assert Relink("a/b") == "c/b" && !Under("a", "a");
    hide Under, Relink;
  }

  /** A directory moved in M, with a link to the new place left behind. All checks pass, HEAD moves to M, and the final
      verification finds the old path through the link; no later run, however many there are, ever finishes. */
  method LinkedJoin(content: string, lives: seq<Life>) returns (d: Device, first: Ending<PublishResult, JoinFailure>)
    ensures fresh(d) && first.Threw?
    ensures d.head == OneAhead(Unmoved(content), MovedAndLinked(content)) && d.journal.Some?
  {
    hide IsPrepared, JournalOk, GuardError, LinksClear, Straight, Verified, Obstructed, IndexMoved, TreeDelta;
    MoveDelta(content);
    MovePasses(content, TreeDelta(Unmoved(content), MovedAndLinked(content)));
    var prepared := OneBehind(Unmoved(content), MovedAndLinked(content));
    var staged: Index := map["a/b" := Staged(Entry(Regular, content))];
    d := new Device(LinkBeside(), Root(Unmoved(content)), Unmoved(content), staged);
    ghost var j := JournalOf(prepared);
    d.fuel := |JournalOf(prepared).delta| + 4;
    first := d.PublishPreparedDeviceJoin(NoViews(), prepared, JoinEnv(true, None));
    NeverVerified(content, d.worktree, d.index);
    for i := 0 to |lives|
      invariant d.journal == Some(j) && d.head == j.candidate
    {
      d.fuel := lives[i].fuel;
      var _ := d.RecoverJournal(NoViews(), JoinEnv(lives[i].gateOpen, lives[i].outside));
      NeverVerified(content, d.worktree, d.index);
    }
  }

  // ---------- facts about the instances ----------

  lemma InTheWay(ix: Index, delta: seq<Item>)
    requires "a" in ix && |delta| == 1 && delta[0].path == "a/b" && delta[0].after.Some?
    ensures Obstructed(ix, delta)
  {
    assert delta[0] in delta && Under("a/b", "a");
    assert "a" !in DeltaPaths(delta) && Blocks(delta, "a");
  }

  lemma OneLineThere(staged: Index, ix: Index, content: string, mine: Entry, delta: seq<Item>)
    requires delta == [Item("a/b", None, Some(Entry(Regular, content)))] && staged == map["a" := Staged(mine)]
    requires ix == staged || IndexMoved(staged, ix, delta)
    requires Get(ix, "a/b") == Some(Staged(Entry(Regular, content)))
    ensures ix == map["a/b" := Staged(Entry(Regular, content))]
  {
    assert delta[0] in delta && Under("a/b", "a") && Blocks(delta, "a");
    assert forall q :: q in DeltaPaths(delta) <==> q == "a/b";
    SameFiles(ix, map["a/b" := Staged(Entry(Regular, content))]);
  }

  lemma OnePath(p: Path)
    ensures SortedPaths({p}) == [p]
  {
    PathsTotal();
    hide PathLt;
    AscendingUnique(PathLt, {p}, [p]);
  }

  lemma OneFileThere(w: Files, content: string)
    requires Get(w, "a") == Some(Entry(Regular, content)) && forall q | q != "a" :: Get(w, q) == None
    ensures w == map["a" := Entry(Regular, content)]
  {
    SameFiles(w, map["a" := Entry(Regular, content)]);
  }
}
