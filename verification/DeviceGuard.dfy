/** The checks made before a device join touches anything, its final verification, and when they pass from any point
    on the way. */
module DeviceGuard {
  import opened Order
  import opened Results
  import opened Git
  import opened CohortIndex
  import opened DeviceMerge
  import opened DeviceOrder
  import opened DeviceLinks

  datatype JoinFailure =
    | JournalCandidateInvalid | HeadThirdState | MaterializeUnsupported | ParentUnsafe | WorktreeThirdState | IndexThirdState
    | DirectoryReplaceDirty | CanonicalDirty | ViewUnknown | GateClosed | CasFailed | OutsideIndexMutated
    | PruneFailed | VerifyFailed

  predicate Canonical(p: Path) { IsL1(p) || IsL2(p) }

  function DeltaPaths(delta: seq<Item>): (r: seq<Path>)
    ensures forall p :: p in r <==> p in Paths(delta)
  {
    var r := seq(|delta|, i requires 0 <= i < |delta| => delta[i].path);
    assert forall i | 0 <= i < |delta| :: r[i] == delta[i].path;
    r
  }

  function Deleted(delta: seq<Item>): set<Path> {
    set item | item in delta && item.after.None? :: item.path
  }

  // ---------- the checks made before anything is touched ----------

  predicate SymlinkWritable(e: Entry) {
    e.mode == Symlink ==> e.oid != "" && '\0' !in e.oid
  }

  predicate NoGitlink(e: Option<Entry>) { e.Some? ==> e.value.mode != Gitlink }

  /** `assertMaterializableDelta`. A link in a parent position is a leaf like any other here. */
  predicate Materializable(w: Files, delta: seq<Item>) {
    forall item | item in delta ::
      && NoGitlink(item.before) && NoGitlink(item.after)
      && (item.after.Some? ==> SymlinkWritable(item.after.value) && forall q | q in w && Under(item.path, q) :: q in Deleted(delta))
  }

  /** `assertDirectoryReplacementInventory`: below a link nothing is the delta's own. */
  predicate ReplaceClean(links: Links, w: Files, delta: seq<Item>) {
    && (forall item, q | item in delta && item.after.Some? && q in w && Under(q, item.path) :: q in Deleted(delta))
    && (forall item | item in delta && item.after.Some? && Through(w, item.path) :: links.behind(w, item.path) != Directory(false))
  }

  /** `verifyChangedPathStates`: each path is exactly as in H or exactly as in M. */
  predicate WorktreeKnown(links: Links, w: Files, delta: seq<Item>) {
    forall item | item in delta :: Matches(Look(links, w, item.path), item.before) || Matches(Look(links, w, item.path), item.after)
  }

  predicate IndexKnown(ix: Index, delta: seq<Item>) {
    forall item | item in delta :: Get(ix, item.path) == Line(item.before) || Get(ix, item.path) == Line(item.after)
  }

  /** `verifyOutsideDeltaCanonicalSafety`. */
  predicate CanonicalSafe(links: Links, w: Files, ix: Index, h: Files, delta: seq<Item>) {
    && (forall p | p in h && p !in DeltaPaths(delta) && Canonical(p) :: Get(ix, p) == Line(Some(h[p])) && Look(links, w, p) == Leaf(h[p]))
    && (forall p | p in ix && p !in DeltaPaths(delta) && Canonical(p) :: p in h)
  }

  /** `verifyRegisteredL2Inventory`. */
  predicate ViewsKnown(links: Links, w: Files, h: Files, m: Files) {
    ViewLeaves(links, w).Some? && forall p | p in ViewLeaves(links, w).value :: p in h || p in m
  }

  function GuardError(links: Links, w: Files, ix: Index, h: Files, m: Files, delta: seq<Item>): Option<JoinFailure> {
    if !Materializable(w, delta) then Some(MaterializeUnsupported)
    else if !WorktreeKnown(links, w, delta) then Some(WorktreeThirdState)
    else if !ReplaceClean(links, w, delta) then Some(DirectoryReplaceDirty)
    else if !IndexKnown(ix, delta) then Some(IndexThirdState)
    else if !CanonicalSafe(links, w, ix, h, delta) then Some(CanonicalDirty)
    else if !ViewsKnown(links, w, h, m) then Some(ViewUnknown)
    else None
  }

  /** `verifyPublishedState`, once HEAD is M: its ways to fail come down to one. */
  predicate Verified(links: Links, w: Files, ix: Index, m: Files, delta: seq<Item>) {
    && (forall item | item in delta :: Matches(Look(links, w, item.path), item.after) && Get(ix, item.path) == Line(item.after))
    && (forall p | p in m && Canonical(p) :: Get(ix, p) == Line(Some(m[p])) && Look(links, w, p) == Leaf(m[p]))
    && (forall p | p in ix && Canonical(p) :: p in m)
    && ViewsKnown(links, w, m, m)
  }

  // ---------- where the index and the worktree stand ----------

  /** A staged path outside the delta is in the way of one the delta adds. */
  ghost predicate Blocks(delta: seq<Item>, q: Path) {
    exists item | item in delta :: item.after.Some? && Clash(q, item.path)
  }

  ghost predicate Obstructed(ix: Index, delta: seq<Item>) {
    exists q | q in ix && q !in DeltaPaths(delta) :: Blocks(delta, q)
  }

  /** The index after the delta's records: outside the delta only obstructing lines are gone. */
  ghost predicate IndexMoved(before: Index, after: Index, delta: seq<Item>) {
    && (forall item | item in delta :: Get(after, item.path) == Line(item.after))
    && (forall q | q !in DeltaPaths(delta) :: Get(after, q) == if Blocks(delta, q) then None else Get(before, q))
  }

  /** The delta is at H or at M throughout, and nothing else in the worktree has changed. */
  ghost predicate Underway(before: Files, after: Files, delta: seq<Item>) {
    && (forall item | item in delta :: Get(after, item.path) == item.before || Get(after, item.path) == item.after)
    && forall q | q !in DeltaPaths(delta) :: Get(after, q) == Get(before, q)
  }

  ghost predicate DeltaOf(delta: seq<Item>, h: Files, m: Files) {
    delta == TreeDelta(h, m)
  }

  /** Every path of the delta is at M. */
  ghost predicate AtM(w: Files, delta: seq<Item>) {
    forall item | item in delta :: Get(w, item.path) == item.after
  }

  /** The worktree after the first `k` writes. */
  ghost function At(w: Files, delta: seq<Item>, k: nat): Files
    requires k <= |delta|
  {
    Reached(w, WriteOrder(delta), k)
  }

  lemma DeltaItems(delta: seq<Item>, h: Files, m: Files)
    requires DeltaOf(delta, h, m)
    ensures forall item | item in delta :: item.before == Get(h, item.path) && item.after == Get(m, item.path)
    ensures forall p | p !in DeltaPaths(delta) :: Get(h, p) == Get(m, p)
    ensures forall item | item in delta :: item.path in DeltaPaths(delta)
    ensures forall p | p in DeltaPaths(delta) :: ItemAt(h, m, p) in delta
  {
    forall p | Get(h, p) != Get(m, p) ensures p in DeltaPaths(delta) {
      assert ItemAt(h, m, p) in delta;
      var k :| 0 <= k < |delta| && delta[k] == ItemAt(h, m, p);
    }
    forall item | item in delta ensures item.path in DeltaPaths(delta) {
      var k :| 0 <= k < |delta| && delta[k] == item;
    }
    forall p | p in DeltaPaths(delta) ensures ItemAt(h, m, p) in delta {
      var k :| 0 <= k < |delta| && delta[k].path == p;
      assert delta[k] in delta;
    }
  }

  lemma DistinctPaths(h: Files, m: Files)
    ensures var ordered := WriteOrder(TreeDelta(h, m)); Distinct(ordered)
  {
    var delta := TreeDelta(h, m);
    var ordered := WriteOrder(delta);
    assert forall a, b | 0 <= a < b < |delta| :: delta[a] != delta[b] by { SortedPathsAscend(Changed(h, m)); }
    DistinctReordered(delta, ordered);
    WriteOrderMeans(delta);
    forall a, b | 0 <= a < b < |ordered| ensures ordered[a].path != ordered[b].path {
      assert ordered[a] in delta && ordered[b] in delta;
    }
  }

  /** What the checks must refuse, said of the two trees: a changed path that is staged or edited in a third state,
      cannot be written, or has a leaf in its way that the change does not remove; a canonical path that does not change
      but is staged or edited differently; a canonical line of neither tree; a file of neither tree in the view areas. */
  ghost predicate MustRefuse(w: Files, ix: Index, h: Files, m: Files) {
    || (exists p | Get(h, p) != Get(m, p) ::
          || (Get(ix, p) != Staging(Get(h, p)) && Get(ix, p) != Staging(Get(m, p)))
          || (p in w && Get(w, p) != Get(h, p) && Get(w, p) != Get(m, p))
          || (p in h && h[p].mode.Gitlink?) || (p in m && m[p].mode.Gitlink?)
          || (p in m && m[p].mode.Symlink? && (|m[p].oid| == 0 || '\0' in m[p].oid)))
    || (exists p, q | p in m && Get(h, p) != Get(m, p) && q in w && (Under(p, q) || Under(q, p)) :: !(q in h && q !in m))
    || (exists p | p in h && Get(h, p) == Get(m, p) && (IsL1(p) || IsL2(p)) :: Get(ix, p) != Staging(Get(h, p)) || (p in w && w[p] != h[p]))
    || (exists p | p in ix && (IsL1(p) || IsL2(p)) :: p !in h && p !in m)
    || (exists p | p in w && InViews(p) :: p !in h && p !in m)
  }

  function Staging(e: Option<Entry>): Option<Staged> {
    match e
    case None => None
    case Some(entry) => Some(Staged(entry))
  }

  lemma ChangedPathsFit(links: Links, w: Files, ix: Index, h: Files, m: Files, delta: seq<Item>, p: Path)
    requires DeltaOf(delta, h, m) && Materializable(w, delta) && WorktreeKnown(links, w, delta) && IndexKnown(ix, delta)
    requires Get(h, p) != Get(m, p)
    ensures Get(ix, p) == Staging(Get(h, p)) || Get(ix, p) == Staging(Get(m, p))
    ensures p in w ==> Get(w, p) == Get(h, p) || Get(w, p) == Get(m, p)
    ensures !(p in h && h[p].mode.Gitlink?) && !(p in m && m[p].mode.Gitlink?)
    ensures !(p in m && m[p].mode.Symlink? && (|m[p].oid| == 0 || '\0' in m[p].oid))
  {
    hide Under, Deleted, HasBelow;
    assert ItemAt(h, m, p) in delta;
  }

  lemma NothingInTheWay(links: Links, w: Files, h: Files, m: Files, delta: seq<Item>, p: Path, q: Path)
    requires DeltaOf(delta, h, m) && Materializable(w, delta) && ReplaceClean(links, w, delta)
    requires p in m && Get(h, p) != Get(m, p) && q in w && (Under(p, q) || Under(q, p))
    ensures q in h && q !in m
  {
    hide Under;
    assert ItemAt(h, m, p) in delta;
    assert q in Deleted(delta);
    var item :| item in delta && item.after.None? && item.path == q;
  }

  lemma SharedFits(links: Links, w: Files, ix: Index, h: Files, m: Files, delta: seq<Item>, p: Path)
    requires DeltaOf(delta, h, m) && CanonicalSafe(links, w, ix, h, delta)
    ensures p in h && Get(h, p) == Get(m, p) && (IsL1(p) || IsL2(p)) ==> Get(ix, p) == Staging(Get(h, p)) && (p in w ==> w[p] == h[p])
    ensures p in ix && (IsL1(p) || IsL2(p)) ==> p in h || p in m
  {
    DeltaItems(delta, h, m);
    hide IsL1, IsL2;
    assert p in DeltaPaths(delta) ==> ItemAt(h, m, p) in delta;
  }

  lemma RefusesWhatItMust(links: Links, w: Files, ix: Index, h: Files, m: Files, delta: seq<Item>)
    requires DeltaOf(delta, h, m) && GuardError(links, w, ix, h, m, delta).None?
    ensures !MustRefuse(w, ix, h, m)
  {
    hide Under, IsL1, IsL2, InViews, Materializable, WorktreeKnown, ReplaceClean, IndexKnown, CanonicalSafe, DeltaOf, RootTaken;
    forall p | Get(h, p) != Get(m, p)
      ensures Get(ix, p) == Staging(Get(h, p)) || Get(ix, p) == Staging(Get(m, p))
      ensures p in w ==> Get(w, p) == Get(h, p) || Get(w, p) == Get(m, p)
      ensures !(p in h && h[p].mode.Gitlink?) && !(p in m && m[p].mode.Gitlink?)
      ensures !(p in m && m[p].mode.Symlink? && (|m[p].oid| == 0 || '\0' in m[p].oid))
    {
      ChangedPathsFit(links, w, ix, h, m, delta, p);
    }
    forall p, q | p in m && Get(h, p) != Get(m, p) && q in w && (Under(p, q) || Under(q, p)) ensures q in h && q !in m {
      NothingInTheWay(links, w, h, m, delta, p, q);
    }
    forall p
      ensures p in h && Get(h, p) == Get(m, p) && (IsL1(p) || IsL2(p)) ==> Get(ix, p) == Staging(Get(h, p)) && (p in w ==> w[p] == h[p])
      ensures p in ix && (IsL1(p) || IsL2(p)) ==> p in h || p in m
    {
      SharedFits(links, w, ix, h, m, delta, p);
    }
    forall p | p in w && InViews(p) ensures p in h || p in m { assert p in ViewLeaves(links, w).value; }
  }

  // ---------- what stands behind links ----------

  /** What a lookup through a link may find: the state of the item in M, or, while its turn is to come, in H. */
  predicate ClearBehind(seen: Seen, item: Item, due: bool) {
    && (Matches(seen, item.after) || (due && Matches(seen, item.before)))
    && (item.after.Some? ==> seen != Directory(false))
  }

  /** After `k` writes every lookup that leads through a link finds what the tree has, and the view areas list nothing
      else. */
  ghost predicate ClearAt(links: Links, v: Files, h: Files, m: Files, delta: seq<Item>, k: nat) {
    && (forall j | 0 <= j < |delta| && Through(v, WriteOrder(delta)[j].path) ::
          ClearBehind(links.behind(v, WriteOrder(delta)[j].path), WriteOrder(delta)[j], k < j))
    && (forall p | p in h && p !in DeltaPaths(delta) && Canonical(p) && Through(v, p) :: links.behind(v, p) == Leaf(h[p]))
    && (RootTaken(v) ==> links.listing(v).Some? && forall p | p in links.listing(v).value :: p in m || (k < |delta| && p in h))
  }

  /** The same after any number of writes. */
  ghost predicate LinksClear(links: Links, w: Files, h: Files, m: Files, delta: seq<Item>) {
    forall k | 0 <= k <= |delta| :: ClearAt(links, At(w, delta, k), h, m, delta, k)
  }

  /** From here every write is plain, and in the end every lookup finds M. */
  ghost predicate Straight(links: Links, w: Files, h: Files, m: Files, delta: seq<Item>) {
    AllPlain(links, w, WriteOrder(delta)) && ClearAt(links, At(w, delta, |delta|), h, m, delta, |delta|)
  }

  lemma AtMeans(w: Files, h: Files, m: Files, delta: seq<Item>, k: nat)
    requires DeltaOf(delta, h, m) && k <= |delta|
    ensures var ordered := WriteOrder(delta);
            && Distinct(ordered) && (forall item :: item in ordered <==> item in delta)
            && (forall j | 0 <= j < |delta| :: ordered[j] in delta)
            && (forall j | 0 <= j < |delta| :: Get(At(w, delta, k), ordered[j].path) == if j < k then ordered[j].after else Get(w, ordered[j].path))
            && (forall q | q !in DeltaPaths(delta) :: Get(At(w, delta, k), q) == Get(w, q))
  {
    var ordered := WriteOrder(delta);
    WriteOrderMeans(delta);
    DistinctPaths(h, m);
    ReachedMeans(w, ordered, k);
    DeltaItems(delta, h, m);
    forall j | 0 <= j < |delta| ensures ordered[j] in delta { assert ordered[j] in ordered; }
    forall q | q !in DeltaPaths(delta) ensures q !in Paths(ordered) {
      assert forall j | 0 <= j < |ordered| :: ordered[j] in delta;
    }
  }

  /** The checks leave an item's own leaf as in H or as in M, links or not. */
  lemma KnownHere(links: Links, w: Files, h: Tree, m: Tree, delta: seq<Item>)
    requires DeltaOf(delta, h, m) && Materializable(w, delta) && WorktreeKnown(links, w, delta)
    ensures forall item | item in delta :: Get(w, item.path) == item.before || Get(w, item.path) == item.after
    ensures forall item | item in delta && item.after.Some? && Through(w, item.path) :: item.before.None?
  {
    DeltaItems(delta, h, m);
    forall item | item in delta
      ensures Get(w, item.path) == item.before || Get(w, item.path) == item.after
      ensures item.after.Some? && Through(w, item.path) ==> item.before.None?
    {
      ItemHere(links, w, item);
      if item.after.Some? && Through(w, item.path) {
        var q :| q in w && w[q].mode == Symlink && Under(item.path, q);
        assert q in Deleted(delta);
        var gone :| gone in delta && gone.path == q && gone.after.None?;
        assert q in h;
      }
    }
  }

  lemma ItemHere(links: Links, w: Files, item: Item)
    ensures !Through(w, item.path) ==>
              && (Matches(Look(links, w, item.path), item.before) <==> Get(w, item.path) == item.before)
              && (Matches(Look(links, w, item.path), item.after) <==> Get(w, item.path) == item.after)
    ensures Through(w, item.path) ==> Get(w, item.path) == None
  {}

  lemma AtUnderway(links: Links, w: Files, h: Tree, m: Tree, delta: seq<Item>, k: nat)
    requires DeltaOf(delta, h, m) && k <= |delta| && Materializable(w, delta) && WorktreeKnown(links, w, delta)
    ensures Underway(w, At(w, delta, k), delta) && (k == |delta| ==> AtM(At(w, delta, k), delta))
  {
    KnownHere(links, w, h, m, delta);
    AtMeans(w, h, m, delta, k);
    var ordered := WriteOrder(delta);
    forall item | item in delta
      ensures Get(At(w, delta, k), item.path) == item.before || Get(At(w, delta, k), item.path) == item.after
      ensures k == |delta| ==> Get(At(w, delta, k), item.path) == item.after
    {
      assert item in ordered;
      var j :| 0 <= j < |ordered| && ordered[j] == item;
      assert ordered[j] in delta;
    }
  }

  // ---------- the checks stay satisfied ----------

  lemma ClashIsDeleted(w: Files, next: Files, delta: seq<Item>, h: Files, m: Files)
    requires ClashFree(m) && DeltaOf(delta, h, m) && Underway(w, next, delta)
    requires forall item, q | item in delta && item.after.Some? && q in w && Clash(q, item.path) :: q in Deleted(delta)
    ensures forall item, q | item in delta && item.after.Some? && q in next && Clash(q, item.path) :: q in Deleted(delta)
  {
    DeltaItems(delta, h, m);
    forall item, q | item in delta && item.after.Some? && q in next && Clash(q, item.path) ensures q in Deleted(delta) {
      if q in DeltaPaths(delta) {
        assert ItemAt(h, m, q) in delta;
        assert item.path in m;
        assert ItemAt(h, m, q).after.None?;
      } else {
        assert Get(next, q) == Get(w, q);
      }
    }
  }

  lemma LeavesStay(links: Links, w: Files, next: Files, delta: seq<Item>, h: Files, m: Files)
    requires ClashFree(m) && DeltaOf(delta, h, m) && Underway(w, next, delta)
    requires Materializable(w, delta) && ReplaceClean(links, w, delta)
    ensures Materializable(next, delta)
    ensures forall item, q | item in delta && item.after.Some? && q in next && Under(q, item.path) :: q in Deleted(delta)
  {
    ClashIsDeleted(w, next, delta, h, m);
    forall item, q | item in delta && item.after.Some? && q in next && Under(item.path, q) ensures q in Deleted(delta) {
      assert Clash(q, item.path);
    }
    forall item, q | item in delta && item.after.Some? && q in next && Under(q, item.path) ensures q in Deleted(delta) {
      assert Clash(q, item.path);
    }
  }

  /** A link above a path that H and M share is not part of the delta, so it stays. */
  lemma SharedStaysThrough(w: Files, next: Files, delta: seq<Item>, h: Tree, m: Tree, p: Path)
    requires DeltaOf(delta, h, m) && Underway(w, next, delta) && p in h && p !in DeltaPaths(delta)
    ensures Through(next, p) <==> Through(w, p)
  {
    DeltaItems(delta, h, m);
    assert Get(next, p) == Get(w, p) && Get(h, p) == Get(m, p);
    forall q | Under(p, q) ensures Get(next, q) == Get(w, q) {
      assert q in DeltaPaths(delta) ==> ItemAt(h, m, q) in delta;
    }
    if Through(w, p) {
      var q :| q in w && w[q].mode == Symlink && Under(p, q);
      assert Get(next, q) == Get(w, q);
    }
    if Through(next, p) {
      var q :| q in next && next[q].mode == Symlink && Under(p, q);
      assert Get(next, q) == Get(w, q);
    }
  }

  /** The canonical paths outside the delta, after part of the transition. */
  lemma CanonicalLooks(links: Links, w: Files, ix: Index, next: Files, delta: seq<Item>, h: Tree, m: Tree)
    requires DeltaOf(delta, h, m) && Underway(w, next, delta) && CanonicalSafe(links, w, ix, h, delta)
    ensures forall p | p in h && p !in DeltaPaths(delta) && Canonical(p) ::
              Look(links, next, p) == Leaf(h[p]) <==> (Through(next, p) ==> links.behind(next, p) == Leaf(h[p]))
  {
    forall p | p in h && p !in DeltaPaths(delta) && Canonical(p)
      ensures Look(links, next, p) == Leaf(h[p]) <==> (Through(next, p) ==> links.behind(next, p) == Leaf(h[p]))
    {
      SharedStaysThrough(w, next, delta, h, m, p);
      assert Get(next, p) == Get(w, p);
    }
  }

  lemma LinesStay(links: Links, w: Files, ix: Index, nextIx: Index, delta: seq<Item>, h: Files, m: Files)
    requires ClashFree(m) && DeltaOf(delta, h, m) && CanonicalSafe(links, w, ix, h, delta)
    requires nextIx == ix || IndexMoved(ix, nextIx, delta)
    ensures forall p | p in h && p !in DeltaPaths(delta) && Canonical(p) :: Get(nextIx, p) == Line(Some(h[p]))
    ensures forall p | p in nextIx && p !in DeltaPaths(delta) && Canonical(p) :: p in h
  {
    DeltaItems(delta, h, m);
    forall p | p in h && p !in DeltaPaths(delta) && Canonical(p) ensures Get(nextIx, p) == Line(Some(h[p])) {
      assert p in m;
      assert !Blocks(delta, p);
    }
    forall p | p in nextIx && p !in DeltaPaths(delta) && Canonical(p) ensures p in h {
      assert Get(nextIx, p).Some?;
      assert p in ix;
    }
  }

  /** The leaves listed in the view areas, after part of the transition. */
  lemma ViewsLook(links: Links, w: Files, next: Files, delta: seq<Item>, h: Files, m: Files)
    requires DeltaOf(delta, h, m) && Underway(w, next, delta) && ViewsKnown(links, w, h, m)
    ensures ViewsKnown(links, next, h, m) <==>
            (RootTaken(next) ==> links.listing(next).Some? && forall p | p in links.listing(next).value :: p in m || p in h)
    ensures AtM(next, delta) ==>
            (ViewsKnown(links, next, m, m) <==>
             (RootTaken(next) ==> links.listing(next).Some? && forall p | p in links.listing(next).value :: p in m))
  {
    DeltaItems(delta, h, m);
    forall p | p in next && InViews(p) ensures p in h || p in m ensures AtM(next, delta) ==> p in m {
      if p in DeltaPaths(delta) {
        assert ItemAt(h, m, p) in delta;
        assert Get(next, p) == Get(h, p) || Get(next, p) == Get(m, p);
      } else {
        assert Get(next, p) == Get(w, p);
        assert p in ViewLeaves(links, w).value;
        assert Get(h, p) == Get(m, p);
      }
    }
  }

  /** Whatever part of the transition is done, and the index too, all the checks made before it pass again, as long as
      what stands behind links is clear. */
  lemma GuardStays(links: Links, w: Files, ix: Index, nextIx: Index, h: Tree, m: Tree, delta: seq<Item>, k: nat)
    requires DeltaOf(delta, h, m) && k <= |delta| && GuardError(links, w, ix, h, m, delta).None?
    requires nextIx == ix || IndexMoved(ix, nextIx, delta)
    requires ClearAt(links, At(w, delta, k), h, m, delta, k)
    ensures GuardError(links, At(w, delta, k), nextIx, h, m, delta).None?
  {
    hide Materializable, IndexKnown, CanonicalSafe, ViewsKnown, Underway, IndexMoved, At, WorktreeKnown, ReplaceClean, ClearAt;
    var next := At(w, delta, k);
    AtUnderway(links, w, h, m, delta, k);
    LeavesStay(links, w, next, delta, h, m);
    KnownStays(links, w, h, m, delta, k);
    assert IndexKnown(nextIx, delta) by { IndexStaysKnown(ix, nextIx, delta); }
    CanonicalStays(links, w, ix, next, nextIx, h, m, delta, k);
    ViewsStay(links, w, next, h, m, delta, k);
    ReplaceStays(links, w, next, h, m, delta, k);
  }

  lemma IndexStaysKnown(ix: Index, nextIx: Index, delta: seq<Item>)
    requires IndexKnown(ix, delta) && (nextIx == ix || IndexMoved(ix, nextIx, delta))
    ensures IndexKnown(nextIx, delta)
  {}

  lemma KnownStays(links: Links, w: Files, h: Tree, m: Tree, delta: seq<Item>, k: nat)
    requires DeltaOf(delta, h, m) && k <= |delta| && Materializable(w, delta) && WorktreeKnown(links, w, delta)
    requires ClearAt(links, At(w, delta, k), h, m, delta, k)
    ensures WorktreeKnown(links, At(w, delta, k), delta)
  {
    var next := At(w, delta, k);
    var ordered := WriteOrder(delta);
    AtUnderway(links, w, h, m, delta, k);
    AtMeans(w, h, m, delta, k);
    forall item | item in delta
      ensures Matches(Look(links, next, item.path), item.before) || Matches(Look(links, next, item.path), item.after)
    {
      assert item in ordered;
      var j :| 0 <= j < |ordered| && ordered[j] == item;
      ItemHere(links, next, item);
    }
  }

  lemma CanonicalStays(links: Links, w: Files, ix: Index, next: Files, nextIx: Index, h: Tree, m: Tree, delta: seq<Item>, k: nat)
    requires DeltaOf(delta, h, m) && Underway(w, next, delta) && CanonicalSafe(links, w, ix, h, delta)
    requires nextIx == ix || IndexMoved(ix, nextIx, delta)
    requires ClearAt(links, next, h, m, delta, k)
    ensures CanonicalSafe(links, next, nextIx, h, delta)
  {
    CanonicalLooks(links, w, ix, next, delta, h, m);
    LinesStay(links, w, ix, nextIx, delta, h, m);
  }

  lemma ViewsStay(links: Links, w: Files, next: Files, h: Files, m: Files, delta: seq<Item>, k: nat)
    requires DeltaOf(delta, h, m) && Underway(w, next, delta) && ViewsKnown(links, w, h, m)
    requires ClearAt(links, next, h, m, delta, k)
    ensures ViewsKnown(links, next, h, m)
  {
    ViewsLook(links, w, next, delta, h, m);
  }

  lemma ReplaceStays(links: Links, w: Files, next: Files, h: Tree, m: Tree, delta: seq<Item>, k: nat)
    requires DeltaOf(delta, h, m) && ClearAt(links, next, h, m, delta, k)
    requires forall item, q | item in delta && item.after.Some? && q in next && Under(q, item.path) :: q in Deleted(delta)
    ensures ReplaceClean(links, next, delta)
  {
    WriteOrderMeans(delta);
    forall item | item in delta && item.after.Some? && Through(next, item.path) ensures links.behind(next, item.path) != Directory(false) {
      assert item in WriteOrder(delta);
      var j :| 0 <= j < |delta| && WriteOrder(delta)[j] == item;
    }
  }

  /** The order of writing fits the checks that were made. */
  lemma OrderFits(links: Links, w: Files, h: Files, m: Files, delta: seq<Item>)
    requires DeltaOf(delta, h, m) && Materializable(w, delta) && ReplaceClean(links, w, delta)
    ensures var ordered := WriteOrder(delta);
            Distinct(ordered) && DeletesFirst(ordered, m) && Clear(w, ordered) && forall q :: q in Paths(ordered) <==> q in DeltaPaths(delta)
  {
    var ordered := WriteOrder(delta);
    WriteOrderMeans(delta);
    DistinctPaths(h, m);
    DeltaItems(delta, h, m);
    forall k | 0 <= k < |ordered| ensures ordered[k] in delta { assert ordered[k] in ordered; }
    assert forall q :: q in Paths(ordered) <==> exists item | item in ordered :: item.path == q;
    assert forall q :: q in DeltaPaths(delta) <==> exists item | item in delta :: item.path == q;
    forall item, q | item in ordered && item.after.Some? && q in w && Clash(q, item.path) ensures q in Paths(ordered) {
      assert q in Deleted(delta);
    }
  }

  /** On an item whose turn has come or is over, writing is plain exactly when what stands behind links is clear. */
  lemma PlainExactly(links: Links, w: Files, h: Tree, m: Tree, delta: seq<Item>, k: nat, j: nat)
    requires DeltaOf(delta, h, m) && j <= k <= |delta| && j < |delta|
    requires Materializable(w, delta) && WorktreeKnown(links, w, delta) && ReplaceClean(links, w, delta)
    ensures var item := WriteOrder(delta)[j]; var v := At(w, delta, k);
            Plain(links, v, item) <==> (Through(v, item.path) ==> ClearBehind(links.behind(v, item.path), item, false))
  {
    hide Clash, Materializable, WorktreeKnown, ReplaceClean;
    var ordered := WriteOrder(delta);
    var v, item := At(w, delta, k), ordered[j];
    AtMeans(w, h, m, delta, k);
    AtUnderway(links, w, h, m, delta, k);
    OrderFits(links, w, h, m, delta);
    if j == k && item.after.Some? { NeverBlocked(w, ordered, j, m); }
    forall q | Under(item.path, q) ensures Clash(q, item.path) { ClashAbove(q, item.path); }
    assert Through(v, item.path) ==> Get(v, item.path) == None;
  }

  lemma ClashAbove(q: Path, p: Path)
    requires Under(p, q)
    ensures Clash(q, p)
  {}

  /** From any point on the way the rest is plain, when what stands behind links is clear all the way. */
  lemma StraightFrom(links: Links, w: Files, ix: Index, h: Tree, m: Tree, delta: seq<Item>, k: nat)
    requires DeltaOf(delta, h, m) && k <= |delta| && GuardError(links, w, ix, h, m, delta).None? && LinksClear(links, w, h, m, delta)
    ensures Straight(links, At(w, delta, k), h, m, delta)
  {
    hide Materializable, WorktreeKnown, ReplaceClean, Plain, CanonicalSafe, ViewsKnown, IndexKnown;
    var ordered := WriteOrder(delta);
    DistinctPaths(h, m);
    forall j | 0 <= j < |delta| ensures Plain(links, Reached(At(w, delta, k), ordered, j), ordered[j]) {
      var far := if k < j then j else k;
      ReachedAgain(w, ordered, k, j);
      assert ClearAt(links, At(w, delta, far), h, m, delta, far);
      PlainExactly(links, w, h, m, delta, far, j);
    }
    ReachedAgain(w, ordered, k, |delta|);
    assert ClearAt(links, At(w, delta, |delta|), h, m, delta, |delta|);
  }

  /** What stands behind links stays clear on the way. */
  lemma ClearFrom(links: Links, w: Files, h: Tree, m: Tree, delta: seq<Item>, k: nat)
    requires DeltaOf(delta, h, m) && k <= |delta| && LinksClear(links, w, h, m, delta)
    ensures LinksClear(links, At(w, delta, k), h, m, delta)
  {
    DistinctPaths(h, m);
    forall i | 0 <= i <= |delta| ensures ClearAt(links, At(At(w, delta, k), delta, i), h, m, delta, i) {
      var far := if k < i then i else k;
      ReachedAgain(w, WriteOrder(delta), k, i);
      assert ClearAt(links, At(w, delta, far), h, m, delta, far);
    }
  }

  /** The converse of the two: where the checks pass and the rest is plain, what stands behind links is clear. */
  lemma ClearNeeded(links: Links, w: Files, ix: Index, h: Tree, m: Tree, delta: seq<Item>, k: nat)
    requires DeltaOf(delta, h, m) && k <= |delta| && GuardError(links, w, ix, h, m, delta).None?
    requires GuardError(links, At(w, delta, k), ix, h, m, delta).None? && Straight(links, At(w, delta, k), h, m, delta)
    ensures ClearAt(links, At(w, delta, k), h, m, delta, k)
  {
    hide Materializable, IndexKnown, CanonicalSafe, ViewsKnown, WorktreeKnown, ReplaceClean, AllPlain, Through, At, ClearBehind;
    var v := At(w, delta, k);
    forall j | 0 <= j < |delta| && Through(v, WriteOrder(delta)[j].path)
      ensures ClearBehind(links.behind(v, WriteOrder(delta)[j].path), WriteOrder(delta)[j], k < j)
    {
      if j <= k { BehindNow(links, w, h, m, delta, k, j); } else { BehindLater(links, v, delta, j); }
    }
    CheckedClear(links, v, ix, h, m, delta);
    if k == |delta| { SameAgain(w, h, m, delta); }
  }

  lemma BehindNow(links: Links, w: Files, h: Tree, m: Tree, delta: seq<Item>, k: nat, j: nat)
    requires DeltaOf(delta, h, m) && j <= k <= |delta| && j < |delta|
    requires Materializable(w, delta) && WorktreeKnown(links, w, delta) && ReplaceClean(links, w, delta)
    requires AllPlain(links, At(w, delta, k), WriteOrder(delta)) && Through(At(w, delta, k), WriteOrder(delta)[j].path)
    ensures ClearBehind(links.behind(At(w, delta, k), WriteOrder(delta)[j].path), WriteOrder(delta)[j], k < j)
  {
    hide Materializable, WorktreeKnown, ReplaceClean, Through, Plain;
    DistinctPaths(h, m);
    ReachedAgain(w, WriteOrder(delta), k, j);
    assert Plain(links, Reached(At(w, delta, k), WriteOrder(delta), j), WriteOrder(delta)[j]);
    PlainExactly(links, w, h, m, delta, k, j);
  }

  lemma BehindLater(links: Links, v: Files, delta: seq<Item>, j: nat)
    requires j < |delta| && WorktreeKnown(links, v, delta) && ReplaceClean(links, v, delta) && Through(v, WriteOrder(delta)[j].path)
    ensures ClearBehind(links.behind(v, WriteOrder(delta)[j].path), WriteOrder(delta)[j], true)
  {
    WriteOrderMeans(delta);
    assert WriteOrder(delta)[j] in WriteOrder(delta);
  }

  lemma CheckedClear(links: Links, v: Files, ix: Index, h: Files, m: Files, delta: seq<Item>)
    requires CanonicalSafe(links, v, ix, h, delta) && ViewsKnown(links, v, h, m)
    ensures forall p | p in h && p !in DeltaPaths(delta) && Canonical(p) && Through(v, p) :: links.behind(v, p) == Leaf(h[p])
    ensures RootTaken(v) ==> links.listing(v).Some? && forall p | p in links.listing(v).value :: p in m || p in h
  {}

  lemma SameAgain(w: Files, h: Files, m: Files, delta: seq<Item>)
    requires DeltaOf(delta, h, m)
    ensures At(At(w, delta, |delta|), delta, |delta|) == At(w, delta, |delta|)
  {
    DistinctPaths(h, m);
    ReachedAgain(w, WriteOrder(delta), |delta|, |delta|);
  }

  /** The exact condition under which a join survives every crash: from each point on the way all checks pass and the
      rest of the run is plain if and only if what stands behind links is clear all the way. */
  lemma ClearIsExact(links: Links, w: Files, ix: Index, h: Tree, m: Tree, delta: seq<Item>)
    requires DeltaOf(delta, h, m) && GuardError(links, w, ix, h, m, delta).None?
    ensures LinksClear(links, w, h, m, delta) <==>
            forall k | 0 <= k <= |delta| ::
              GuardError(links, At(w, delta, k), ix, h, m, delta).None? && Straight(links, At(w, delta, k), h, m, delta)
  {
    hide GuardError, Straight, ClearAt, At;
    if LinksClear(links, w, h, m, delta) {
      forall k | 0 <= k <= |delta|
        ensures GuardError(links, At(w, delta, k), ix, h, m, delta).None? && Straight(links, At(w, delta, k), h, m, delta)
      {
        GuardStays(links, w, ix, ix, h, m, delta, k);
        StraightFrom(links, w, ix, h, m, delta, k);
      }
    }
    if forall k | 0 <= k <= |delta| ::
         GuardError(links, At(w, delta, k), ix, h, m, delta).None? && Straight(links, At(w, delta, k), h, m, delta) {
      forall k | 0 <= k <= |delta| ensures ClearAt(links, At(w, delta, k), h, m, delta, k) {
        ClearNeeded(links, w, ix, h, m, delta, k);
      }
    }
  }

  /** No link of the worktree or of M stands above a path the checks look up, and no leaf above a view root. */
  ghost predicate NoLinkAbove(w: Files, h: Files, m: Files, delta: seq<Item>) {
    && (forall q, p | ((q in w && w[q].mode == Symlink) || (q in m && m[q].mode == Symlink)) && Under(p, q) ::
          p !in DeltaPaths(delta) && !(p in h && Canonical(p)))
    && !RootTaken(w) && !RootTaken(m)
  }

  /** Then nothing is looked up through a link, whatever stands behind it. */
  lemma PlainTreesAreClear(links: Links, w: Files, h: Tree, m: Tree, delta: seq<Item>)
    requires DeltaOf(delta, h, m) && NoLinkAbove(w, h, m, delta)
    ensures LinksClear(links, w, h, m, delta)
  {
    hide RootTaken, At, ClearAt, Through;
    forall k | 0 <= k <= |delta| ensures ClearAt(links, At(w, delta, k), h, m, delta, k) {
      LeavesOfEither(w, h, m, delta, k);
      NothingThrough(links, At(w, delta, k), w, h, m, delta, k);
    }
  }

  lemma LeavesOfEither(w: Files, h: Files, m: Files, delta: seq<Item>, k: nat)
    requires DeltaOf(delta, h, m) && k <= |delta|
    ensures forall q | q in At(w, delta, k) :: Get(At(w, delta, k), q) == Get(w, q) || Get(At(w, delta, k), q) == Get(m, q)
  {
    AtMeans(w, h, m, delta, k);
    DeltaItems(delta, h, m);
    forall q | q in At(w, delta, k) ensures Get(At(w, delta, k), q) == Get(w, q) || Get(At(w, delta, k), q) == Get(m, q) {
      if q in DeltaPaths(delta) {
        assert ItemAt(h, m, q) in WriteOrder(delta);
        var j :| 0 <= j < |delta| && WriteOrder(delta)[j] == ItemAt(h, m, q);
        assert WriteOrder(delta)[j] in delta;
      }
    }
  }

  lemma NothingThrough(links: Links, v: Files, w: Files, h: Files, m: Files, delta: seq<Item>, k: nat)
    requires DeltaOf(delta, h, m) && NoLinkAbove(w, h, m, delta) && k <= |delta|
    requires forall q | q in v :: Get(v, q) == Get(w, q) || Get(v, q) == Get(m, q)
    ensures ClearAt(links, v, h, m, delta, k)
  {
    forall p | Through(v, p) ensures p !in DeltaPaths(delta) && !(p in h && Canonical(p)) { NotLookedUp(v, w, h, m, delta, p); }
    NoneTaken(v, w, m);
    hide NoLinkAbove, RootTaken, Through, ClearBehind, DeltaOf;
    OrderedPaths(delta);
  }

  lemma NotLookedUp(v: Files, w: Files, h: Files, m: Files, delta: seq<Item>, p: Path)
    requires NoLinkAbove(w, h, m, delta) && Through(v, p)
    requires forall q | q in v :: Get(v, q) == Get(w, q) || Get(v, q) == Get(m, q)
    ensures p !in DeltaPaths(delta) && !(p in h && Canonical(p))
  {
    hide RootTaken, Under, Canonical;
    var q :| q in v && v[q].mode == Symlink && Under(p, q);
    assert Get(v, q) == Get(w, q) || Get(v, q) == Get(m, q);
  }

  lemma OrderedPaths(delta: seq<Item>)
    ensures forall j | 0 <= j < |delta| :: WriteOrder(delta)[j].path in DeltaPaths(delta)
  {
    WriteOrderMeans(delta);
    forall j | 0 <= j < |delta| ensures WriteOrder(delta)[j].path in DeltaPaths(delta) {
      assert WriteOrder(delta)[j] in WriteOrder(delta);
      var i :| 0 <= i < |delta| && delta[i] == WriteOrder(delta)[j];
    }
  }

  lemma NoneTaken(v: Files, w: Files, m: Files)
    requires !RootTaken(w) && !RootTaken(m) && forall q | q in v :: q in w || q in m
    ensures !RootTaken(v)
  {}

  // ---------- the end state ----------

  /** Once the transition is finished, the final verification passes if and only if what stands behind links is clear:
      no deleted path, in particular, is found through a link. */
  lemma AlwaysVerified(links: Links, w: Files, ix: Index, lines: Index, h: Tree, m: Tree, delta: seq<Item>)
    requires DeltaOf(delta, h, m) && GuardError(links, w, ix, h, m, delta).None?
    requires IndexMoved(ix, lines, delta)
    ensures Verified(links, At(w, delta, |delta|), lines, m, delta) <==> ClearAt(links, At(w, delta, |delta|), h, m, delta, |delta|)
  {
    hide Materializable, IndexKnown, ReplaceClean, At, CanonicalSafe, ViewsKnown, Underway, AtM, IndexMoved, WorktreeKnown, Look, Through,
      Matches, ClearBehind, RootTaken, Canonical, DeltaOf;
    var v := At(w, delta, |delta|);
    AtUnderway(links, w, h, m, delta, |delta|);
    DeltaLooks(links, v, h, m, delta);
    CanonicalLooks(links, w, ix, v, delta, h, m);
    LinesStay(links, w, ix, lines, delta, h, m);
    ViewsLook(links, w, v, delta, h, m);
    DeltaItems(delta, h, m);
    MovedMeans(ix, lines, delta);
    CanonicalSplit(links, v, lines, h, m, delta);
  }

  lemma MovedMeans(before: Index, after: Index, delta: seq<Item>)
    requires IndexMoved(before, after, delta)
    ensures forall item | item in delta :: Get(after, item.path) == Line(item.after)
  {}

  lemma DeltaLooks(links: Links, v: Files, h: Files, m: Files, delta: seq<Item>)
    requires DeltaOf(delta, h, m) && AtM(v, delta)
    ensures (forall item | item in delta :: Matches(Look(links, v, item.path), item.after)) <==>
            (forall j | 0 <= j < |delta| && Through(v, WriteOrder(delta)[j].path) ::
               ClearBehind(links.behind(v, WriteOrder(delta)[j].path), WriteOrder(delta)[j], |delta| < j))
  {
    WriteOrderMeans(delta);
    forall item | item in delta
      ensures Matches(Look(links, v, item.path), item.after) <==>
              (Through(v, item.path) ==> ClearBehind(links.behind(v, item.path), item, false))
    {
      ItemHere(links, v, item);
    }
    forall j | 0 <= j < |delta| ensures WriteOrder(delta)[j] in delta { assert WriteOrder(delta)[j] in WriteOrder(delta); }
    forall item | item in delta ensures exists j :: 0 <= j < |delta| && WriteOrder(delta)[j] == item { assert item in WriteOrder(delta); }
  }

  /** The canonical paths of M are those of the delta and those shared with H. */
  lemma CanonicalSplit(links: Links, v: Files, lines: Index, h: Files, m: Files, delta: seq<Item>)
    requires DeltaOf(delta, h, m) && AtM(v, delta)
    requires forall item | item in delta :: Get(lines, item.path) == Line(item.after)
    requires forall p | p in h && p !in DeltaPaths(delta) && Canonical(p) :: Get(lines, p) == Line(Some(h[p]))
    requires forall p | p in lines && p !in DeltaPaths(delta) && Canonical(p) :: p in h
    ensures (forall p | p in m && Canonical(p) :: Get(lines, p) == Line(Some(m[p])) && Look(links, v, p) == Leaf(m[p])) <==>
            (forall p | p in h && p !in DeltaPaths(delta) && Canonical(p) :: Look(links, v, p) == Leaf(h[p]))
    ensures forall p | p in lines && Canonical(p) :: p in m
  {
    DeltaItems(delta, h, m);
    forall p | p in m && Canonical(p)
      ensures Get(lines, p) == Line(Some(m[p]))
      ensures p in DeltaPaths(delta) ==> Look(links, v, p) == Leaf(m[p])
      ensures p !in DeltaPaths(delta) ==> p in h && h[p] == m[p]
    {
      if p in DeltaPaths(delta) {
        assert ItemAt(h, m, p) in delta;
        assert Get(v, p) == Get(m, p);
      } else {
        assert Get(h, p) == Get(m, p);
      }
    }
    forall p | p in h && p !in DeltaPaths(delta) ensures p in m && m[p] == h[p] { assert Get(h, p) == Get(m, p); }
    forall p | p in lines && Canonical(p) ensures p in m {
      if p in DeltaPaths(delta) { assert ItemAt(h, m, p) in delta; } else { assert Get(h, p) == Get(m, p); }
    }
  }
}
