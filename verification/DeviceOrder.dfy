/** The tracked delta of a join, and the order in which it is written to the worktree. */
module DeviceOrder {
  import opened Order
  import opened Results
  import opened Git
  import opened Cohort
  import opened DeviceMerge

  /** One path of the journal: what it was in H and is in M. */
  datatype Item = Item(path: Path, before: Option<Entry>, after: Option<Entry>)

  function ItemAt(before: Files, after: Files, p: Path): Item {
    Item(p, Get(before, p), Get(after, p))
  }

  function Changed(before: Files, after: Files): set<Path> {
    set p | p in before.Keys + after.Keys && Get(before, p) != Get(after, p)
  }

  /** `treeDelta`: one item per path that differs, in ascending order. */
  function TreeDelta(before: Files, after: Files): (delta: seq<Item>)
    ensures forall item :: item in delta <==> item.path in Changed(before, after) && item == ItemAt(before, after, item.path)
  {
    var paths := SortedPaths(Changed(before, after));
    var delta := seq(|paths|, i requires 0 <= i < |paths| => ItemAt(before, after, paths[i]));
    assert forall i | 0 <= i < |paths| :: delta[i].path == paths[i] && paths[i] in paths;
    assert forall p | p in paths :: ItemAt(before, after, p) in delta by {
      forall p | p in paths ensures ItemAt(before, after, p) in delta {
        var i :| 0 <= i < |paths| && paths[i] == p;
        assert delta[i] == ItemAt(before, after, p);
      }
    }
    delta
  }

  function Depth(p: Path): nat { |Split(p)| }

  function Rank(p: Path): nat { if IsL1(p) then 0 else if IsL2(p) then 1 else 2 }

  /** Deletions first and among them the deepest first; then events, views and the rest, shallow before deep. */
  predicate ItemLe(l: Item, r: Item) {
    if l.after.None? != r.after.None? then l.after.None?
    else if l.after.None? && Depth(l.path) != Depth(r.path) then Depth(l.path) > Depth(r.path)
    else if Rank(l.path) != Rank(r.path) then Rank(l.path) < Rank(r.path)
    else if Depth(l.path) != Depth(r.path) then Depth(l.path) < Depth(r.path)
    else PathLe(l.path, r.path)
  }

  lemma ItemLePreorder()
    ensures TotalPreorder(ItemLe)
  {
    hide Depth, Rank, PathLe;
    forall x, y ensures ItemLe(x, y) || ItemLe(y, x) { PathLeTotal(x.path, y.path); }
    forall x, y, z | ItemLe(x, y) && ItemLe(y, z) ensures ItemLe(x, z) {
      if PathLe(x.path, y.path) && PathLe(y.path, z.path) { PathLeTransitive(x.path, y.path, z.path); }
    }
  }

  /** The order in which the delta is materialised. */
  function WriteOrder(delta: seq<Item>): (r: seq<Item>)
    ensures |r| == |delta| && multiset(r) == multiset(delta)
  {
    SortBy(ItemLe, delta)
  }

  lemma WriteOrderMeans(delta: seq<Item>)
    ensures forall item :: item in WriteOrder(delta) <==> item in delta
    ensures forall i, j | 0 <= i < j < |delta| && WriteOrder(delta)[j].after.None? :: WriteOrder(delta)[i].after.None?
  {
    SameMembers(delta, WriteOrder(delta));
    assert Sorted(ItemLe, WriteOrder(delta)) by {
      ItemLePreorder();
      SortBySorted(ItemLe, delta);
    }
    forall i, j | 0 <= i < j < |delta| && WriteOrder(delta)[j].after.None? ensures WriteOrder(delta)[i].after.None? {
      assert ItemLe(WriteOrder(delta)[i], WriteOrder(delta)[j]);
    }
  }

  /** The worktree once the first `i` items are written. */
  function Reached(start: Files, ordered: seq<Item>, i: nat): Files
    requires i <= |ordered|
  {
    if i == 0 then start else Put(Reached(start, ordered, i - 1), ordered[i - 1].path, ordered[i - 1].after)
  }

  ghost predicate Distinct(ordered: seq<Item>) {
    forall a, b | 0 <= a < b < |ordered| :: ordered[a].path != ordered[b].path
  }

  /** The items before `i` are at M, those from `i` on are as they were, and so is every other path. */
  lemma {:induction false} ReachedMeans(start: Files, ordered: seq<Item>, i: nat)
    requires i <= |ordered| && Distinct(ordered)
    ensures forall k | 0 <= k < |ordered| ::
              Get(Reached(start, ordered, i), ordered[k].path) == if k < i then ordered[k].after else Get(start, ordered[k].path)
    ensures forall q | q !in Paths(ordered) :: Get(Reached(start, ordered, i), q) == Get(start, q)
  {
    if i > 0 {
      ReachedMeans(start, ordered, i - 1);
      assert ordered[i - 1].path in Paths(ordered);
    }
  }

  /** Starting over from a point on the way comes through the same worktrees. */
  lemma ReachedAgain(start: Files, ordered: seq<Item>, i: nat, j: nat)
    requires i <= |ordered| && j <= |ordered| && Distinct(ordered)
    ensures Reached(Reached(start, ordered, i), ordered, j) == Reached(start, ordered, if i < j then j else i)
  {
    var between := Reached(start, ordered, i);
    var far := if i < j then j else i;
    ReachedMeans(start, ordered, i);
    ReachedMeans(between, ordered, j);
    ReachedMeans(start, ordered, far);
    forall q ensures Get(Reached(between, ordered, j), q) == Get(Reached(start, ordered, far), q) {
      if q in Paths(ordered) {
        var k :| 0 <= k < |ordered| && ordered[k].path == q;
        assert Get(between, ordered[k].path) == if k < i then ordered[k].after else Get(start, ordered[k].path);
      }
    }
    SameFiles(Reached(between, ordered, j), Reached(start, ordered, far));
  }

  ghost function Paths(items: seq<Item>): (s: set<Path>)
    ensures forall p :: p in s <==> exists k | 0 <= k < |items| :: items[k].path == p
  {
    set item | item in items :: item.path
  }

  /** The items describe the step from one tree to another, deletions first. */
  ghost predicate DeletesFirst(ordered: seq<Item>, after: Files) {
    && (forall item | item in ordered :: item.after == Get(after, item.path))
    && (forall i, j | 0 <= i < j < |ordered| && ordered[j].after.None? :: ordered[i].after.None?)
  }

  /** No leaf outside the delta is in the way of a path the delta writes. */
  ghost predicate Clear(start: Files, ordered: seq<Item>) {
    forall item, q | item in ordered && item.after.Some? && q in start && Clash(q, item.path) :: q in Paths(ordered)
  }

  /** Materialising in this order never meets a file in a parent position nor a non-empty directory at its
      target, file-to-directory and directory-to-file swaps included. */
  lemma NeverBlocked(start: Files, ordered: seq<Item>, i: nat, after: Files)
    requires i < |ordered| && Distinct(ordered) && DeletesFirst(ordered, after) && ClashFree(after)
    requires Clear(start, ordered) && ordered[i].after.Some?
    ensures forall q | q in Reached(start, ordered, i) :: !Clash(q, ordered[i].path)
  {
    var w := Reached(start, ordered, i);
    ReachedMeans(start, ordered, i);
    assert ordered[i] in ordered;
    forall q | q in w ensures !Clash(q, ordered[i].path) {
      if q in Paths(ordered) {
        var k :| 0 <= k < |ordered| && ordered[k].path == q;
        assert ordered[k] in ordered;
        assert Get(w, ordered[k].path) == if k < i then ordered[k].after else Get(start, ordered[k].path);
        assert ordered[k].after.None? ==> k < i;
      } else {
        assert Get(w, q) == Get(start, q);
      }
    }
  }

  /** Ascending order alone would not do: a directory replaced by a file puts the file before the deletion. */
  lemma AscendingOrderBlocks(f: Entry)
    ensures var delta := TreeDelta(map["a/b" := f], map["a" := f]);
            delta == [Item("a", None, Some(f)), Item("a/b", Some(f), None)] && Under("a/b", "a")
    ensures WriteOrder(TreeDelta(map["a/b" := f], map["a" := f])) == [Item("a/b", Some(f), None), Item("a", None, Some(f))]
  {
    hide ItemLe, SortedPaths;
    var before: Files := map["a/b" := f];
    var after: Files := map["a" := f];
    assert Changed(before, after) == {"a", "a/b"};
    assert Under("a/b", "a");
    UnderIsAfter("a/b", "a");
    TwoInOrder("a", "a/b");
    DeletionSortsFirst(Item("a", None, Some(f)), Item("a/b", Some(f), None));
  }

  lemma DeletionSortsFirst(write: Item, delete: Item)
    requires write.after.Some? && delete.after.None?
    ensures WriteOrder([write, delete]) == [delete, write]
  {}

  lemma TwoInOrder(a: Path, b: Path)
    requires PathLt(a, b) && a != b
    ensures SortedPaths({a, b}) == [a, b]
  {
    hide PathLt;
    PathsTotal();
    AscendingUnique(PathLt, {a, b}, [a, b]);
  }
}
