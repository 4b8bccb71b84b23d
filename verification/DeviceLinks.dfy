/** Looking a tracked path up in the worktree. Like lstat, the lookup follows a link that stands in a parent position,
    out of the map of leaves. */
module DeviceLinks {
  import opened Results
  import opened Git
  import opened DeviceMerge
  import opened DeviceOrder

  /** What is found at a path. A directory is bare when no leaf is below it; `Other` is a leaf that no tree can hold, or
      a lookup that fails. */
  datatype Seen = Absent | Directory(bare: bool) | Leaf(entry: Entry) | Other

  /** What the leaves of a worktree do not show: what is found at a path below one of its links; the worktree after the
      leaf found there is removed, and whether removing its emptied parents succeeds; and the leaves listed in the view
      areas when a leaf stands at or above one of their roots (None when listing fails). */
  datatype Links = Links(behind: (Files, Path) -> Seen, unlinked: (Files, Path) -> (Files, bool), listing: Files -> Option<set<Path>>)

  /** The lookup leads through a link. */
  predicate Through(w: Files, p: Path) {
    p !in w && exists q | q in w :: w[q].mode == Symlink && Under(p, q)
  }

  function Look(links: Links, w: Files, p: Path): Seen {
    if p in w then Leaf(w[p])
    else if Through(w, p) then links.behind(w, p)
    else if HasBelow(w, p) then Directory(false)
    else Absent
  }

  /** `worktreeMatches`: nothing expected is matched by a directory too. */
  predicate Matches(seen: Seen, want: Option<Entry>) {
    match want
    case None => seen.Absent? || seen.Directory?
    case Some(e) => seen == Leaf(e)
  }

  /** What a lookup that leads through no link matches is what the map of leaves holds. */
  lemma MatchesHere(links: Links, w: Files, p: Path, want: Option<Entry>)
    requires !Through(w, p)
    ensures Matches(Look(links, w, p), want) <==> Get(w, p) == want
  {}

  /** Writing this item takes the worktree to its state in M without going through a link: the item is there already,
      or it is as in H and nothing is in its way. */
  ghost predicate Plain(links: Links, w: Files, item: Item) {
    if Through(w, item.path) then item.after.None? && Matches(links.behind(w, item.path), None)
    else Get(w, item.path) == item.after
         || (Get(w, item.path) == item.before && (item.after.Some? ==> forall q | q in w :: !Clash(q, item.path)))
  }

  /** Every step from here on is plain. */
  ghost predicate AllPlain(links: Links, w: Files, ordered: seq<Item>) {
    forall k | 0 <= k < |ordered| :: Plain(links, Reached(w, ordered, k), ordered[k])
  }

  // ---------- the view areas ----------

  predicate InViews(p: Path) { KNOWLEDGE_ROOT + "/" <= p || CONSTRAINT_ROOT + "/" <= p }

  /** A leaf stands at or above a view root, so that listing it fails or leads through a link. */
  predicate RootTaken(w: Files) {
    exists q | q in w :: q == KNOWLEDGE_ROOT || q == CONSTRAINT_ROOT || Under(KNOWLEDGE_ROOT, q) || Under(CONSTRAINT_ROOT, q)
  }

  /** `inventoryRegisteredL2`. */
  function ViewLeaves(links: Links, w: Files): Option<set<Path>> {
    var here := set p | p in w && InViews(p);
    if !RootTaken(w) then Some(here)
    else match links.listing(w)
      case None => None
      case Some(listed) => Some(here + listed)
  }
}
