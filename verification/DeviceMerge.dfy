/** The three-way merge behind a device join: an add-only event area, a rebuilt view area, and everything else. */
module DeviceMerge {
  import opened Order
  import opened Results
  import opened Git

  const L1_PREFIX := "l1/events/sha256/"
  const KNOWLEDGE_ROOT := "l2/views/knowledge/latest"
  const CONSTRAINT_ROOT := "l2/views/constraint"
  const JOIN_MESSAGE := "pi-astack: deterministic device join\n"

  predicate IsL1(p: Path) { L1_PREFIX <= p }

  /** `isRegisteredCanonicalL2Path`. */
  predicate IsL2(p: Path) {
    p == KNOWLEDGE_ROOT || KNOWLEDGE_ROOT + "/" <= p || p == CONSTRAINT_ROOT || CONSTRAINT_ROOT + "/" <= p
  }

  lemma AreasDisjoint(p: Path)
    ensures !(IsL1(p) && IsL2(p))
  {
    assert L1_PREFIX[1] == '1' && KNOWLEDGE_ROOT[1] == '2' && CONSTRAINT_ROOT[1] == '2';
  }

  /** The areas by name. */
  lemma MachineAreas(p: Path, rest: string)
    ensures IsL1(p) <==> |p| >= 17 && p[..17] == "l1/events/sha256/"
    ensures IsL2("l2/views/knowledge/latest") && IsL2("l2/views/knowledge/latest/" + rest)
    ensures IsL2("l2/views/constraint") && IsL2("l2/views/constraint/" + rest)
    ensures IsL2(p) ==> p in ["l2/views/knowledge/latest", "l2/views/constraint"]
                        || (|p| >= 26 && p[..26] == "l2/views/knowledge/latest/") || (|p| >= 20 && p[..20] == "l2/views/constraint/")
  {}

  datatype JoinError =
    | L1NotAddOnly(path: Path) | L1Collision(path: Path) | L1TypeUnsupported(path: Path) | TrackedConflict(path: Path)
    | L2Unbuildable | ContractBroken | LinearL2Mismatch | MergeBaseAmbiguous | CandidateTreeMismatch

  /** What the merge takes from elsewhere: the view builder over the event area, the check on a parent's view
      versions, and the contract on the ignore file. */
  datatype Rules = Rules(build: Files -> Option<Files>, parentOk: Files -> bool, contract: Files -> bool)

  /** The builder writes only into the view area. */
  ghost predicate BuildsViews(rules: Rules) {
    forall l1, p | rules.build(l1).Some? && p in rules.build(l1).value :: IsL2(p)
  }

  // ---------- paths in order ----------

  lemma PathsTotal()
    ensures StrictTotal(PathLt)
  {
    PathOrder();
  }

  /** The members of a set of paths in ascending order. */
  function SortedPaths(s: set<Path>): (r: seq<Path>)
    ensures forall p :: p in r <==> p in s
  {
    assert StrictTotal(PathLt) by { PathsTotal(); }
    Ascending(PathLt, s)
  }

  lemma SortedPathsAscend(s: set<Path>)
    ensures forall i, j | 0 <= i < j < |SortedPaths(s)| :: SortedPaths(s)[i] != SortedPaths(s)[j]
    ensures forall i, j | 0 <= i < j < |SortedPaths(s)| :: PathLt(SortedPaths(s)[i], SortedPaths(s)[j])
  {
    hide PathLt;
    PathsTotal();
    AscendingAscends(PathLt, s);
  }

  // ---------- one path ----------

  /** The event area only grows: what a head has is kept, and two heads never disagree. */
  function L1At(b: Option<Entry>, h: Option<Entry>, u: Option<Entry>, p: Path): Result<Option<Entry>, JoinError> {
    if b.Some? && (b != h || b != u) then Err(L1NotAddOnly(p))
    else if h.Some? && u.Some? && h != u then Err(L1Collision(p))
    else
      var selected := if h.Some? then h else u;
      if selected.Some? && selected.value.mode != Regular && selected.value.mode != Executable then Err(L1TypeUnsupported(p))
      else Ok(selected)
  }

  /** The three-way rule: agreement stands, a one-sided change wins, a two-sided difference is a conflict. */
  function ThreeWay(b: Option<Entry>, h: Option<Entry>, u: Option<Entry>): Option<Option<Entry>> {
    if h == u then Some(h) else if h == b then Some(u) else if u == b then Some(h) else None
  }

  // ---------- whole trees ----------

  predicate Ordinary(p: Path) { !IsL1(p) && !IsL2(p) }

  function AllPaths(b: Files, h: Files, u: Files): set<Path> { b.Keys + h.Keys + u.Keys }

  ghost predicate L1Ok(b: Files, h: Files, u: Files) {
    forall p | IsL1(p) :: L1At(Get(b, p), Get(h, p), Get(u, p), p).Ok?
  }

  ghost predicate OrdinaryOk(b: Files, h: Files, u: Files) {
    forall p | Ordinary(p) :: ThreeWay(Get(b, p), Get(h, p), Get(u, p)).Some?
  }

  /** `m` holds in the event area what the union rule says, and nothing else. */
  ghost predicate IsL1Union(m: Files, b: Files, h: Files, u: Files) {
    forall p :: if IsL1(p) then L1At(Get(b, p), Get(h, p), Get(u, p), p) == Ok(Get(m, p)) else p !in m
  }

  ghost predicate IsOrdinaryMerge(m: Files, b: Files, h: Files, u: Files) {
    forall p :: if Ordinary(p) then ThreeWay(Get(b, p), Get(h, p), Get(u, p)) == Some(Get(m, p)) else p !in m
  }

  /** The choice for one path of the event area. */
  method SelectL1(b: Option<Entry>, h: Option<Entry>, u: Option<Entry>, p: Path) returns (r: Result<Option<Entry>, JoinError>)
    ensures r == L1At(b, h, u, p)
  {
    if b.Some? && (b != h || b != u) { return Err(L1NotAddOnly(p)); }
    if b.None? && h.Some? && u.Some? && h != u { return Err(L1Collision(p)); }
    var selected := if h.Some? then h else u;
    if selected.Some? && selected.value.mode != Regular && selected.value.mode != Executable { return Err(L1TypeUnsupported(p)); }
    r := Ok(selected);
  }

  lemma AbsentL1(b: Files, h: Files, u: Files)
    ensures forall q | q !in AllPaths(b, h, u) :: L1At(Get(b, q), Get(h, q), Get(u, q), q) == Ok(None)
  {}

  /** `p` is the first path, in ascending order, that the union refuses. */
  ghost predicate FailsFirst(p: Path, e: JoinError, b: Files, h: Files, u: Files) {
    && IsL1(p) && L1At(Get(b, p), Get(h, p), Get(u, p), p) == Err(e)
    && forall q | IsL1(q) && PathLt(q, p) :: L1At(Get(b, q), Get(h, q), Get(u, q), q).Ok?
  }

  method UnionL1(base: Files, local: Files, upstream: Files) returns (r: Result<Files, JoinError>)
    ensures r.Ok? <==> L1Ok(base, local, upstream)
    ensures r.Ok? ==> IsL1Union(r.value, base, local, upstream)
    ensures r.Err? ==> exists p :: FailsFirst(p, r.error, base, local, upstream)
  {
    hide IsL1, PathLt, SortedPaths, L1At;
    var output: Files := map[];
    var paths := SortedPaths(set p | p in AllPaths(base, local, upstream) && IsL1(p));
    SortedPathsAscend(set p | p in AllPaths(base, local, upstream) && IsL1(p));
    AbsentL1(base, local, upstream);
    for i := 0 to |paths|
      invariant forall p :: if p in paths[..i] then L1At(Get(base, p), Get(local, p), Get(upstream, p), p) == Ok(Get(output, p)) else p !in output
    {
      var p := paths[i];
      var b, h, u := Get(base, p), Get(local, p), Get(upstream, p);
      assert paths[..i + 1] == paths[..i] + [p];
      assert p in paths;
      FirstFailure(paths, i);
      var selected := SelectL1(b, h, u, p);
      if selected.Err? {
        assert FailsFirst(p, selected.error, base, local, upstream);
        return Err(selected.error);
      }
      if selected.value.Some? { output := output[p := selected.value.value]; }
    }
    assert paths[..|paths|] == paths;
    r := Ok(output);
  }

  /** Everything smaller than the path at hand has been seen or is absent. */
  lemma FirstFailure(paths: seq<Path>, i: nat)
    requires i < |paths| && forall a, b | 0 <= a < b < |paths| :: PathLt(paths[a], paths[b])
    ensures forall q | q in paths && PathLt(q, paths[i]) :: q in paths[..i]
  {
    forall q | q in paths && PathLt(q, paths[i]) ensures q in paths[..i] {
      var k :| 0 <= k < |paths| && paths[k] == q;
      PathLeTotal(q, paths[i]);
      assert paths[..i][k] == q;
    }
  }

  lemma AbsentOrdinary(b: Files, h: Files, u: Files)
    ensures forall q | q !in AllPaths(b, h, u) :: ThreeWay(Get(b, q), Get(h, q), Get(u, q)) == Some(None)
  {}

  /** The choice for one ordinary path. */
  method SelectOrdinary(b: Option<Entry>, h: Option<Entry>, u: Option<Entry>, p: Path) returns (r: Result<Option<Entry>, JoinError>)
    ensures match ThreeWay(b, h, u) case Some(selected) => r == Ok(selected) case None => r == Err(TrackedConflict(p))
  {
    var hChanged, uChanged := b != h, b != u;
    if !hChanged && !uChanged { return Ok(b); }
    if hChanged && !uChanged { return Ok(h); }
    if !hChanged && uChanged { return Ok(u); }
    if h == u { return Ok(h); }
    r := Err(TrackedConflict(p));
  }

  method MergeOrdinaryPaths(base: Files, local: Files, upstream: Files) returns (r: Result<Files, JoinError>)
    ensures r.Ok? <==> OrdinaryOk(base, local, upstream)
    ensures r.Ok? ==> IsOrdinaryMerge(r.value, base, local, upstream)
    ensures r.Err? ==> r.error.TrackedConflict? && Ordinary(r.error.path)
                       && ThreeWay(Get(base, r.error.path), Get(local, r.error.path), Get(upstream, r.error.path)).None?
                       && forall q | Ordinary(q) && PathLt(q, r.error.path) :: ThreeWay(Get(base, q), Get(local, q), Get(upstream, q)).Some?
  {
    hide Ordinary, PathLt, SortedPaths, ThreeWay;
    var output: Files := map[];
    var paths := SortedPaths(set p | p in AllPaths(base, local, upstream) && Ordinary(p));
    SortedPathsAscend(set p | p in AllPaths(base, local, upstream) && Ordinary(p));
    AbsentOrdinary(base, local, upstream);
    for i := 0 to |paths|
      invariant forall p :: if p in paths[..i] then ThreeWay(Get(base, p), Get(local, p), Get(upstream, p)) == Some(Get(output, p)) else p !in output
    {
      var p := paths[i];
      var b, h, u := Get(base, p), Get(local, p), Get(upstream, p);
      assert paths[..i + 1] == paths[..i] + [p];
      assert p in paths;
      FirstFailure(paths, i);
      var selected := SelectOrdinary(b, h, u, p);
      if selected.Err? { return Err(selected.error); }
      if selected.value.Some? { output := output[p := selected.value.value]; }
    }
    assert paths[..|paths|] == paths;
    r := Ok(output);
  }
}
