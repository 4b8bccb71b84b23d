/** Exact-cohort commits: prepare one from a plan, and converge the shared index for its paths only. */
module Cohort {
  import opened Order
  import opened Results
  import opened Git

  // ---------- the plan ----------

  datatype Op = PutOp | DeleteOp | UnknownOp

  datatype PlanEntry = PlanEntry(path: Path, op: Op, mode: Option<Mode>, content: Option<string>)

  /** `mode` is None for the 000000 of a delete. */
  datatype PreparedEntry = PreparedEntry(path: Path, op: Op, mode: Option<Mode>, blobOid: string, bytesSha256: string)

  datatype CohortError = PathInvalid | PathDuplicate | PlanInvalid | EmptyPlan | GitClash | TreeMismatch

  function Split(p: string): (r: seq<string>)
    ensures |r| > 0
  {
    if |p| == 0 then [""]
    else
      var rest := Split(p[1..]);
      if p[0] == '/' then [""] + rest else [[p[0]] + rest[0]] + rest[1..]
  }

  predicate CanonicalPath(p: Path) {
    && |p| > 0 && p[0] != '/' && p[|p| - 1] != '/' && '\\' !in p && '\0' !in p
    && (forall s | s in Split(p) :: s != "" && s != "." && s != "..")
    && Split(p)[0] != ".git"
  }

  /** What `validateCohortPlan` rejects at position `i`, in its order of checks. */
  function PlanErrorAt(plan: seq<PlanEntry>, i: nat): Option<CohortError>
    requires i < |plan|
  {
    var e := plan[i];
    if !CanonicalPath(e.path) then Some(PathInvalid)
    else if exists j | 0 <= j < i :: plan[j].path == e.path then Some(PathDuplicate)
    else match e.op
      case PutOp =>
        if e.content.None? || (e.mode.Some? && e.mode.value != Regular && e.mode.value != Executable)
        then Some(PlanInvalid) else None
      case DeleteOp => if e.content.Some? || e.mode.Some? then Some(PlanInvalid) else None
      case UnknownOp => Some(PlanInvalid)
  }

  ghost predicate ValidPlan(plan: seq<PlanEntry>) {
    forall i | 0 <= i < |plan| :: PlanErrorAt(plan, i).None?
  }

  predicate PlanLe(a: PlanEntry, b: PlanEntry) { PathLe(a.path, b.path) }

  predicate PreparedLe(a: PreparedEntry, b: PreparedEntry) { PathLe(a.path, b.path) }

  method ValidateCohortPlan(plan: seq<PlanEntry>) returns (r: Result<seq<PlanEntry>, CohortError>)
    ensures r.Ok? <==> ValidPlan(plan)
    ensures r.Ok? ==> Sorted(PlanLe, r.value) && multiset(r.value) == multiset(plan)
    ensures r.Err? ==> exists i | 0 <= i < |plan| ::
              PlanErrorAt(plan, i) == Some(r.error) && forall j | 0 <= j < i :: PlanErrorAt(plan, j).None?
  {
    var seen: set<Path> := {};
    for i := 0 to |plan|
      invariant forall p :: p in seen <==> exists j | 0 <= j < i :: plan[j].path == p
      invariant forall j | 0 <= j < i :: PlanErrorAt(plan, j).None?
    {
      var e := plan[i];
      assert PlanErrorAt(plan, i).None? || forall j | 0 <= j < i :: PlanErrorAt(plan, j).None?;
      if !CanonicalPath(e.path) { return Err(PathInvalid); }
      if e.path in seen { return Err(PathDuplicate); }
      seen := seen + {e.path};
      if e.op == PutOp {
        if e.content.None? { return Err(PlanInvalid); }
        if e.mode.Some? && e.mode.value != Regular && e.mode.value != Executable { return Err(PlanInvalid); }
      } else if e.op == DeleteOp {
        if e.content.Some? || e.mode.Some? { return Err(PlanInvalid); }
      } else {
        return Err(PlanInvalid);
      }
    }
    PathLePreorder();
    SortBySorted(PlanLe, plan);
    r := Ok(SortBy(PlanLe, plan));
  }

  lemma PathLePreorder()
    ensures TotalPreorder(PlanLe) && TotalPreorder(PreparedLe) && TotalPreorder(PathLe)
  {
    PathOrder();
  }

  lemma ValidPlanDistinct(plan: seq<PlanEntry>)
    requires ValidPlan(plan)
    ensures forall i, j | 0 <= i < j < |plan| :: plan[i].path != plan[j].path
    ensures forall e | e in plan :: e.op == PutOp || e.op == DeleteOp
    ensures forall e | e in plan && e.op == PutOp ::
              e.content.Some? && TypeOf(ModeOf(e)) == FileType && (ModeOf(e) == Regular || ModeOf(e) == Executable)
    ensures forall e | e in plan && e.op == DeleteOp :: e.content.None? && e.mode.None?
  {
    forall i, j | 0 <= i < j < |plan| ensures plan[i].path != plan[j].path {
      assert PlanErrorAt(plan, j).None?;
    }
    forall e | e in plan
      ensures e.op == PutOp || e.op == DeleteOp
      ensures e.op == PutOp ==> e.content.Some? && (ModeOf(e) == Regular || ModeOf(e) == Executable)
      ensures e.op == DeleteOp ==> e.content.None? && e.mode.None?
    {
      var i :| 0 <= i < |plan| && plan[i] == e;
      assert PlanErrorAt(plan, i).None?;
    }
  }

  function ModeOf(e: PlanEntry): Mode {
    if e.mode.Some? then e.mode.value else Regular
  }

  /** The entry a plan step leaves at its path. */
  function TargetOf(e: PlanEntry): Option<Entry> {
    if e.op == PutOp && e.content.Some? then Some(Entry(ModeOf(e), e.content.value)) else None
  }

  // ---------- the semantic manifest ----------

  datatype Semantic = Semantic(path: Path, op: Op, mode: Option<Mode>, bytesSha256: string)

  /** The manifest root is the digest of the entries in path order, without their blob ids. */
  type Root = seq<Semantic>

  function Semantics(entries: seq<PreparedEntry>): (r: Root)
    ensures |r| == |entries|
    ensures forall i | 0 <= i < |r| :: r[i] == Semantic(entries[i].path, entries[i].op, entries[i].mode, entries[i].bytesSha256)
  {
    seq(|entries|, i requires 0 <= i < |entries| =>
      Semantic(entries[i].path, entries[i].op, entries[i].mode, entries[i].bytesSha256))
  }

  function ManifestRoot(entries: seq<PreparedEntry>): Root {
    Semantics(SortBy(PreparedLe, entries))
  }

  /** A plan step as a prepared entry; `withBlob` is false in the plan's own root. */
  function PreparedOf(e: PlanEntry, withBlob: bool): PreparedEntry {
    if e.op == PutOp && e.content.Some?
    then PreparedEntry(e.path, PutOp, Some(ModeOf(e)), if withBlob then e.content.value else "", e.content.value)
    else PreparedEntry(e.path, DeleteOp, None, "", "")
  }

  function PreparedAll(plan: seq<PlanEntry>, withBlob: bool): (r: seq<PreparedEntry>)
    ensures |r| == |plan| && forall i | 0 <= i < |plan| :: r[i] == PreparedOf(plan[i], withBlob)
  {
    seq(|plan|, i requires 0 <= i < |plan| => PreparedOf(plan[i], withBlob))
  }

  /** `cohortPlanSemanticRoot` of a valid plan. */
  function PlanSemanticRoot(plan: seq<PlanEntry>): Root {
    ManifestRoot(PreparedAll(SortBy(PlanLe, plan), false))
  }

  lemma {:induction false} SortedIsFixed(s: seq<PreparedEntry>)
    requires Sorted(PreparedLe, s)
    requires forall i, j | 0 <= i < j < |s| :: s[i].path != s[j].path
    ensures SortBy(PreparedLe, s) == s
  {
    var t := SortBy(PreparedLe, s);
    assert Sorted(PreparedLe, t) by {
      PathLePreorder();
      SortBySorted(PreparedLe, s);
    }
    forall x, y | x in t && y in t && PreparedLe(x, y) && PreparedLe(y, x) ensures x == y {
      SameMembers(s, t);
      var i :| 0 <= i < |s| && s[i] == x;
      var j :| 0 <= j < |s| && s[j] == y;
      PathAntisymmetric(x.path, y.path);
    }
    SortedUnique(PreparedLe, t, s);
  }

  /** Distinct paths stay distinct under any reordering. */
  lemma DistinctInOrder(plan: seq<PlanEntry>, other: seq<PlanEntry>)
    requires multiset(plan) == multiset(other)
    requires forall i, j | 0 <= i < j < |plan| :: plan[i].path != plan[j].path
    ensures forall i, j | 0 <= i < j < |other| :: other[i].path != other[j].path
  {
    SameMembers(plan, other);
    DistinctReordered(plan, other);
    forall i, j | 0 <= i < j < |other| ensures other[i].path != other[j].path {
      assert other[i] in plan && other[j] in plan;
    }
  }

  /** A reordered plan is sorted to the same list. */
  lemma SortedPlanUnique(plan: seq<PlanEntry>, other: seq<PlanEntry>)
    requires multiset(plan) == multiset(other)
    requires forall i, j | 0 <= i < j < |plan| :: plan[i].path != plan[j].path
    ensures SortBy(PlanLe, plan) == SortBy(PlanLe, other)
  {
    var s, t := SortBy(PlanLe, plan), SortBy(PlanLe, other);
    assert Sorted(PlanLe, s) && Sorted(PlanLe, t) by {
      PathLePreorder();
      SortBySorted(PlanLe, plan);
      SortBySorted(PlanLe, other);
    }
    forall x, y | x in s && y in s && PlanLe(x, y) && PlanLe(y, x) ensures x == y {
      SameMembers(plan, s);
      var i :| 0 <= i < |plan| && plan[i] == x;
      var j :| 0 <= j < |plan| && plan[j] == y;
      PathAntisymmetric(x.path, y.path);
    }
    SortedUnique(PlanLe, s, t);
  }
}
