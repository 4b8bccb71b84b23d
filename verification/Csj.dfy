/** The prospective two-parent merge for a stale base, and the two diff certificates that guard it. */
module Csj {
  import opened Order
  import opened Results
  import opened Git
  import opened Cohort
  import opened CohortCommit

  const CSJ_MESSAGE := "abrain: recover stale v3 semantic join"

  /** Cohort entries admitted to a merge: puts of regular content on distinct paths. */
  ghost predicate PutsOnly(entries: seq<PreparedEntry>) {
    && (forall e | e in entries :: e.op == PutOp && e.mode.Some? && TypeOf(e.mode.value) == FileType)
    && (forall i, j | 0 <= i < j < |entries| :: entries[i].path != entries[j].path)
  }

  /** The entries as plan steps: a put of the blob under its mode. */
  function Steps(entries: seq<PreparedEntry>): (plan: seq<PlanEntry>)
    ensures |plan| == |entries|
    ensures forall i | 0 <= i < |plan| ::
              plan[i] == PlanEntry(entries[i].path, PutOp, entries[i].mode, Some(entries[i].blobOid))
  {
    seq(|entries|, i requires 0 <= i < |entries| =>
      PlanEntry(entries[i].path, PutOp, entries[i].mode, Some(entries[i].blobOid)))
  }

  /** `m` is `head` with the cohort entries laid over it and nothing else. */
  ghost predicate MergeOf(m: Files, head: Files, entries: seq<PreparedEntry>) {
    Overlays(m, head, Steps(entries))
  }

  lemma StepsShape(entries: seq<PreparedEntry>)
    requires PutsOnly(entries)
    ensures PlanShape(Steps(entries))
  {}

  lemma StepsSorted(entries: seq<PreparedEntry>)
    requires Sorted(PreparedLe, entries)
    ensures Sorted(PlanLe, Steps(entries))
  {}

  /** The merge of `head` and `candidate`; Err when git refuses to place a cohort path. */
  method BuildProspectiveCsjMerge(head: Commit, candidate: Commit, entries: seq<PreparedEntry>)
    returns (r: Result<Commit, CohortError>)
    requires PutsOnly(entries) && Sorted(PreparedLe, entries)
    ensures r.Ok? <==> Placeable(head.tree, Steps(entries))
    ensures r.Ok? ==> MergeOf(r.value.tree, head.tree, entries)
    ensures r.Ok? ==> r.value.parents == [head, candidate] && IsAncestor(head, r.value) && IsAncestor(candidate, r.value)
  {
    StepsShape(entries);
    StepsSorted(entries);
    var staged := StagePlan(head.tree, Steps(entries));
    if staged.Err? { return Err(staged.error); }
    var merge := Commit([head, candidate], staged.value, CSJ_MESSAGE);
    ParentIsAncestor(merge, 0);
    ParentIsAncestor(merge, 1);
    r := Ok(merge);
  }

  /** The row Cert.A wants for an entry. */
  predicate CertRow(row: DiffRow, e: PreparedEntry) {
    && (row.status == A || row.status == M)
    && row.after.Some? && Some(row.after.value.mode) == e.mode && row.after.value.oid == e.blobOid
  }

  /** Cert.A: the head-to-merge diff has one added or modified row per entry. */
  predicate CertA(head: Files, m: Files, entries: seq<PreparedEntry>) {
    var rows := DiffMap(head, m);
    && |rows| == |entries|
    && forall e | e in entries :: e.path in rows && CertRow(rows[e.path], e)
  }

  /** Cert.B: candidate-to-merge touches no cohort path, and off the cohort it is the base-to-head diff. */
  predicate CertB(candidate: Files, m: Files, base: Files, head: Files, cohort: set<Path>) {
    var dCm := DiffMap(candidate, m);
    var dBh := DiffMap(base, head);
    && (forall p | p in dCm :: p !in cohort)
    && (map p | p in dCm && p !in cohort :: dCm[p]) == (map p | p in dBh && p !in cohort :: dBh[p])
  }

  function CohortOf(entries: seq<PreparedEntry>): set<Path> {
    set e | e in entries :: e.path
  }

  lemma CohortIsPathsOf(entries: seq<PreparedEntry>)
    ensures CohortOf(entries) == PathsOf(Steps(entries))
  {}

  lemma CertAPinsOverlay(head: Files, m: Files, entries: seq<PreparedEntry>)
    requires PutsOnly(entries) && CertA(head, m, entries)
    ensures MergeOf(m, head, entries)
  {
    var plan := Steps(entries);
    CertARows(head, m, entries);
    forall i | 0 <= i < |plan| ensures Get(m, plan[i].path) == TargetOf(plan[i]) {
      CertATarget(head, m, entries, i);
    }
    forall p | p !in PathsOf(plan) ensures Get(m, p) == Get(head, p) {
      RowAt(head, m, p);
    }
  }

  lemma CertATarget(head: Files, m: Files, entries: seq<PreparedEntry>, i: nat)
    requires PutsOnly(entries) && CertA(head, m, entries) && i < |entries|
    ensures Get(m, entries[i].path) == TargetOf(Steps(entries)[i])
  {}

  lemma CertARows(head: Files, m: Files, entries: seq<PreparedEntry>)
    requires PutsOnly(entries) && CertA(head, m, entries)
    ensures DiffMap(head, m).Keys == PathsOf(Steps(entries))
  {
    var plan := Steps(entries);
    PathsOfSize(plan);
    forall p | p in PathsOf(plan) ensures p in DiffMap(head, m) {
      var i :| 0 <= i < |plan| && plan[i].path == p;
      assert entries[i] in entries;
    }
    SubsetSameSize(PathsOf(plan), DiffMap(head, m).Keys);
  }

  /** What Cert.A accepts, for any tree whatever: exactly the overlay of entries that all change the head
      without changing an object's type. */
  lemma CertAExact(head: Files, m: Files, entries: seq<PreparedEntry>)
    requires PutsOnly(entries)
    ensures CertA(head, m, entries) <==>
            MergeOf(m, head, entries) && forall e | e in Steps(entries) :: RealChange(head, e) && KeepsType(head, e)
  {
    var plan := Steps(entries);
    StepsShape(entries);
    if CertA(head, m, entries) {
      CertAPinsOverlay(head, m, entries);
    }
    if MergeOf(m, head, entries) {
      DeltaSize(head, m, plan);
      if forall e | e in plan :: RealChange(head, e) {
        RowsAccepted(head, m, entries);
      }
    }
  }

  lemma RowsAccepted(head: Files, m: Files, entries: seq<PreparedEntry>)
    requires PutsOnly(entries) && MergeOf(m, head, entries)
    requires forall e | e in Steps(entries) :: RealChange(head, e)
    ensures (forall e | e in entries :: e.path in DiffMap(head, m) && CertRow(DiffMap(head, m)[e.path], e)) <==>
            forall e | e in Steps(entries) :: KeepsType(head, e)
  {
    var plan := Steps(entries);
    StepsShape(entries);
    forall i | 0 <= i < |plan|
      ensures plan[i].path in DiffMap(head, m)
      ensures CertRow(DiffMap(head, m)[plan[i].path], entries[i]) <==> KeepsType(head, plan[i])
    {
      assert plan[i] in plan && entries[i] in entries;
      RowAccepted(head, m, plan, i);
      assert Get(m, plan[i].path) == TargetOf(plan[i]);
    }
    forall e | e in entries ensures exists i :: 0 <= i < |plan| && entries[i] == e {}
  }

  /** Cert.B path by path. */
  lemma CertBMeans(candidate: Files, m: Files, base: Files, head: Files, cohort: set<Path>)
    ensures CertB(candidate, m, base, head, cohort) <==>
            && (forall p | p in cohort :: Get(candidate, p) == Get(m, p))
            && (forall p | p !in cohort :: Get(DiffMap(candidate, m), p) == Get(DiffMap(base, head), p))
  {
    var dCm, dBh := DiffMap(candidate, m), DiffMap(base, head);
    var left := map p | p in dCm && p !in cohort :: dCm[p];
    var right := map p | p in dBh && p !in cohort :: dBh[p];
    assert forall p | p !in cohort :: Get(left, p) == Get(dCm, p) && Get(right, p) == Get(dBh, p);
    assert forall p | p in cohort :: Get(left, p) == Get(right, p) == None;
    if forall p | p !in cohort :: Get(dCm, p) == Get(dBh, p) {
      SameFiles(left, right);
    }
    forall p | p in cohort ensures p in dCm <==> Get(candidate, p) != Get(m, p) {
      RowAt(candidate, m, p);
    }
    assert (forall p | p in cohort :: Get(candidate, p) == Get(m, p)) <==> forall p | p in dCm :: p !in cohort;
  }

  /** With equal starting points, two diffs agree at a path just when the ends agree there. */
  lemma SameRow(before: Files, a: Files, other: Files, b: Files, p: Path)
    requires Get(before, p) == Get(other, p)
    ensures Get(DiffMap(before, a), p) == Get(DiffMap(other, b), p) <==> Get(a, p) == Get(b, p)
  {}

  /** Under the facts that admit a stale episode, Cert.B on its own accepts the overlay and no other tree. */
  lemma CertBExact(candidate: Files, m: Files, base: Files, head: Files, entries: seq<PreparedEntry>)
    requires Overlays(candidate, base, Steps(entries))
    ensures CertB(candidate, m, base, head, CohortOf(entries)) <==> MergeOf(m, head, entries)
  {
    CohortIsPathsOf(entries);
    CertBMeans(candidate, m, base, head, CohortOf(entries));
    OverlayOnCohort(candidate, m, base, Steps(entries));
    forall p | p !in CohortOf(entries)
      ensures Get(DiffMap(candidate, m), p) == Get(DiffMap(base, head), p) <==> Get(m, p) == Get(head, p)
    {
      SameRow(candidate, m, base, head, p);
    }
  }

  lemma OverlayOnCohort(candidate: Files, m: Files, base: Files, plan: seq<PlanEntry>)
    requires Overlays(candidate, base, plan)
    ensures (forall p | p in PathsOf(plan) :: Get(candidate, p) == Get(m, p)) <==>
            forall i | 0 <= i < |plan| :: Get(m, plan[i].path) == TargetOf(plan[i])
  {}

  /** The two certificates together accept exactly the head overlaid with the cohort, given a candidate that
      changed its base at every cohort path (type kept) and a head that agrees with the base there. */
  lemma CertificatesPinTheMerge(candidate: Files, m: Files, base: Files, head: Files, entries: seq<PreparedEntry>)
    requires PutsOnly(entries) && Overlays(candidate, base, Steps(entries))
    requires forall e | e in Steps(entries) :: RealChange(base, e) && KeepsType(base, e) && Get(base, e.path) == Get(head, e.path)
    ensures CertA(head, m, entries) && CertB(candidate, m, base, head, CohortOf(entries)) <==> MergeOf(m, head, entries)
  {
    CertAExact(head, m, entries);
    CertBExact(candidate, m, base, head, entries);
  }

  /** There is at most one such tree. */
  lemma MergeIsUnique(m: Files, n: Files, head: Files, entries: seq<PreparedEntry>)
    requires MergeOf(m, head, entries) && MergeOf(n, head, entries)
    ensures m == n
  {
    var plan := Steps(entries);
    forall p ensures Get(m, p) == Get(n, p) {
      if p in PathsOf(plan) {
        var i :| 0 <= i < |plan| && plan[i].path == p;
        assert Get(m, plan[i].path) == TargetOf(plan[i]) == Get(n, plan[i].path);
      }
    }
    SameFiles(m, n);
  }

  // ---------- the next kick ----------

  datatype Kick = OwnerAlertBlocked | BoundedT2Recover | RunCsj | PublishedNonAncestorBlocked | Existing

  function DecideCsjNextKick(candidateIsAncestorOfHead: bool, openPrepared: bool, t2BudgetExhausted: bool,
                             published: bool, deadlockEligible: bool): (k: Kick)
    ensures k == RunCsj ==> !candidateIsAncestorOfHead && !published && deadlockEligible
    ensures candidateIsAncestorOfHead && openPrepared ==> k == if t2BudgetExhausted then OwnerAlertBlocked else BoundedT2Recover
    ensures k == PublishedNonAncestorBlocked ==> published && !candidateIsAncestorOfHead
    ensures k == Existing <==> !(candidateIsAncestorOfHead && openPrepared) && (candidateIsAncestorOfHead || (!published && !deadlockEligible))
  {
    var ancOpen := candidateIsAncestorOfHead && openPrepared;
    if ancOpen && t2BudgetExhausted then OwnerAlertBlocked
    else if ancOpen && !t2BudgetExhausted then BoundedT2Recover
    else if deadlockEligible && !candidateIsAncestorOfHead && !published then RunCsj
    else if published && !candidateIsAncestorOfHead then PublishedNonAncestorBlocked
    else Existing
  }
}
