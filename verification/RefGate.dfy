/** The open/quarantine gate in front of every move of the canonical ref. */
module RefGate {
  import opened Results
  import opened RecoveryFold

  datatype Purpose = ExactCohortPublish | RecoverV3 | CsjV1 | DeviceJoin | Migrate

  /** The purposes that may move the ref while a recovery episode is open. */
  predicate OpenAllowed(p: Purpose) { p == RecoverV3 || p == CsjV1 }

  datatype GateError = HistoryNotAccepted | QuarantineBlocked | EpisodeRequired | OpenBlocked | OpenNotUnique | EpisodeMismatch | NoOpen

  /** `evaluateOpenQuarantineGate`: None when the move may go ahead. */
  function EvaluateGate(purpose: Purpose, expected: Option<EpisodeId>, open: seq<EpisodeId>, quarantined: nat, historyAccepted: bool)
    : (r: Option<GateError>)
  {
    if !historyAccepted then Some(HistoryNotAccepted)
    else if quarantined > 0 && !OpenAllowed(purpose) then Some(QuarantineBlocked)
    else if OpenAllowed(purpose) && expected.None? then Some(EpisodeRequired)
    else if |open| > 0 || quarantined > 0 then
      if !OpenAllowed(purpose) then Some(OpenBlocked)
      else if |open| != 1 then Some(OpenNotUnique)
      else if expected != Some(open[0]) then Some(EpisodeMismatch)
      else None
    else if OpenAllowed(purpose) then Some(NoOpen)
    else None
  }

  /** The gate opens for an ordinary purpose exactly when nothing is open or quarantined, and for a recovery
      purpose exactly when it names the one open episode. */
  lemma GatePasses(purpose: Purpose, expected: Option<EpisodeId>, open: seq<EpisodeId>, quarantined: nat, historyAccepted: bool)
    ensures EvaluateGate(purpose, expected, open, quarantined, historyAccepted).None? <==>
            historyAccepted &&
            if OpenAllowed(purpose) then expected.Some? && open == [expected.value]
            else open == [] && quarantined == 0
  {}
}
