/**
 How long a row can stay in the pipeline when every claim is resolved by the
 worker that made it, and its content does not change.
 */
module PipelineProgress {
  import opened Options
  import opened Stages
  import opened Pipeline
  import opened PipelineRuns

  /** How the worker's handler ended. */
  datatype Outcome = Success | Failure | MergedIntoAnother

  predicate Active(r: Row) {
    !Terminal(r.stage) && !r.merged
  }

  /** The row while its worker has it. */
  function Held(cfg: Config, r: Row, claimedAt: Time): Row {
    Claimed(cfg, r, claimedAt)
  }

  predicate Degrades(cfg: Config, r: Row) {
    Degradable(r.stage) && r.attempts >= cfg.maxAttempts
  }

  /** One claim and its outcome, as far as stage, attempts and merging go. */
  function Round(cfg: Config, r: Row, o: Outcome, claimedAt: Time, resolvedAt: Time): Row
    requires Active(r)
  {
    var held := Held(cfg, r, claimedAt);
    if o.MergedIntoAnother? then MergedAway(held)
    else if o.Success? || Degrades(cfg, held) then Advanced(held, Next(held.stage).value, resolvedAt)
    else Failed(cfg, held, Backoff(cfg, held.attempts), resolvedAt)
  }

  /** Every round of an active row makes (steps left, attempts left) smaller, or ends its journey. */
  lemma RoundMakesProgress(cfg: Config, r: Row, o: Outcome, t0: Time, t1: Time)
    requires Active(r) && r.attempts < cfg.maxAttempts
    ensures var r' := Round(cfg, r, o, t0, t1);
            Active(r') ==>
              && r'.attempts < cfg.maxAttempts
              && (Remaining(r'.stage) < Remaining(r.stage)
                  || (r'.stage == r.stage && cfg.maxAttempts - r'.attempts < cfg.maxAttempts - r.attempts))
  {
    PathIsALine(r.stage);
  }

  // ---------------------------------------------------------------- rounds are what the machine does

  predicate Resolves(cfg: Config, e: Event, j: JobId, job: Job, o: Outcome) {
    match o
    case MergedIntoAnother => e == MarkMerged(job.id)
    case Success => e == if job.stage == Parsed then ApplyNormalization(j) else if job.stage == Deduped
        then AttachExtraction(j) else AdvanceState(j)
    case Failure => e == if Degradable(job.stage) && job.attempts >= cfg.maxAttempts then AdvanceState(j)
        else FailAttempt(j)
  }

  /**
   A claim, and later the outcome of the item it made, with anything at all in
   between that leaves this row and this item alone, is one round.
   */
  lemma ClaimAndOutcomeAreARound(cfg: Config, derive: Raw -> Fields, s0: State, batch: map<JobId, Id>, j: JobId,
          s1: State, e: Event, o: Outcome)
    requires j in batch && batch[j] in s0.rows && Active(s0.rows[batch[j]])
    requires Enabled(cfg, s0, ClaimBatch(s0.rows[batch[j]].stage, batch))
    requires var claimed := Step(cfg, derive, s0, ClaimBatch(s0.rows[batch[j]].stage, batch));
             && batch[j] in s1.rows && s1.rows[batch[j]] == claimed.rows[batch[j]]
             && j in s1.jobs && s1.jobs[j].(read := None) == claimed.jobs[j]
    requires Enabled(cfg, s1, e) && Resolves(cfg, e, j, s1.jobs[j], o)
    ensures var r := Step(cfg, derive, s1, e).rows[batch[j]];
            r.(fields := s0.rows[batch[j]].fields) == Round(cfg, s0.rows[batch[j]], o, s0.now, s1.now)
  {
    var id := batch[j];
    assert id in batch.Values;
    PathIsALine(s0.rows[id].stage);
    assert s1.jobs[j].id == id && Guard(s1.rows[id], s1.jobs[j].version, s1.jobs[j].stage);
  }

  // ---------------------------------------------------------------- runs of the machine

  predicate On(s: State, j: JobId, id: Id) {
    j in s.jobs && s.jobs[j].id == id
  }

  ghost predicate InHand(s: State, id: Id) {
    exists j :: On(s, j, id)
  }

  predicate Claims(e: Event, id: Id) {
    e.ClaimBatch? && id in e.batch.Values
  }

  /**
   What the bound assumes of an event. The content of the row stays as it is, the
   row is not claimed again before its last claim is resolved, and a claim is only
   given up unresolved when the row has been merged away. Everything else may happen
   at any time: ticks, sweeps, merges, failures, and all that concerns other rows.
   */
  ghost predicate PromptStep(cfg: Config, s: State, e: Event, id: Id) {
    Enabled(cfg, s, e) ==>
      && !Updates(e, id)
      && (Claims(e, id) ==> !InHand(s, id))
      && ((e.ReleaseClaim? || e.Abandon?) && On(s, e.j, id) && id in s.rows ==> s.rows[id].merged)
  }

  ghost predicate PromptRun(cfg: Config, derive: Raw -> Fields, s: State, es: seq<Event>, id: Id)
    decreases |es|
  {
    |es| == 0 || (PromptStep(cfg, s, es[0], id) && PromptRun(cfg, derive, Step(cfg, derive, s, es[0]), es[1..], id))
  }

  /** How often the run claims the row. */
  ghost function CountClaims(cfg: Config, derive: Raw -> Fields, s: State, es: seq<Event>, id: Id): nat
    decreases |es|
  {
    if |es| == 0 then 0 else
    (if Enabled(cfg, s, es[0]) && Claims(es[0], id) then 1 else 0)
    + CountClaims(cfg, derive, Step(cfg, derive, s, es[0]), es[1..], id)
  }

  /** The item in hand describes the row, and attempts are within the limit. */
  ghost predicate JobInStep(cfg: Config, job: Job, r: Row) {
    && job.stage == r.stage && !Terminal(r.stage) && job.attempts == r.attempts <= cfg.maxAttempts
    && (!r.merged ==> job.version == r.version)
  }

  ghost predicate InStep(cfg: Config, s: State, id: Id) {
    && (forall i, j | On(s, i, id) && On(s, j, id) :: i == j)
    && (forall j | On(s, j, id) :: id in s.rows && JobInStep(cfg, s.jobs[j], s.rows[id]))
    && (id in s.rows && Active(s.rows[id]) && !InHand(s, id) ==> s.rows[id].attempts < cfg.maxAttempts)
  }

  /** The claims a row still has in it: attempts for every remaining stage, less the ones already spent. */
  function ClaimsLeft(cfg: Config, s: State, id: Id): nat {
    if id !in s.rows then 7 * cfg.maxAttempts else
    var r := s.rows[id];
    if !Active(r) || r.attempts > Remaining(r.stage) * cfg.maxAttempts then 0
    else Remaining(r.stage) * cfg.maxAttempts - r.attempts
  }

  predicate Gives(e: Event, j: JobId) {
    match e
    case ApplyNormalization(i) => i == j
    case AdvanceState(i) => i == j
    case AttachExtraction(i) => i == j
    case FailAttempt(i) => i == j
    case ReleaseClaim(i) => i == j
    case Abandon(i) => i == j
    case _ => false
  }

  lemma JobsAfterEvent(cfg: Config, s: State, e: Event, j: JobId)
    requires Enabled(cfg, s, e)
    ensures e.ClaimBatch? && j in e.batch ==> j in JobsAfter(s, e) && JobsAfter(s, e)[j].id == e.batch[j]
    ensures !(e.ClaimBatch? && j in e.batch) ==>
              && (j in JobsAfter(s, e) <==> j in s.jobs && !Gives(e, j))
              && (j in JobsAfter(s, e) ==> JobsAfter(s, e)[j].(read := None) == s.jobs[j].(read := None))
  {
  }

  /** Where the items in hand come from. */
  lemma JobsAfterStep(cfg: Config, derive: Raw -> Fields, s: State, e: Event, j: JobId, id: Id)
    requires Enabled(cfg, s, e)
    ensures var t := Step(cfg, derive, s, e);
            On(t, j, id) <==> (On(s, j, id) && !Gives(e, j)) || (e.ClaimBatch? && j in e.batch && e.batch[j] == id)
    ensures On(s, j, id) && !Gives(e, j) && !(e.ClaimBatch? && j in e.batch) ==>
              Step(cfg, derive, s, e).jobs[j].(read := None) == s.jobs[j].(read := None)
  {
    JobsAfterEvent(cfg, s, e, j);
  }

  lemma OneItemPerRow(cfg: Config, derive: Raw -> Fields, s: State, e: Event, i: JobId, j: JobId, id: Id)
    requires InStep(cfg, s, id) && PromptStep(cfg, s, e, id) && Enabled(cfg, s, e)
    requires On(Step(cfg, derive, s, e), i, id) && On(Step(cfg, derive, s, e), j, id)
    ensures i == j
  {
    JobsAfterStep(cfg, derive, s, e, i, id);
    JobsAfterStep(cfg, derive, s, e, j, id);
  }

  /** While one worker has the row in hand, nobody else changes how far it is. */
  lemma HeldRowStays(cfg: Config, derive: Raw -> Fields, s: State, e: Event, j: JobId, id: Id)
    requires InStep(cfg, s, id) && PromptStep(cfg, s, e, id) && Enabled(cfg, s, e)
    requires On(s, j, id) && !Gives(e, j)
    ensures id in s.rows && !Claims(e, id)
    ensures var r, r' := s.rows[id], RowAfter(cfg, derive, s, e, id);
            && r'.stage == r.stage && r'.attempts == r.attempts
            && (r.merged ==> r'.merged) && (!r'.merged ==> r'.version == r.version)
  {
    assert InHand(s, id);
    if e.ApplyNormalization? || e.AdvanceState? || e.AttachExtraction? || e.FailAttempt? || e.ReleaseClaim? {
      assert e.j != j && !On(s, e.j, id);
    }
  }

  lemma ItemStaysInStep(cfg: Config, derive: Raw -> Fields, s: State, e: Event, j: JobId, id: Id)
    requires InStep(cfg, s, id) && PromptStep(cfg, s, e, id) && Enabled(cfg, s, e)
    requires On(Step(cfg, derive, s, e), j, id)
    ensures var t := Step(cfg, derive, s, e); id in t.rows && JobInStep(cfg, t.jobs[j], t.rows[id])
  {
    JobsAfterStep(cfg, derive, s, e, j, id);
    if On(s, j, id) && !Gives(e, j) {
      HeldRowStays(cfg, derive, s, e, j, id);
    } else {
      ClaimedItemIsInStep(cfg, derive, s, e, j, id);
    }
  }

  lemma ClaimedItemIsInStep(cfg: Config, derive: Raw -> Fields, s: State, e: Event, j: JobId, id: Id)
    requires InStep(cfg, s, id) && PromptStep(cfg, s, e, id) && Enabled(cfg, s, e)
    requires e.ClaimBatch? && j in e.batch && e.batch[j] == id
    ensures var t := Step(cfg, derive, s, e); id in t.rows && JobInStep(cfg, t.jobs[j], t.rows[id])
  {
    assert Claims(e, id) && Active(s.rows[id]);
  }

  /** A row nobody has in hand can still be claimed at least once more. */
  lemma UnheldRowHasAttempts(cfg: Config, derive: Raw -> Fields, s: State, e: Event, id: Id)
    requires InStep(cfg, s, id) && PromptStep(cfg, s, e, id) && Enabled(cfg, s, e) && cfg.maxAttempts >= 1
    ensures var t := Step(cfg, derive, s, e);
            id in t.rows && Active(t.rows[id]) && !InHand(t, id) ==> t.rows[id].attempts < cfg.maxAttempts
  {
    var t := Step(cfg, derive, s, e);
    if id in s.rows && Active(t.rows[id]) && !InHand(t, id) {
      if j :| On(s, j, id) {
        JobsAfterStep(cfg, derive, s, e, j, id);
        assert JobInStep(cfg, s.jobs[j], s.rows[id]);
      } else if Claims(e, id) {
        var j :| j in e.batch && e.batch[j] == id;
        JobsAfterStep(cfg, derive, s, e, j, id);
      }
    }
  }

  lemma StepStaysInStep(cfg: Config, derive: Raw -> Fields, s: State, e: Event, id: Id)
    requires InStep(cfg, s, id) && PromptStep(cfg, s, e, id) && cfg.maxAttempts >= 1
    ensures InStep(cfg, Step(cfg, derive, s, e), id)
  {
    if Enabled(cfg, s, e) {
      var t := Step(cfg, derive, s, e);
      forall i, j | On(t, i, id) && On(t, j, id)
        ensures i == j && id in t.rows && JobInStep(cfg, t.jobs[j], t.rows[id])
      {
        OneItemPerRow(cfg, derive, s, e, i, j, id);
        ItemStaysInStep(cfg, derive, s, e, j, id);
      }
      UnheldRowHasAttempts(cfg, derive, s, e, id);
    }
  }

  lemma AtLeastOneStage(cfg: Config, r: Row)
    requires Active(r)
    ensures Remaining(r.stage) >= 1 && Remaining(r.stage) * cfg.maxAttempts >= cfg.maxAttempts
  {
    PathIsALine(r.stage);
  }

  /** Giving up the item never leaves more claims than there were. */
  lemma OutcomeSpendsClaims(cfg: Config, derive: Raw -> Fields, s: State, e: Event, j: JobId, id: Id)
    requires InStep(cfg, s, id) && PromptStep(cfg, s, e, id) && Enabled(cfg, s, e)
    requires On(s, j, id) && Gives(e, j)
    ensures ClaimsLeft(cfg, Step(cfg, derive, s, e), id) <= ClaimsLeft(cfg, s, id) && !Claims(e, id)
  {
    assert JobInStep(cfg, s.jobs[j], s.rows[id]);
    PathIsALine(s.rows[id].stage);
  }

  lemma FreeRowSpendsClaims(cfg: Config, derive: Raw -> Fields, s: State, e: Event, id: Id)
    requires InStep(cfg, s, id) && PromptStep(cfg, s, e, id) && Enabled(cfg, s, e) && !InHand(s, id)
    ensures ClaimsLeft(cfg, Step(cfg, derive, s, e), id) + (if Claims(e, id) then 1 else 0) <= ClaimsLeft(cfg, s, id)
  {
    if id in s.rows {
      if Active(s.rows[id]) {
        AtLeastOneStage(cfg, s.rows[id]);
      }
      if e.ApplyNormalization? || e.AdvanceState? || e.AttachExtraction? || e.FailAttempt? || e.ReleaseClaim? {
        assert !On(s, e.j, id);
      }
    }
  }

  lemma StepSpendsClaims(cfg: Config, derive: Raw -> Fields, s: State, e: Event, id: Id)
    requires InStep(cfg, s, id) && PromptStep(cfg, s, e, id) && Enabled(cfg, s, e)
    ensures ClaimsLeft(cfg, Step(cfg, derive, s, e), id) + (if Claims(e, id) then 1 else 0) <= ClaimsLeft(cfg, s, id)
  {
    if InHand(s, id) {
      var j :| On(s, j, id);
      if Gives(e, j) {
        OutcomeSpendsClaims(cfg, derive, s, e, j, id);
      } else {
        HeldRowStays(cfg, derive, s, e, j, id);
      }
    } else {
      FreeRowSpendsClaims(cfg, derive, s, e, id);
    }
  }

  /** Every claim in a run is paid for out of the claims the row had left. */
  lemma {:induction false} RunSpendsClaims(cfg: Config, derive: Raw -> Fields, s: State, es: seq<Event>, id: Id)
    requires InStep(cfg, s, id) && PromptRun(cfg, derive, s, es, id) && cfg.maxAttempts >= 1
    ensures InStep(cfg, Run(cfg, derive, s, es), id)
    ensures CountClaims(cfg, derive, s, es, id) + ClaimsLeft(cfg, Run(cfg, derive, s, es), id) <= ClaimsLeft(cfg, s, id)
    decreases |es|
  {
    if |es| > 0 {
      StepStaysInStep(cfg, derive, s, es[0], id);
      if Enabled(cfg, s, es[0]) {
        StepSpendsClaims(cfg, derive, s, es[0], id);
      }
      RunSpendsClaims(cfg, derive, Step(cfg, derive, s, es[0]), es[1..], id);
    }
  }

  /**
   Main theorem. In every run in which each claim of a row is resolved before the
   next and its content is stable, whatever else happens, the row is claimed at most
   7 * MaxAttempts times; and while it is waiting to be claimed it has been claimed
   less often than that, so the last claim leaves it ready, parked or merged away.
   */
  lemma SevenTimesMaxAttempts(cfg: Config, derive: Raw -> Fields, now: Time, es: seq<Event>, id: Id)
    requires PromptRun(cfg, derive, Start(now), es, id) && cfg.maxAttempts >= 1
    ensures CountClaims(cfg, derive, Start(now), es, id) <= 7 * cfg.maxAttempts
    ensures var t := Run(cfg, derive, Start(now), es);
            id in t.rows && Active(t.rows[id]) && !InHand(t, id) ==>
              CountClaims(cfg, derive, Start(now), es, id) < 7 * cfg.maxAttempts
  {
    RunSpendsClaims(cfg, derive, Start(now), es, id);
    var t := Run(cfg, derive, Start(now), es);
    if id in t.rows && Active(t.rows[id]) {
      AtLeastOneStage(cfg, t.rows[id]);
    }
  }

  /**
   From any state that is in step: at most MaxAttempts claims for each stage still ahead, less the
   ones already spent.
   */
  lemma ClaimsAreBounded(cfg: Config, derive: Raw -> Fields, s: State, es: seq<Event>, id: Id)
    requires InStep(cfg, s, id) && PromptRun(cfg, derive, s, es, id) && cfg.maxAttempts >= 1
    requires id in s.rows && s.rows[id].attempts <= cfg.maxAttempts
    ensures CountClaims(cfg, derive, s, es, id)
         <= if Active(s.rows[id]) then Remaining(s.rows[id].stage) * cfg.maxAttempts - s.rows[id].attempts else 0
  {
    RunSpendsClaims(cfg, derive, s, es, id);
    if Active(s.rows[id]) {
      AtLeastOneStage(cfg, s.rows[id]);
    }
  }

  // ---------------------------------------------------------------- optional work never costs visibility

  /** Failures of this row are only recorded in degradable states. */
  ghost predicate OnlyDegradableFailures(cfg: Config, derive: Raw -> Fields, s: State, es: seq<Event>, id: Id)
    decreases |es|
  {
    |es| == 0 ||
    ((es[0].FailAttempt? && On(s, es[0].j, id) && id in s.rows ==> Degradable(s.rows[id].stage))
     && OnlyDegradableFailures(cfg, derive, Step(cfg, derive, s, es[0]), es[1..], id))
  }

  lemma DegradableFailureDoesNotPark(cfg: Config, derive: Raw -> Fields, s: State, e: Event, id: Id)
    requires InStep(cfg, s, id) && PromptStep(cfg, s, e, id) && Enabled(cfg, s, e)
    requires e.FailAttempt? && On(s, e.j, id) && id in s.rows ==> Degradable(s.rows[id].stage)
    requires id in s.rows ==> s.rows[id].stage != FailedPermanent
    ensures var t := Step(cfg, derive, s, e); id in t.rows ==> t.rows[id].stage != FailedPermanent
  {
    if id in s.rows {
      PathIsALine(s.rows[id].stage);
      if e.FailAttempt? && On(s, e.j, id) {
        assert JobInStep(cfg, s.jobs[e.j], s.rows[id]);
      }
    }
  }

  /** A row whose failures all happen in degradable states is never parked, however often it fails. */
  lemma {:induction false} DegradableFailuresNeverPark(cfg: Config, derive: Raw -> Fields, s: State, es: seq<Event>,
          id: Id)
    requires InStep(cfg, s, id) && PromptRun(cfg, derive, s, es, id) && cfg.maxAttempts >= 1
    requires OnlyDegradableFailures(cfg, derive, s, es, id)
    requires id in s.rows ==> s.rows[id].stage != FailedPermanent
    ensures var t := Run(cfg, derive, s, es); id in t.rows ==> t.rows[id].stage != FailedPermanent
    decreases |es|
  {
    if |es| > 0 {
      if Enabled(cfg, s, es[0]) {
        DegradableFailureDoesNotPark(cfg, derive, s, es[0], id);
      }
      StepStaysInStep(cfg, derive, s, es[0], id);
      DegradableFailuresNeverPark(cfg, derive, Step(cfg, derive, s, es[0]), es[1..], id);
    }
  }
}
