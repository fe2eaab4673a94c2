/**
 The work queue as a state machine: rows in the opportunity table, workers that
 hold items they claimed at some point in the past, and every statement that
 writes the columns the queue depends on, in any order.

 Workers are uncoordinated. An item stays with its worker until the worker
 resolves it, which may be long after the lease has lapsed and the row has been
 claimed again, updated or merged.
 */
module Pipeline {
  import opened Options
  import opened Stages

  type Id = nat
  type JobId = nat
  type Time = int

  /** What ingestion stores about a posting. */
  datatype Raw = Raw(title: string, region: Option<string>, description: Option<string>, company: string)

  /** What normalization computes from it. Ingestion also writes the first two. */
  datatype Fields = Fields(
    titleNormalized: string, workMode: Option<string>, roleFamily: Option<string>, seniority: Option<int>,
    country: Option<string>, city: Option<string>, geoScope: Option<string>, simHash: Option<int>,
        blockKey: Option<string>)

  datatype Row = Row(
    raw: Raw, fields: Fields, stage: Stage, version: nat, attempts: nat,
    leaseUntil: Option<Time>, nextAttempt: Time, merged: bool,
    enteredAt: Time, sweptAt: Option<Time>)

  /** A claimed item, and the raw columns the normalizer has read for it, if it has. */
  datatype Job = Job(id: Id, version: nat, attempts: nat, stage: Stage, read: Option<Raw>)

  /** One successful advance, for the history. */
  datatype Advance = Advance(id: Id, version: nat, from: Stage, to: Stage)

  datatype State = State(rows: map<Id, Row>, jobs: map<JobId, Job>, now: Time, log: seq<Advance>)

  datatype Config = Config(batchSize: nat, lease: nat, maxAttempts: nat, baseBackoff: nat, maxBackoff: nat)

  datatype Event =
    | Tick(elapsed: nat)
    | InsertPosting(newId: Id, raw: Raw, title: string, workMode: Option<string>, stage: Stage)
    | ClaimBatch(stage: Stage, batch: map<JobId, Id>)
    | ReadRow(j: JobId)
    | ApplyNormalization(j: JobId)
    | AdvanceState(j: JobId)
    | AttachExtraction(j: JobId)
    | FailAttempt(j: JobId)
    | ReleaseClaim(j: JobId)
    | Abandon(j: JobId)
    | RequeueStranded(ids: set<Id>)
    | UpdatePosting(id: Id, raw: Raw, title: string, workMode: Option<string>)
    | MarkMerged(id: Id)

  // ---------------------------------------------------------------- what each statement does to a row

  predicate Claimable(r: Row, stage: Stage, now: Time) {
    r.stage == stage && !r.merged && r.nextAttempt <= now && (r.leaseUntil.None? || r.leaseUntil.value < now)
  }

  function Claimed(cfg: Config, r: Row, now: Time): Row {
    r.(leaseUntil := Some(now + cfg.lease), attempts := r.attempts + 1)
  }

  /** The guard shared by the three statements that advance: version and state must be what was claimed. */
  predicate Guard(r: Row, version: nat, stage: Stage) {
    r.version == version && r.stage == stage
  }

  /** The trigger on the table sets state_entered_at when, and only when, the state changes. */
  function Entered(r: Row, to: Stage, now: Time): Time {
    if to == r.stage then r.enteredAt else now
  }

  function Advanced(r: Row, to: Stage, now: Time): Row {
    r.(stage := to, enteredAt := Entered(r, to, now), version := r.version + 1, leaseUntil := None, attempts := 0,
        nextAttempt := now)
  }

  /** FailAttempt has no guard at all. */
  function Failed(cfg: Config, r: Row, delay: nat, now: Time): Row {
    var to := if r.attempts >= cfg.maxAttempts then FailedPermanent else r.stage;
    r.(leaseUntil := None, nextAttempt := now + delay, stage := to, enteredAt := Entered(r, to, now))
  }

  function Released(r: Row): Row {
    if r.leaseUntil.None? then r
    else r.(leaseUntil := None, attempts := if r.attempts == 0 then 0 else r.attempts - 1)
  }

  function Requeued(r: Row, now: Time): Row {
    r.(nextAttempt := now, leaseUntil := None, sweptAt := Some(now))
  }

  /** Content changed: back to `parsed` under a new version. The lease is left as it is. */
  function Updated(r: Row, raw: Raw, title: string, workMode: Option<string>, now: Time): Row {
    r.(raw := raw, fields := r.fields.(titleNormalized := title, workMode := workMode),
       stage := Parsed, enteredAt := Entered(r, Parsed, now), version := r.version + 1, attempts := 0,
       nextAttempt := now)
  }

  function MergedAway(r: Row): Row {
    if r.merged then r else r.(merged := true, version := r.version + 1)
  }

  function Pow2(n: nat): nat {
    if n == 0 then 1 else 2 * Pow2(n - 1)
  }

  /** Exponential with a ceiling. */
  function Backoff(cfg: Config, attempts: nat): nat {
    var d := cfg.baseBackoff * Pow2(if attempts < 1 then 0 else attempts - 1);
    if d > cfg.maxBackoff || d == 0 then cfg.maxBackoff else d
  }

  // ---------------------------------------------------------------- steps

  /** Which of the three advancing statements a stage's handler uses: the normalizer never lets the worker advance. */
  predicate Enabled(cfg: Config, s: State, e: Event) {
    match e
    case Tick(_) => true
    case InsertPosting(newId, raw, title, workMode, stage) => newId !in s.rows && stage in {Discovered, Fetched, Parsed}
    case ClaimBatch(stage, batch) =>
      && !Terminal(stage) && |batch| <= cfg.batchSize
      && (forall j | j in batch :: j !in s.jobs && batch[j] in s.rows && Claimable(s.rows[batch[j]], stage, s.now))
      && (forall i, j | i in batch && j in batch && i != j :: batch[i] != batch[j])
    case ReadRow(j) => j in s.jobs && s.jobs[j].stage == Parsed && s.jobs[j].id in s.rows
    case ApplyNormalization(j) => j in s.jobs && s.jobs[j].stage == Parsed && s.jobs[j].read.Some?
    case AdvanceState(j) => j in s.jobs && s.jobs[j].stage != Parsed && Next(s.jobs[j].stage).Some?
    case AttachExtraction(j) => j in s.jobs && s.jobs[j].stage == Deduped
    case FailAttempt(j) => j in s.jobs && !(Degradable(s.jobs[j].stage) && s.jobs[j].attempts >= cfg.maxAttempts)
    case ReleaseClaim(j) => j in s.jobs
    case Abandon(j) => j in s.jobs
    case RequeueStranded(ids) => true
    case UpdatePosting(id, raw, title, workMode) => id in s.rows
    case MarkMerged(id) => id in s.rows
  }

  predicate AdvancesRow(s: State, e: Event, id: Id)
    requires id in s.rows
  {
    && (e.ApplyNormalization? || e.AdvanceState? || e.AttachExtraction?)
    && e.j in s.jobs && s.jobs[e.j].id == id && Guard(s.rows[id], s.jobs[e.j].version, s.jobs[e.j].stage)
    && Next(s.jobs[e.j].stage).Some?
  }

  /** One row after an enabled event. */
  function RowAfter(cfg: Config, derive: Raw -> Fields, s: State, e: Event, id: Id): Row
    requires Enabled(cfg, s, e) && id in s.rows
  {
    var r := s.rows[id];
    if AdvancesRow(s, e, id) then
      var advanced := Advanced(r, Next(r.stage).value, s.now);
      if e.ApplyNormalization? then advanced.(fields := derive(s.jobs[e.j].read.value)) else advanced
    else match e
      case ClaimBatch(_, batch) => if id in batch.Values then Claimed(cfg, r, s.now) else r
      case FailAttempt(j) => if s.jobs[j].id == id then Failed(cfg, r, Backoff(cfg, s.jobs[j].attempts), s.now) else r
      case ReleaseClaim(j) => if s.jobs[j].id == id then Released(r) else r
      case RequeueStranded(ids) => if id in ids then Requeued(r, s.now) else r
      case UpdatePosting(target, raw, title, workMode) => if target == id
          then Updated(r, raw, title, workMode, s.now) else r
      case MarkMerged(target) => if target == id then MergedAway(r) else r
      case _ => r
  }

  function NewRow(raw: Raw, title: string, workMode: Option<string>, stage: Stage, now: Time): Row {
    Row(raw, Fields(title, workMode, None, None, None, None, None, None, None), stage, 0, 0, None, now, false,
        now, None)
  }

  function JobsAfter(s: State, e: Event): map<JobId, Job> {
    match e
    case ClaimBatch(stage, batch) =>
      s.jobs + map j | j in batch && batch[j] in s.rows ::
        Job(batch[j], s.rows[batch[j]].version, s.rows[batch[j]].attempts + 1, stage, None)
    case ReadRow(j) => if j in s.jobs && s.jobs[j].id in s.rows
        then s.jobs[j := s.jobs[j].(read := Some(s.rows[s.jobs[j].id].raw))] else s.jobs
    case ApplyNormalization(j) => s.jobs - {j}
    case AdvanceState(j) => s.jobs - {j}
    case AttachExtraction(j) => s.jobs - {j}
    case FailAttempt(j) => s.jobs - {j}
    case ReleaseClaim(j) => s.jobs - {j}
    case Abandon(j) => s.jobs - {j}
    case _ => s.jobs
  }

  function LogAfter(s: State, e: Event): seq<Advance> {
    if (e.ApplyNormalization? || e.AdvanceState? || e.AttachExtraction?) && e.j in s.jobs && s.jobs[e.j].id in s.rows
       && AdvancesRow(s, e, s.jobs[e.j].id)
    then s.log + [Advance(s.jobs[e.j].id, s.jobs[e.j].version, s.jobs[e.j].stage, Next(s.jobs[e.j].stage).value)]
    else s.log
  }

  function RowsAfter(cfg: Config, derive: Raw -> Fields, s: State, e: Event): map<Id, Row>
    requires Enabled(cfg, s, e)
  {
    var rows := map id | id in s.rows :: RowAfter(cfg, derive, s, e, id);
    if e.InsertPosting? then rows[e.newId := NewRow(e.raw, e.title, e.workMode, e.stage, s.now)] else rows
  }

  function Step(cfg: Config, derive: Raw -> Fields, s: State, e: Event): State {
    if !Enabled(cfg, s, e) then s
    else State(RowsAfter(cfg, derive, s, e), JobsAfter(s, e), if e.Tick? then s.now + e.elapsed
        else s.now, LogAfter(s, e))
  }

  function Run(cfg: Config, derive: Raw -> Fields, s: State, es: seq<Event>): State
    decreases |es|
  {
    if |es| == 0 then s else Run(cfg, derive, Step(cfg, derive, s, es[0]), es[1..])
  }

  function Start(now: Time): State {
    State(map[], map[], now, [])
  }

  /** No event of the run is one that cannot happen. */
  predicate Allowed(cfg: Config, derive: Raw -> Fields, s: State, es: seq<Event>)
    decreases |es|
  {
    |es| == 0 || (Enabled(cfg, s, es[0]) && Allowed(cfg, derive, Step(cfg, derive, s, es[0]), es[1..]))
  }

  /** One run after another is a run. */
  lemma {:induction false} RunConcat(cfg: Config, derive: Raw -> Fields, s: State, es: seq<Event>, fs: seq<Event>)
    ensures Run(cfg, derive, s, es + fs) == Run(cfg, derive, Run(cfg, derive, s, es), fs)
    ensures Allowed(cfg, derive, s, es + fs)
            <==> Allowed(cfg, derive, s, es) && Allowed(cfg, derive, Run(cfg, derive, s, es), fs)
    decreases |es|
  {
    if |es| == 0 {
      assert es + fs == fs;
    } else {
      assert (es + fs)[1..] == es[1..] + fs && (es + fs)[0] == es[0];
      RunConcat(cfg, derive, Step(cfg, derive, s, es[0]), es[1..], fs);
    }
  }

  lemma RunOfOne(cfg: Config, derive: Raw -> Fields, s: State, e: Event)
    ensures Run(cfg, derive, s, [e]) == Step(cfg, derive, s, e)
    ensures Allowed(cfg, derive, s, [e]) <==> Enabled(cfg, s, e)
  {
    assert [e][1..] == [];
  }
}
