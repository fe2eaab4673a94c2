/**
 What every run of the pipeline keeps, whatever the workers, the ingest, the
 sweeper and the deduper do to each other.
 */
module PipelineRuns {
  import opened Options
  import opened Stages
  import opened Pipeline
  import SweepFairness

  // ---------------------------------------------------------------- the invariant

  /** A row past normalization carries the fields derived from its current content; a ready row has no attempts. */
  ghost predicate RowInv(derive: Raw -> Fields, r: Row) {
    && (Derived(r.stage) ==> r.fields == derive(r.raw))
    && (r.stage == Ready ==> r.attempts == 0)
  }

  /** What a worker holds may be old, but if the version still matches, so does the content it read. */
  ghost predicate JobInv(s: State, job: Job) {
    && !Terminal(job.stage)
    && job.id in s.rows && job.version <= s.rows[job.id].version
    && (job.read.Some? && job.version == s.rows[job.id].version ==> job.read.value == s.rows[job.id].raw)
  }

  /** Logged advances follow the happy path and were made under versions that are now past. */
  ghost predicate LogInv(s: State) {
    && (forall k | 0 <= k < |s.log| ::
          && s.log[k].id in s.rows && s.log[k].version < s.rows[s.log[k].id].version
          && Next(s.log[k].from) == Some(s.log[k].to))
    && forall k, m | 0 <= k < m < |s.log| :: s.log[k].id != s.log[m].id || s.log[k].version != s.log[m].version
  }

  ghost predicate Inv(derive: Raw -> Fields, s: State) {
    && (forall id | id in s.rows :: RowInv(derive, s.rows[id]))
    && (forall j | j in s.jobs :: JobInv(s, s.jobs[j]))
    && LogInv(s)
  }

  // ---------------------------------------------------------------- one row, one step

  /** Versions only grow, and content changes only under a new version. */
  lemma VersionsGuardContent(cfg: Config, derive: Raw -> Fields, s: State, e: Event, id: Id)
    requires Enabled(cfg, s, e) && id in s.rows
    ensures var r, r' := s.rows[id], RowAfter(cfg, derive, s, e, id);
            && r.version <= r'.version <= r.version + 1
            && (r'.version == r.version ==> r'.raw == r.raw && r'.fields == r.fields)
            && (AdvancesRow(s, e, id) ==> r'.version == r.version + 1)
  {
  }

  lemma RowStepKeepsInv(cfg: Config, derive: Raw -> Fields, s: State, e: Event, id: Id)
    requires Inv(derive, s) && Enabled(cfg, s, e) && id in s.rows
    ensures RowInv(derive, RowAfter(cfg, derive, s, e, id))
  {
    assert RowInv(derive, s.rows[id]);
    if AdvancesRow(s, e, id) {
      assert JobInv(s, s.jobs[e.j]);
      PathIsALine(s.rows[id].stage);
    }
  }

  lemma JobStepKeepsInv(cfg: Config, derive: Raw -> Fields, s: State, e: Event, j: JobId)
    requires Inv(derive, s) && Enabled(cfg, s, e)
    requires j in JobsAfter(s, e)
    ensures JobInv(Step(cfg, derive, s, e), JobsAfter(s, e)[j])
  {
    var job := JobsAfter(s, e)[j];
    if j in s.jobs {
      assert JobInv(s, s.jobs[j]);
    }
    VersionsGuardContent(cfg, derive, s, e, job.id);
  }

  lemma AdvanceIsPast(cfg: Config, derive: Raw -> Fields, s: State, e: Event, k: nat)
    requires LogInv(s) && Enabled(cfg, s, e) && k < |LogAfter(s, e)|
    ensures var a, s' := LogAfter(s, e)[k], Step(cfg, derive, s, e);
            a.id in s'.rows && a.version < s'.rows[a.id].version
  {
    VersionsGuardContent(cfg, derive, s, e, LogAfter(s, e)[k].id);
  }

  /** A row's version has moved past every logged advance, the new one included. */
  lemma AdvancesArePast(cfg: Config, derive: Raw -> Fields, s: State, e: Event)
    requires LogInv(s) && Enabled(cfg, s, e)
    ensures var s' := Step(cfg, derive, s, e);
            forall k | 0 <= k < |s'.log| :: s'.log[k].id in s'.rows && s'.log[k].version < s'.rows[s'.log[k].id].version
  {
    forall k: nat | k < |LogAfter(s, e)|
      ensures var a, s' := LogAfter(s, e)[k], Step(cfg, derive, s, e);
              a.id in s'.rows && a.version < s'.rows[a.id].version
    {
      AdvanceIsPast(cfg, derive, s, e, k);
    }
  }

  lemma LogStepKeepsInv(cfg: Config, derive: Raw -> Fields, s: State, e: Event)
    requires LogInv(s) && Enabled(cfg, s, e)
    ensures LogInv(Step(cfg, derive, s, e))
  {
    AdvancesArePast(cfg, derive, s, e);
    assert |LogAfter(s, e)| > |s.log| ==> var last := LogAfter(s, e)[|s.log|]; s.rows[last.id].version == last.version;
  }

  lemma StepKeepsInv(cfg: Config, derive: Raw -> Fields, s: State, e: Event)
    requires Inv(derive, s)
    ensures Inv(derive, Step(cfg, derive, s, e))
  {
    if Enabled(cfg, s, e) {
      forall id | id in s.rows
        ensures RowInv(derive, RowAfter(cfg, derive, s, e, id))
      {
        RowStepKeepsInv(cfg, derive, s, e, id);
      }
      forall j | j in JobsAfter(s, e)
        ensures JobInv(Step(cfg, derive, s, e), JobsAfter(s, e)[j])
      {
        JobStepKeepsInv(cfg, derive, s, e, j);
      }
      LogStepKeepsInv(cfg, derive, s, e);
    }
  }

  lemma {:induction false} RunKeepsInv(cfg: Config, derive: Raw -> Fields, s: State, es: seq<Event>)
    requires Inv(derive, s)
    ensures Inv(derive, Run(cfg, derive, s, es))
    decreases |es|
  {
    if |es| > 0 {
      StepKeepsInv(cfg, derive, s, es[0]);
      RunKeepsInv(cfg, derive, Step(cfg, derive, s, es[0]), es[1..]);
    }
  }

  // ---------------------------------------------------------------- whole runs

  /**
   Main theorem: freshness. In every reachable state, each row that is past
   normalization carries exactly the fields its current title, location,
   description and company derive to.
   */
  lemma DerivedFieldsAreFresh(cfg: Config, derive: Raw -> Fields, now: Time, es: seq<Event>, id: Id)
    requires id in Run(cfg, derive, Start(now), es).rows
    ensures var r := Run(cfg, derive, Start(now), es).rows[id];
            Derived(r.stage) ==> r.fields == derive(r.raw)
  {
    RunKeepsInv(cfg, derive, Start(now), es);
    assert RowInv(derive, Run(cfg, derive, Start(now), es).rows[id]);
  }

  // ---------------------------------------------------------------- what ingestion stored last

  /**
   The content the events themselves give a row: that of the posting it was inserted with,
   until a posting replaces it.
   */
  function LastPosting(es: seq<Event>, id: Id): Option<Raw> {
    if |es| == 0 then None else
    var before := LastPosting(es[..|es| - 1], id);
    match es[|es| - 1]
    case InsertPosting(newId, raw, _, _, stage) =>
      if newId == id && before.None? && (stage == Discovered || stage == Fetched || stage == Parsed) then Some(raw)
      else before
    case UpdatePosting(target, raw, _, _) => if target == id && before.Some? then Some(raw) else before
    case _ => before
  }

  lemma StoredContent(cfg: Config, derive: Raw -> Fields, s: State, e: Event, id: Id)
    ensures var t := Step(cfg, derive, s, e);
            && (id in t.rows <==> id in s.rows || (Enabled(cfg, s, e) && e.InsertPosting? && e.newId == id))
            && (id in t.rows ==>
                  t.rows[id].raw == if id !in s.rows then e.raw
                                    else if e.UpdatePosting? && e.id == id then e.raw else s.rows[id].raw)
  {
  }

  lemma {:induction false} ContentIsTheLastPosting(cfg: Config, derive: Raw -> Fields, now: Time, es: seq<Event>,
          id: Id)
    ensures var rows, last := Run(cfg, derive, Start(now), es).rows, LastPosting(es, id);
            (id in rows <==> last.Some?) && (id in rows ==> rows[id].raw == last.value)
  {
    if |es| > 0 {
      var n := |es| - 1;
      var s, e := Run(cfg, derive, Start(now), es[..n]), es[n];
      ContentIsTheLastPosting(cfg, derive, now, es[..n], id);
      assert es == es[..n] + [e];
      RunConcat(cfg, derive, Start(now), es[..n], [e]);
      RunOfOne(cfg, derive, s, e);
      StoredContent(cfg, derive, s, e, id);
    }
  }

  /**
   Main theorem: freshness, from the events alone. In every run a row holds the content of
   the last posting ingestion stored for it, and once it is past normalization it carries
   exactly what that posting derives to.
   */
  lemma ReadyRowsShowTheLastPosting(cfg: Config, derive: Raw -> Fields, now: Time, es: seq<Event>, id: Id)
    requires id in Run(cfg, derive, Start(now), es).rows
    ensures var r, last := Run(cfg, derive, Start(now), es).rows[id], LastPosting(es, id);
            && last == Some(r.raw)
            && (Derived(r.stage) ==> r.fields == derive(last.value))
  {
    ContentIsTheLastPosting(cfg, derive, now, es, id);
    DerivedFieldsAreFresh(cfg, derive, now, es, id);
  }

  /** No version of a row is ever advanced twice, and every advance is one edge of the happy path. */
  lemma EachVersionAdvancesOnce(cfg: Config, derive: Raw -> Fields, now: Time, es: seq<Event>)
    ensures var log := Run(cfg, derive, Start(now), es).log;
            && (forall k | 0 <= k < |log| :: Next(log[k].from) == Some(log[k].to))
            && forall k, m | 0 <= k < m < |log| :: log[k].id != log[m].id || log[k].version != log[m].version
  {
    RunKeepsInv(cfg, derive, Start(now), es);
  }

  ghost predicate Updates(e: Event, id: Id) {
    e.UpdatePosting? && e.id == id
  }

  ghost predicate NoUpdate(es: seq<Event>, id: Id) {
    forall k | 0 <= k < |es| :: !Updates(es[k], id)
  }

  /** Steps along the path; a parked row is past everything. */
  function Rank(s: Stage): nat {
    if s == FailedPermanent then 8 else 7 - Remaining(s)
  }

  lemma RowRankGrows(cfg: Config, derive: Raw -> Fields, s: State, e: Event, id: Id)
    requires Inv(derive, s) && Enabled(cfg, s, e) && id in s.rows && cfg.maxAttempts >= 1 && !Updates(e, id)
    ensures var r, r' := s.rows[id], RowAfter(cfg, derive, s, e, id);
            && Rank(r.stage) <= Rank(r'.stage)
            && (Terminal(r.stage) ==> r'.stage == r.stage)
            && (r'.stage != r.stage ==> r'.stage == FailedPermanent || Next(r.stage) == Some(r'.stage))
  {
    assert RowInv(derive, s.rows[id]);
    if AdvancesRow(s, e, id) {
      PathIsALine(s.rows[id].stage);
    }
  }

  /**
   Between content updates a row never moves back, and `ready` and
   `failed_permanent` are final, however many stale workers still hold the row.
   */
  lemma {:induction false} RanksNeverFall(cfg: Config, derive: Raw -> Fields, s: State, es: seq<Event>, id: Id)
    requires Inv(derive, s) && cfg.maxAttempts >= 1 && id in s.rows && NoUpdate(es, id)
    ensures var t := Run(cfg, derive, s, es);
            && id in t.rows && s.rows[id].version <= t.rows[id].version
            && Rank(s.rows[id].stage) <= Rank(t.rows[id].stage)
            && (Terminal(s.rows[id].stage) ==> t.rows[id].stage == s.rows[id].stage)
    decreases |es|
  {
    if |es| > 0 {
      var s' := Step(cfg, derive, s, es[0]);
      StepKeepsInv(cfg, derive, s, es[0]);
      assert !Updates(es[0], id);
      if Enabled(cfg, s, es[0]) {
        RowRankGrows(cfg, derive, s, es[0], id);
        VersionsGuardContent(cfg, derive, s, es[0], id);
      }
      assert forall k | 0 <= k < |es[1..]| :: es[1..][k] == es[k + 1];
      RanksNeverFall(cfg, derive, s', es[1..], id);
    }
  }

  /** The limit has to be positive: with none, one stale failure parks a ready row. */
  lemma StaleFailureParksReadyIff(cfg: Config, derive: Raw -> Fields, s: State, j: JobId)
    requires Inv(derive, s) && Enabled(cfg, s, FailAttempt(j))
    requires s.rows[s.jobs[j].id].stage == Ready
    ensures Step(cfg, derive, s, FailAttempt(j)).rows[s.jobs[j].id].stage != Ready <==> cfg.maxAttempts == 0
  {
    assert RowInv(derive, s.rows[s.jobs[j].id]);
  }

  /**
   Exactly what an item claimed under an older version can still do to its row: a
   failure backs it off, or parks it at its limit; a release sheds the lease and takes
   back an attempt; everything else leaves it untouched.
   */
  lemma StaleItemsCannotAdvance(cfg: Config, derive: Raw -> Fields, s: State, e: Event, j: JobId)
    requires Inv(derive, s) && Enabled(cfg, s, e) && j in s.jobs
    requires e in {ReadRow(j), ApplyNormalization(j), AdvanceState(j), AttachExtraction(j), FailAttempt(j),
             ReleaseClaim(j), Abandon(j)}
    requires s.rows[s.jobs[j].id].version != s.jobs[j].version
    ensures var r, r' := s.rows[s.jobs[j].id], Step(cfg, derive, s, e).rows[s.jobs[j].id];
            if e == FailAttempt(j) then
              var to := if r.attempts >= cfg.maxAttempts then FailedPermanent else r.stage;
              r' == r.(leaseUntil := None, nextAttempt := s.now + Backoff(cfg, s.jobs[j].attempts), stage := to,
                       enteredAt := if to == r.stage then r.enteredAt else s.now)
            else if e == ReleaseClaim(j) && r.leaseUntil.Some? then
              r' == r.(leaseUntil := None, attempts := if r.attempts == 0 then 0 else r.attempts - 1)
            else r' == r
    ensures Step(cfg, derive, s, e).log == s.log
  {
  }

  // ---------------------------------------------------------------- what ingestion and merging leave

  /**
   A content update stores title, work mode and content as they came, keeps what only
   normalization writes, and starts the row over: `parsed`, under a new version, with all
   its attempts, and claimable at once unless a lease on it still runs.
   */
  lemma UpdatedRowsStartOver(cfg: Config, derive: Raw -> Fields, s: State, id: Id, raw: Raw, title: string,
          workMode: Option<string>)
    requires id in s.rows
    ensures var r, r' := s.rows[id], Step(cfg, derive, s, UpdatePosting(id, raw, title, workMode)).rows[id];
            && r'.raw == raw && r'.fields.titleNormalized == title && r'.fields.workMode == workMode
            && r'.fields.(titleNormalized := r.fields.titleNormalized, workMode := r.fields.workMode) == r.fields
            && r'.stage == Parsed && r'.version == r.version + 1 && r'.attempts == 0
            && r'.leaseUntil == r.leaseUntil && r'.merged == r.merged && r'.sweptAt == r.sweptAt
            && r'.nextAttempt == s.now && (r'.enteredAt == if r.stage == Parsed then r.enteredAt else s.now)
            && (Claimable(r', Parsed, s.now) <==> !r.merged && !LiveLease(r, s.now))
  {
  }

  /** A new row waits at the state it came in with, with all its attempts, and is claimable at once. */
  lemma NewRowsWait(cfg: Config, derive: Raw -> Fields, s: State, id: Id, raw: Raw, title: string,
          workMode: Option<string>, stage: Stage)
    requires Enabled(cfg, s, InsertPosting(id, raw, title, workMode, stage))
    ensures var t := Step(cfg, derive, s, InsertPosting(id, raw, title, workMode, stage));
            && id in t.rows && t.rows == s.rows[id := t.rows[id]]
            && t.rows[id].raw == raw && t.rows[id].fields.titleNormalized == title
            && t.rows[id].fields.workMode == workMode && t.rows[id].attempts == 0 && t.rows[id].version == 0
            && t.rows[id].stage == stage && t.rows[id].enteredAt == s.now && t.rows[id].sweptAt == None
            && Claimable(t.rows[id], stage, s.now)
  {
  }

  /** Marking a row merged takes it out of the pipeline under a new version, once. */
  lemma MarkedOnce(cfg: Config, derive: Raw -> Fields, s: State, id: Id)
    requires id in s.rows
    ensures var r, t := s.rows[id], Step(cfg, derive, s, MarkMerged(id));
            t.rows == if r.merged then s.rows else s.rows[id := r.(merged := true, version := r.version + 1)]
  {
  }

  /** A claim takes at most a batch of rows, each of them of its state, unmerged, due, and under no running lease. */
  lemma ClaimsTakeABatch(cfg: Config, s: State, e: Event, j: JobId)
    requires e.ClaimBatch? && Enabled(cfg, s, e)
    ensures |e.batch| <= cfg.batchSize && !Terminal(e.stage)
    ensures j in e.batch ==>
              && j !in s.jobs && e.batch[j] in s.rows
              && s.rows[e.batch[j]].stage == e.stage && !s.rows[e.batch[j]].merged
              && s.rows[e.batch[j]].nextAttempt <= s.now && !LiveLease(s.rows[e.batch[j]], s.now)
  {
  }

  /** The row goes from one state of the path to the next, and not because its content came in again. */
  predicate MovesOn(cfg: Config, derive: Raw -> Fields, s: State, e: Event, id: Id) {
    && id in s.rows && !e.UpdatePosting?
    && Next(s.rows[id].stage) == Some(Step(cfg, derive, s, e).rows[id].stage)
  }

  lemma LoggedIff(cfg: Config, derive: Raw -> Fields, s: State, e: Event, id: Id)
    requires id in s.rows && Enabled(cfg, s, e)
    ensures MovesOn(cfg, derive, s, e, id) <==> AdvancesRow(s, e, id)
  {
    PathIsALine(s.rows[id].stage);
    PathIsALine(FailedPermanent);
  }

  /**
   The history is complete and has nothing else in it: a step appends the advance of a row
   exactly when it takes that row to the next state, and appends nothing otherwise.
   */
  lemma AdvancesAreLogged(cfg: Config, derive: Raw -> Fields, s: State, e: Event, id: Id)
    requires id in s.rows
    ensures MovesOn(cfg, derive, s, e, id) ==>
              Step(cfg, derive, s, e).log
              == s.log + [Advance(id, s.rows[id].version, s.rows[id].stage, Step(cfg, derive, s, e).rows[id].stage)]
    ensures (forall i | i in s.rows :: !MovesOn(cfg, derive, s, e, i)) ==> Step(cfg, derive, s, e).log == s.log
  {
    PathIsALine(s.rows[id].stage);
    if Enabled(cfg, s, e) {
      LoggedIff(cfg, derive, s, e, id);
      if (e.ApplyNormalization? || e.AdvanceState? || e.AttachExtraction?) && s.jobs[e.j].id in s.rows {
        LoggedIff(cfg, derive, s, e, s.jobs[e.j].id);
      }
    }
  }

  // ---------------------------------------------------------------- what a failure means

  /** A failed row can be claimed again exactly when it has attempts left, is not merged, and its backoff is over. */
  lemma FailedRowsWait(cfg: Config, r: Row, attempts: nat, now: Time, t: Time)
    requires !Terminal(r.stage)
    ensures Claimable(Failed(cfg, r, Backoff(cfg, attempts), now), r.stage, t)
            <==> r.attempts < cfg.maxAttempts && !r.merged && t >= now + Backoff(cfg, attempts)
  {
  }

  lemma {:induction false} PowersGrow(a: nat, b: nat)
    requires a <= b
    ensures 1 <= Pow2(a) <= Pow2(b)
    decreases b
  {
    if a < b {
      PowersGrow(a, b - 1);
    } else if a > 0 {
      PowersGrow(a - 1, b - 1);
    }
  }

  /** Doubled until it passes the ceiling, which is also what a wait of nothing becomes. */
  function Capped(d: nat, ceiling: nat): nat {
    if d == 0 || d > ceiling then ceiling else d
  }

  lemma BackoffIsCapped(cfg: Config, n: nat)
    ensures Backoff(cfg, n) == Capped(cfg.baseBackoff * Pow2(if n == 0 then 0 else n - 1), cfg.maxBackoff)
  {
  }

  lemma DoublingIsCapped(d: nat, ceiling: nat)
    ensures var once := Capped(d, ceiling);
            Capped(2 * d, ceiling) == if 2 * once <= ceiling then 2 * once else ceiling
  {
  }

  lemma LongerIsCapped(c: nat, d: nat, ceiling: nat)
    requires c <= d && (c == 0 ==> d == 0)
    ensures Capped(c, ceiling) <= Capped(d, ceiling) <= ceiling
  {
  }

  lemma PowersScale(base: nat, a: nat, b: nat)
    requires a <= b
    ensures base * Pow2(a) <= base * Pow2(b) && (base * Pow2(a) == 0 ==> base * Pow2(b) == 0)
    ensures base * Pow2(a + 1) == 2 * (base * Pow2(a)) && base * Pow2(0) == base
  {
    PowersGrow(a, b);
    PowersGrow(0, a);
    ScalesUp(base, Pow2(a), Pow2(b));
    assert Pow2(a + 1) == 2 * Pow2(a);
  }

  lemma ScalesUp(base: nat, x: nat, y: nat)
    requires 1 <= x <= y
    ensures base * x <= base * y && (base * x == 0 ==> base * y == 0)
    ensures base * (2 * x) == 2 * (base * x)
  {
    if base == 0 {
      assert base * x == 0 && base * y == 0;
    } else {
      assert base * x >= 1 * x;
    }
  }

  /**
   The wait after the first failure is the base, after each further one twice the last, up to
   the ceiling; without a base it is the ceiling. It never shrinks and never exceeds the ceiling.
   */
  lemma BackoffGrowsToItsCeiling(cfg: Config, a: nat, b: nat)
    requires a <= b
    ensures Backoff(cfg, a) <= Backoff(cfg, b) <= cfg.maxBackoff
    ensures Backoff(cfg, 0) == Backoff(cfg, 1)
    ensures Backoff(cfg, 1) == if cfg.baseBackoff == 0 || cfg.baseBackoff > cfg.maxBackoff then cfg.maxBackoff
                               else cfg.baseBackoff
    ensures a >= 1 ==>
              Backoff(cfg, a + 1)
              == if 2 * Backoff(cfg, a) <= cfg.maxBackoff then 2 * Backoff(cfg, a) else cfg.maxBackoff
  {
    var i, j := if a == 0 then 0 else a - 1, if b == 0 then 0 else b - 1;
    PowersScale(cfg.baseBackoff, i, j);
    BackoffIsCapped(cfg, 0);
    BackoffIsCapped(cfg, 1);
    BackoffIsCapped(cfg, a);
    BackoffIsCapped(cfg, b);
    BackoffIsCapped(cfg, a + 1);
    LongerIsCapped(cfg.baseBackoff * Pow2(i), cfg.baseBackoff * Pow2(j), cfg.maxBackoff);
    DoublingIsCapped(cfg.baseBackoff * Pow2(i), cfg.maxBackoff);
  }

  // ---------------------------------------------------------------- merged rows

  /** A row that has been merged away is at a newer version than any item of it. */
  ghost predicate MergedInv(s: State) {
    forall j | j in s.jobs && s.jobs[j].id in s.rows && s.rows[s.jobs[j].id].merged ::
        s.jobs[j].version < s.rows[s.jobs[j].id].version
  }

  lemma MergedJobIsOld(cfg: Config, derive: Raw -> Fields, s: State, e: Event, j: JobId)
    requires Inv(derive, s) && MergedInv(s) && Enabled(cfg, s, e)
    requires var t := Step(cfg, derive, s, e); j in t.jobs && t.jobs[j].id in t.rows && t.rows[t.jobs[j].id].merged
    ensures var t := Step(cfg, derive, s, e); t.jobs[j].version < t.rows[t.jobs[j].id].version
  {
    var id := JobsAfter(s, e)[j].id;
    if j in s.jobs {
      assert JobInv(s, s.jobs[j]);
    }
    VersionsGuardContent(cfg, derive, s, e, id);
  }

  lemma StepKeepsMergedInv(cfg: Config, derive: Raw -> Fields, s: State, e: Event)
    requires Inv(derive, s) && MergedInv(s)
    ensures MergedInv(Step(cfg, derive, s, e))
  {
    if Enabled(cfg, s, e) {
      var t := Step(cfg, derive, s, e);
      forall j | j in t.jobs && t.jobs[j].id in t.rows && t.rows[t.jobs[j].id].merged
        ensures t.jobs[j].version < t.rows[t.jobs[j].id].version
      {
        MergedJobIsOld(cfg, derive, s, e, j);
      }
    }
  }

  lemma MergedRowStays(cfg: Config, derive: Raw -> Fields, s: State, e: Event, id: Id)
    requires MergedInv(s) && Enabled(cfg, s, e) && id in s.rows && s.rows[id].merged
    ensures RowAfter(cfg, derive, s, e, id).merged && !AdvancesRow(s, e, id)
  {
  }

  ghost predicate NeverAdvances(cfg: Config, derive: Raw -> Fields, s: State, es: seq<Event>, id: Id)
    decreases |es|
  {
    |es| == 0 ||
    ((Enabled(cfg, s, es[0]) && id in s.rows ==> !AdvancesRow(s, es[0], id))
     && NeverAdvances(cfg, derive, Step(cfg, derive, s, es[0]), es[1..], id))
  }

  lemma {:induction false} MergedRun(cfg: Config, derive: Raw -> Fields, s: State, es: seq<Event>, id: Id)
    requires Inv(derive, s) && MergedInv(s) && id in s.rows && s.rows[id].merged
    ensures NeverAdvances(cfg, derive, s, es, id)
    ensures id in Run(cfg, derive, s, es).rows && Run(cfg, derive, s, es).rows[id].merged
    decreases |es|
  {
    if |es| > 0 {
      if Enabled(cfg, s, es[0]) {
        MergedRowStays(cfg, derive, s, es[0], id);
      }
      StepKeepsInv(cfg, derive, s, es[0]);
      StepKeepsMergedInv(cfg, derive, s, es[0]);
      MergedRun(cfg, derive, Step(cfg, derive, s, es[0]), es[1..], id);
    }
  }

  lemma {:induction false} RunKeepsMergedInv(cfg: Config, derive: Raw -> Fields, s: State, es: seq<Event>)
    requires Inv(derive, s) && MergedInv(s)
    ensures MergedInv(Run(cfg, derive, s, es))
    decreases |es|
  {
    if |es| > 0 {
      StepKeepsInv(cfg, derive, s, es[0]);
      StepKeepsMergedInv(cfg, derive, s, es[0]);
      RunKeepsMergedInv(cfg, derive, Step(cfg, derive, s, es[0]), es[1..]);
    }
  }

  /** Once a row has been merged away, no item of it, however old or new, ever advances it, and it stays merged. */
  lemma MergedRowsNeverAdvance(cfg: Config, derive: Raw -> Fields, now: Time, es: seq<Event>, later: seq<Event>, id: Id)
    requires var s := Run(cfg, derive, Start(now), es); id in s.rows && s.rows[id].merged
    ensures var s := Run(cfg, derive, Start(now), es);
            && NeverAdvances(cfg, derive, s, later, id)
            && id in Run(cfg, derive, s, later).rows && Run(cfg, derive, s, later).rows[id].merged
  {
    RunKeepsInv(cfg, derive, Start(now), es);
    RunKeepsMergedInv(cfg, derive, Start(now), es);
    MergedRun(cfg, derive, Run(cfg, derive, Start(now), es), later, id);
  }

  // ---------------------------------------------------------------- leases

  predicate LiveLease(r: Row, now: Time) {
    r.leaseUntil.Some? && r.leaseUntil.value >= now
  }

  /**
   Who can take a running lease away: an advance of the row, a failure or release of any item of
   it, and a requeue.
   */
  lemma LiveLeaseIsLostIff(cfg: Config, derive: Raw -> Fields, s: State, e: Event, id: Id)
    requires Enabled(cfg, s, e) && id in s.rows && LiveLease(s.rows[id], s.now) && !e.Tick?
    ensures !LiveLease(Step(cfg, derive, s, e).rows[id], s.now) <==>
              || AdvancesRow(s, e, id)
              || ((e.FailAttempt? || e.ReleaseClaim?) && s.jobs[e.j].id == id)
              || (e.RequeueStranded? && id in e.ids)
  {
  }

  lemma ClaimOneIff(cfg: Config, s: State, j: JobId, id: Id)
    requires j !in s.jobs && id in s.rows && !Terminal(s.rows[id].stage) && cfg.batchSize >= 1
    ensures Enabled(cfg, s, ClaimBatch(s.rows[id].stage, map[j := id])) <==>
            Claimable(s.rows[id], s.rows[id].stage, s.now)
  {
    var batch := map[j := id];
    assert batch[j] == id && |batch| == 1;
  }

  lemma ClaimOneJob(s: State, j: JobId, id: Id)
    requires id in s.rows
    ensures JobsAfter(s, ClaimBatch(s.rows[id].stage, map[j := id]))
         == s.jobs[j := Job(id, s.rows[id].version, s.rows[id].attempts + 1, s.rows[id].stage, None)]
  {
    assert map[j := id][j] == id;
  }

  lemma ClaimOneRow(cfg: Config, derive: Raw -> Fields, s: State, j: JobId, id: Id)
    requires id in s.rows && Enabled(cfg, s, ClaimBatch(s.rows[id].stage, map[j := id]))
    ensures RowAfter(cfg, derive, s, ClaimBatch(s.rows[id].stage, map[j := id]), id) == Claimed(cfg, s.rows[id], s.now)
  {
    assert map[j := id][j] == id;
    assert id in map[j := id].Values;
  }

  /** Claiming a single row. */
  lemma ClaimOne(cfg: Config, derive: Raw -> Fields, s: State, j: JobId, id: Id) returns (t: State)
    requires j !in s.jobs && id in s.rows && !Terminal(s.rows[id].stage) && cfg.batchSize >= 1
    requires Claimable(s.rows[id], s.rows[id].stage, s.now)
    ensures t == Step(cfg, derive, s, ClaimBatch(s.rows[id].stage, map[j := id]))
    ensures t.now == s.now && id in t.rows && t.rows[id] == Claimed(cfg, s.rows[id], s.now)
    ensures t.jobs == s.jobs[j := Job(id, s.rows[id].version, s.rows[id].attempts + 1, s.rows[id].stage, None)]
  {
    var e := ClaimBatch(s.rows[id].stage, map[j := id]);
    ClaimOneIff(cfg, s, j, id);
    ClaimOneJob(s, j, id);
    ClaimOneRow(cfg, derive, s, j, id);
    t := State(RowsAfter(cfg, derive, s, e), JobsAfter(s, e), s.now, LogAfter(s, e));
  }

  lemma RequeueFrees(cfg: Config, derive: Raw -> Fields, s: State, ids: set<Id>, id: Id)
    requires id in s.rows && !s.rows[id].merged
    ensures var t := Step(cfg, derive, s, RequeueStranded(ids));
            && t.now == s.now && t.jobs == s.jobs && id in t.rows
            && t.rows[id].stage == s.rows[id].stage && t.rows[id].version == s.rows[id].version && !t.rows[id].merged
            && (LiveLease(s.rows[id], s.now) ==> (Claimable(t.rows[id], t.rows[id].stage, t.now) <==> id in ids))
  {
  }

  /** Two workers hold the row in its current version. */
  ghost predicate HeldTwice(s: State, j: JobId, k: JobId, id: Id) {
    && j != k && j in s.jobs && k in s.jobs && s.jobs[j].id == s.jobs[k].id == id && id in s.rows
    && s.jobs[j].version == s.jobs[k].version == s.rows[id].version
  }

  /**
   A requeue makes a row that is being worked on claimable again: while its lease runs,
   a second worker can claim it right after the requeue if and only if the sweeper had
   it on its list. Both then hold the same version.
   */
  lemma RequeueAllowsASecondClaim(cfg: Config, derive: Raw -> Fields, s: State, j: JobId, k: JobId, ids: set<Id>)
    requires j in s.jobs && k !in s.jobs && s.jobs[j].id in s.rows && cfg.batchSize >= 1
    requires var r := s.rows[s.jobs[j].id];
             LiveLease(r, s.now) && !Terminal(r.stage) && !r.merged && r.version == s.jobs[j].version
    ensures var id := s.jobs[j].id;
            var t, again := Step(cfg, derive, s, RequeueStranded(ids)), ClaimBatch(s.rows[id].stage, map[k := id]);
            && (Enabled(cfg, t, again) <==> id in ids)
            && (id in ids ==> HeldTwice(Step(cfg, derive, t, again), j, k, id))
  {
    var id := s.jobs[j].id;
    RequeueFrees(cfg, derive, s, ids, id);
    var t := Step(cfg, derive, s, RequeueStranded(ids));
    ClaimOneIff(cfg, t, k, id);
    if id in ids {
      var _ := ClaimOne(cfg, derive, t, k, id);
    }
  }

  ghost predicate Reaches(cfg: Config, derive: Raw -> Fields, s: State, t: State) {
    exists es :: Run(cfg, derive, s, es) == t
  }

  lemma ReachesStep(cfg: Config, derive: Raw -> Fields, s: State, t: State, e: Event)
    requires Reaches(cfg, derive, s, t)
    ensures Reaches(cfg, derive, s, Step(cfg, derive, t, e))
  {
    var es :| Run(cfg, derive, s, es) == t;
    RunConcat(cfg, derive, s, es, [e]);
    RunOfOne(cfg, derive, t, e);
  }

  /** A row that has been inserted and has waited for a while. */
  lemma WaitingRow(cfg: Config, derive: Raw -> Fields, now: Time, wait: nat, raw: Raw) returns (s: State)
    ensures Reaches(cfg, derive, Start(now), s)
    ensures s.now == now + wait && s.jobs == map[] && s.rows.Keys == {0}
            && s.rows[0] == NewRow(raw, "", None, Parsed, now)
  {
    var s0, insert := Start(now), InsertPosting(0, raw, "", None, Parsed);
    assert Run(cfg, derive, s0, []) == s0;
    ReachesStep(cfg, derive, s0, s0, insert);
    ReachesStep(cfg, derive, s0, Step(cfg, derive, s0, insert), Tick(wait));
    s := Step(cfg, derive, Step(cfg, derive, s0, insert), Tick(wait));
  }

  lemma Selected(cfg: Config, s: State, threshold: nat)
    requires cfg.batchSize >= 1 && s.rows.Keys == {0} && SweepFairness.Stranded(s.rows[0], s.now, threshold)
    ensures SweepFairness.Selects(s.rows, SweepFairness.StrandedIds(s.rows, s.now, threshold), cfg.batchSize, {0})
  {
    assert SweepFairness.StrandedIds(s.rows, s.now, threshold) == {0};
  }

  lemma SecondClaim(cfg: Config, derive: Raw -> Fields, s: State, j: JobId, k: JobId, id: Id) returns (u: State)
    requires j in s.jobs && s.jobs[j].id == id && k !in s.jobs && id in s.rows && cfg.batchSize >= 1
    requires var r := s.rows[id];
             LiveLease(r, s.now) && !Terminal(r.stage) && !r.merged && r.version == s.jobs[j].version
    ensures u == Step(cfg, derive, Step(cfg, derive, s, RequeueStranded({id})),
                      ClaimBatch(s.rows[id].stage, map[k := id]))
    ensures HeldTwice(u, j, k, id)
  {
    RequeueFrees(cfg, derive, s, {id}, id);
    u := ClaimOne(cfg, derive, Step(cfg, derive, s, RequeueStranded({id})), k, id);
  }

  /**
   It does happen: a row is inserted and waits for longer than the threshold; a sweep
   selects it; a worker claims it; the sweep requeues it; and a second worker claims it.
   */
  lemma TwoWorkersCanHoldOneRow(cfg: Config, derive: Raw -> Fields, now: Time, threshold: nat, wait: nat, raw: Raw)
    returns (seen: State, twice: State)
    requires cfg.batchSize >= 1 && wait > threshold
    ensures Reaches(cfg, derive, Start(now), seen) && seen.now == now + wait
    ensures SweepFairness.Selects(seen.rows, SweepFairness.StrandedIds(seen.rows, seen.now, threshold),
                cfg.batchSize, {0})
    ensures twice == Step(cfg, derive, Step(cfg, derive, Step(cfg, derive, seen,
                         ClaimBatch(Parsed, map[0 := 0])), RequeueStranded({0})), ClaimBatch(Parsed, map[1 := 0]))
    ensures HeldTwice(twice, 0, 1, 0)
  {
    seen := WaitingRow(cfg, derive, now, wait, raw);
    Selected(cfg, seen, threshold);
    var held := ClaimOne(cfg, derive, seen, 0, 0);
    twice := SecondClaim(cfg, derive, held, 0, 1, 0);
  }

  // ---------------------------------------------------------------- a ready row can be parked

  /** The item describes the row as it is. */
  predicate Current(s: State, j: JobId, id: Id) {
    && j in s.jobs && s.jobs[j].id == id && id in s.rows && !s.rows[id].merged
    && Guard(s.rows[id], s.jobs[j].version, s.jobs[j].stage)
  }

  lemma CurrentItemAdvances(cfg: Config, derive: Raw -> Fields, start: State, s: State, e: Event, j: JobId, id: Id)
    returns (t: State)
    requires Reaches(cfg, derive, start, s) && Current(s, j, id)
    requires Enabled(cfg, s, e) && (e == AdvanceState(j) || e == ApplyNormalization(j))
    ensures Reaches(cfg, derive, start, t) && t.now == s.now && t.jobs == s.jobs - {j}
    ensures id in t.rows && !t.rows[id].merged && t.rows[id].version == s.rows[id].version + 1
    ensures Some(t.rows[id].stage) == Next(s.rows[id].stage) && Claimable(t.rows[id], t.rows[id].stage, t.now)
  {
    PathIsALine(s.rows[id].stage);
    ReachesStep(cfg, derive, start, s, e);
    t := Step(cfg, derive, s, e);
  }

  lemma CurrentItemIsRead(cfg: Config, derive: Raw -> Fields, start: State, s: State, j: JobId, id: Id)
    returns (t: State)
    requires Reaches(cfg, derive, start, s) && Current(s, j, id) && s.jobs[j].stage == Parsed
    ensures Reaches(cfg, derive, start, t) && t.now == s.now && t.rows == s.rows && t.jobs - {j} == s.jobs - {j}
    ensures Current(t, j, id) && Enabled(cfg, t, ApplyNormalization(j))
  {
    ReachesStep(cfg, derive, start, s, ReadRow(j));
    t := Step(cfg, derive, s, ReadRow(j));
  }

  lemma PutAndTake<K, V>(m: map<K, V>, k: K, v: V)
    requires k !in m
    ensures m[k := v] - {k} == m
  {
  }

  lemma ClaimedItem(cfg: Config, derive: Raw -> Fields, start: State, s: State, j: JobId, id: Id) returns (t: State)
    requires Reaches(cfg, derive, start, s) && cfg.batchSize >= 1
    requires j !in s.jobs && id in s.rows && !Terminal(s.rows[id].stage) && !s.rows[id].merged
    requires Claimable(s.rows[id], s.rows[id].stage, s.now)
    ensures Reaches(cfg, derive, start, t) && t.now == s.now && t.jobs - {j} == s.jobs && Current(t, j, id)
    ensures t.rows[id].stage == s.rows[id].stage && t.rows[id].version == s.rows[id].version
  {
    ReachesStep(cfg, derive, start, s, ClaimBatch(s.rows[id].stage, map[j := id]));
    t := ClaimOne(cfg, derive, s, j, id);
    PutAndTake(s.jobs, j, t.jobs[j]);
  }

  /** A worker takes the row one stage on, and nobody else's item is touched. */
  lemma OneStageOn(cfg: Config, derive: Raw -> Fields, start: State, s: State, j: JobId, id: Id) returns (t: State)
    requires Reaches(cfg, derive, start, s) && cfg.batchSize >= 1
    requires j !in s.jobs && id in s.rows && !Terminal(s.rows[id].stage) && !s.rows[id].merged
    requires Claimable(s.rows[id], s.rows[id].stage, s.now)
    ensures Reaches(cfg, derive, start, t) && t.now == s.now && t.jobs == s.jobs
    ensures id in t.rows && !t.rows[id].merged && t.rows[id].version == s.rows[id].version + 1
    ensures Some(t.rows[id].stage) == Next(s.rows[id].stage) && Claimable(t.rows[id], t.rows[id].stage, t.now)
  {
    PathIsALine(s.rows[id].stage);
    var held := ClaimedItem(cfg, derive, start, s, j, id);
    if s.rows[id].stage == Parsed {
      var read := CurrentItemIsRead(cfg, derive, start, held, j, id);
      t := CurrentItemAdvances(cfg, derive, start, read, ApplyNormalization(j), j, id);
    } else {
      t := CurrentItemAdvances(cfg, derive, start, held, AdvanceState(j), j, id);
    }
  }

  lemma {:induction false} AllTheWay(cfg: Config, derive: Raw -> Fields, start: State, s: State, j: JobId, id: Id)
    returns (t: State)
    requires Reaches(cfg, derive, start, s) && cfg.batchSize >= 1
    requires j !in s.jobs && id in s.rows && s.rows[id].stage != FailedPermanent && !s.rows[id].merged
    requires Claimable(s.rows[id], s.rows[id].stage, s.now)
    ensures Reaches(cfg, derive, start, t) && t.jobs == s.jobs
    ensures id in t.rows && t.rows[id].stage == Ready
            && t.rows[id].version == s.rows[id].version + Remaining(s.rows[id].stage)
    decreases Remaining(s.rows[id].stage)
  {
    PathIsALine(s.rows[id].stage);
    if s.rows[id].stage == Ready {
      t := s;
    } else {
      var next := OneStageOn(cfg, derive, start, s, j, id);
      t := AllTheWay(cfg, derive, start, next, j, id);
    }
  }

  /**
   With no attempts to spend, it does happen: a worker claims a row and outlives its
   lease, others take the row to `ready`, and the failure the first one then records parks it.
   */
  lemma ReadyRowsCanBeParked(cfg: Config, derive: Raw -> Fields, now: Time, raw: Raw) returns (s: State)
    requires cfg.batchSize >= 1 && cfg.maxAttempts == 0
    ensures Reaches(cfg, derive, Start(now), s) && Enabled(cfg, s, FailAttempt(0)) && s.jobs[0].id == 0
    ensures 0 in s.rows && s.rows[0].stage == Ready && s.jobs[0].version + 5 == s.rows[0].version
    ensures Step(cfg, derive, s, FailAttempt(0)).rows[0].stage == FailedPermanent
  {
    var waiting := WaitingRow(cfg, derive, now, 0, raw);
    ReachesStep(cfg, derive, Start(now), waiting, ClaimBatch(Parsed, map[0 := 0]));
    var held := ClaimOne(cfg, derive, waiting, 0, 0);
    ReachesStep(cfg, derive, Start(now), held, Tick(cfg.lease + 1));
    var late := Step(cfg, derive, held, Tick(cfg.lease + 1));
    assert late.rows[0] == held.rows[0];
    s := AllTheWay(cfg, derive, Start(now), late, 1, 0);
  }
}
