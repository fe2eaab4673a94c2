/**
 The sweeper that requeues stranded rows. `swept_at` is its progress cursor:
 never-swept rows come first, then the ones swept longest ago.
 */
module SweepFairness {
  import opened Lists
  import opened Options
  import opened Stages
  import opened Pipeline

  predicate Stranded(r: Row, now: Time, threshold: nat) {
    && !Terminal(r.stage) && !r.merged
    && (r.leaseUntil.None? || r.leaseUntil.value < now)
    && r.enteredAt < now - threshold
  }

  function StrandedIds(rows: map<Id, Row>, now: Time, threshold: nat): set<Id> {
    set id | id in rows && Stranded(rows[id], now, threshold)
  }

  /** ORDER BY swept_at NULLS FIRST, state_entered_at. */
  predicate NotAfter(a: Row, b: Row) {
    match (a.sweptAt, b.sweptAt)
    case (None, Some(_)) => true
    case (Some(_), None) => false
    case (None, None) => a.enteredAt <= b.enteredAt
    case (Some(s), Some(t)) => s < t || (s == t && a.enteredAt <= b.enteredAt)
  }

  /** Rows never swept come first, then those swept longest ago, then those that have waited longest. */
  lemma SweepOrder(a: Row, b: Row, c: Row)
    ensures a.sweptAt.None? && b.sweptAt.Some? ==> NotAfter(a, b) && !NotAfter(b, a)
    ensures a.sweptAt.Some? && b.sweptAt.Some? && a.sweptAt.value < b.sweptAt.value ==>
              NotAfter(a, b) && !NotAfter(b, a)
    ensures a.sweptAt == b.sweptAt ==> (NotAfter(a, b) <==> a.enteredAt <= b.enteredAt)
    ensures (NotAfter(a, b) || NotAfter(b, a)) && (NotAfter(a, b) && NotAfter(b, c) ==> NotAfter(a, c))
  {
  }

  function Min(a: nat, b: nat): nat {
    if a < b then a else b
  }

  /** What the engine may return for the ordered and limited query; ties are its own business. */
  ghost predicate Selects(rows: map<Id, Row>, eligible: set<Id>, limit: nat, batch: set<Id>) {
    && eligible <= rows.Keys && batch <= eligible && |batch| == Min(limit, |eligible|)
    && forall x, y | x in batch && y in eligible && y !in batch :: NotAfter(rows[x], rows[y])
  }

  function Sweep(rows: map<Id, Row>, batch: set<Id>, now: Time): map<Id, Row> {
    map id | id in rows :: if id in batch then Requeued(rows[id], now) else rows[id]
  }

  // ---------------------------------------------------------------- between the two statements

  /** The events that take a row to another state. */
  predicate Moves(cfg: Config, s: State, e: Event, id: Id) {
    && Enabled(cfg, s, e) && id in s.rows
    && (|| AdvancesRow(s, e, id)
        || (e.FailAttempt? && s.jobs[e.j].id == id
            && s.rows[id].attempts >= cfg.maxAttempts && s.rows[id].stage != FailedPermanent)
        || (e.UpdatePosting? && e.id == id && s.rows[id].stage != Parsed))
  }

  /** The events that give the row a lease, and the ones that take it away. */
  function Leased(cfg: Config, s: State, e: Event, id: Id, lease: Option<Time>): Option<Time> {
    if !Enabled(cfg, s, e) || id !in s.rows then lease
    else if e.ClaimBatch? && id in e.batch.Values then Some(s.now + cfg.lease)
    else if AdvancesRow(s, e, id) || ((e.FailAttempt? || e.ReleaseClaim?) && s.jobs[e.j].id == id)
            || (e.RequeueStranded? && id in e.ids) then None
    else lease
  }

  /** The lease a run leaves: the last claim nothing has taken back. */
  function LeaseLeft(cfg: Config, derive: Raw -> Fields, s: State, es: seq<Event>, id: Id, lease: Option<Time>):
      Option<Time>
    decreases |es|
  {
    if |es| == 0 then lease
    else LeaseLeft(cfg, derive, Step(cfg, derive, s, es[0]), es[1..], id, Leased(cfg, s, es[0], id, lease))
  }

  /** When a run last took the row to another state. */
  function LastMove(cfg: Config, derive: Raw -> Fields, s: State, es: seq<Event>, id: Id): Option<Time>
    decreases |es|
  {
    if |es| == 0 then None else
    var rest := LastMove(cfg, derive, Step(cfg, derive, s, es[0]), es[1..], id);
    if rest.Some? then rest else if Moves(cfg, s, es[0], id) then Some(s.now) else None
  }

  lemma LeaseUnderEvent(cfg: Config, derive: Raw -> Fields, s: State, e: Event, id: Id)
    requires Enabled(cfg, s, e) && id in s.rows
    ensures var r := RowAfter(cfg, derive, s, e, id);
            && r.leaseUntil == Leased(cfg, s, e, id, s.rows[id].leaseUntil)
            && (r.merged <==> s.rows[id].merged || e == MarkMerged(id))
  {
  }

  lemma StateUnderEvent(cfg: Config, derive: Raw -> Fields, s: State, e: Event, id: Id)
    requires Enabled(cfg, s, e) && id in s.rows
    ensures var r := RowAfter(cfg, derive, s, e, id);
            if Moves(cfg, s, e, id) then r.stage != s.rows[id].stage && r.enteredAt == s.now
            else r.stage == s.rows[id].stage && r.enteredAt == s.rows[id].enteredAt
  {
    if AdvancesRow(s, e, id) {
      PathIsALine(s.rows[id].stage);
    }
  }

  lemma RowUnderEvent(cfg: Config, derive: Raw -> Fields, s: State, e: Event, id: Id)
    requires id in s.rows
    ensures var t := Step(cfg, derive, s, e);
            && id in t.rows && s.now <= t.now
            && t.rows[id].leaseUntil == Leased(cfg, s, e, id, s.rows[id].leaseUntil)
            && (t.rows[id].merged <==> s.rows[id].merged || e == MarkMerged(id))
            && (if Moves(cfg, s, e, id) then t.rows[id].enteredAt == s.now
                else t.rows[id].stage == s.rows[id].stage && t.rows[id].enteredAt == s.rows[id].enteredAt)
  {
    if Enabled(cfg, s, e) {
      LeaseUnderEvent(cfg, derive, s, e, id);
      StateUnderEvent(cfg, derive, s, e, id);
    }
  }

  lemma {:induction false} RunAddsUp(cfg: Config, derive: Raw -> Fields, s: State, es: seq<Event>, id: Id)
    requires id in s.rows
    ensures var t, last := Run(cfg, derive, s, es), LastMove(cfg, derive, s, es, id);
            && id in t.rows && s.now <= t.now
            && t.rows[id].leaseUntil == LeaseLeft(cfg, derive, s, es, id, s.rows[id].leaseUntil)
            && (t.rows[id].merged <==> s.rows[id].merged || MarkMerged(id) in es)
            && (match last
                case Some(at) => t.rows[id].enteredAt == at && s.now <= at
                case None => t.rows[id].stage == s.rows[id].stage && t.rows[id].enteredAt == s.rows[id].enteredAt)
    decreases |es|
  {
    if |es| > 0 {
      RowUnderEvent(cfg, derive, s, es[0], id);
      RunAddsUp(cfg, derive, Step(cfg, derive, s, es[0]), es[1..], id);
      assert es == [es[0]] + es[1..];
    }
  }

  /**
   Nobody has merged the row or holds a claim on it that still runs, and if it was moved,
   it has been waiting in its new state for too long as well.
   */
  predicate Undisturbed(cfg: Config, derive: Raw -> Fields, s: State, es: seq<Event>, id: Id, threshold: nat)
    requires id in s.rows
  {
    var t := Run(cfg, derive, s, es);
    var lease := LeaseLeft(cfg, derive, s, es, id, s.rows[id].leaseUntil);
    && MarkMerged(id) !in es
    && (lease.None? || lease.value < t.now)
    && match LastMove(cfg, derive, s, es, id)
       case None => true
       case Some(at) => at < t.now - threshold && id in t.rows && !Terminal(t.rows[id].stage)
  }

  /**
   Between the select and the requeue, whatever runs and however long it takes, a stranded
   row stops being stranded exactly when it is disturbed; within one threshold of the
   select every move disturbs it.
   */
  lemma StillStrandedIff(cfg: Config, derive: Raw -> Fields, s: State, es: seq<Event>, id: Id, threshold: nat)
    requires id in s.rows && Stranded(s.rows[id], s.now, threshold)
    ensures var t := Run(cfg, derive, s, es);
            && id in t.rows
            && (Stranded(t.rows[id], t.now, threshold) <==> Undisturbed(cfg, derive, s, es, id, threshold))
            && (t.now <= s.now + threshold && LastMove(cfg, derive, s, es, id).Some? ==>
                  !Undisturbed(cfg, derive, s, es, id, threshold))
  {
    RunAddsUp(cfg, derive, s, es, id);
  }

  class Sweeper {
    var rows: map<Id, Row>
    const batchSize: nat
    const threshold: nat

    constructor (rows: map<Id, Row>, batchSize: nat, threshold: nat)
      ensures this.rows == rows && this.batchSize == batchSize && this.threshold == threshold
    {
      this.rows, this.batchSize, this.threshold := rows, batchSize, threshold;
    }

    /** SweepStranded: the ids of the rows the query returned, all stranded at that moment. */
    method SweepStranded(now: Time, found: seq<Id>) returns (ids: set<Id>)
      requires Selects(rows, StrandedIds(rows, now, threshold), batchSize, Elements(found))
      ensures ids == Elements(found)
      ensures forall id | id in ids :: id in rows && Stranded(rows[id], now, threshold)
    {
      ids := {};
      for k := 0 to |found|
        invariant ids == Elements(found[..k])
      {
        assert found[..k + 1] == found[..k] + [found[k]];
        ids := ids + {found[k]};
      }
      assert found[..|found|] == found;
    }

    /** RequeueStranded: guarded by id alone. */
    method RequeueStranded(now: Time, ids: set<Id>) returns (n: nat)
      modifies this`rows
      ensures rows == Sweep(old(rows), ids, now) && n == |ids * old(rows).Keys|
    {
      n := |ids * rows.Keys|;
      rows := Sweep(rows, ids, now);
    }

    /**
     Queue.Sweep. The two statements are not one transaction: `es` is what everybody else
     does in between, and `meanwhile` the table as they leave it. The requeue hits every
     row found, stranded or not; it hits stranded rows only if and only if none was disturbed.
     */
    method Run(ghost cfg: Config, ghost derive: Raw -> Fields, ghost s: State, ghost es: seq<Event>, now: Time,
            found: seq<Id>, meanwhile: map<Id, Row>, later: Time)
      returns (n: nat)
      requires rows == s.rows && now == s.now
      requires meanwhile == Pipeline.Run(cfg, derive, s, es).rows && later == Pipeline.Run(cfg, derive, s, es).now
      requires Selects(rows, StrandedIds(rows, now, threshold), batchSize, Elements(found))
      modifies this`rows
      ensures n == |Elements(found)|
      ensures rows == Step(cfg, derive, Pipeline.Run(cfg, derive, s, es), Event.RequeueStranded(Elements(found))).rows
      ensures forall id | id in Elements(found) :: id in s.rows && id in meanwhile
      ensures (forall id | id in Elements(found) :: Stranded(meanwhile[id], later, threshold))
              <==> forall id | id in Elements(found) :: Undisturbed(cfg, derive, s, es, id, threshold)
    {
      var ids := SweepStranded(now, found);
      WhoIsDisturbed(cfg, derive, s, es, ids, threshold);
      RequeueIsAStep(cfg, derive, Pipeline.Run(cfg, derive, s, es), ids);
      rows := meanwhile;
      if |found| == 0 {
        assert Sweep(meanwhile, {}, later) == meanwhile;
        return 0;
      }
      assert ids * rows.Keys == ids;
      n := RequeueStranded(later, ids);
    }
  }

  lemma RequeueIsAStep(cfg: Config, derive: Raw -> Fields, t: State, ids: set<Id>)
    ensures Step(cfg, derive, t, RequeueStranded(ids)).rows == Sweep(t.rows, ids, t.now)
  {
  }

  lemma WhoIsDisturbed(cfg: Config, derive: Raw -> Fields, s: State, es: seq<Event>, ids: set<Id>, threshold: nat)
    requires forall id | id in ids :: id in s.rows && Stranded(s.rows[id], s.now, threshold)
    ensures var t := Run(cfg, derive, s, es);
            && (forall id | id in ids :: id in t.rows)
            && ((forall id | id in ids :: Stranded(t.rows[id], t.now, threshold))
                <==> forall id | id in ids :: Undisturbed(cfg, derive, s, es, id, threshold))
  {
    var t := Run(cfg, derive, s, es);
    forall id | id in ids
      ensures id in t.rows
      ensures Stranded(t.rows[id], t.now, threshold) <==> Undisturbed(cfg, derive, s, es, id, threshold)
    {
      StillStrandedIff(cfg, derive, s, es, id, threshold);
    }
  }

  // ---------------------------------------------------------------- fairness

  predicate VisitedSince(r: Row, t: Time) {
    r.sweptAt.Some? && r.sweptAt.value >= t
  }

  /** One selection: a row visited since `t` is only chosen when every row left out has been visited since. */
  lemma UnvisitedFirst(rows: map<Id, Row>, eligible: set<Id>, limit: nat, batch: set<Id>, x: Id, y: Id, t: Time)
    requires Selects(rows, eligible, limit, batch) && x in batch && y in eligible && y !in batch
    requires VisitedSince(rows[x], t)
    ensures VisitedSince(rows[y], t)
  {
    assert NotAfter(rows[x], rows[y]);
  }

  /** One sweep as the table saw it: what was stranded, what was requeued, and when. */
  datatype Visit = Visit(rows: map<Id, Row>, eligible: set<Id>, batch: set<Id>, at: Time)

  /** When the row was last requeued, by one of the first `n` sweeps. */
  function LastVisit(visits: seq<Visit>, n: nat, id: Id): Option<Time>
    requires n <= |visits|
  {
    if n == 0 then None else if id in visits[n - 1].batch then Some(visits[n - 1].at) else LastVisit(visits, n - 1, id)
  }

  predicate InOrder(visits: seq<Visit>) {
    forall j, k :: 0 <= j < k < |visits| ==> visits[j].at < visits[k].at
  }

  /**
   Sweeps one after the other in time. Between them rows come and go, are claimed,
   fail and advance as they like; only `swept_at` is the sweeper's own column.
   */
  ghost predicate Sweeps(limit: nat, visits: seq<Visit>) {
    && (forall k :: 0 <= k < |visits| ==> Selects(visits[k].rows, visits[k].eligible, limit, visits[k].batch))
    && InOrder(visits)
    && (forall k, id | 0 <= k < |visits| && id in visits[k].rows ::
          match LastVisit(visits, k, id)
          case Some(t) => visits[k].rows[id].sweptAt == Some(t)
          case None => forall t | visits[k].rows[id].sweptAt == Some(t) :: t < visits[0].at)
  }

  lemma {:induction false} LastVisitIsAVisit(visits: seq<Visit>, n: nat, id: Id)
    requires n <= |visits|
    ensures match LastVisit(visits, n, id)
            case Some(t) => exists k :: 0 <= k < n && id in visits[k].batch && visits[k].at == t
            case None => forall k :: 0 <= k < n ==> id !in visits[k].batch
  {
    if n > 0 {
      LastVisitIsAVisit(visits, n - 1, id);
    }
  }

  lemma {:induction false} LastVisitIsLate(visits: seq<Visit>, m: nat, n: nat, id: Id)
    requires InOrder(visits) && m < n <= |visits| && id in visits[m].batch
    ensures LastVisit(visits, n, id).Some? && LastVisit(visits, n, id).value >= visits[m].at
  {
    if id !in visits[n - 1].batch {
      LastVisitIsLate(visits, m, n - 1, id);
    }
  }

  /**
   No row is visited a second time while another stranded row is passed over that has
   not been visited since the first: if sweeps m and n requeue x and sweep n leaves a
   stranded y out, then one of the sweeps from m on, before n, has requeued y.
   */
  lemma NoRevisitBeforeAll(limit: nat, visits: seq<Visit>, m: nat, n: nat, x: Id, y: Id)
    requires Sweeps(limit, visits) && m < n < |visits|
    requires x in visits[m].batch && x in visits[n].batch && y in visits[n].eligible && y !in visits[n].batch
    ensures exists k :: m <= k < n && y in visits[k].batch
  {
    assert Selects(visits[n].rows, visits[n].eligible, limit, visits[n].batch);
    assert NotAfter(visits[n].rows[x], visits[n].rows[y]);
    LastVisitIsLate(visits, m, n, x);
    LastVisitIsAVisit(visits, n, y);
    var k :| 0 <= k < n && y in visits[k].batch && Some(visits[k].at) == visits[n].rows[y].sweptAt;
    assert visits[k].at >= visits[m].at;
  }

  // ---------------------------------------------------------------- the sweeps of a run

  /** One sweep in a run: what everybody else does before the select and between the two statements. */
  datatype Round = Round(before: seq<Event>, between: seq<Event>, batch: set<Id>)

  /** The state after the first `n` sweeps. */
  function AfterRounds(cfg: Config, derive: Raw -> Fields, s: State, rounds: seq<Round>, n: nat): State
    requires n <= |rounds|
  {
    if n == 0 then s else
    var t := AfterRounds(cfg, derive, s, rounds, n - 1);
    Step(cfg, derive, Run(cfg, derive, Run(cfg, derive, t, rounds[n - 1].before), rounds[n - 1].between),
         RequeueStranded(rounds[n - 1].batch))
  }

  function AtSelect(cfg: Config, derive: Raw -> Fields, s: State, rounds: seq<Round>, n: nat): State
    requires n < |rounds|
  {
    Run(cfg, derive, AfterRounds(cfg, derive, s, rounds, n), rounds[n].before)
  }

  function AtRequeue(cfg: Config, derive: Raw -> Fields, s: State, rounds: seq<Round>, n: nat): State
    requires n < |rounds|
  {
    Run(cfg, derive, AtSelect(cfg, derive, s, rounds, n), rounds[n].between)
  }

  predicate NoRequeue(es: seq<Event>) {
    forall k :: 0 <= k < |es| ==> !es[k].RequeueStranded?
  }

  /** The sweep waits first, and requeues what its select returned, whatever has happened in between. */
  ghost predicate IsSweep(cfg: Config, derive: Raw -> Fields, s: State, rounds: seq<Round>, limit: nat,
      threshold: nat, n: nat)
    requires n < |rounds|
  {
    var seen := AtSelect(cfg, derive, s, rounds, n);
    && NoRequeue(rounds[n].before) && NoRequeue(rounds[n].between)
    && AfterRounds(cfg, derive, s, rounds, n).now < seen.now
    && Selects(seen.rows, StrandedIds(seen.rows, seen.now, threshold), limit, rounds[n].batch)
  }

  /** All requeues of the run are those of one sweeper. */
  ghost predicate OneSweeper(cfg: Config, derive: Raw -> Fields, s: State, rounds: seq<Round>, limit: nat,
      threshold: nat)
  {
    && (forall id | id in s.rows && s.rows[id].sweptAt.Some? :: s.rows[id].sweptAt.value <= s.now)
    && (forall n | 0 <= n < |rounds| :: IsSweep(cfg, derive, s, rounds, limit, threshold, n))
  }

  function VisitOf(cfg: Config, derive: Raw -> Fields, s: State, rounds: seq<Round>, threshold: nat, n: nat): Visit
    requires n < |rounds|
  {
    var seen := AtSelect(cfg, derive, s, rounds, n);
    Visit(seen.rows, StrandedIds(seen.rows, seen.now, threshold), rounds[n].batch,
          AtRequeue(cfg, derive, s, rounds, n).now)
  }

  ghost predicate AreVisits(cfg: Config, derive: Raw -> Fields, s: State, rounds: seq<Round>, threshold: nat,
      visits: seq<Visit>)
  {
    |visits| == |rounds|
    && forall n | 0 <= n < |rounds| :: visits[n] == VisitOf(cfg, derive, s, rounds, threshold, n)
  }

  lemma CursorUnderEvent(cfg: Config, derive: Raw -> Fields, s: State, e: Event, id: Id)
    requires !e.RequeueStranded?
    ensures var t := Step(cfg, derive, s, e);
            && s.now <= t.now && (id in s.rows ==> id in t.rows)
            && (id in t.rows ==> t.rows[id].sweptAt == if id in s.rows then s.rows[id].sweptAt else None)
  {
    if Enabled(cfg, s, e) && id in s.rows {
      assert RowAfter(cfg, derive, s, e, id).sweptAt == s.rows[id].sweptAt;
    }
  }

  /** Nobody but the sweeper writes its cursor. */
  lemma {:induction false} CursorStays(cfg: Config, derive: Raw -> Fields, s: State, es: seq<Event>, id: Id)
    requires NoRequeue(es)
    ensures var t := Run(cfg, derive, s, es);
            && s.now <= t.now && (id in s.rows ==> id in t.rows)
            && (id in t.rows ==> t.rows[id].sweptAt == if id in s.rows then s.rows[id].sweptAt else None)
    decreases |es|
  {
    if |es| > 0 {
      CursorUnderEvent(cfg, derive, s, es[0], id);
      CursorStays(cfg, derive, Step(cfg, derive, s, es[0]), es[1..], id);
    }
  }

  lemma RequeueWritesTheCursor(cfg: Config, derive: Raw -> Fields, t: State, ids: set<Id>, id: Id)
    ensures var t' := Step(cfg, derive, t, RequeueStranded(ids));
            && t'.now == t.now && (id in t'.rows <==> id in t.rows)
            && (id in t.rows ==> t'.rows[id].sweptAt == if id in ids then Some(t.now) else t.rows[id].sweptAt)
  {
  }

  /** What one sweep, with all that goes on around it, does to the cursor of a row. */
  lemma RoundMovesCursor(cfg: Config, derive: Raw -> Fields, s: State, rounds: seq<Round>, limit: nat,
          threshold: nat, n: nat, id: Id)
    requires n < |rounds| && IsSweep(cfg, derive, s, rounds, limit, threshold, n)
    ensures var a, b := AfterRounds(cfg, derive, s, rounds, n), AfterRounds(cfg, derive, s, rounds, n + 1);
            && a.now < AtRequeue(cfg, derive, s, rounds, n).now == b.now
            && (id in a.rows || id in rounds[n].batch ==> id in b.rows)
            && (id in b.rows ==>
                  b.rows[id].sweptAt == if id in rounds[n].batch then Some(b.now)
                                        else if id in a.rows then a.rows[id].sweptAt else None)
  {
    CursorStays(cfg, derive, AfterRounds(cfg, derive, s, rounds, n), rounds[n].before, id);
    CursorStays(cfg, derive, AtSelect(cfg, derive, s, rounds, n), rounds[n].between, id);
    RequeueWritesTheCursor(cfg, derive, AtRequeue(cfg, derive, s, rounds, n), rounds[n].batch, id);
  }

  /** So the cursor of a row is the time of the last sweep that requeued it, if one has. */
  lemma {:induction false} CursorIsLastVisit(cfg: Config, derive: Raw -> Fields, s: State, rounds: seq<Round>,
          limit: nat, threshold: nat, visits: seq<Visit>, n: nat, id: Id)
    requires OneSweeper(cfg, derive, s, rounds, limit, threshold) && n <= |rounds|
    requires AreVisits(cfg, derive, s, rounds, threshold, visits)
    ensures var t, last := AfterRounds(cfg, derive, s, rounds, n), LastVisit(visits, n, id);
            && (id !in t.rows ==> last == None && id !in s.rows)
            && (id in t.rows ==> t.rows[id].sweptAt == if last.Some? then last
                                                       else if id in s.rows then s.rows[id].sweptAt else None)
  {
    if n > 0 {
      CursorIsLastVisit(cfg, derive, s, rounds, limit, threshold, visits, n - 1, id);
      RoundMovesCursor(cfg, derive, s, rounds, limit, threshold, n - 1, id);
      assert visits[n - 1] == VisitOf(cfg, derive, s, rounds, threshold, n - 1);
    }
  }

  /** What a select finds in the cursor column. */
  lemma CursorAtSelect(cfg: Config, derive: Raw -> Fields, s: State, rounds: seq<Round>, limit: nat, threshold: nat,
          visits: seq<Visit>, n: nat, id: Id)
    requires OneSweeper(cfg, derive, s, rounds, limit, threshold) && n < |rounds|
    requires AreVisits(cfg, derive, s, rounds, threshold, visits) && id in visits[n].rows
    ensures match LastVisit(visits, n, id)
            case Some(t) => visits[n].rows[id].sweptAt == Some(t)
            case None => forall t | visits[n].rows[id].sweptAt == Some(t) :: t < visits[0].at
  {
    assert IsSweep(cfg, derive, s, rounds, limit, threshold, n);
    assert visits[n] == VisitOf(cfg, derive, s, rounds, threshold, n);
    CursorIsLastVisit(cfg, derive, s, rounds, limit, threshold, visits, n, id);
    CursorStays(cfg, derive, AfterRounds(cfg, derive, s, rounds, n), rounds[n].before, id);
    RoundMovesCursor(cfg, derive, s, rounds, limit, threshold, 0, id);
    assert visits[0] == VisitOf(cfg, derive, s, rounds, threshold, 0);
  }

  lemma OneVisit(cfg: Config, derive: Raw -> Fields, s: State, rounds: seq<Round>, limit: nat, threshold: nat,
          visits: seq<Visit>, k: nat)
    returns (start: Time, end: Time)
    requires OneSweeper(cfg, derive, s, rounds, limit, threshold) && k < |rounds|
    requires AreVisits(cfg, derive, s, rounds, threshold, visits)
    ensures Selects(visits[k].rows, visits[k].eligible, limit, visits[k].batch)
    ensures start == AfterRounds(cfg, derive, s, rounds, k).now < visits[k].at
    ensures end == AfterRounds(cfg, derive, s, rounds, k + 1).now == visits[k].at
  {
    start, end := AfterRounds(cfg, derive, s, rounds, k).now, AfterRounds(cfg, derive, s, rounds, k + 1).now;
    assert IsSweep(cfg, derive, s, rounds, limit, threshold, k);
    assert visits[k] == VisitOf(cfg, derive, s, rounds, threshold, k);
    RoundMovesCursor(cfg, derive, s, rounds, limit, threshold, k, 0);
  }

  lemma NextVisit(cfg: Config, derive: Raw -> Fields, s: State, rounds: seq<Round>, limit: nat, threshold: nat,
          visits: seq<Visit>, k: nat)
    requires OneSweeper(cfg, derive, s, rounds, limit, threshold) && k + 1 < |rounds|
    requires AreVisits(cfg, derive, s, rounds, threshold, visits)
    ensures visits[k].at < visits[k + 1].at
  {
    var _, end := OneVisit(cfg, derive, s, rounds, limit, threshold, visits, k);
    var start, _ := OneVisit(cfg, derive, s, rounds, limit, threshold, visits, k + 1);
    assert end == start;
  }

  lemma {:induction false} VisitsRise(visits: seq<Visit>, j: nat, k: nat)
    requires j < k < |visits|
    requires forall i, i' :: 0 <= i < |visits| && i' == i + 1 && i' < |visits| ==> visits[i].at < visits[i'].at
    ensures visits[j].at < visits[k].at
  {
    if j < k - 1 {
      VisitsRise(visits, j, k - 1);
    }
  }

  lemma VisitsInOrder(cfg: Config, derive: Raw -> Fields, s: State, rounds: seq<Round>, limit: nat, threshold: nat,
          visits: seq<Visit>)
    requires OneSweeper(cfg, derive, s, rounds, limit, threshold)
    requires AreVisits(cfg, derive, s, rounds, threshold, visits)
    ensures InOrder(visits)
  {
    forall j: nat, k: nat | k == j + 1 && k < |visits|
      ensures visits[j].at < visits[k].at
    {
      NextVisit(cfg, derive, s, rounds, limit, threshold, visits, j);
    }
    forall j: nat, k: nat | j < k < |visits|
      ensures visits[j].at < visits[k].at
    {
      VisitsRise(visits, j, k);
    }
  }

  lemma RunsAreSweeps(cfg: Config, derive: Raw -> Fields, s: State, rounds: seq<Round>, limit: nat, threshold: nat,
          visits: seq<Visit>)
    requires OneSweeper(cfg, derive, s, rounds, limit, threshold)
    requires AreVisits(cfg, derive, s, rounds, threshold, visits)
    ensures Sweeps(limit, visits)
  {
    VisitsInOrder(cfg, derive, s, rounds, limit, threshold, visits);
    forall k: nat | k < |visits|
      ensures Selects(visits[k].rows, visits[k].eligible, limit, visits[k].batch)
    {
      var _, _ := OneVisit(cfg, derive, s, rounds, limit, threshold, visits, k);
    }
    forall k: nat, id | k < |visits| && id in visits[k].rows
      ensures match LastVisit(visits, k, id)
              case Some(t) => visits[k].rows[id].sweptAt == Some(t)
              case None => forall t | visits[k].rows[id].sweptAt == Some(t) :: t < visits[0].at
    {
      CursorAtSelect(cfg, derive, s, rounds, limit, threshold, visits, k, id);
    }
  }

  lemma TheVisits(cfg: Config, derive: Raw -> Fields, s: State, rounds: seq<Round>, limit: nat, threshold: nat)
    returns (visits: seq<Visit>)
    requires OneSweeper(cfg, derive, s, rounds, limit, threshold)
    ensures AreVisits(cfg, derive, s, rounds, threshold, visits) && Sweeps(limit, visits)
  {
    visits := seq(|rounds|, k requires 0 <= k < |rounds| => VisitOf(cfg, derive, s, rounds, threshold, k));
    RunsAreSweeps(cfg, derive, s, rounds, limit, threshold, visits);
  }

  /**
   Main theorem: in every run of the whole machine with one sweeper, if sweeps m and n
   requeue x and sweep n leaves a stranded y out, then one of the sweeps from m on,
   before n, has requeued y.
   */
  lemma NoRevisitInAnyRun(cfg: Config, derive: Raw -> Fields, s: State, rounds: seq<Round>, limit: nat,
          threshold: nat, m: nat, n: nat, x: Id, y: Id)
    requires OneSweeper(cfg, derive, s, rounds, limit, threshold) && m < n < |rounds|
    requires x in rounds[m].batch && x in rounds[n].batch && y !in rounds[n].batch
    requires var seen := AtSelect(cfg, derive, s, rounds, n); y in StrandedIds(seen.rows, seen.now, threshold)
    ensures exists k :: m <= k < n && y in rounds[k].batch
  {
    var visits := TheVisits(cfg, derive, s, rounds, limit, threshold);
    NoRevisitBeforeAll(limit, visits, m, n, x, y);
    var k :| m <= k < n && y in visits[k].batch;
    assert y in rounds[k].batch;
  }

  // ---------------------------------------------------------------- a standing backlog

  function Visited(rows: map<Id, Row>, eligible: set<Id>, t: Time): set<Id>
    requires eligible <= rows.Keys
  {
    set id | id in eligible && VisitedSince(rows[id], t)
  }

  /** A batch that holds all the unseen ids, or only unseen ones, adds as many as it can. */
  lemma BatchAdds(eligible: set<Id>, seen: set<Id>, batch: set<Id>, limit: nat)
    requires seen <= eligible && batch <= eligible && |batch| == Min(limit, |eligible|)
    requires eligible - seen <= batch || batch <= eligible - seen
    ensures |seen + batch| == Min(|eligible|, |seen| + limit)
  {
    var unseen := eligible - seen;
    assert seen + unseen == eligible && |seen + unseen| == |seen| + |unseen|;
    if unseen <= batch {
      assert seen + batch == eligible;
      SubsetSize(unseen, batch);
    } else {
      SubsetSize(batch, unseen);
      assert |seen + batch| == |seen| + |batch|;
    }
  }

  /** One sweep visits a full batch of rows not visited since `t`, or all that are left. */
  lemma OneSweepAdvances(rows: map<Id, Row>, eligible: set<Id>, limit: nat, batch: set<Id>, t: Time, now: Time)
    requires Selects(rows, eligible, limit, batch) && t <= now
    ensures |Visited(Sweep(rows, batch, now), eligible, t)| == Min(|eligible|, |Visited(rows, eligible, t)| + limit)
  {
    var seen := Visited(rows, eligible, t);
    assert Visited(Sweep(rows, batch, now), eligible, t) == seen + batch;
    forall x, y | x in batch && x in seen && y in eligible && y !in batch
      ensures y in seen
    {
      UnvisitedFirst(rows, eligible, limit, batch, x, y, t);
    }
    BatchAdds(eligible, seen, batch, limit);
  }

  datatype Pass = Pass(batch: set<Id>, at: Time)

  function AfterPasses(rows: map<Id, Row>, passes: seq<Pass>): map<Id, Row> {
    if |passes| == 0 then rows
    else Sweep(AfterPasses(rows, passes[..|passes| - 1]), passes[|passes| - 1].batch, passes[|passes| - 1].at)
  }

  /** Sweeps of one standing backlog, one after the other in time. */
  ghost predicate StandingBacklog(rows: map<Id, Row>, eligible: set<Id>, limit: nat, passes: seq<Pass>) {
    |passes| == 0 ||
    var n := |passes| - 1;
    && StandingBacklog(rows, eligible, limit, passes[..n])
    && Selects(AfterPasses(rows, passes[..n]), eligible, limit, passes[n].batch)
    && (n > 0 ==> passes[n - 1].at < passes[n].at)
  }

  lemma {:induction false} PassesComeAfter(rows: map<Id, Row>, eligible: set<Id>, limit: nat, passes: seq<Pass>)
    requires StandingBacklog(rows, eligible, limit, passes) && |passes| > 0
    ensures passes[0].at <= passes[|passes| - 1].at
  {
    if |passes| > 1 {
      PassesComeAfter(rows, eligible, limit, passes[..|passes| - 1]);
    }
  }

  lemma {:induction false} KeysStay(rows: map<Id, Row>, passes: seq<Pass>)
    ensures AfterPasses(rows, passes).Keys == rows.Keys
  {
    if |passes| > 0 {
      KeysStay(rows, passes[..|passes| - 1]);
    }
  }

  /** After k sweeps of a backlog of N rows, exactly min(N, k * batch) of them have been requeued. */
  lemma {:induction false} BacklogIsWorkedThrough(rows: map<Id, Row>, eligible: set<Id>, limit: nat,
          passes: seq<Pass>, t: Time)
    requires eligible <= rows.Keys && StandingBacklog(rows, eligible, limit, passes)
    requires |passes| > 0 ==> t <= passes[0].at
    requires forall id | id in eligible :: !VisitedSince(rows[id], t)
    ensures eligible <= AfterPasses(rows, passes).Keys
    ensures |Visited(AfterPasses(rows, passes), eligible, t)| == Min(|eligible|, |passes| * limit)
  {
    KeysStay(rows, passes);
    if |passes| == 0 {
      assert Visited(rows, eligible, t) == {};
    } else {
      var n := |passes| - 1;
      KeysStay(rows, passes[..n]);
      BacklogIsWorkedThrough(rows, eligible, limit, passes[..n], t);
      PassesComeAfter(rows, eligible, limit, passes);
      OneSweepAdvances(AfterPasses(rows, passes[..n]), eligible, limit, passes[n].batch, t, passes[n].at);
      assert |passes| * limit == n * limit + limit;
    }
  }

  /** So ceil(N / batch) sweeps requeue the whole backlog. */
  lemma WholeBacklogIsRequeued(rows: map<Id, Row>, eligible: set<Id>, limit: nat, passes: seq<Pass>, t: Time)
    requires eligible <= rows.Keys && StandingBacklog(rows, eligible, limit, passes) && limit > 0
    requires |passes| > 0 ==> t <= passes[0].at
    requires forall id | id in eligible :: !VisitedSince(rows[id], t)
    requires |passes| == (|eligible| + limit - 1) / limit
    ensures forall id | id in eligible ::
            id in AfterPasses(rows, passes) && VisitedSince(AfterPasses(rows, passes)[id], t)
  {
    BacklogIsWorkedThrough(rows, eligible, limit, passes, t);
    assert |passes| * limit >= |eligible|;
    SubsetSize(Visited(AfterPasses(rows, passes), eligible, t), eligible);
    assert Visited(AfterPasses(rows, passes), eligible, t) == eligible;
  }
}
