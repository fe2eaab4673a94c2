/**
 The worker as it runs. Each item is handed to the handler of its stage, and what the
 handler leaves is the worker's: to advance, to degrade past, to record as failed, or
 to leave alone. An item, a batch and a turn of the loop are runs of `Pipeline`.
 */
module PipelineWorker {
  import opened Options
  import opened Stages
  import opened Pipeline
  import opened PipelineQueue

  // ---------------------------------------------------------------- what an item does to the machine

  /** The handler's own statements. */
  function Handling(j: JobId, it: Item, result: HandlerResult): seq<Event> {
    if it.stage == Parsed && result != Error then [ReadRow(j), ApplyNormalization(j)]
    else if it.stage == Normalized && result == Handled then [MarkMerged(it.id)]
    else if it.stage == Deduped && result != Error then [AttachExtraction(j)]
    else []
  }

  /**
   What the worker does once the handler has returned. A normalizer or enricher that
   wrote, or met a conflict, has resolved the item; every other item is still the worker's.
   */
  function Settling(cfg: Config, j: JobId, it: Item, result: HandlerResult): seq<Event> {
    match result
    case Ok => [AdvanceState(j)]
    case Error => [if Degradable(it.stage) && it.attempts >= cfg.maxAttempts then AdvanceState(j) else FailAttempt(j)]
    case _ => if it.stage == Normalized then [Abandon(j)] else []
  }

  function ItemEvents(cfg: Config, rows: map<Id, Row>, j: JobId, it: Item, fate: Fate): seq<Event> {
    Handling(j, it, Ends(rows, it, fate)) + Settling(cfg, j, it, Ends(rows, it, fate))
  }

  /** What the first `n` items do, each meeting the rows as the ones before it left them. */
  function BatchEvents(cfg: Config, derive: Raw -> Fields, s: State, js: seq<JobId>, items: seq<Item>,
      fates: seq<Fate>, n: nat): seq<Event>
    requires |js| == |items| == |fates| && n <= |js|
  {
    if n == 0 then [] else
    var es := BatchEvents(cfg, derive, s, js, items, fates, n - 1);
    es + ItemEvents(cfg, Run(cfg, derive, s, es).rows, js[n - 1], items[n - 1], fates[n - 1])
  }

  predicate Working(it: Item) {
    Next(it.stage).Some?
  }

  lemma RunOfTwo(cfg: Config, derive: Raw -> Fields, s: State, e: Event, f: Event)
    ensures Run(cfg, derive, s, [e, f]) == Step(cfg, derive, Step(cfg, derive, s, e), f)
    ensures Allowed(cfg, derive, s, [e, f]) <==> Enabled(cfg, s, e) && Enabled(cfg, Step(cfg, derive, s, e), f)
  {
    assert [e, f] == [e] + [f];
    RunConcat(cfg, derive, s, [e], [f]);
    RunOfOne(cfg, derive, s, e);
    RunOfOne(cfg, derive, Step(cfg, derive, s, e), f);
  }

  lemma NothingHandled(cfg: Config, derive: Raw -> Fields, s: State, j: JobId, it: Item, result: HandlerResult)
    requires InHand(s, j, it) && Working(it)
    requires result == Ok || result == Error
    requires result == Ok ==> it.stage != Parsed && it.stage != Deduped
    ensures Handling(j, it, result) == [] && |Settling(cfg, j, it, result)| == 1
    ensures var e := Settling(cfg, j, it, result)[0];
            Enabled(cfg, s, e) && Run(cfg, derive, s, Settling(cfg, j, it, result)) == Step(cfg, derive, s, e)
    ensures Allowed(cfg, derive, s, Settling(cfg, j, it, result))
  {
    var e := Settling(cfg, j, it, result)[0];
    assert Settling(cfg, j, it, result) == [e];
    RunOfOne(cfg, derive, s, e);
  }

  /** After a handler that settled the row, or yielded, the worker at most drops the item. */
  lemma LeftAlone(cfg: Config, derive: Raw -> Fields, s: State, j: JobId, it: Item, result: HandlerResult)
    requires InHand(s, j, it) && Working(it)
    requires result == Handled || result == Conflict
    ensures var u := Run(cfg, derive, s, Handling(j, it, result));
            && Run(cfg, derive, u, Settling(cfg, j, it, result)).rows == u.rows
            && Run(cfg, derive, u, Settling(cfg, j, it, result)).now == u.now
            && Allowed(cfg, derive, u, Settling(cfg, j, it, result))
  {
    if it.stage == Normalized {
      RunOfOne(cfg, derive, s, MarkMerged(it.id));
      RunOfOne(cfg, derive, Run(cfg, derive, s, Handling(j, it, result)), Abandon(j));
    }
  }

  lemma ReadAndApplied(cfg: Config, derive: Raw -> Fields, s: State, j: JobId)
    requires Enabled(cfg, s, ReadRow(j))
    ensures Run(cfg, derive, s, [ReadRow(j), ApplyNormalization(j)]).jobs == s.jobs - {j}
  {
    RunOfTwo(cfg, derive, s, ReadRow(j), ApplyNormalization(j));
  }

  /** However an item ends, it is in nobody's hand afterwards, and the other items are where they were. */
  lemma ItemIsResolved(cfg: Config, derive: Raw -> Fields, s: State, j: JobId, it: Item, fate: Fate)
    requires InHand(s, j, it) && Working(it)
    ensures Run(cfg, derive, s, ItemEvents(cfg, s.rows, j, it, fate)).jobs == s.jobs - {j}
  {
    var result := Ends(s.rows, it, fate);
    RunConcat(cfg, derive, s, Handling(j, it, result), Settling(cfg, j, it, result));
    if result == Ok || result == Error {
      NothingHandled(cfg, derive, s, j, it, result);
    } else if it.stage == Parsed {
      ReadAndApplied(cfg, derive, s, j);
    } else if it.stage == Normalized {
      RunOfOne(cfg, derive, s, MarkMerged(it.id));
      RunOfOne(cfg, derive, Run(cfg, derive, s, Handling(j, it, result)), Abandon(j));
    } else {
      RunOfOne(cfg, derive, s, AttachExtraction(j));
    }
  }

  /** Items in hand, none twice, each of a stage that has a worker. */
  predicate ToDo(s: State, js: seq<JobId>, items: seq<Item>, k: nat) {
    AllInHand(s, js, items, k) && forall m :: 0 <= m < |items| ==> Working(items[m])
  }

  /** The items of the first `n`. */
  function IdsOf(items: seq<Item>, n: nat): set<Id>
    requires n <= |items|
  {
    if n == 0 then {} else IdsOf(items, n - 1) + {items[n - 1].id}
  }

  /** The first `n` items have run, from `s` to `t`, and the others are still to do. */
  ghost predicate Reached(cfg: Config, derive: Raw -> Fields, s: State, t: State, js: seq<JobId>, items: seq<Item>,
      fates: seq<Fate>, n: nat)
    requires |js| == |items| == |fates| && n <= |js|
  {
    && ToDo(t, js, items, n)
    && t == Run(cfg, derive, s, BatchEvents(cfg, derive, s, js, items, fates, n))
    && Allowed(cfg, derive, s, BatchEvents(cfg, derive, s, js, items, fates, n))
  }

  lemma BatchGrows(cfg: Config, derive: Raw -> Fields, s: State, t: State, js: seq<JobId>, items: seq<Item>,
          fates: seq<Fate>, k: nat)
    requires |js| == |items| == |fates| && k < |items|
    requires t == Run(cfg, derive, s, BatchEvents(cfg, derive, s, js, items, fates, k))
    ensures var es := ItemEvents(cfg, t.rows, js[k], items[k], fates[k]);
            && Run(cfg, derive, s, BatchEvents(cfg, derive, s, js, items, fates, k + 1)) == Run(cfg, derive, t, es)
            && (Allowed(cfg, derive, s, BatchEvents(cfg, derive, s, js, items, fates, k + 1))
                <==> Allowed(cfg, derive, s, BatchEvents(cfg, derive, s, js, items, fates, k))
                     && Allowed(cfg, derive, t, es))
  {
    RunConcat(cfg, derive, s, BatchEvents(cfg, derive, s, js, items, fates, k),
              ItemEvents(cfg, t.rows, js[k], items[k], fates[k]));
  }

  lemma OneMoreItem(cfg: Config, derive: Raw -> Fields, s: State, t: State, js: seq<JobId>, items: seq<Item>,
          fates: seq<Fate>, k: nat)
    requires |js| == |items| == |fates| && k < |items| && Reached(cfg, derive, s, t, js, items, fates, k)
    requires Allowed(cfg, derive, t, ItemEvents(cfg, t.rows, js[k], items[k], fates[k]))
    ensures var t' := Run(cfg, derive, t, ItemEvents(cfg, t.rows, js[k], items[k], fates[k]));
            Reached(cfg, derive, s, t', js, items, fates, k + 1)
  {
    BatchGrows(cfg, derive, s, t, js, items, fates, k);
    ItemIsResolved(cfg, derive, t, js[k], items[k], fates[k]);
  }

  // ---------------------------------------------------------------- what an undisturbed item does to its row

  predicate Fails(it: Item, fate: Fate) {
    fate.fails || (it.stage == Deduped && fate.worthExtracting && !fate.extracted)
  }

  /** Only the deduper keeps a row back. */
  predicate Proceeds(it: Item, fate: Fate) {
    it.stage == Normalized ==> fate.compared == NoMatch
  }

  /** The row of an item that is still as it was claimed. */
  function Settled(cfg: Config, derive: Raw -> Fields, r: Row, it: Item, fate: Fate, now: Time): Row
    requires Working(it)
  {
    var advanced := Advanced(r, Next(it.stage).value, now);
    if Fails(it, fate) then
      if Degradable(it.stage) && it.attempts >= cfg.maxAttempts then advanced
      else Failed(cfg, r, Backoff(cfg, it.attempts), now)
    else match it.stage
      case Parsed => advanced.(fields := derive(r.raw))
      case Normalized => if fate.compared == NoMatch then advanced else if fate.compared == Match then MergedAway(r)
          else r
      case _ => advanced
  }

  /** Which rows advance, which are parked, and which keep their lease although nobody works on them any more. */
  lemma SettledIff(cfg: Config, derive: Raw -> Fields, r: Row, it: Item, fate: Fate, now: Time)
    requires Working(it) && Guard(r, it.version, it.stage) && r.attempts == it.attempts && r.leaseUntil.Some?
    ensures var r', last := Settled(cfg, derive, r, it, fate, now), it.attempts >= cfg.maxAttempts;
            && (r'.stage == Next(it.stage).value <==>
                if Fails(it, fate) then Degradable(it.stage) && last else Proceeds(it, fate))
            && (r'.stage == FailedPermanent <==> Fails(it, fate) && !Degradable(it.stage) && last)
            && (r'.leaseUntil.Some? <==> !Fails(it, fate) && !Proceeds(it, fate))
  {
    PathIsALine(it.stage);
  }

  predicate AsClaimed(rows: map<Id, Row>, it: Item) {
    it.id in rows && Guard(rows[it.id], it.version, it.stage) && !rows[it.id].merged
  }

  lemma PassedOnItem(cfg: Config, derive: Raw -> Fields, s: State, j: JobId, it: Item, fate: Fate)
    requires InHand(s, j, it) && Working(it) && AsClaimed(s.rows, it)
    requires Ends(s.rows, it, fate) in {Ok, Error}
    ensures var t := Run(cfg, derive, s, ItemEvents(cfg, s.rows, j, it, fate));
            t.rows == s.rows[it.id := Settled(cfg, derive, s.rows[it.id], it, fate, s.now)] && t.now == s.now
  {
    NothingHandled(cfg, derive, s, j, it, Ends(s.rows, it, fate));
    assert ItemEvents(cfg, s.rows, j, it, fate) == Settling(cfg, j, it, Ends(s.rows, it, fate));
  }

  lemma NormalizedItem(cfg: Config, derive: Raw -> Fields, s: State, j: JobId, it: Item)
    requires InHand(s, j, it) && it.stage == Parsed && AsClaimed(s.rows, it)
    ensures var t := Run(cfg, derive, s, [ReadRow(j), ApplyNormalization(j)]); var r := s.rows[it.id];
            t.rows == s.rows[it.id := Advanced(r, Normalized, s.now).(fields := derive(r.raw))] && t.now == s.now
  {
    RunOfTwo(cfg, derive, s, ReadRow(j), ApplyNormalization(j));
  }

  lemma HandledItem(cfg: Config, derive: Raw -> Fields, s: State, j: JobId, it: Item, fate: Fate)
    requires InHand(s, j, it) && Working(it) && AsClaimed(s.rows, it)
    requires Ends(s.rows, it, fate) in {Handled, Conflict}
    ensures var t := Run(cfg, derive, s, Handling(j, it, Ends(s.rows, it, fate)));
            t.rows == s.rows[it.id := Settled(cfg, derive, s.rows[it.id], it, fate, s.now)] && t.now == s.now
  {
    if it.stage == Parsed {
      NormalizedItem(cfg, derive, s, j, it);
    } else if it.stage == Normalized {
      RunOfOne(cfg, derive, s, MarkMerged(it.id));
    } else {
      RunOfOne(cfg, derive, s, AttachExtraction(j));
    }
  }

  lemma ItemSettlesItsRow(cfg: Config, derive: Raw -> Fields, s: State, j: JobId, it: Item, fate: Fate)
    requires InHand(s, j, it) && Working(it) && AsClaimed(s.rows, it)
    ensures var t := Run(cfg, derive, s, ItemEvents(cfg, s.rows, j, it, fate));
            t.rows == s.rows[it.id := Settled(cfg, derive, s.rows[it.id], it, fate, s.now)] && t.now == s.now
  {
    var result := Ends(s.rows, it, fate);
    if result in {Ok, Error} {
      PassedOnItem(cfg, derive, s, j, it, fate);
    } else {
      HandledItem(cfg, derive, s, j, it, fate);
      RunConcat(cfg, derive, s, Handling(j, it, result), Settling(cfg, j, it, result));
      LeftAlone(cfg, derive, s, j, it, result);
    }
  }

  predicate AllAsClaimed(rows: map<Id, Row>, items: seq<Item>) {
    && (forall k :: 0 <= k < |items| ==> Working(items[k]) && AsClaimed(rows, items[k]))
    && forall k, m :: 0 <= k < m < |items| ==> items[k].id != items[m].id
  }

  /** The table once the first `n` items have settled their rows. */
  function RowsSettled(cfg: Config, derive: Raw -> Fields, rows: map<Id, Row>, items: seq<Item>, fates: seq<Fate>,
      n: nat, now: Time): map<Id, Row>
    requires |fates| == |items| && n <= |items| && AllAsClaimed(rows, items)
  {
    if n == 0 then rows else
    var r := rows[items[n - 1].id];
    RowsSettled(cfg, derive, rows, items, fates, n - 1, now)
      [items[n - 1].id := Settled(cfg, derive, r, items[n - 1], fates[n - 1], now)]
  }

  /** Each listed row is settled, and no other row is touched. */
  lemma {:induction false} RowsSettledAre(cfg: Config, derive: Raw -> Fields, rows: map<Id, Row>, items: seq<Item>,
          fates: seq<Fate>, n: nat, now: Time, id: Id)
    requires |fates| == |items| && n <= |items| && AllAsClaimed(rows, items) && id in rows
    ensures var rows' := RowsSettled(cfg, derive, rows, items, fates, n, now);
            && rows'.Keys == rows.Keys
            && (id !in IdsOf(items, n) ==> rows'[id] == rows[id])
            && forall k :: 0 <= k < n && items[k].id == id ==>
                 rows'[id] == Settled(cfg, derive, rows[id], items[k], fates[k], now)
  {
    if n > 0 {
      RowsSettledAre(cfg, derive, rows, items, fates, n - 1, now, id);
    }
  }

  lemma {:induction false} IdsAre(items: seq<Item>, n: nat, id: Id)
    requires n <= |items|
    ensures id in IdsOf(items, n) <==> exists k :: 0 <= k < n && items[k].id == id
  {
    if n > 0 {
      IdsAre(items, n - 1, id);
    }
  }

  lemma NotAmong(items: seq<Item>, k: nat)
    requires k < |items| && forall i, m :: 0 <= i < m < |items| ==> items[i].id != items[m].id
    ensures items[k].id !in IdsOf(items, k)
  {
    IdsAre(items, k, items[k].id);
  }

  /** The first `n` items have settled their rows, and the others are still to do. */
  ghost predicate SettledSoFar(cfg: Config, derive: Raw -> Fields, s: State, t: State, js: seq<JobId>,
      items: seq<Item>, fates: seq<Fate>, n: nat)
    requires |fates| == |items| && n <= |items| && AllAsClaimed(s.rows, items)
  {
    && ToDo(t, js, items, n) && t.now == s.now
    && t.rows == RowsSettled(cfg, derive, s.rows, items, fates, n, s.now)
  }

  lemma OneMoreRow(cfg: Config, derive: Raw -> Fields, s: State, t: State, js: seq<JobId>,
          items: seq<Item>, fates: seq<Fate>, k: nat)
    returns (t': State)
    requires |js| == |items| == |fates| && k < |items| && AllAsClaimed(s.rows, items)
    requires SettledSoFar(cfg, derive, s, t, js, items, fates, k)
    ensures t' == Run(cfg, derive, t, ItemEvents(cfg, t.rows, js[k], items[k], fates[k]))
    ensures SettledSoFar(cfg, derive, s, t', js, items, fates, k + 1)
  {
    t' := Run(cfg, derive, t, ItemEvents(cfg, t.rows, js[k], items[k], fates[k]));
    RowsSettledAre(cfg, derive, s.rows, items, fates, k, s.now, items[k].id);
    NotAmong(items, k);
    ItemIsResolved(cfg, derive, t, js[k], items[k], fates[k]);
    ItemSettlesItsRow(cfg, derive, t, js[k], items[k], fates[k]);
  }

  /** A batch whose rows are as they were claimed settles each of them. */
  lemma {:induction false} BatchSettlesItsRows(cfg: Config, derive: Raw -> Fields, s: State, js: seq<JobId>,
          items: seq<Item>, fates: seq<Fate>, n: nat)
    returns (t: State)
    requires |js| == |items| == |fates| && n <= |items| && ToDo(s, js, items, 0) && AllAsClaimed(s.rows, items)
    ensures t == Run(cfg, derive, s, BatchEvents(cfg, derive, s, js, items, fates, n))
    ensures SettledSoFar(cfg, derive, s, t, js, items, fates, n)
  {
    if n == 0 {
      t := s;
    } else {
      var k := n - 1;
      var before := BatchSettlesItsRows(cfg, derive, s, js, items, fates, k);
      t := OneMoreRow(cfg, derive, s, before, js, items, fates, k);
      BatchGrows(cfg, derive, s, before, js, items, fates, k);
    }
  }

  /** Right after a claim every item's row is as it was claimed. */
  lemma ClaimedItems(cfg: Config, s: State, stage: Stage, chosen: seq<Id>, rows: map<Id, Row>, items: seq<Item>)
    requires MayChoose(cfg, s, stage, chosen) && |items| == |chosen|
    requires rows == ClaimedRows(cfg, s.rows, (set id | id in chosen), s.now)
    requires forall k :: 0 <= k < |items| ==> items[k] == ItemFor(s.rows, stage, chosen[k])
    ensures AllAsClaimed(rows, items)
  {
    PathIsALine(stage);
    forall k | 0 <= k < |items|
      ensures Working(items[k]) && AsClaimed(rows, items[k])
    {
      assert Claimable(s.rows[chosen[k]], stage, s.now);
    }
  }

  lemma TurnRows(cfg: Config, derive: Raw -> Fields, s: State, stage: Stage, chosen: seq<Id>, rows: map<Id, Row>,
          items: seq<Item>, fates: seq<Fate>)
    requires MayChoose(cfg, s, stage, chosen) && |items| == |chosen| == |fates|
    requires rows == ClaimedRows(cfg, s.rows, (set id | id in chosen), s.now) && AllAsClaimed(rows, items)
    requires forall k :: 0 <= k < |items| ==> items[k] == ItemFor(s.rows, stage, chosen[k])
    ensures var rows' := RowsSettled(cfg, derive, rows, items, fates, |items|, s.now);
            && rows'.Keys == s.rows.Keys
            && (forall k :: 0 <= k < |chosen| ==>
                  rows'[chosen[k]]
                  == Settled(cfg, derive, Claimed(cfg, s.rows[chosen[k]], s.now), items[k], fates[k], s.now))
            && forall id :: id in s.rows && id !in chosen ==> rows'[id] == s.rows[id]
  {
    forall id | id in s.rows
      ensures var rows' := RowsSettled(cfg, derive, rows, items, fates, |items|, s.now);
              && rows'.Keys == rows.Keys && (id !in chosen ==> rows'[id] == rows[id])
              && forall k :: 0 <= k < |items| && items[k].id == id ==>
                   rows'[id] == Settled(cfg, derive, rows[id], items[k], fates[k], s.now)
    {
      RowsSettledAre(cfg, derive, rows, items, fates, |items|, s.now, id);
      IdsAre(items, |items|, id);
    }
  }

  class Worker {
    const queue: Queue
    var inFlight: set<Id>

    constructor (queue: Queue)
      ensures this.queue == queue && inFlight == {}
    {
      this.queue, inFlight := queue, {};
    }

    /** The handler bound to the stage; a panic is an error. */
    method SafeHandle(derive: Raw -> Fields, it: Item, fate: Fate, ghost s: State, ghost j: JobId)
      returns (result: HandlerResult, ghost u: State)
      requires queue.Shows(s) && InHand(s, j, it) && Working(it)
      modifies queue`rows
      ensures result == Ends(s.rows, it, fate)
      ensures u == Run(queue.cfg, derive, s, Handling(j, it, result)) && queue.Shows(u)
      ensures Allowed(queue.cfg, derive, s, Handling(j, it, result))
    {
      match it.stage {
        case Parsed =>
          result := queue.HandleParsed(derive, it, fate, s, j);
          RunOfTwo(queue.cfg, derive, s, ReadRow(j), ApplyNormalization(j));
        case Normalized =>
          result := queue.HandleNormalized(derive, it, fate, s);
          RunOfOne(queue.cfg, derive, s, MarkMerged(it.id));
        case Deduped =>
          result := queue.HandleDeduped(derive, it, fate, s, j);
          RunOfOne(queue.cfg, derive, s, AttachExtraction(j));
        case _ =>
          result := if fate.fails then Error else Ok;
      }
      u := Run(queue.cfg, derive, s, Handling(j, it, result));
    }

    /** handleOne: whatever the handler returns, the worker's part of it. */
    method HandleOne(derive: Raw -> Fields, it: Item, fate: Fate, ghost s: State, ghost j: JobId)
      returns (ghost t: State)
      requires queue.Shows(s) && InHand(s, j, it) && Working(it)
      modifies queue`rows
      ensures t == Run(queue.cfg, derive, s, ItemEvents(queue.cfg, s.rows, j, it, fate)) && queue.Shows(t)
      ensures Allowed(queue.cfg, derive, s, ItemEvents(queue.cfg, s.rows, j, it, fate))
    {
      var result, u := SafeHandle(derive, it, fate, s, j);
      RunConcat(queue.cfg, derive, s, Handling(j, it, result), Settling(queue.cfg, j, it, result));
      t := Run(queue.cfg, derive, u, Settling(queue.cfg, j, it, result));
      if result == Handled || result == Conflict {
        LeftAlone(queue.cfg, derive, s, j, it, result);
        return;
      }
      NothingHandled(queue.cfg, derive, s, j, it, result);
      if result == Ok {
        var _ := queue.Advance(it);
        return;
      }
      if Degradable(it.stage) && it.attempts >= queue.cfg.maxAttempts {
        var _ := queue.Advance(it);
        return;
      }
      queue.Fail(it);
    }

    /** The goroutine of one item of a batch. */
    method ProcessItem(derive: Raw -> Fields, items: seq<Item>, fates: seq<Fate>, k: nat, ghost s: State,
            ghost t: State, ghost js: seq<JobId>)
      returns (ghost t': State)
      requires |js| == |items| == |fates| && k < |items|
      requires queue.Shows(t) && Reached(queue.cfg, derive, s, t, js, items, fates, k)
      modifies this`inFlight, queue`rows
      ensures queue.Shows(t') && Reached(queue.cfg, derive, s, t', js, items, fates, k + 1)
      ensures inFlight == old(inFlight) - {items[k].id}
    {
      inFlight := inFlight + {items[k].id};
      t' := HandleOne(derive, items[k], fates[k], t, js[k]);
      OneMoreItem(queue.cfg, derive, s, t, js, items, fates, k);
      inFlight := inFlight - {items[k].id};
    }

    /** process: every item is tracked while it is worked on, and the whole batch is waited for. */
    method Process(derive: Raw -> Fields, items: seq<Item>, fates: seq<Fate>, ghost s: State, ghost js: seq<JobId>)
      returns (ghost t: State)
      requires queue.Shows(s) && ToDo(s, js, items, 0) && |fates| == |items|
      modifies this`inFlight, queue`rows
      ensures Reached(queue.cfg, derive, s, t, js, items, fates, |items|)
      ensures queue.Shows(t) && inFlight == old(inFlight) - IdsOf(items, |items|)
    {
      t := s;
      for k := 0 to |items|
        invariant inFlight == old(inFlight) - IdsOf(items, k)
        invariant queue.Shows(t) && Reached(queue.cfg, derive, s, t, js, items, fates, k)
      {
        t := ProcessItem(derive, items, fates, k, s, t, js);
      }
    }

    /**
     One turn of Run: claim, and process what came back. Undisturbed, it settles each of
     the rows it claimed, touches no other, and ends with nothing in flight.
     */
    method Turn(derive: Raw -> Fields, stage: Stage, chosen: seq<Id>, fates: seq<Fate>, ghost s: State,
            ghost batch: map<JobId, Id>, ghost js: seq<JobId>)
      returns (items: seq<Item>, ghost t: State)
      requires queue.Shows(s) && MayChoose(queue.cfg, s, stage, chosen) && Names(s, batch, js, chosen)
      requires |fates| == |chosen| && inFlight == {}
      modifies this`inFlight, queue`rows
      ensures |items| == |chosen| && Enabled(queue.cfg, s, ClaimBatch(stage, batch))
      ensures Reached(queue.cfg, derive, Step(queue.cfg, derive, s, ClaimBatch(stage, batch)), t, js, items, fates,
                |items|)
      ensures queue.Shows(t) && inFlight == {} && queue.rows.Keys == old(queue.rows).Keys
      ensures forall k :: 0 <= k < |chosen| ==>
              Working(items[k]) && queue.rows[chosen[k]] == Settled(queue.cfg, derive,
                Claimed(queue.cfg, old(queue.rows)[chosen[k]], queue.now), items[k], fates[k], queue.now)
      ensures forall id :: id in old(queue.rows) && id !in chosen ==> queue.rows[id] == old(queue.rows)[id]
    {
      ghost var claimed;
      items, claimed := queue.Claim(derive, stage, chosen, s, batch, js);
      ClaimedItems(queue.cfg, s, stage, chosen, claimed.rows, items);
      if |items| == 0 {
        t := claimed;
        return;
      }
      t := Process(derive, items, fates, claimed, js);
      var _ := BatchSettlesItsRows(queue.cfg, derive, claimed, js, items, fates, |items|);
      TurnRows(queue.cfg, derive, s, stage, chosen, claimed.rows, items, fates);
    }

    /** releaseOutstanding runs when Run returns, which is never in the middle of a batch. */
    method ReleaseOutstanding(ids: seq<Id>)
      requires inFlight == set id | id in ids
      modifies queue`rows
      ensures queue.rows == map id | id in old(queue.rows) ::
              if id in inFlight then Released(old(queue.rows)[id]) else old(queue.rows)[id]
    {
      if |ids| == 0 {
        return;
      }
      assert ids[0] in inFlight;
      queue.Release(ids);
    }
  }
}
