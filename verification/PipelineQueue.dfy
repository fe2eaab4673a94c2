/**
 The queue as it runs: the statements as methods over a mutable table, given by
 what they do to a row, and the claim and the stage handlers that use them, which
 are proved to take the steps of `Pipeline`.
 */
module PipelineQueue {
  import opened Lists
  import opened Options
  import opened Stages
  import opened Pipeline

  datatype Item = Item(id: Id, version: nat, attempts: nat, stage: Stage)

  datatype Status = Done | VersionConflict | NoSuccessor

  /** What a stage handler returns; `Handled` means it settled the row itself. */
  datatype HandlerResult = Ok | Handled | Conflict | Error

  /** How the deduper's comparison ends: nothing matches, a match, or a side that is already merged. */
  datatype Comparison = NoMatch | Match | Yield

  /**
   What one item meets besides its row: whether its handler fails before it writes
   (or panics), what the deduper finds, and how extraction goes.
   */
  datatype Fate = Fate(fails: bool, compared: Comparison, worthExtracting: bool, extracted: bool)

  function ItemOf(job: Job): Item {
    Item(job.id, job.version, job.attempts, job.stage)
  }

  predicate InHand(s: State, j: JobId, it: Item) {
    j in s.jobs && ItemOf(s.jobs[j]) == it
  }

  function ClaimedRows(cfg: Config, rows: map<Id, Row>, chosen: set<Id>, now: Time): map<Id, Row> {
    map id | id in rows :: if id in chosen then Claimed(cfg, rows[id], now) else rows[id]
  }

  // ---------------------------------------------------------------- claims

  /** The engine may pick these rows, each once. */
  predicate MayChoose(cfg: Config, s: State, stage: Stage, chosen: seq<Id>) {
    && !Terminal(stage) && |chosen| <= cfg.batchSize && Distinct(chosen)
    && forall k :: 0 <= k < |chosen| ==> chosen[k] in s.rows && Claimable(s.rows[chosen[k]], stage, s.now)
  }

  /** `batch` gives the k-th row chosen to the k-th of the new items `js`. */
  ghost predicate Names(s: State, batch: map<JobId, Id>, js: seq<JobId>, chosen: seq<Id>) {
    && |batch| == |js| == |chosen| && Distinct(js)
    && (forall j :: j in batch <==> j in js)
    && (forall k :: 0 <= k < |js| ==> js[k] !in s.jobs && js[k] in batch && batch[js[k]] == chosen[k])
  }

  /** The items from `k` on are in hand. */
  predicate AllInHand(s: State, js: seq<JobId>, items: seq<Item>, k: nat) {
    |js| == |items| && Distinct(js) && forall m :: k <= m < |js| ==> InHand(s, js[m], items[m])
  }

  lemma ClaimIsEnabled(cfg: Config, s: State, stage: Stage, chosen: seq<Id>, batch: map<JobId, Id>, js: seq<JobId>)
    requires MayChoose(cfg, s, stage, chosen) && Names(s, batch, js, chosen)
    ensures Enabled(cfg, s, ClaimBatch(stage, batch))
  {
    forall j | j in batch
      ensures j !in s.jobs && batch[j] in s.rows && Claimable(s.rows[batch[j]], stage, s.now)
    {
      var k :| 0 <= k < |js| && js[k] == j;
    }
    forall i, j | i in batch && j in batch && i != j
      ensures batch[i] != batch[j]
    {
      var k :| 0 <= k < |js| && js[k] == i;
      var m :| 0 <= m < |js| && js[m] == j;
    }
  }

  lemma ChosenAreValues(s: State, batch: map<JobId, Id>, js: seq<JobId>, chosen: seq<Id>, id: Id)
    requires Names(s, batch, js, chosen)
    ensures id in batch.Values <==> id in chosen
  {
    if id in chosen {
      var k :| 0 <= k < |chosen| && chosen[k] == id;
      assert batch[js[k]] == id;
    }
    if id in batch.Values {
      var j :| j in batch && batch[j] == id;
      var k :| 0 <= k < |js| && js[k] == j;
    }
  }

  /** The rows of a claim are those of the machine's step. */
  lemma ClaimRows(cfg: Config, derive: Raw -> Fields, s: State, stage: Stage, chosen: seq<Id>, batch: map<JobId, Id>,
          js: seq<JobId>)
    requires MayChoose(cfg, s, stage, chosen) && Names(s, batch, js, chosen)
    ensures Enabled(cfg, s, ClaimBatch(stage, batch))
    ensures RowsAfter(cfg, derive, s, ClaimBatch(stage, batch))
         == ClaimedRows(cfg, s.rows, (set id | id in chosen), s.now)
  {
    ClaimIsEnabled(cfg, s, stage, chosen, batch, js);
    forall id | id in s.rows
      ensures RowAfter(cfg, derive, s, ClaimBatch(stage, batch), id)
           == if id in chosen then Claimed(cfg, s.rows[id], s.now) else s.rows[id]
    {
      ChosenAreValues(s, batch, js, chosen, id);
    }
  }

  function ItemFor(rows: map<Id, Row>, stage: Stage, id: Id): Item
    requires id in rows
  {
    Item(id, rows[id].version, rows[id].attempts + 1, stage)
  }

  /** And so are its items. */
  lemma ClaimItems(s: State, stage: Stage, chosen: seq<Id>, batch: map<JobId, Id>, js: seq<JobId>, k: nat)
    requires Names(s, batch, js, chosen) && k < |js| && chosen[k] in s.rows
    ensures js[k] in JobsAfter(s, ClaimBatch(stage, batch))
    ensures ItemOf(JobsAfter(s, ClaimBatch(stage, batch))[js[k]]) == ItemFor(s.rows, stage, chosen[k])
  {
  }

  lemma ClaimIsAStep(cfg: Config, derive: Raw -> Fields, s: State, stage: Stage, chosen: seq<Id>,
          batch: map<JobId, Id>, js: seq<JobId>, items: seq<Item>)
    returns (t: State)
    requires MayChoose(cfg, s, stage, chosen) && Names(s, batch, js, chosen) && |items| == |js|
    requires forall k :: 0 <= k < |js| ==> items[k] == ItemFor(s.rows, stage, chosen[k])
    ensures Enabled(cfg, s, ClaimBatch(stage, batch)) && t == Step(cfg, derive, s, ClaimBatch(stage, batch))
    ensures t.rows == ClaimedRows(cfg, s.rows, (set id | id in chosen), s.now) && t.now == s.now
    ensures AllInHand(t, js, items, 0)
  {
    t := Step(cfg, derive, s, ClaimBatch(stage, batch));
    ClaimRows(cfg, derive, s, stage, chosen, batch, js);
    forall k | 0 <= k < |js|
      ensures InHand(t, js[k], items[k])
    {
      ClaimItems(s, stage, chosen, batch, js, k);
    }
  }

  class Queue {
    const cfg: Config
    var rows: map<Id, Row>
    var now: Time

    constructor (cfg: Config, rows: map<Id, Row>, now: Time)
      ensures this.cfg == cfg && this.rows == rows && this.now == now
    {
      this.cfg, this.rows, this.now := cfg, rows, now;
    }

    /** The machine state this table is part of. */
    ghost predicate Shows(s: State)
      reads this
    {
      s.rows == rows && s.now == now
    }

    // -------------------------------------------------------------- the statements

    /**
     ClaimBatch and the items made of what it returns. `chosen` is whatever the engine
     picked from the claimable rows, skipping locked ones.
     */
    method ClaimBatchOf(stage: Stage, chosen: seq<Id>) returns (items: seq<Item>)
      requires forall k :: 0 <= k < |chosen| ==> chosen[k] in rows && rows[chosen[k]].stage == stage
      modifies this`rows
      ensures rows == ClaimedRows(cfg, old(rows), (set id | id in chosen), now)
      ensures |items| == |chosen|
      ensures forall k :: 0 <= k < |items| ==> items[k] == ItemFor(old(rows), stage, chosen[k])
    {
      rows := ClaimedRows(cfg, rows, (set id | id in chosen), now);
      items := [];
      for k := 0 to |chosen|
        invariant |items| == k
        invariant forall m :: 0 <= m < k ==> items[m] == ItemFor(old(rows), stage, chosen[m])
      {
        var r := rows[chosen[k]];
        items := items + [Item(chosen[k], r.version, r.attempts, r.stage)];
      }
    }

    /** A claim is the machine's step; `js` names the new items. */
    method Claim(ghost derive: Raw -> Fields, stage: Stage, chosen: seq<Id>, ghost s: State,
            ghost batch: map<JobId, Id>, ghost js: seq<JobId>)
      returns (items: seq<Item>, ghost t: State)
      requires Shows(s) && MayChoose(cfg, s, stage, chosen) && Names(s, batch, js, chosen)
      modifies this`rows
      ensures rows == ClaimedRows(cfg, old(rows), (set id | id in chosen), now)
      ensures |items| == |chosen|
      ensures forall k :: 0 <= k < |items| ==> items[k] == ItemFor(old(rows), stage, chosen[k])
      ensures Enabled(cfg, s, ClaimBatch(stage, batch)) && t == Step(cfg, derive, s, ClaimBatch(stage, batch))
      ensures Shows(t) && AllInHand(t, js, items, 0)
    {
      items := ClaimBatchOf(stage, chosen);
      t := ClaimIsAStep(cfg, derive, s, stage, chosen, batch, js, items);
    }

    /** AdvanceState; AttachExtraction writes these columns in the same way. */
    method AdvanceState(id: Id, version: nat, current: Stage, next: Stage) returns (n: nat)
      modifies this`rows
      ensures n == if id in old(rows) && Guard(old(rows)[id], version, current) then 1 else 0
      ensures rows == if n == 1 then old(rows)[id := Advanced(old(rows)[id], next, now)] else old(rows)
    {
      n := 0;
      if id in rows && Guard(rows[id], version, current) {
        rows := rows[id := Advanced(rows[id], next, now)];
        n := 1;
      }
    }

    method ApplyNormalization(id: Id, version: nat, current: Stage, next: Stage, fields: Fields) returns (n: nat)
      modifies this`rows
      ensures n == if id in old(rows) && Guard(old(rows)[id], version, current) then 1 else 0
      ensures rows == if n == 1 then old(rows)[id := Advanced(old(rows)[id], next, now).(fields := fields)]
              else old(rows)
    {
      n := 0;
      if id in rows && Guard(rows[id], version, current) {
        rows := rows[id := Advanced(rows[id], next, now).(fields := fields)];
        n := 1;
      }
    }

    /** MarkMerged, as the transaction that merges the row leaves it. */
    method MarkMerged(id: Id) returns (n: nat)
      modifies this`rows
      ensures n == if id in old(rows) && !old(rows)[id].merged then 1 else 0
      ensures rows == if n == 1 then old(rows)[id := MergedAway(old(rows)[id])] else old(rows)
    {
      n := 0;
      if id in rows && !rows[id].merged {
        rows := rows[id := rows[id].(merged := true, version := rows[id].version + 1)];
        n := 1;
      }
    }

    method Advance(it: Item) returns (status: Status)
      modifies this`rows
      ensures status == if Next(it.stage).None? then NoSuccessor
                        else if it.id in old(rows) && Guard(old(rows)[it.id], it.version, it.stage) then Done
                            else VersionConflict
      ensures rows == if status == Done
              then old(rows)[it.id := Advanced(old(rows)[it.id], Next(it.stage).value, now)] else old(rows)
    {
      if Next(it.stage).None? {
        return NoSuccessor;
      }
      var n := AdvanceState(it.id, it.version, it.stage, Next(it.stage).value);
      status := if n == 0 then VersionConflict else Done;
    }

    method Fail(it: Item)
      modifies this`rows
      ensures rows == if it.id in old(rows)
              then old(rows)[it.id := Failed(cfg, old(rows)[it.id], Backoff(cfg, it.attempts), now)] else old(rows)
    {
      if it.id in rows {
        rows := rows[it.id := Failed(cfg, rows[it.id], Backoff(cfg, it.attempts), now)];
      }
    }

    method Release(ids: seq<Id>)
      modifies this`rows
      ensures rows == map id | id in old(rows) :: if id in ids then Released(old(rows)[id]) else old(rows)[id]
    {
      for k := 0 to |ids|
        invariant rows == map id | id in old(rows) :: if id in ids[..k] then Released(old(rows)[id]) else old(rows)[id]
      {
        assert ids[..k + 1] == ids[..k] + [ids[k]];
        if ids[k] in rows {
          rows := rows[ids[k] := Released(rows[ids[k]])];
        }
      }
      assert ids[..|ids|] == ids;
    }

    /** GetOpportunityForNormalize: the columns the derivation needs, as they are now. */
    method ReadForNormalize(id: Id) returns (raw: Option<Raw>)
      ensures raw == if id in rows then Some(rows[id].raw) else None
    {
      raw := if id in rows then Some(rows[id].raw) else None;
    }

    // -------------------------------------------------------------- the handlers

    /**
     Normalizer.Handle once it has read the row, which may have been at any earlier
     time: derive from what was read, and one guarded write that also advances.
     */
    method Normalize(derive: Raw -> Fields, it: Item, raw: Raw, ghost s: State, ghost j: JobId)
      returns (result: HandlerResult)
      requires it.stage == Parsed
      requires Shows(s) && InHand(s, j, it) && s.jobs[j].read == Some(raw)
      modifies this`rows
      ensures Shows(Step(cfg, derive, s, Event.ApplyNormalization(j)))
      ensures if it.id in old(rows) && Guard(old(rows)[it.id], it.version, it.stage)
              then result == Handled
                   && rows == old(rows)[it.id := Advanced(old(rows)[it.id], Normalized,
                       now).(fields := derive(raw))]
              else result == Conflict && rows == old(rows)
    {
      var affected := ApplyNormalization(it.id, it.version, it.stage, Next(it.stage).value, derive(raw));
      result := if affected == 0 then Conflict else Handled;
    }

    /** Normalizer.Handle from the beginning. */
    method HandleParsed(derive: Raw -> Fields, it: Item, fate: Fate, ghost s: State, ghost j: JobId)
      returns (result: HandlerResult)
      requires it.stage == Parsed && Shows(s) && InHand(s, j, it)
      modifies this`rows
      ensures result == Ends(old(rows), it, fate)
      ensures result == Error <==> fate.fails || it.id !in old(rows)
      ensures result == Handled <==>
                !fate.fails && it.id in old(rows)
                && old(rows)[it.id].version == it.version && old(rows)[it.id].stage == Parsed
      ensures result != Ok
      ensures if result == Error then Shows(s)
              else Shows(Step(cfg, derive, Step(cfg, derive, s, ReadRow(j)), Event.ApplyNormalization(j)))
    {
      if fate.fails {
        return Error;
      }
      var raw := ReadForNormalize(it.id);
      if raw.None? {
        return Error;
      }
      result := Normalize(derive, it, raw.value, Step(cfg, derive, s, ReadRow(j)), j);
    }

    /** Deduper.Handle, seen from the queue: a match merges the row away in a transaction that rechecks it. */
    method HandleNormalized(ghost derive: Raw -> Fields, it: Item, fate: Fate, ghost s: State)
      returns (result: HandlerResult)
      requires it.stage == Normalized && Shows(s)
      modifies this`rows
      ensures result == Ends(old(rows), it, fate)
      ensures result == Error <==> fate.fails || it.id !in old(rows)
      ensures result == Ok <==> !fate.fails && it.id in old(rows) && fate.compared == NoMatch
      ensures result == Handled <==>
                !fate.fails && it.id in old(rows) && fate.compared == Match && !old(rows)[it.id].merged
      ensures Shows(if result == Handled then Step(cfg, derive, s, Event.MarkMerged(it.id)) else s)
    {
      if fate.fails || it.id !in rows {
        return Error;
      }
      match fate.compared
      case NoMatch => return Ok;
      case Yield => return Conflict;
      case Match =>
        var n := MarkMerged(it.id);
        result := if n == 0 then Conflict else Handled;
    }

    /**
     Enricher.Handle: with nothing worth extracting, or once extraction and the skill
     rows have succeeded, one guarded statement that advances.
     */
    method HandleDeduped(ghost derive: Raw -> Fields, it: Item, fate: Fate, ghost s: State, ghost j: JobId)
      returns (result: HandlerResult)
      requires it.stage == Deduped && Shows(s) && InHand(s, j, it)
      modifies this`rows
      ensures result == Ends(old(rows), it, fate)
      ensures result == Error <==>
                fate.fails || it.id !in old(rows) || (fate.worthExtracting && !fate.extracted)
      ensures result == Handled <==>
                && !fate.fails && it.id in old(rows) && (fate.worthExtracting ==> fate.extracted)
                && old(rows)[it.id].version == it.version && old(rows)[it.id].stage == Deduped
      ensures result != Ok
      ensures Shows(if result == Error then s else Step(cfg, derive, s, AttachExtraction(j)))
    {
      if fate.fails || it.id !in rows {
        return Error;
      }
      if fate.worthExtracting && !fate.extracted {
        return Error;
      }
      var n := AdvanceState(it.id, it.version, it.stage, Next(it.stage).value);
      result := if n == 0 then Conflict else Handled;
    }
  }

  /** What the handler bound to the item's stage returns; the stages without work of their own pass the item through. */
  function Ends(rows: map<Id, Row>, it: Item, fate: Fate): HandlerResult {
    if fate.fails then Error else
    if it.stage !in {Parsed, Normalized, Deduped} then Ok else
    if it.id !in rows then Error else
    if it.stage == Normalized then
      match fate.compared
      case NoMatch => Ok
      case Yield => Conflict
      case Match => if rows[it.id].merged then Conflict else Handled
    else if it.stage == Deduped && fate.worthExtracting && !fate.extracted then Error
    else if Guard(rows[it.id], it.version, it.stage) then Handled else Conflict
  }
}
