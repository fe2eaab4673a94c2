/**
 The sweep that re-examines one block, oldest row first, and merges later rows
 into earlier ones.
 */
module BlockSweep {
  import opened Options
  import opened MergeForest
  import opened MergeProtocol
  import opened MergeStore
  import D = Decide

  /** The verdict on a pair; the sweep passes `Decide`, and nothing here depends on which verdicts it gives. */
  type Decider = (D.Candidate, D.Candidate) -> D.Verdict

  function Judge(decide: Decider, members: seq<Member>, i: nat, j: nat): D.Verdict
    requires i < |members| && j < |members|
  {
    decide(members[i].candidate, members[j].candidate)
  }

  predicate AutoMatch(decide: Decider, members: seq<Member>, i: nat, j: nat)
    requires i < |members| && j < |members|
  {
    Judge(decide, members, i, j).AutoApply()
  }

  /** No two rows outside `gone`, the earlier among the first `n`, are an automatic match. */
  ghost predicate NoMatchLeft(decide: Decider, members: seq<Member>, gone: set<Id>, n: nat) {
    forall a, b | 0 <= a < b < |members| && a < n && members[a].id !in gone && members[b].id !in gone ::
      !AutoMatch(decide, members, a, b)
  }

  /** Nor does row `i` match any of the rows after it up to `n`. */
  ghost predicate NoMatchFor(decide: Decider, members: seq<Member>, gone: set<Id>, i: nat, n: nat) {
    forall b | i < b < n <= |members| && members[b].id !in gone :: !AutoMatch(decide, members, i, b)
  }

  /** Pairs judged the same but not confidently enough wait for a human. */
  ghost predicate Queued(decide: Decider, members: seq<Member>, gone: set<Id>, queue: set<(Id, Id)>, i: nat, n: nat) {
    forall b | i < b < n <= |members| && members[b].id !in gone && Judge(decide, members, i, b).same
        && !AutoMatch(decide, members, i, b) ::
      (members[b].id, members[i].id) in queue
  }

  /**
   `id` went straight into an older row, one of the first `n`, that outlives the sweep and that
   `Decide` matched it with.
   */
  ghost predicate MergedIntoSurvivor(decide: Decider, members: seq<Member>, opps: map<Id, Opp>, gone: set<Id>, n: nat,
          id: Id) {
    exists a, b | 0 <= a < b < |members| && AutoMatch(decide, members, a, b) ::
      a < n && members[b].id == id && members[a].id !in gone && id in opps && opps[id].mergedInto == Some(members[a].id)
  }

  /** A merge of a listed row into an older listed row that `Decide` matched it with. */
  ghost predicate Justified(decide: Decider, members: seq<Member>, r: MergeRecord) {
    exists a, b | 0 <= a < b < |members| && AutoMatch(decide, members, a, b) ::
      r.from == members[b].id && r.into == members[a].id && Earlier(members[a], members[b])
  }

  /** The list is up to date and names every row once. */
  ghost predicate Clean(s: State, members: seq<Member>) {
    DistinctIds(members) && forall m | m in members :: Unmerged(s, m.id)
  }

  ghost predicate GoneAreMerged(s: State, members: seq<Member>, gone: set<Id>) {
    forall m | m in members :: m.id in gone <==> !Unmerged(s, m.id)
  }

  /** What a finished sweep of a clean list guarantees. */
  ghost predicate Fixpoint(decide: Decider, s: State, members: seq<Member>, gone: set<Id>, queue: set<(Id, Id)>) {
    && GoneAreMerged(s, members, gone)
    && NoMatchLeft(decide, members, gone, |members|)
    && (forall id | id in gone :: MergedIntoSurvivor(decide, members, s.opps, gone, |members|, id))
    && forall a | 0 <= a < |members| && members[a].id !in gone :: Queued(decide, members, gone, queue, a, |members|)
  }

  /** Everything the sweep has established when it is about to compare row `i` with row `j`. */
  ghost predicate Progress(decide: Decider, s: State, members: seq<Member>, gone: set<Id>, queue: set<(Id, Id)>,
          i: nat, j: nat) {
    && GoneAreMerged(s, members, gone)
    && NoMatchLeft(decide, members, gone, i)
    && (forall id | id in gone :: MergedIntoSurvivor(decide, members, s.opps, gone, i + 1, id))
    && (forall a | 0 <= a < i && a < |members| && members[a].id !in gone ::
        Queued(decide, members, gone, queue, a, |members|))
    && (i < |members| && members[i].id !in gone ==>
        NoMatchFor(decide, members, gone, i, j) && Queued(decide, members, gone, queue, i, j))
  }

  /** Comparing a pair without merging it. */
  lemma SkipKeepsProgress(decide: Decider, s: State, members: seq<Member>, gone: set<Id>, queue: set<(Id, Id)>,
          i: nat, j: nat, queue': set<(Id, Id)>)
    requires DistinctIds(members) && i < j < |members| && Progress(decide, s, members, gone, queue, i, j)
             && queue <= queue'
    requires members[j].id in gone || !AutoMatch(decide, members, i, j)
    requires members[j].id in gone || !Judge(decide, members, i, j).same || (members[j].id, members[i].id) in queue'
    ensures Progress(decide, s, members, gone, queue', i, j + 1)
  {
    forall a | 0 <= a < i && members[a].id !in gone
      ensures Queued(decide, members, gone, queue', a, |members|)
    {
      assert Queued(decide, members, gone, queue, a, |members|);
    }
    if members[i].id !in gone {
      OneMoreCompared(decide, members, gone, queue, i, j, queue');
    }
  }

  lemma OneMoreCompared(decide: Decider, members: seq<Member>, gone: set<Id>, queue: set<(Id, Id)>, i: nat, j: nat,
          queue': set<(Id, Id)>)
    requires i < j < |members| && NoMatchFor(decide, members, gone, i, j)
             && Queued(decide, members, gone, queue, i, j) && queue <= queue'
    requires members[j].id in gone || !AutoMatch(decide, members, i, j)
    requires members[j].id in gone || !Judge(decide, members, i, j).same || (members[j].id, members[i].id) in queue'
    ensures NoMatchFor(decide, members, gone, i, j + 1) && Queued(decide, members, gone, queue', i, j + 1)
  {
  }

  /** Dropping a row from consideration makes every claim about the rest easier. */
  lemma GoneGrows(decide: Decider, members: seq<Member>, gone: set<Id>, gone': set<Id>, queue: set<(Id, Id)>, i: nat,
          j: nat)
    requires gone <= gone' && i < j < |members| && members[j].id in gone'
    requires NoMatchLeft(decide, members, gone, i)
    requires forall a | 0 <= a < i && members[a].id !in gone :: Queued(decide, members, gone, queue, a, |members|)
    requires members[i].id !in gone ==>
             NoMatchFor(decide, members, gone, i, j) && Queued(decide, members, gone, queue, i, j)
    ensures NoMatchLeft(decide, members, gone', i)
    ensures forall a | 0 <= a < i && members[a].id !in gone' :: Queued(decide, members, gone', queue, a, |members|)
    ensures members[i].id !in gone' ==>
            NoMatchFor(decide, members, gone', i, j + 1) && Queued(decide, members, gone', queue, i, j + 1)
  {
    forall a | 0 <= a < i && members[a].id !in gone'
      ensures Queued(decide, members, gone', queue, a, |members|)
    {
      assert Queued(decide, members, gone, queue, a, |members|);
    }
  }

  lemma SurvivorsStay(decide: Decider, s: State, s': State, members: seq<Member>, gone: set<Id>, i: nat, j: nat, id: Id)
    requires DistinctIds(members) && i < j < |members| && id in gone + {members[j].id}
    requires members[i].id !in gone && members[j].id !in gone && AutoMatch(decide, members, i, j)
    requires id in gone ==> MergedIntoSurvivor(decide, members, s.opps, gone, i + 1, id)
    requires MergedOne(s, s', members[j].id, members[i].id)
    ensures MergedIntoSurvivor(decide, members, s'.opps, gone + {members[j].id}, i + 1, id)
  {
    var gone' := gone + {members[j].id};
    if id != members[j].id {
      var a, b :| 0 <= a < b < |members| && AutoMatch(decide, members, a, b) && a < i + 1 && members[b].id == id
          && members[a].id !in gone
                  && id in s.opps && s.opps[id].mergedInto == Some(members[a].id);
      assert members[a].id != members[j].id;
      assert AutoMatch(decide, members, a, b) && members[a].id !in gone';
    } else {
      assert AutoMatch(decide, members, i, j) && members[i].id !in gone';
    }
  }

  /** Merging row `j` into row `i`, which stays. */
  lemma MergeKeepsProgress(decide: Decider, s: State, s': State, members: seq<Member>, gone: set<Id>,
          queue: set<(Id, Id)>, i: nat, j: nat)
    requires DistinctIds(members) && i < j < |members| && Progress(decide, s, members, gone, queue, i, j)
    requires members[i].id !in gone && members[j].id !in gone && AutoMatch(decide, members, i, j)
    requires MergedOne(s, s', members[j].id, members[i].id)
    ensures Progress(decide, s', members, gone + {members[j].id}, queue, i, j + 1)
  {
    var gone' := gone + {members[j].id};
    GoneGrows(decide, members, gone, gone', queue, i, j);
    forall id | id in gone'
      ensures MergedIntoSurvivor(decide, members, s'.opps, gone', i + 1, id)
    {
      SurvivorsStay(decide, s, s', members, gone, i, j, id);
    }
  }

  lemma SurvivorBound(decide: Decider, members: seq<Member>, opps: map<Id, Opp>, gone: set<Id>, n: nat, m: nat, id: Id)
    requires MergedIntoSurvivor(decide, members, opps, gone, n, id) && (n <= m || |members| <= m)
    ensures MergedIntoSurvivor(decide, members, opps, gone, m, id)
  {
    var a, b :| 0 <= a < b < |members| && AutoMatch(decide, members, a, b) && a < n && members[b].id == id
                && members[a].id !in gone && id in opps && opps[id].mergedInto == Some(members[a].id);
    assert AutoMatch(decide, members, a, b) && a < m;
  }

  lemma OneMoreRowUnmatched(decide: Decider, members: seq<Member>, gone: set<Id>, i: nat)
    requires i < |members| && NoMatchLeft(decide, members, gone, i)
    requires members[i].id in gone || NoMatchFor(decide, members, gone, i, |members|)
    ensures NoMatchLeft(decide, members, gone, i + 1)
  {
  }

  /** A row is done, or was gone before its turn. */
  lemma NextRow(decide: Decider, s: State, members: seq<Member>, gone: set<Id>, queue: set<(Id, Id)>, i: nat)
    requires i < |members|
    requires || Progress(decide, s, members, gone, queue, i, |members|)
             || (members[i].id in gone && Progress(decide, s, members, gone, queue, i, i + 1))
    ensures Progress(decide, s, members, gone, queue, i + 1, i + 2)
  {
    OneMoreRowUnmatched(decide, members, gone, i);
    forall id | id in gone
      ensures MergedIntoSurvivor(decide, members, s.opps, gone, i + 2, id)
    {
      SurvivorBound(decide, members, s.opps, gone, i + 1, i + 2, id);
    }
  }

  lemma ProgressReachesFixpoint(decide: Decider, s: State, members: seq<Member>, gone: set<Id>, queue: set<(Id, Id)>)
    requires Progress(decide, s, members, gone, queue, |members|, |members| + 1)
    ensures Fixpoint(decide, s, members, gone, queue)
  {
    forall id | id in gone
      ensures MergedIntoSurvivor(decide, members, s.opps, gone, |members|, id)
    {
      SurvivorBound(decide, members, s.opps, gone, |members| + 1, |members|, id);
    }
  }

  /** The worker holds the listed rows, which are in its block, and nobody else is merging there. */
  ghost predicate SweepReady(hash: Key -> int, s: State, w: WorkerId, members: seq<Member>) {
    && Inv(hash, s) && LockFree(hash, s, w) && Listed(members) && s.workers[w].txn.None?
    && forall m | m in members :: m.id in s.workers[w].ids && InBlock(s, m.id, s.workers[w].key)
  }

  ghost predicate Extends(decide: Decider, members: seq<Member>, before: seq<MergeRecord>, after: seq<MergeRecord>) {
    before <= after && forall k :: |before| <= k < |after| ==> Justified(decide, members, after[k])
  }

  lemma ExtendsTwice(decide: Decider, members: seq<Member>, l0: seq<MergeRecord>, l1: seq<MergeRecord>,
          l2: seq<MergeRecord>)
    requires Extends(decide, members, l0, l1) && Extends(decide, members, l1, l2)
    ensures Extends(decide, members, l0, l2)
  {
  }

  // ---------------------------------------------------------------- any list, clean or not

  /** An entry of `id`, after row `k` and before position `n`, is an automatic match of row `k`. */
  ghost predicate HasMatch(decide: Decider, members: seq<Member>, k: nat, id: Id, n: nat)
    requires k < |members| && n <= |members|
  {
    exists j: nat :: k < j < n && members[j].id == id && AutoMatch(decide, members, k, j)
  }

  /**
   Row `i` is still there when its turn comes: no surviving earlier row matches an
   entry of it. A row that is not merged is stopped at, not dropped, by itself.
   */
  ghost predicate Survives(decide: Decider, s: State, members: seq<Member>, i: nat)
    requires i < |members|
    decreases i
  {
    forall k: nat | k < i && Survives(decide, s, members, k) ::
      (members[k].id == members[i].id && Unmerged(s, members[k].id))
          || !HasMatch(decide, members, k, members[i].id, |members|)
  }

  /** Two entries of the list are one row, and the row is an automatic match of itself. */
  predicate Repeated(decide: Decider, members: seq<Member>, i: nat, j: nat) {
    i < j < |members| && members[i].id == members[j].id && AutoMatch(decide, members, i, j)
  }

  /** The pair at which a sweep of this list has to give up. */
  ghost predicate Stops(decide: Decider, s: State, members: seq<Member>, i: nat, j: nat) {
    Repeated(decide, members, i, j) && Unmerged(s, members[i].id) && Survives(decide, s, members, i)
  }

  ghost predicate MustStop(decide: Decider, s: State, members: seq<Member>) {
    exists i: nat, j: nat :: Stops(decide, s, members, i, j)
  }

  /** A surviving row among the first `n` matches an entry of `id`. */
  ghost predicate Absorbed(decide: Decider, s: State, members: seq<Member>, id: Id, n: nat)
    requires n <= |members|
  {
    exists k: nat :: k < n && Survives(decide, s, members, k) && HasMatch(decide, members, k, id, |members|)
  }

  /** The row it would have gone into had been merged before the sweep began. */
  ghost predicate Conflicted(decide: Decider, s: State, members: seq<Member>, id: Id) {
    exists k: nat :: k < |members| && !Unmerged(s, members[k].id) && HasMatch(decide, members, k, id, |members|)
  }

  ghost predicate MergedOrConflicted(decide: Decider, s: State, now: State, members: seq<Member>, gone: set<Id>) {
    forall id | id in gone :: !Unmerged(now, id) || Conflicted(decide, s, members, id)
  }

  /** Merging goes one way, and only dropped rows are merged. */
  ghost predicate OnlyGoneMerged(s: State, now: State, members: seq<Member>, gone: set<Id>) {
    forall m | m in members ::
      (Unmerged(now, m.id) ==> Unmerged(s, m.id)) && (Unmerged(s, m.id) && m.id !in gone ==> Unmerged(now, m.id))
  }

  ghost predicate NoStopBefore(decide: Decider, s: State, members: seq<Member>, i: nat, n: nat) {
    forall k: nat, j: nat | Stops(decide, s, members, k, j) :: k > i || (k == i && j >= n)
  }

  /** What is dropped when row `i` has been compared with the entries before `n`. */
  ghost predicate GoneSoFar(decide: Decider, s: State, members: seq<Member>, gone: set<Id>, i: nat, n: nat)
    requires i <= |members| && n <= |members|
  {
    forall id :: id in gone <==>
      || Absorbed(decide, s, members, id, i)
      || (i < |members| && Survives(decide, s, members, i) && HasMatch(decide, members, i, id, n))
  }

  /** How far the sweep of a list read when the tables were `s` has got. */
  ghost predicate Tracks(decide: Decider, s: State, now: State, members: seq<Member>, gone: set<Id>, i: nat, n: nat) {
    && i <= |members| && n <= |members|
    && GoneSoFar(decide, s, members, gone, i, n)
    && NoStopBefore(decide, s, members, i, n)
    && OnlyGoneMerged(s, now, members, gone)
    && MergedOrConflicted(decide, s, now, members, gone)
  }

  /** A surviving row that was not merged has not been dropped. */
  lemma SurvivorsAreHere(decide: Decider, s: State, members: seq<Member>, gone: set<Id>, i: nat, n: nat)
    requires i < |members| && n <= |members| && Survives(decide, s, members, i)
    requires GoneSoFar(decide, s, members, gone, i, n) && NoStopBefore(decide, s, members, i, n)
    ensures members[i].id in gone ==> !Unmerged(s, members[i].id)
    ensures n <= i + 1 ==> members[i].id !in gone
  {
    var id := members[i].id;
    if Absorbed(decide, s, members, id, i) {
      var k: nat :| k < i && Survives(decide, s, members, k) && HasMatch(decide, members, k, id, |members|);
      var j: nat :| k < j < |members| && members[j].id == id && AutoMatch(decide, members, k, j);
      assert members[k].id == id && Unmerged(s, id);
      assert Stops(decide, s, members, k, j);
      assert false;
    }
    if HasMatch(decide, members, i, id, n) && Unmerged(s, id) {
      var j: nat :| i < j < n && members[j].id == id && AutoMatch(decide, members, i, j);
      assert Stops(decide, s, members, i, j);
      assert false;
    }
  }

  /** When its turn comes a row has been dropped if and only if it does not survive. */
  lemma TurnOfRow(decide: Decider, s: State, now: State, members: seq<Member>, gone: set<Id>, i: nat)
    requires i < |members| && Tracks(decide, s, now, members, gone, i, i + 1)
    ensures members[i].id !in gone <==> Survives(decide, s, members, i)
  {
    if Survives(decide, s, members, i) {
      SurvivorsAreHere(decide, s, members, gone, i, i + 1);
    } else {
      assert Absorbed(decide, s, members, members[i].id, i);
    }
  }

  lemma HasMatchUpTo(decide: Decider, members: seq<Member>, k: nat, id: Id, n: nat)
    requires k < n < |members|
    ensures HasMatch(decide, members, k, id, n + 1) <==>
              HasMatch(decide, members, k, id, n) || (members[n].id == id && AutoMatch(decide, members, k, n))
  {
  }

  // ---------------------------------------------------------------- one comparison

  /** The tables, the dropped rows and the review queue between two comparisons. */
  datatype Point = Point(s: State, gone: set<Id>, queue: set<(Id, Id)>)

  /** What comparing row `i` with entry `j` does. */
  ghost predicate PairStep(decide: Decider, members: seq<Member>, p: Point, p': Point, failed: bool, i: nat, j: nat)
    requires i < j < |members|
  {
    var from, into := members[j].id, members[i].id;
    if from in p.gone || !AutoMatch(decide, members, i, j) then
      var doubtful := from !in p.gone && Judge(decide, members, i, j).same && from != into;
      !failed && p' == p.(queue := p.queue + if doubtful then {(from, into)} else {})
    else
      match MergeOutcome(p.s, from, into)
      case Merged => !failed && p'.gone == p.gone + {from} && p'.queue == p.queue && MergedOne(p.s, p'.s, from, into)
      case VersionConflict => !failed && p' == p.(gone := p.gone + {from})
      case ConstraintViolation => failed && p' == p
  }

  lemma PairKeepsGone(decide: Decider, s: State, p: Point, p': Point, members: seq<Member>, i: nat, j: nat)
    requires i < j < |members| && Tracks(decide, s, p.s, members, p.gone, i, j) && Survives(decide, s, members, i)
    requires PairStep(decide, members, p, p', false, i, j)
    ensures GoneSoFar(decide, s, members, p'.gone, i, j + 1) && OnlyGoneMerged(s, p'.s, members, p'.gone)
  {
    forall id
      ensures HasMatch(decide, members, i, id, j + 1) <==>
                HasMatch(decide, members, i, id, j) || (members[j].id == id && AutoMatch(decide, members, i, j))
    {
      HasMatchUpTo(decide, members, i, id, j);
    }
  }

  lemma PairKeepsReasons(decide: Decider, s: State, p: Point, p': Point, members: seq<Member>, i: nat, j: nat)
    requires i < j < |members| && Tracks(decide, s, p.s, members, p.gone, i, j) && Survives(decide, s, members, i)
    requires PairStep(decide, members, p, p', false, i, j)
    ensures MergedOrConflicted(decide, s, p'.s, members, p'.gone)
  {
    SurvivorsAreHere(decide, s, members, p.gone, i, j);
    forall id | id in p'.gone
      ensures !Unmerged(p'.s, id) || Conflicted(decide, s, members, id)
    {
      if id in p.gone {
        assert !Unmerged(p.s, id) || Conflicted(decide, s, members, id);
      } else if Unmerged(p'.s, id) {
        assert members[i] in members && !Unmerged(s, members[i].id);
        assert HasMatch(decide, members, i, id, |members|);
      }
    }
  }

  /** The pair is a stop exactly when the comparison fails. */
  lemma PairStopsIff(decide: Decider, s: State, p: Point, p': Point, members: seq<Member>, failed: bool, i: nat, j: nat)
    requires i < j < |members| && Tracks(decide, s, p.s, members, p.gone, i, j) && Survives(decide, s, members, i)
    requires PairStep(decide, members, p, p', failed, i, j)
    ensures failed <==> Stops(decide, s, members, i, j)
  {
    SurvivorsAreHere(decide, s, members, p.gone, i, j);
    assert members[i] in members && members[j] in members;
  }

  lemma NextPair(decide: Decider, s: State, p: Point, p': Point, members: seq<Member>, i: nat, j: nat)
    requires i < j < |members| && Tracks(decide, s, p.s, members, p.gone, i, j) && Survives(decide, s, members, i)
    requires PairStep(decide, members, p, p', false, i, j)
    ensures Tracks(decide, s, p'.s, members, p'.gone, i, j + 1)
  {
    PairStopsIff(decide, s, p, p', members, false, i, j);
    PairKeepsGone(decide, s, p, p', members, i, j);
    PairKeepsReasons(decide, s, p, p', members, i, j);
  }

  /** A list of distinct rows has been swept up to the pair (i, j), and row `i` is still there. */
  ghost predicate Reached(decide: Decider, p: Point, members: seq<Member>, i: nat, j: nat)
    requires i < |members|
  {
    DistinctIds(members) && members[i].id !in p.gone && Progress(decide, p.s, members, p.gone, p.queue, i, j)
  }

  lemma PairKeepsReached(decide: Decider, p: Point, p': Point, members: seq<Member>, i: nat, j: nat)
    requires i < j < |members| && Reached(decide, p, members, i, j) && PairStep(decide, members, p, p', false, i, j)
    ensures Reached(decide, p', members, i, j + 1)
  {
    if members[j].id in p.gone || !AutoMatch(decide, members, i, j) {
      SkipKeepsProgress(decide, p.s, members, p.gone, p.queue, i, j, p'.queue);
    } else {
      assert members[i] in members && members[j] in members;
      MergeKeepsProgress(decide, p.s, p'.s, members, p.gone, p.queue, i, j);
    }
  }

  lemma PairExtends(decide: Decider, p: Point, p': Point, members: seq<Member>, i: nat, j: nat)
    requires i < j < |members| && Listed(members) && PairStep(decide, members, p, p', false, i, j)
    ensures Extends(decide, members, p.s.ledger, p'.s.ledger)
  {
    if p'.s.ledger != p.s.ledger {
      assert Justified(decide, members, p'.s.ledger[|p.s.ledger|]);
    }
  }

  // ---------------------------------------------------------------- one row

  /** The points passed while row `i` is compared with the entries before `n`. */
  ghost predicate IsRow(decide: Decider, members: seq<Member>, trace: seq<Point>, i: nat, n: nat) {
    && i < n <= |members| && |trace| == n - i
    && forall m | 0 <= m < |trace| - 1 :: PairStep(decide, members, trace[m], trace[m + 1], false, i, i + 1 + m)
  }

  lemma RowGrows(decide: Decider, members: seq<Member>, trace: seq<Point>, p: Point, i: nat, n: nat)
    requires IsRow(decide, members, trace, i, n) && n < |members|
    requires PairStep(decide, members, trace[|trace| - 1], p, false, i, n)
    ensures IsRow(decide, members, trace + [p], i, n + 1)
  {
  }

  /** What every comparison of the row keeps, the row keeps. */
  lemma {:induction false} RowKeeps(decide: Decider, members: seq<Member>, trace: seq<Point>, i: nat, n: nat,
          inv: (Point, nat) -> bool)
    requires IsRow(decide, members, trace, i, n) && inv(trace[0], i + 1)
    requires forall p, p', j: nat | i < j < |members| && inv(p, j) && PairStep(decide, members, p, p', false, i, j) ::
             inv(p', j + 1)
    ensures inv(trace[|trace| - 1], n)
    decreases n
  {
    if n > i + 1 {
      var front := trace[..|trace| - 1];
      assert forall m | 0 <= m < |front| - 1 :: PairStep(decide, members, trace[m], trace[m + 1], false, i, i + 1 + m);
      RowKeeps(decide, members, front, i, n - 1, inv);
      assert PairStep(decide, members, trace[|trace| - 2], trace[|trace| - 1], false, i, n - 1);
    }
  }

  lemma RowTracks(decide: Decider, s: State, members: seq<Member>, trace: seq<Point>, i: nat, n: nat)
    requires IsRow(decide, members, trace, i, n) && Survives(decide, s, members, i)
    requires Tracks(decide, s, trace[0].s, members, trace[0].gone, i, i + 1)
    ensures Tracks(decide, s, trace[|trace| - 1].s, members, trace[|trace| - 1].gone, i, n)
  {
    var inv := (p: Point, j: nat) => Tracks(decide, s, p.s, members, p.gone, i, j);
    forall p, p', j: nat | i < j < |members| && inv(p, j) && PairStep(decide, members, p, p', false, i, j)
      ensures inv(p', j + 1)
    {
      NextPair(decide, s, p, p', members, i, j);
    }
    RowKeeps(decide, members, trace, i, n, inv);
  }

  lemma RowReaches(decide: Decider, members: seq<Member>, trace: seq<Point>, i: nat, n: nat)
    requires IsRow(decide, members, trace, i, n) && Reached(decide, trace[0], members, i, i + 1)
    ensures Reached(decide, trace[|trace| - 1], members, i, n)
  {
    var inv := (p: Point, j: nat) => Reached(decide, p, members, i, j);
    forall p, p', j: nat | i < j < |members| && inv(p, j) && PairStep(decide, members, p, p', false, i, j)
      ensures inv(p', j + 1)
    {
      PairKeepsReached(decide, p, p', members, i, j);
    }
    RowKeeps(decide, members, trace, i, n, inv);
  }

  lemma RowExtends(decide: Decider, members: seq<Member>, trace: seq<Point>, i: nat, n: nat)
    requires IsRow(decide, members, trace, i, n) && Listed(members)
    ensures Extends(decide, members, trace[0].s.ledger, trace[|trace| - 1].s.ledger)
  {
    var inv := (p: Point, j: nat) => Extends(decide, members, trace[0].s.ledger, p.s.ledger);
    forall p, p', j: nat | i < j < |members| && inv(p, j) && PairStep(decide, members, p, p', false, i, j)
      ensures inv(p', j + 1)
    {
      PairExtends(decide, p, p', members, i, j);
      ExtendsTwice(decide, members, trace[0].s.ledger, p.s.ledger, p'.s.ledger);
    }
    RowKeeps(decide, members, trace, i, n, inv);
  }

  // ---------------------------------------------------------------- the whole list

  /** What the turn of row `i` leads to. */
  ghost predicate Turn(decide: Decider, members: seq<Member>, p: Point, p': Point, i: nat)
    requires i < |members|
  {
    if members[i].id in p.gone then p' == p
    else exists trace :: IsRow(decide, members, trace, i, |members|) && trace[0] == p && trace[|trace| - 1] == p'
  }

  /** The points before each of the first `|turns| - 1` rows, and after the last of them. */
  ghost predicate AreTurns(decide: Decider, members: seq<Member>, turns: seq<Point>) {
    0 < |turns| <= |members| + 1 && forall i | 0 <= i < |turns| - 1 :: Turn(decide, members, turns[i], turns[i + 1], i)
  }

  /** Row `i` has been found matching itself. */
  ghost predicate GivesUp(decide: Decider, members: seq<Member>, p: Point, p': Point, i: nat)
    requires i < |members|
  {
    && members[i].id !in p.gone
    && exists trace, j: nat :: IsRow(decide, members, trace, i, j) && trace[0] == p && trace[|trace| - 1] == p'
         && j < |members| && PairStep(decide, members, p', p', true, i, j)
  }

  lemma RowIsATurn(decide: Decider, members: seq<Member>, trace: seq<Point>, i: nat)
    requires IsRow(decide, members, trace, i, |members|) && members[i].id !in trace[0].gone
    ensures Turn(decide, members, trace[0], trace[|trace| - 1], i)
  {
  }

  lemma StopIsGivingUp(decide: Decider, members: seq<Member>, trace: seq<Point>, p: Point, i: nat, j: nat)
    requires IsRow(decide, members, trace, i, j) && members[i].id !in trace[0].gone && j < |members|
    requires PairStep(decide, members, trace[|trace| - 1], p, true, i, j)
    ensures GivesUp(decide, members, trace[0], p, i)
  {
  }

  function Upto(i: nat, n: nat): nat {
    if i < n then i else n
  }

  /** The row has been compared with everything after it, or was gone before its turn. */
  lemma NextTurn(decide: Decider, s: State, now: State, members: seq<Member>, gone: set<Id>, i: nat)
    requires i < |members|
    requires if Survives(decide, s, members, i) then Tracks(decide, s, now, members, gone, i, |members|)
             else Tracks(decide, s, now, members, gone, i, i + 1)
    ensures Tracks(decide, s, now, members, gone, i + 1, Upto(i + 2, |members|))
  {
    forall id
      ensures id in gone <==> Absorbed(decide, s, members, id, i + 1)
    {
      if Absorbed(decide, s, members, id, i + 1) {
        var k: nat :| k < i + 1 && Survives(decide, s, members, k) && HasMatch(decide, members, k, id, |members|);
        assert k < i ==> Absorbed(decide, s, members, id, i);
      }
      if Absorbed(decide, s, members, id, i) {
        var k: nat :| k < i && Survives(decide, s, members, k) && HasMatch(decide, members, k, id, |members|);
        assert k < i + 1;
      }
    }
  }

  lemma TurnTracks(decide: Decider, s: State, members: seq<Member>, p: Point, p': Point, i: nat)
    requires i < |members| && Turn(decide, members, p, p', i) && Tracks(decide, s, p.s, members, p.gone, i, i + 1)
    ensures Tracks(decide, s, p'.s, members, p'.gone, i + 1, Upto(i + 2, |members|))
  {
    TurnOfRow(decide, s, p.s, members, p.gone, i);
    if members[i].id !in p.gone {
      var trace :| IsRow(decide, members, trace, i, |members|) && trace[0] == p && trace[|trace| - 1] == p';
      RowTracks(decide, s, members, trace, i, |members|);
    }
    NextTurn(decide, s, p'.s, members, p'.gone, i);
  }

  lemma TurnProgresses(decide: Decider, members: seq<Member>, p: Point, p': Point, i: nat)
    requires i < |members| && Turn(decide, members, p, p', i) && DistinctIds(members)
    requires Progress(decide, p.s, members, p.gone, p.queue, i, i + 1)
    ensures Progress(decide, p'.s, members, p'.gone, p'.queue, i + 1, i + 2)
  {
    if members[i].id !in p.gone {
      var trace :| IsRow(decide, members, trace, i, |members|) && trace[0] == p && trace[|trace| - 1] == p';
      RowReaches(decide, members, trace, i, |members|);
    }
    NextRow(decide, p'.s, members, p'.gone, p'.queue, i);
  }

  lemma TurnExtends(decide: Decider, members: seq<Member>, p: Point, p': Point, i: nat)
    requires i < |members| && Turn(decide, members, p, p', i) && Listed(members)
    ensures Extends(decide, members, p.s.ledger, p'.s.ledger)
  {
    if members[i].id !in p.gone {
      var trace :| IsRow(decide, members, trace, i, |members|) && trace[0] == p && trace[|trace| - 1] == p';
      RowExtends(decide, members, trace, i, |members|);
    }
  }

  lemma TurnsGrow(decide: Decider, members: seq<Member>, turns: seq<Point>, p: Point)
    requires AreTurns(decide, members, turns) && |turns| <= |members|
    requires Turn(decide, members, turns[|turns| - 1], p, |turns| - 1)
    ensures AreTurns(decide, members, turns + [p])
  {
  }

  /** What every turn keeps, the sweep keeps. */
  lemma {:induction false} TurnsKeep(decide: Decider, members: seq<Member>, turns: seq<Point>,
          inv: (Point, nat) -> bool)
    requires AreTurns(decide, members, turns) && inv(turns[0], 0)
    requires forall p, p', i: nat | i < |members| && inv(p, i) && Turn(decide, members, p, p', i) :: inv(p', i + 1)
    ensures inv(turns[|turns| - 1], |turns| - 1)
  {
    if |turns| > 1 {
      var front := turns[..|turns| - 1];
      assert forall i | 0 <= i < |front| - 1 :: Turn(decide, members, turns[i], turns[i + 1], i);
      TurnsKeep(decide, members, front, inv);
      assert Turn(decide, members, turns[|turns| - 2], turns[|turns| - 1], |turns| - 2);
    }
  }

  lemma TracksStart(decide: Decider, s: State, members: seq<Member>)
    ensures Tracks(decide, s, s, members, {}, 0, Upto(1, |members|))
  {
    assert forall id :: !Absorbed(decide, s, members, id, 0);
  }

  lemma TurnsTrack(decide: Decider, members: seq<Member>, turns: seq<Point>)
    requires AreTurns(decide, members, turns) && turns[0].gone == {}
    ensures var p := turns[|turns| - 1];
            Tracks(decide, turns[0].s, p.s, members, p.gone, |turns| - 1, Upto(|turns|, |members|))
  {
    var inv := (p: Point, i: nat) => Tracks(decide, turns[0].s, p.s, members, p.gone, i, Upto(i + 1, |members|));
    TracksStart(decide, turns[0].s, members);
    forall p, p', i: nat | i < |members| && inv(p, i) && Turn(decide, members, p, p', i)
      ensures inv(p', i + 1)
    {
      assert Upto(i + 1, |members|) == i + 1;
      TurnTracks(decide, turns[0].s, members, p, p', i);
    }
    TurnsKeep(decide, members, turns, inv);
  }

  lemma TurnsProgress(decide: Decider, members: seq<Member>, turns: seq<Point>)
    requires AreTurns(decide, members, turns) && turns[0].gone == {} && Clean(turns[0].s, members)
    ensures var p := turns[|turns| - 1]; Progress(decide, p.s, members, p.gone, p.queue, |turns| - 1, |turns|)
  {
    var inv := (p: Point, i: nat) => Progress(decide, p.s, members, p.gone, p.queue, i, i + 1);
    forall p, p', i: nat | i < |members| && inv(p, i) && Turn(decide, members, p, p', i)
      ensures inv(p', i + 1)
    {
      TurnProgresses(decide, members, p, p', i);
    }
    TurnsKeep(decide, members, turns, inv);
  }

  lemma TurnsExtend(decide: Decider, members: seq<Member>, turns: seq<Point>)
    requires AreTurns(decide, members, turns) && Listed(members)
    ensures Extends(decide, members, turns[0].s.ledger, turns[|turns| - 1].s.ledger)
  {
    var inv := (p: Point, i: nat) => Extends(decide, members, turns[0].s.ledger, p.s.ledger);
    forall p, p', i: nat | i < |members| && inv(p, i) && Turn(decide, members, p, p', i)
      ensures inv(p', i + 1)
    {
      TurnExtends(decide, members, p, p', i);
      ExtendsTwice(decide, members, turns[0].s.ledger, p.s.ledger, p'.s.ledger);
    }
    TurnsKeep(decide, members, turns, inv);
  }

  /** A sweep that goes through to the end. */
  lemma FinishedSweep(decide: Decider, members: seq<Member>, turns: seq<Point>)
    requires AreTurns(decide, members, turns) && |turns| == |members| + 1 && turns[0].gone == {}
    ensures var s, p := turns[0].s, turns[|members|];
            && !MustStop(decide, s, members)
            && (forall id :: id in p.gone <==> Absorbed(decide, s, members, id, |members|))
            && MergedOrConflicted(decide, s, p.s, members, p.gone)
            && (Clean(s, members) ==> Fixpoint(decide, p.s, members, p.gone, p.queue))
  {
    var s, p := turns[0].s, turns[|members|];
    TurnsTrack(decide, members, turns);
    if Clean(s, members) {
      TurnsProgress(decide, members, turns);
      ProgressReachesFixpoint(decide, p.s, members, p.gone, p.queue);
    }
  }

  /** A sweep that gives up in the turn of the row after the last finished one. */
  lemma AbandonedSweep(decide: Decider, members: seq<Member>, turns: seq<Point>, p': Point)
    requires AreTurns(decide, members, turns) && |turns| <= |members| && turns[0].gone == {}
    requires GivesUp(decide, members, turns[|turns| - 1], p', |turns| - 1)
    ensures MustStop(decide, turns[0].s, members)
    ensures MergedOrConflicted(decide, turns[0].s, p'.s, members, p'.gone)
    ensures Listed(members) ==> Extends(decide, members, turns[0].s.ledger, p'.s.ledger)
  {
    var s, p, i := turns[0].s, turns[|turns| - 1], |turns| - 1;
    TurnsTrack(decide, members, turns);
    TurnOfRow(decide, s, p.s, members, p.gone, i);
    var trace, j: nat :| IsRow(decide, members, trace, i, j) && trace[0] == p && trace[|trace| - 1] == p'
      && j < |members| && PairStep(decide, members, p', p', true, i, j);
    RowTracks(decide, s, members, trace, i, j);
    PairStopsIff(decide, s, p', p', members, true, i, j);
    if Listed(members) {
      TurnsExtend(decide, members, turns);
      RowExtends(decide, members, trace, i, j);
      ExtendsTwice(decide, members, s.ledger, p.s.ledger, p'.s.ledger);
    }
  }

  // ---------------------------------------------------------------- one row listed twice

  /** A list of two entries of one row stops the sweep exactly when the row is unmerged and matches itself. */
  lemma TwoEntriesStopIff(decide: Decider, s: State, a: Member, b: Member)
    requires a.id == b.id
    ensures MustStop(decide, s, [a, b]) <==> Unmerged(s, a.id) && decide(a.candidate, b.candidate).AutoApply()
  {
    var members := [a, b];
    assert Survives(decide, s, members, 0);
    if Unmerged(s, a.id) && decide(a.candidate, b.candidate).AutoApply() {
      assert Stops(decide, s, members, 0, 1);
    }
    if i: nat, j: nat :| Stops(decide, s, members, i, j) {
      assert i == 0 && j == 1;
    }
  }

  /** So one unmerged row with a content hash and two sources is enough. */
  lemma TwoSourcesStopTheSweep(lower: char -> char, s: State, m: Member, applyUrl: string, atsJobId: string)
    requires Unmerged(s, m.id) && m.candidate.companyId != "" && |m.candidate.contentHash| > 0
    ensures var other := m.(candidate := m.candidate.(applyUrl := applyUrl, atsJobId := atsJobId));
            MustStop((a, b) => D.Decide(lower, a, b), s, [m, other])
  {
    var other := m.(candidate := m.candidate.(applyUrl := applyUrl, atsJobId := atsJobId));
    D.RowsMatchThemselves(lower, m.candidate, applyUrl, atsJobId);
    TwoEntriesStopIff((a, b) => D.Decide(lower, a, b), s, m, other);
  }

  // ---------------------------------------------------------------- the method

  ghost function Now(db: Database, gone: set<Id>): Point
    reads db
  {
    Point(db.Snapshot(), gone, db.reviewQueue)
  }

  /**
   Run while nobody else merges in the block. On any list the sweep gives up if and
   only if the list has a row that survives, is unmerged and matches itself; if it
   does not give up, exactly the rows a survivor matches are dropped. A row is only
   dropped when it is merged, or in conflict. A clean list ends in the fixpoint.
   */
  method SweepOne(ghost hash: Key -> int, decide: Decider, db: Database, w: WorkerId, members: seq<Member>)
    returns (merges: nat, failed: bool, gone: set<Id>)
    requires SweepReady(hash, db.Snapshot(), w, members)
    modifies db
    ensures Inv(hash, db.Snapshot()) && db.workers == old(db.workers)
    ensures merges == |db.ledger| - |old(db.ledger)| && Extends(decide, members, old(db.ledger), db.ledger)
    ensures failed <==> MustStop(decide, old(db.Snapshot()), members)
    ensures !failed ==> forall id :: id in gone <==> Absorbed(decide, old(db.Snapshot()), members, id, |members|)
    ensures MergedOrConflicted(decide, old(db.Snapshot()), db.Snapshot(), members, gone)
    ensures Clean(old(db.Snapshot()), members) ==>
            !failed && Fixpoint(decide, db.Snapshot(), members, gone, db.reviewQueue)
  {
    merges, failed, gone := 0, false, {};
    if |members| < 2 {
      return;
    }
    ghost var turns := [Now(db, gone)];
    var i := 0;
    while i < |members|
      invariant 0 <= i <= |members| && |turns| == i + 1
      invariant SweepReady(hash, db.Snapshot(), w, members) && db.workers == old(db.workers)
      invariant merges == |db.ledger| - |old(db.ledger)|
      invariant AreTurns(decide, members, turns) && turns[0] == old(Now(db, {})) && turns[i] == Now(db, gone)
    {
      if members[i].id !in gone {
        var more;
        more, failed, gone := SweepRow(hash, decide, db, w, members, gone, i);
        merges := merges + more;
        if failed {
          AbandonedSweep(decide, members, turns, Now(db, gone));
          return;
        }
      }
      TurnsGrow(decide, members, turns, Now(db, gone));
      turns := turns + [Now(db, gone)];
      i := i + 1;
    }
    TurnsExtend(decide, members, turns);
    FinishedSweep(decide, members, turns);
  }

  /** The inner loop: everything after row `i` is compared with it. */
  method SweepRow(ghost hash: Key -> int, decide: Decider, db: Database, w: WorkerId, members: seq<Member>,
          gone0: set<Id>, i: nat)
    returns (merges: nat, failed: bool, gone: set<Id>)
    requires SweepReady(hash, db.Snapshot(), w, members) && i < |members| && members[i].id !in gone0
    modifies db
    ensures SweepReady(hash, db.Snapshot(), w, members) && db.workers == old(db.workers)
    ensures merges == |db.ledger| - |old(db.ledger)|
    ensures if failed then GivesUp(decide, members, old(Now(db, gone0)), Now(db, gone), i)
            else Turn(decide, members, old(Now(db, gone0)), Now(db, gone), i)
  {
    merges, failed, gone := 0, false, gone0;
    ghost var trace := [Now(db, gone)];
    var j := i + 1;
    while j < |members|
      invariant i < j <= |members|
      invariant SweepReady(hash, db.Snapshot(), w, members) && db.workers == old(db.workers)
      invariant merges == |db.ledger| - |old(db.ledger)|
      invariant IsRow(decide, members, trace, i, j) && trace[0] == old(Now(db, gone0))
                && trace[j - i - 1] == Now(db, gone)
    {
      var more;
      more, failed, gone := SweepPair(hash, decide, db, w, members, gone, i, j);
      merges := merges + more;
      if failed {
        StopIsGivingUp(decide, members, trace, Now(db, gone), i, j);
        return;
      }
      RowGrows(decide, members, trace, Now(db, gone), i, j);
      trace := trace + [Now(db, gone)];
      j := j + 1;
    }
    RowIsATurn(decide, members, trace, i);
  }

  /** The body of the inner loop. */
  method SweepPair(ghost hash: Key -> int, decide: Decider, db: Database, w: WorkerId, members: seq<Member>,
          gone0: set<Id>, i: nat, j: nat)
    returns (merges: nat, failed: bool, gone: set<Id>)
    requires SweepReady(hash, db.Snapshot(), w, members) && i < j < |members|
    modifies db
    ensures SweepReady(hash, db.Snapshot(), w, members) && db.workers == old(db.workers)
    ensures merges == |db.ledger| - |old(db.ledger)|
    ensures PairStep(decide, members, old(Now(db, gone0)), Now(db, gone), failed, i, j)
  {
    merges, failed, gone := 0, false, gone0;
    var v := Judge(decide, members, i, j);
    if members[j].id !in gone0 && v.AutoApply() {
      merges, failed, gone := MergePair(hash, decide, db, w, members, gone0, i, j);
    } else {
      ghost var s := db.Snapshot();
      if members[j].id !in gone0 && v.same && members[j].id != members[i].id {
        db.reviewQueue := db.reviewQueue + {(members[j].id, members[i].id)};
      }
      assert db.Snapshot() == s;
    }
  }

  /** An automatic match: merge the later row into the earlier, and never look at it again unless the sweep gives up. */
  method MergePair(ghost hash: Key -> int, decide: Decider, db: Database, w: WorkerId, members: seq<Member>,
          gone0: set<Id>, i: nat, j: nat)
    returns (merges: nat, failed: bool, gone: set<Id>)
    requires SweepReady(hash, db.Snapshot(), w, members) && i < j < |members|
    requires members[j].id !in gone0 && AutoMatch(decide, members, i, j)
    modifies db`opps, db`sources, db`ledger, db`workers
    ensures SweepReady(hash, db.Snapshot(), w, members) && db.workers == old(db.workers)
    ensures merges == |db.ledger| - |old(db.ledger)|
    ensures PairStep(decide, members, old(Now(db, gone0)), Now(db, gone), failed, i, j)
  {
    merges, failed, gone := 0, false, gone0;
    ghost var s := db.Snapshot();
    var from, into := members[j].id, members[i].id;
    OtherBlocksOtherRows(hash, s, w, from, into);
    var outcome := db.Merge(hash, w, from, into);
    match outcome
    case Merged =>
      MergeKeepsInv(hash, s, w, from, into);
      merges, gone := 1, gone + {from};
    case VersionConflict =>
      gone := gone + {from};
    case ConstraintViolation =>
      failed := true;
  }
}
