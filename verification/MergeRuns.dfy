/**
 What holds after any number of merges by any number of interleaved workers.
 */
module MergeRuns {
  import opened Options
  import opened MergeForest
  import opened MergeProtocol

  ghost function Run(hash: Key -> int, s: State, es: seq<Event>): State
    decreases |es|
  {
    if |es| == 0 then s else Run(hash, Next(hash, s, es[0]), es[1..])
  }

  /** No side of an open merge is outside the locked block from its recheck to the end of the merge. */
  ghost predicate StableRun(hash: Key -> int, s: State, es: seq<Event>)
    decreases |es|
  {
    |es| == 0 || (KeyStable(s, es[0]) && StableRun(hash, Next(hash, s, es[0]), es[1..]))
  }

  lemma {:induction false} RunKeepsInv(hash: Key -> int, s: State, es: seq<Event>)
    requires Inv(hash, s) && StableRun(hash, s, es)
    ensures Inv(hash, Run(hash, s, es))
    decreases |es|
  {
    if |es| > 0 {
      StepKeepsInv(hash, s, es[0]);
      RunKeepsInv(hash, Next(hash, s, es[0]), es[1..]);
    }
  }

  /**
   Main theorem. However the workers interleave and however stale their lists
   are, `merged_into` never cycles, and from every row it leads to one that is
   not merged.
   */
  lemma MergesFormAForest(hash: Key -> int, es: seq<Event>)
    requires StableRun(hash, Empty, es)
    ensures var s := Run(hash, Empty, es);
            && Acyclic(MergedInto(s.opps))
            && forall id | id in s.opps ::
                 && Unmerged(s, Root(s.ledger, id))
                 && exists p :: Connects(MergedInto(s.opps), p, id, Root(s.ledger, id))
  {
    var s := Run(hash, Empty, es);
    assert Inv(hash, Empty);
    RunKeepsInv(hash, Empty, es);
    SoundLedgersAreAcyclic(s.ledger);
    forall id | id in s.opps
      ensures Unmerged(s, Root(s.ledger, id)) && exists p :: Connects(MergedInto(s.opps), p, id, Root(s.ledger, id))
    {
      ChainsEndInRoots(s.ledger, id);
      RootStaysWithin(s.ledger, id, s.opps.Keys);
      assert Root(s.ledger, id) !in MergedInto(s.opps);
    }
  }

  /**
   Source rows are conserved. Each still has exactly one owner, which is the end
   of the chain of merges that starts at the row it was inserted for, so a row
   that has been merged away owns nothing.
   */
  lemma SourcesFollowTheForest(hash: Key -> int, es: seq<Event>)
    requires StableRun(hash, Empty, es)
    ensures var s := Run(hash, Empty, es);
            && s.sources.Keys == s.firstOwner.Keys
            && forall src | src in s.sources ::
                 && Unmerged(s, s.sources[src])
                 && exists p :: Connects(MergedInto(s.opps), p, s.firstOwner[src], s.sources[src])
  {
    var s := Run(hash, Empty, es);
    assert Inv(hash, Empty);
    RunKeepsInv(hash, Empty, es);
    forall src | src in s.sources
      ensures Unmerged(s, s.sources[src]) && exists p ::
              Connects(MergedInto(s.opps), p, s.firstOwner[src], s.sources[src])
    {
      ChainsEndInRoots(s.ledger, s.firstOwner[src]);
      RootStaysWithin(s.ledger, s.firstOwner[src], s.opps.Keys);
      assert s.sources[src] !in MergedInto(s.opps);
    }
  }

  /** No source row is dropped, and each remembers the row it came in with. */
  ghost predicate KeepsSources(s: State, t: State) {
    && t.sources.Keys == t.firstOwner.Keys && s.sources.Keys <= t.sources.Keys
    && forall src | src in s.firstOwner :: src in t.firstOwner && t.firstOwner[src] == s.firstOwner[src]
  }

  lemma StepKeepsSources(hash: Key -> int, s: State, e: Event)
    requires s.sources.Keys == s.firstOwner.Keys
    ensures KeepsSources(s, Next(hash, s, e))
  {
    if IsWorkerStep(e) {
      WorkerStepLeavesOthers(hash, s, e);
    }
  }

  /** No run, stable or not, ever drops a source row or forgets which row it came in with. */
  lemma {:induction false} SourcesAreNeverLost(hash: Key -> int, s: State, es: seq<Event>)
    requires s.sources.Keys == s.firstOwner.Keys
    ensures KeepsSources(s, Run(hash, s, es))
    decreases |es|
  {
    if |es| > 0 {
      StepKeepsSources(hash, s, es[0]);
      SourcesAreNeverLost(hash, Next(hash, s, es[0]), es[1..]);
    }
  }

  /**
   The ledger is complete and minimal: one record per merged row, naming its
   target, and counting the source rows that then hung below it.
   */
  lemma LedgerMatchesTheForest(hash: Key -> int, es: seq<Event>)
    requires StableRun(hash, Empty, es)
    ensures var s := Run(hash, Empty, es);
            && MergedInto(s.opps) == Links(s.ledger)
            && forall id | id in s.opps && s.opps[id].mergedInto.Some? ::
                 exists i | 0 <= i < |s.ledger| ::
                   && s.ledger[i].from == id && s.opps[id].mergedInto == Some(s.ledger[i].into)
                   && s.ledger[i].moved == |RootedAt(s.ledger[..i], s.firstOwner, id)|
                   && forall j | 0 <= j < |s.ledger| && s.ledger[j].from == id :: j == i
  {
    var s := Run(hash, Empty, es);
    assert Inv(hash, Empty);
    RunKeepsInv(hash, Empty, es);
    forall id | id in s.opps && s.opps[id].mergedInto.Some?
      ensures exists i | 0 <= i < |s.ledger| ::
                && s.ledger[i].from == id && s.opps[id].mergedInto == Some(s.ledger[i].into)
                && s.ledger[i].moved == |RootedAt(s.ledger[..i], s.firstOwner, id)|
                && forall j | 0 <= j < |s.ledger| && s.ledger[j].from == id :: j == i
    {
      OneRecordPerMergedRow(s.ledger, id);
      assert id in MergedInto(s.opps);
      var i :| 0 <= i < |s.ledger| && s.ledger[i].from == id;
    }
  }

  // ---------------------------------------------------------------- runs without the assumption

  /**
   What the row locks of MarkMerged give in every run: a row has one merge that marked it, and is
   unmerged until that commits.
   */
  ghost predicate RowLocks(s: State) {
    && (forall w | Past(s, w, 5) :: Unmerged(s, s.workers[w].txn.value.from))
    && (forall v, w | Past(s, v, 5) && Past(s, w, 5) && v != w ::
        s.workers[v].txn.value.from != s.workers[w].txn.value.from)
  }

  /** A worker gets past MarkMerged only for an unmerged row that no other open merge has marked. */
  lemma MarkingLocks(hash: Key -> int, s: State, e: Event)
    requires IsWorkerStep(e) && Past(Next(hash, s, e), e.w, 5)
    ensures var from := Next(hash, s, e).workers[e.w].txn.value.from;
            || (Past(s, e.w, 5) && s.workers[e.w].txn.value.from == from)
            || (Unmerged(s, from) && forall v | v != e.w && Past(s, v, 5) :: s.workers[v].txn.value.from != from)
  {
  }

  lemma WorkerKeepsRowLocks(hash: Key -> int, s: State, s': State, w: WorkerId)
    requires RowLocks(s) && s'.opps == s.opps
    requires forall v | v in s'.workers && v != w :: v in s.workers && s'.workers[v] == s.workers[v]
    requires Past(s', w, 5) ==>
               var from := s'.workers[w].txn.value.from;
               || (Past(s, w, 5) && s.workers[w].txn.value.from == from)
               || (Unmerged(s, from) && forall v | v != w && Past(s, v, 5) :: s.workers[v].txn.value.from != from)
    ensures RowLocks(s')
  {
    assert forall v | Past(s', v, 5) && v != w :: Past(s, v, 5);
  }

  /** Statements that change the tables leave the rows of open merges unmerged. */
  lemma TableStepKeepsRowLocks(hash: Key -> int, s: State, e: Event)
    requires RowLocks(s) && !IsWorkerStep(e)
    ensures RowLocks(Next(hash, s, e))
  {
    assert forall v | Past(Next(hash, s, e), v, 5) :: Past(s, v, 5);
  }

  lemma StepKeepsRowLocks(hash: Key -> int, s: State, e: Event)
    requires RowLocks(s)
    ensures RowLocks(Next(hash, s, e))
  {
    if !IsWorkerStep(e) {
      TableStepKeepsRowLocks(hash, s, e);
    } else {
      WorkerStepLeavesOthers(hash, s, e);
      if Past(Next(hash, s, e), e.w, 5) {
        MarkingLocks(hash, s, e);
      }
      WorkerKeepsRowLocks(hash, s, Next(hash, s, e), e.w);
    }
  }

  /** The link a commit adds does not close a cycle: its target does not lead back to the row being merged. */
  ghost predicate CommitGuard(s: State, w: WorkerId)
    requires InTxn(s, w, Recorded)
  {
    var t := s.workers[w].txn.value;
    !exists p :: Connects(MergedInto(s.opps), p, t.into, t.from)
  }

  /** Every commit of the run met the guard when it happened. */
  ghost predicate GuardedRun(hash: Key -> int, s: State, es: seq<Event>)
    decreases |es|
  {
    |es| == 0 ||
    ((es[0].Commit? && InTxn(s, es[0].w, Recorded) ==> CommitGuard(s, es[0].w))
        && GuardedRun(hash, Next(hash, s, es[0]), es[1..]))
  }

  lemma CommitKeepsForestIff(s: State, w: WorkerId)
    requires InTxn(s, w, Recorded) && Acyclic(MergedInto(s.opps)) && Unmerged(s, s.workers[w].txn.value.from)
    ensures Acyclic(MergedInto(Publish(s, w).opps)) <==> CommitGuard(s, w)
  {
    var t := s.workers[w].txn.value;
    LinkKeepsAcyclicIff(MergedInto(s.opps), t.from, t.into);
    assert MergedInto(Publish(s, w).opps) == MergedInto(s.opps)[t.from := t.into];
  }

  /** Only a commit adds a link, and nothing takes one away. */
  lemma OnlyCommitsLink(hash: Key -> int, s: State, e: Event)
    requires RowLocks(s)
    ensures if e.Commit? && InTxn(s, e.w, Recorded) then Next(hash, s, e) == Publish(s, e.w)
            else MergedInto(Next(hash, s, e).opps) == MergedInto(s.opps)
    ensures forall id | id in MergedInto(s.opps) ::
              id in MergedInto(Next(hash, s, e).opps) && MergedInto(Next(hash, s, e).opps)[id] == MergedInto(s.opps)[id]
  {
    if e.Commit? && InTxn(s, e.w, Recorded) {
      assert Past(s, e.w, 5);
    } else if IsWorkerStep(e) {
      WorkerStepLeavesOthers(hash, s, e);
    }
  }

  lemma {:induction false} CyclesStay(hash: Key -> int, s: State, es: seq<Event>)
    requires RowLocks(s) && !Acyclic(MergedInto(s.opps))
    ensures !Acyclic(MergedInto(Run(hash, s, es).opps))
    decreases |es|
  {
    if |es| > 0 {
      var s' := Next(hash, s, es[0]);
      OnlyCommitsLink(hash, s, es[0]);
      StepKeepsRowLocks(hash, s, es[0]);
      var p :| IsPath(MergedInto(s.opps), p) && |p| >= 2 && p[0] == p[|p| - 1];
      assert IsPath(MergedInto(s'.opps), p);
      CyclesStay(hash, s', es[1..]);
    }
  }

  lemma {:induction false} RunStaysAcyclicIff(hash: Key -> int, s: State, es: seq<Event>)
    requires RowLocks(s) && Acyclic(MergedInto(s.opps))
    ensures Acyclic(MergedInto(Run(hash, s, es).opps)) <==> GuardedRun(hash, s, es)
    decreases |es|
  {
    if |es| > 0 {
      var s', e := Next(hash, s, es[0]), es[0];
      OnlyCommitsLink(hash, s, e);
      StepKeepsRowLocks(hash, s, e);
      if e.Commit? && InTxn(s, e.w, Recorded) {
        assert Past(s, e.w, 5);
        CommitKeepsForestIff(s, e.w);
      }
      if Acyclic(MergedInto(s'.opps)) {
        RunStaysAcyclicIff(hash, s', es[1..]);
      } else {
        CyclesStay(hash, s', es[1..]);
      }
    }
  }

  /**
   Main theorem for runs in which rows may change block at any time: `merged_into`
   is free of cycles in the end if and only if no commit of the run linked a row to
   one that already led back to it.
   */
  lemma ForestIffCommitsAreGuarded(hash: Key -> int, es: seq<Event>)
    ensures Acyclic(MergedInto(Run(hash, Empty, es).opps)) <==> GuardedRun(hash, Empty, es)
  {
    assert MergedInto(Empty.opps) == map[];
    RunStaysAcyclicIff(hash, Empty, es);
  }

  // ---------------------------------------------------------------- why the assumption is needed

  ghost predicate Reachable(hash: Key -> int, s: State) {
    exists es :: Run(hash, Empty, es) == s
  }

  lemma {:induction false} RunAppend(hash: Key -> int, s: State, es: seq<Event>, e: Event)
    ensures Run(hash, s, es + [e]) == Next(hash, Run(hash, s, es), e)
    decreases |es|
  {
    if |es| == 0 {
      assert es + [e] == [e] && [e][1..] == [];
    } else {
      assert (es + [e])[1..] == es[1..] + [e];
      RunAppend(hash, Next(hash, s, es[0]), es[1..], e);
    }
  }

  /** One more statement from a reachable state. */
  lemma Step(hash: Key -> int, s: State, e: Event, t: State)
    requires Reachable(hash, s) && Next(hash, s, e) == t
    ensures Reachable(hash, t)
  {
    var es :| Run(hash, Empty, es) == s;
    RunAppend(hash, Empty, es, e);
  }

  const Both: set<Id> := {0, 1}

  /** A worker that finds its lock free takes it. */
  lemma TakeTheLock(hash: Key -> int, s: State, w: WorkerId, from: Id, into: Id)
    requires Reachable(hash, s)
    requires w in s.workers && s.workers[w].txn.None? && from in s.workers[w].ids && into in s.workers[w].ids
    requires forall v | v in s.workers && v != w && Past(s, v, 1) :: hash(s.workers[v].key) != hash(s.workers[w].key)
    ensures Reachable(hash, SetTxn(s, w, Some(Txn(from, into, Locked, {}))))
  {
    var s1 := SetTxn(s, w, Some(Txn(from, into, Begun, {})));
    Step(hash, s, Begin(w, from, into), s1);
    assert forall v | v in s1.workers && v != w && Past(s1, v, 1) :: Past(s, v, 1);
    Step(hash, s1, LockBlock(w), SetTxn(s, w, Some(Txn(from, into, Locked, {}))));
  }

  /** A worker that finds both rows unmerged gets past the recheck. */
  lemma PassTheRecheck(hash: Key -> int, s: State, w: WorkerId, from: Id, into: Id)
    requires w in s.workers && Reachable(hash, SetTxn(s, w, Some(Txn(from, into, Locked, {}))))
    requires Unmerged(s, from) && Unmerged(s, into)
    ensures Reachable(hash, SetTxn(s, w, Some(Txn(from, into, CheckedInto, {}))))
  {
    var s1 := SetTxn(s, w, Some(Txn(from, into, Locked, {})));
    var s2 := SetTxn(s, w, Some(Txn(from, into, CheckedFrom, {})));
    Step(hash, s1, RecheckFrom(w), s2);
    Step(hash, s2, RecheckInto(w), SetTxn(s, w, Some(Txn(from, into, CheckedInto, {}))));
  }

  /** From there it can move the source rows no other transaction has moved. */
  lemma MoveTheRows(hash: Key -> int, s: State, w: WorkerId, from: Id, into: Id)
    requires w in s.workers && Reachable(hash, SetTxn(s, w, Some(Txn(from, into, CheckedInto, {}))))
    requires forall v | v in s.workers && v != w && Past(s, v, 4) ::
             s.workers[v].txn.value.moved !! OwnedBy(s.sources, from)
    ensures Reachable(hash, SetTxn(s, w, Some(Txn(from, into, Moved, OwnedBy(s.sources, from)))))
  {
    var s1 := SetTxn(s, w, Some(Txn(from, into, CheckedInto, {})));
    assert forall v | v in s1.workers && v != w && Past(s1, v, 4) :: Past(s, v, 4);
    Step(hash, s1, MoveSourceRows(w), SetTxn(s, w, Some(Txn(from, into, Moved, OwnedBy(s.sources, from)))));
  }

  /** And mark the merge of a row no other transaction has marked, */
  lemma MarkTheRow(hash: Key -> int, s: State, w: WorkerId, from: Id, into: Id, moved: set<Src>)
    requires w in s.workers && Reachable(hash, SetTxn(s, w, Some(Txn(from, into, Moved, moved)))) && Unmerged(s, from)
    requires forall v | v in s.workers && v != w && Past(s, v, 5) :: s.workers[v].txn.value.from != from
    ensures Reachable(hash, SetTxn(s, w, Some(Txn(from, into, Marked, moved))))
  {
    var s1 := SetTxn(s, w, Some(Txn(from, into, Moved, moved)));
    assert forall v | v in s1.workers && v != w && Past(s1, v, 5) :: Past(s, v, 5);
    Step(hash, s1, MarkMerged(w), SetTxn(s, w, Some(Txn(from, into, Marked, moved))));
  }

  /** and record it. */
  lemma RecordTheMerge(hash: Key -> int, s: State, w: WorkerId, from: Id, into: Id, moved: set<Src>)
    requires w in s.workers && Reachable(hash, SetTxn(s, w, Some(Txn(from, into, Marked, moved)))) && from != into
    ensures Reachable(hash, SetTxn(s, w, Some(Txn(from, into, Recorded, moved))))
  {
    Step(hash, SetTxn(s, w, Some(Txn(from, into, Marked, moved))), RecordMerge(w),
        SetTxn(s, w, Some(Txn(from, into, Recorded, moved))));
  }

  function TwoRows(key: Key, m0: Option<Id>, m1: Option<Id>): map<Id, Opp> {
    map[0 := Opp(Some(key), m0), 1 := Opp(Some(key), m1)]
  }

  function Start(opps: map<Id, Opp>, workers: map<WorkerId, Worker>): State {
    State(opps, map[0 := 0, 1 := 1], map[0 := 0, 1 := 1], [], workers)
  }

  /** Two rows known to worker 0 as block `a` and to worker 1 as block `b`. */
  function Crossing(a: Key, b: Key, t0: Option<Txn>, t1: Option<Txn>): State {
    Start(TwoRows(b, None, None), map[0 := Worker(a, Both, t0), 1 := Worker(b, Both, t1)])
  }

  lemma OneRowInserted(hash: Key -> int)
    ensures Reachable(hash, State(map[0 := Opp(None, None)], map[0 := 0], map[0 := 0], [], map[]))
  {
    assert Run(hash, Empty, []) == Empty;
    Step(hash, Empty, InsertPosting(0, 0), State(map[0 := Opp(None, None)], map[0 := 0], map[0 := 0], [], map[]));
  }

  lemma TwoRowsInserted(hash: Key -> int)
    ensures Reachable(hash, Start(map[0 := Opp(None, None), 1 := Opp(None, None)], map[]))
  {
    OneRowInserted(hash);
    var s1 := State(map[0 := Opp(None, None)], map[0 := 0], map[0 := 0], [], map[]);
    Step(hash, s1, InsertPosting(1, 1), Start(map[0 := Opp(None, None), 1 := Opp(None, None)], map[]));
  }

  /** A row no transaction has marked may change block. */
  lemma MoveARow(hash: Key -> int, s: State, id: Id, newKey: Key)
    requires Reachable(hash, s) && id in s.opps && newKey != "" && forall v | v in s.workers :: !Past(s, v, 5)
    ensures Reachable(hash, Rekeyed(s, id, newKey))
  {
    Step(hash, s, SetBlockKey(id, newKey), Rekeyed(s, id, newKey));
  }

  /** A new worker may read any rows of a block. */
  lemma ReadABlock(hash: Key -> int, s: State, w: WorkerId, key: Key, ids: set<Id>)
    requires Reachable(hash, s) && w !in s.workers && key != "" && forall id | id in ids :: InBlock(s, id, key)
    ensures Reachable(hash, s.(workers := s.workers[w := Worker(key, ids, None)]))
  {
    Step(hash, s, Read(w, key, ids), s.(workers := s.workers[w := Worker(key, ids, None)]));
  }

  lemma TwoRowsInABlock(hash: Key -> int, a: Key)
    requires a != ""
    ensures Reachable(hash, Start(TwoRows(a, None, None), map[]))
  {
    TwoRowsInserted(hash);
    var s1 := Start(map[0 := Opp(None, None), 1 := Opp(None, None)], map[]);
    MoveARow(hash, s1, 0, a);
    var s2 := Rekeyed(s1, 0, a);
    MoveARow(hash, s2, 1, a);
    assert Rekeyed(s2, 1, a) == Start(TwoRows(a, None, None), map[]);
  }

  lemma RowsMoveBetweenReads(hash: Key -> int, a: Key, b: Key)
    requires a != "" && b != ""
    ensures Reachable(hash, Crossing(a, b, None, None))
  {
    TwoRowsInABlock(hash, a);
    var s0 := Start(TwoRows(a, None, None), map[]);
    ReadABlock(hash, s0, 0, a, Both);
    var s1 := s0.(workers := s0.workers[0 := Worker(a, Both, None)]);
    MoveARow(hash, s1, 0, b);
    var s2 := Rekeyed(s1, 0, b);
    MoveARow(hash, s2, 1, b);
    var s3 := Rekeyed(s2, 1, b);
    assert s3.opps == TwoRows(b, None, None);
    ReadABlock(hash, s3, 1, b, Both);
    assert s3.(workers := s3.workers[1 := Worker(b, Both, None)]) == Crossing(a, b, None, None);
  }

  lemma BothPastTheRecheck(hash: Key -> int, a: Key, b: Key)
    requires a != "" && b != "" && hash(a) != hash(b)
    ensures Reachable(hash, Crossing(a, b, Some(Txn(0, 1, CheckedInto, {})), Some(Txn(1, 0, CheckedInto, {}))))
  {
    RowsMoveBetweenReads(hash, a, b);
    var s0 := Crossing(a, b, None, None);
    TakeTheLock(hash, s0, 0, 0, 1);
    PassTheRecheck(hash, s0, 0, 0, 1);
    var s1 := Crossing(a, b, Some(Txn(0, 1, CheckedInto, {})), None);
    assert SetTxn(s0, 0, Some(Txn(0, 1, CheckedInto, {}))) == s1;
    TakeTheLock(hash, s1, 1, 1, 0);
    PassTheRecheck(hash, s1, 1, 1, 0);
    assert SetTxn(s1, 1, Some(Txn(1, 0, CheckedInto, {}))) == Crossing(a, b, Some(Txn(0, 1, CheckedInto, {})),
        Some(Txn(1, 0, CheckedInto, {})));
  }

  lemma FirstReadyToCommit(hash: Key -> int, a: Key, b: Key)
    requires a != "" && b != "" && hash(a) != hash(b)
    ensures Reachable(hash, Crossing(a, b, Some(Txn(0, 1, Recorded, {0})), Some(Txn(1, 0, CheckedInto, {}))))
  {
    BothPastTheRecheck(hash, a, b);
    var s := Crossing(a, b, Some(Txn(0, 1, CheckedInto, {})), Some(Txn(1, 0, CheckedInto, {})));
    assert OwnedBy(s.sources, 0) == {0};
    assert SetTxn(s, 0, Some(Txn(0, 1, CheckedInto, {}))) == s;
    MoveTheRows(hash, s, 0, 0, 1);
    MarkTheRow(hash, s, 0, 0, 1, {0});
    RecordTheMerge(hash, s, 0, 0, 1, {0});
    assert SetTxn(s, 0, Some(Txn(0, 1, Recorded, {0}))) == Crossing(a, b, Some(Txn(0, 1, Recorded, {0})),
        Some(Txn(1, 0, CheckedInto, {})));
  }

  lemma BothReadyToCommit(hash: Key -> int, a: Key, b: Key)
    requires a != "" && b != "" && hash(a) != hash(b)
    ensures Reachable(hash, Crossing(a, b, Some(Txn(0, 1, Recorded, {0})), Some(Txn(1, 0, Recorded, {1}))))
  {
    FirstReadyToCommit(hash, a, b);
    var s := Crossing(a, b, Some(Txn(0, 1, Recorded, {0})), Some(Txn(1, 0, CheckedInto, {})));
    assert OwnedBy(s.sources, 1) == {1};
    assert SetTxn(s, 1, Some(Txn(1, 0, CheckedInto, {}))) == s;
    MoveTheRows(hash, s, 1, 1, 0);
    MarkTheRow(hash, s, 1, 1, 0, {1});
    RecordTheMerge(hash, s, 1, 1, 0, {1});
    assert SetTxn(s, 1, Some(Txn(1, 0, Recorded, {1}))) == Crossing(a, b, Some(Txn(0, 1, Recorded, {0})),
        Some(Txn(1, 0, Recorded, {1})));
  }

  lemma CommitTheMerge(hash: Key -> int, s: State, w: WorkerId)
    requires Reachable(hash, s) && InTxn(s, w, Recorded) && s.workers[w].txn.value.from in s.opps
    ensures Reachable(hash, Publish(s, w))
  {
    Step(hash, s, Commit(w), Publish(s, w));
  }

  lemma CrossingMergesCommit(hash: Key -> int, a: Key, b: Key)
    requires a != "" && b != "" && hash(a) != hash(b)
    ensures exists s :: Reachable(hash, s) && s.opps == TwoRows(b, Some(1), Some(0))
  {
    var s0 := Crossing(a, b, Some(Txn(0, 1, Recorded, {0})), Some(Txn(1, 0, Recorded, {1})));
    BothReadyToCommit(hash, a, b);
    var s1 := Publish(s0, 0);
    assert s1.opps == TwoRows(b, Some(1), None);
    CommitTheMerge(hash, s0, 0);
    var s2 := Publish(s1, 1);
    assert s2.opps == TwoRows(b, Some(1), Some(0));
    CommitTheMerge(hash, s1, 1);
  }

  /**
   The assumption is not a convenience. For any two keys the lock hash separates:
   if both rows change block between two workers' reads, the workers lock different
   keys, both pass the recheck, and A -> B -> A is committed.
   */
  lemma MovingRowsCanFormACycle(hash: Key -> int, a: Key, b: Key)
    requires a != "" && b != "" && hash(a) != hash(b)
    ensures exists es :: !StableRun(hash, Empty, es) && !Acyclic(MergedInto(Run(hash, Empty, es).opps))
  {
    CrossingMergesCommit(hash, a, b);
    var s :| Reachable(hash, s) && s.opps == TwoRows(b, Some(1), Some(0));
    assert IsPath(MergedInto(s.opps), [0, 1, 0]);
    var es :| Run(hash, Empty, es) == s;
    if StableRun(hash, Empty, es) {
      MergesFormAForest(hash, es);
    }
  }
}
