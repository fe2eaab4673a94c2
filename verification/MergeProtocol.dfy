/**
 The merge protocol as a state machine over its SQL statements.

 Any number of workers merge rows from candidate lists they read without a lock.
 Each event below is one statement, run under READ COMMITTED: it sees what has
 been committed, and its own writes stay private until `Commit`. The pending
 writes of a transaction are the `moved` set and the phase of its `Txn`.

 Only the columns the merge statements read or write are kept: `block_key`,
 `merged_into`, the owner of each source row, and the ledger. Every other
 statement of the system leaves these alone.
 */
module MergeProtocol {
  import opened Options
  import opened MergeForest

  type Key = string
  type Src = nat
  type WorkerId = nat

  datatype Opp = Opp(blockKey: Option<Key>, mergedInto: Option<Id>)

  /** How far `Deduper.merge` has got; the names say which statement ran last. */
  datatype Phase = Begun | Locked | CheckedFrom | CheckedInto | Moved | Marked | Recorded {
    function Rank(): nat {
      match this
      case Begun => 0
      case Locked => 1
      case CheckedFrom => 2
      case CheckedInto => 3
      case Moved => 4
      case Marked => 5
      case Recorded => 6
    }
  }

  datatype Txn = Txn(from: Id, into: Id, phase: Phase, moved: set<Src>)

  /** A worker with the block key and the row ids it has read so far, however long ago. */
  datatype Worker = Worker(key: Key, ids: set<Id>, txn: Option<Txn>)

  /**
   The committed tables and the workers. `firstOwner` is a history variable: the
   row each source row was inserted for.
   */
  datatype State = State(
    opps: map<Id, Opp>,
    sources: map<Src, Id>,
    firstOwner: map<Src, Id>,
    ledger: seq<MergeRecord>,
    workers: map<WorkerId, Worker>)

  datatype Event =
    | Read(w: WorkerId, key: Key, ids: set<Id>)
    | ReadMore(w: WorkerId, ids: set<Id>)
    | Begin(w: WorkerId, from: Id, into: Id)
    | LockBlock(w: WorkerId)
    | RecheckFrom(w: WorkerId)
    | RecheckInto(w: WorkerId)
    | MoveSourceRows(w: WorkerId)
    | MarkMerged(w: WorkerId)
    | RecordMerge(w: WorkerId)
    | Commit(w: WorkerId)
    | Rollback(w: WorkerId)
    | Finish(w: WorkerId)
    | InsertPosting(id: Id, src: Src)
    | SetBlockKey(id: Id, newKey: Key)

  const Empty := State(map[], map[], map[], [], map[])

  predicate Unmerged(s: State, id: Id) {
    id in s.opps && s.opps[id].mergedInto.None?
  }

  predicate InBlock(s: State, id: Id, key: Key) {
    id in s.opps && s.opps[id].blockKey == Some(key)
  }

  predicate InTxn(s: State, w: WorkerId, phase: Phase) {
    w in s.workers && s.workers[w].txn.Some? && s.workers[w].txn.value.phase == phase
  }

  predicate Past(s: State, w: WorkerId, rank: nat) {
    w in s.workers && s.workers[w].txn.Some? && s.workers[w].txn.value.phase.Rank() >= rank
  }

  function OwnedBy(sources: map<Src, Id>, id: Id): set<Src> {
    set src | src in sources && sources[src] == id
  }

  /** Whether the statement can run now: it is next in its transaction, and no lock it needs is taken. */
  ghost predicate Enabled(hash: Key -> int, s: State, e: Event) {
    match e
    case Read(w, key, ids) => w !in s.workers && key != "" && forall id | id in ids :: InBlock(s, id, key)
    case ReadMore(w, ids) => w in s.workers && s.workers[w].txn.None? && forall id | id in ids ::
        InBlock(s, id, s.workers[w].key)
    case Begin(w, from, into) => w in s.workers && s.workers[w].txn.None? && from in s.workers[w].ids
        && into in s.workers[w].ids
    case LockBlock(w) => InTxn(s, w, Begun) && forall v | v in s.workers && v != w && Past(s, v, 1) ::
        hash(s.workers[v].key) != hash(s.workers[w].key)
    case RecheckFrom(w) => InTxn(s, w, Locked)
    case RecheckInto(w) => InTxn(s, w, CheckedFrom)
    case MoveSourceRows(w) =>
      // A source row another transaction has moved but not committed is row-locked.
      InTxn(s, w, CheckedInto) && forall v | v in s.workers && v != w && Past(s, v, 4) ::
        s.workers[v].txn.value.moved !! OwnedBy(s.sources, s.workers[w].txn.value.from)
    case MarkMerged(w) =>
      InTxn(s, w, Moved) && forall v | v in s.workers && v != w && Past(s, v, 5) ::
        s.workers[v].txn.value.from != s.workers[w].txn.value.from
    case RecordMerge(w) => InTxn(s, w, Marked)
    case Commit(w) => InTxn(s, w, Recorded)
    case Rollback(w) => w in s.workers && s.workers[w].txn.Some?
    case Finish(w) => w in s.workers && s.workers[w].txn.None?
    case InsertPosting(id, src) => id !in s.opps && src !in s.sources
    case SetBlockKey(id, newKey) =>
      id in s.opps && newKey != "" && forall v | v in s.workers && Past(s, v, 5) :: s.workers[v].txn.value.from != id
  }

  function SetTxn(s: State, w: WorkerId, txn: Option<Txn>): State
    requires w in s.workers
  {
    s.(workers := s.workers[w := s.workers[w].(txn := txn)])
  }

  /** The statement passes, or the worker yields and the transaction is rolled back. */
  function PassIf(s: State, w: WorkerId, ok: bool, phase: Phase): State
    requires w in s.workers && s.workers[w].txn.Some?
  {
    SetTxn(s, w, if ok then Some(s.workers[w].txn.value.(phase := phase)) else None)
  }

  function Publish(s: State, w: WorkerId): State
    requires w in s.workers && s.workers[w].txn.Some? && s.workers[w].txn.value.from in s.opps
  {
    var t := s.workers[w].txn.value;
    SetTxn(s, w, None).(
      opps := s.opps[t.from := s.opps[t.from].(mergedInto := Some(t.into))],
      sources := map src | src in s.sources :: if src in t.moved then t.into else s.sources[src],
      ledger := s.ledger + [MergeRecord(t.from, t.into, |t.moved|)])
  }

  function Inserted(s: State, id: Id, src: Src): State {
    s.(opps := s.opps[id := Opp(None, None)], sources := s.sources[src := id], firstOwner := s.firstOwner[src := id])
  }

  function Rekeyed(s: State, id: Id, newKey: Key): State
    requires id in s.opps
  {
    s.(opps := s.opps[id := s.opps[id].(blockKey := Some(newKey))])
  }

  /** What the statement does. Disabled statements do nothing. */
  ghost function Next(hash: Key -> int, s: State, e: Event): State {
    if !Enabled(hash, s, e) then s else
    match e
    case Read(w, key, ids) => s.(workers := s.workers[w := Worker(key, ids, None)])
    case ReadMore(w, ids) => s.(workers := s.workers[w := s.workers[w].(ids := s.workers[w].ids + ids)])
    case Begin(w, from, into) => SetTxn(s, w, Some(Txn(from, into, Begun, {})))
    case LockBlock(w) => PassIf(s, w, true, Locked)
    case RecheckFrom(w) => PassIf(s, w, Unmerged(s, s.workers[w].txn.value.from), CheckedFrom)
    case RecheckInto(w) => PassIf(s, w, Unmerged(s, s.workers[w].txn.value.into), CheckedInto)
    case MoveSourceRows(w) =>
      var t := s.workers[w].txn.value;
      SetTxn(s, w, Some(t.(phase := Moved, moved := OwnedBy(s.sources, t.from))))
    case MarkMerged(w) => PassIf(s, w, Unmerged(s, s.workers[w].txn.value.from), Marked)
    case RecordMerge(w) =>
      // CHECK (from_opportunity_id <> into_opportunity_id) is all that stops a self-merge.
      PassIf(s, w, s.workers[w].txn.value.from != s.workers[w].txn.value.into, Recorded)
    case Commit(w) => if s.workers[w].txn.value.from in s.opps then Publish(s, w) else s
    case Rollback(w) => SetTxn(s, w, None)
    case Finish(w) => s.(workers := s.workers - {w})
    case InsertPosting(id, src) => Inserted(s, id, src)
    case SetBlockKey(id, newKey) => Rekeyed(s, id, newKey)
  }

  /** What a worker can merge: what it has read so far, until it is done, whether or not a merge was rolled back. */
  lemma WorkersHoldWhatTheyRead(hash: Key -> int, s: State, e: Event)
    requires Enabled(hash, s, e)
    ensures e.Read? ==> Next(hash, s, e).workers == s.workers[e.w := Worker(e.key, e.ids, None)]
    ensures e.ReadMore? ==>
              Next(hash, s, e).workers
              == s.workers[e.w := Worker(s.workers[e.w].key, s.workers[e.w].ids + e.ids, None)]
    ensures e.Rollback? ==> Next(hash, s, e).workers == s.workers[e.w := s.workers[e.w].(txn := None)]
    ensures e.Finish? ==> Next(hash, s, e).workers == s.workers - {e.w}
    ensures e.Read? || e.ReadMore? || e.Rollback? || e.Finish? ==> Next(hash, s, e).(workers := s.workers) == s
  {
  }

  /** The row is a side of an open merge that has rechecked it. */
  predicate Rechecked(s: State, w: WorkerId, id: Id) {
    (Past(s, w, 2) && s.workers[w].txn.value.from == id) || (Past(s, w, 3) && s.workers[w].txn.value.into == id)
  }

  /**
   The assumption the protocol rests on: a merge that passes its recheck of a row
   still finds the row in the block it has locked, and the row stays there until
   the merge is over. Rows may change block at any other time.
   */
  ghost predicate KeyStable(s: State, e: Event) {
    match e
    case RecheckFrom(w) =>
      InTxn(s, w, Locked) && Unmerged(s, s.workers[w].txn.value.from) ==>
        InBlock(s, s.workers[w].txn.value.from, s.workers[w].key)
    case RecheckInto(w) =>
      InTxn(s, w, CheckedFrom) && Unmerged(s, s.workers[w].txn.value.into) ==>
        InBlock(s, s.workers[w].txn.value.into, s.workers[w].key)
    case SetBlockKey(id, newKey) => forall w | w in s.workers && Rechecked(s, w, id) :: s.workers[w].key == newKey
    case _ => true
  }

  // ---------------------------------------------------------------- the invariant

  function MergedInto(opps: map<Id, Opp>): map<Id, Id> {
    map id | id in opps && opps[id].mergedInto.Some? :: opps[id].mergedInto.value
  }

  /** `merged_into` is the replay of a sound ledger about existing rows. */
  ghost predicate LedgerInv(s: State) {
    && Sound(s.ledger)
    && MergedInto(s.opps) == Links(s.ledger)
    && forall i | 0 <= i < |s.ledger| :: s.ledger[i].from in s.opps && s.ledger[i].into in s.opps
  }

  /** Every source row belongs to the root of the row it was inserted for. */
  ghost predicate SourceInv(s: State) {
    && s.sources.Keys == s.firstOwner.Keys
    && forall src | src in s.sources ::
        s.firstOwner[src] in s.opps && s.sources[src] == Root(s.ledger, s.firstOwner[src])
  }

  function RootedAt(ledger: seq<MergeRecord>, firstOwner: map<Src, Id>, id: Id): set<Src> {
    set src | src in firstOwner && Root(ledger, firstOwner[src]) == id
  }

  /** Each record counts exactly the source rows its merge took along. */
  ghost predicate CountInv(s: State) {
    forall i | 0 <= i < |s.ledger| ::
      s.ledger[i].moved == |RootedAt(s.ledger[..i], s.firstOwner, s.ledger[i].from)|
  }

  ghost predicate TxnInv(s: State, t: Txn, key: Key) {
    && (t.phase.Rank() >= 2 ==> Unmerged(s, t.from) && InBlock(s, t.from, key))
    && (t.phase.Rank() >= 3 ==> Unmerged(s, t.into) && InBlock(s, t.into, key))
    && (t.phase.Rank() >= 4 ==> t.moved == OwnedBy(s.sources, t.from))
    && (t.phase.Rank() >= 6 ==> t.from != t.into)
  }

  ghost predicate WorkerInv(s: State, k: Worker) {
    && (forall id | id in k.ids :: id in s.opps)
    && (k.txn.Some? ==> TxnInv(s, k.txn.value, k.key))
  }

  /** The advisory lock, which is on the hash of the key, has one holder. */
  ghost predicate LockInv(hash: Key -> int, s: State) {
    forall v, w | v in s.workers && w in s.workers && v != w && Past(s, v, 1) && Past(s, w, 1) ::
      hash(s.workers[v].key) != hash(s.workers[w].key)
  }

  ghost predicate Inv(hash: Key -> int, s: State) {
    && LedgerInv(s) && SourceInv(s) && CountInv(s) && LockInv(hash, s)
    && forall w | w in s.workers :: WorkerInv(s, s.workers[w])
  }

  // ---------------------------------------------------------------- preservation

  lemma CommitKeepsLedger(s: State, w: WorkerId)
    requires LedgerInv(s) && w in s.workers && WorkerInv(s, s.workers[w]) && InTxn(s, w, Recorded)
    ensures LedgerInv(Publish(s, w))
  {
    var t, s' := s.workers[w].txn.value, Publish(s, w);
    ReplayAppend(s.ledger, MergeRecord(t.from, t.into, |t.moved|));
    assert t.from !in MergedInto(s.opps) && t.into !in MergedInto(s.opps);
    assert MergedInto(s'.opps) == MergedInto(s.opps)[t.from := t.into];
  }

  lemma CommitKeepsOwners(s: State, w: WorkerId)
    requires SourceInv(s) && w in s.workers && WorkerInv(s, s.workers[w]) && InTxn(s, w, Recorded)
    ensures SourceInv(Publish(s, w))
  {
    var t := s.workers[w].txn.value;
    ReplayAppend(s.ledger, MergeRecord(t.from, t.into, |t.moved|));
  }

  lemma CommitKeepsCounts(s: State, w: WorkerId)
    requires SourceInv(s) && CountInv(s)
    requires w in s.workers && WorkerInv(s, s.workers[w]) && InTxn(s, w, Recorded)
    ensures CountInv(Publish(s, w))
  {
    var t, s' := s.workers[w].txn.value, Publish(s, w);
    assert RootedAt(s.ledger, s.firstOwner, t.from) == t.moved;
    forall i | 0 <= i < |s'.ledger|
      ensures s'.ledger[i].moved == |RootedAt(s'.ledger[..i], s'.firstOwner, s'.ledger[i].from)|
    {
      assert s'.ledger[..i] == s.ledger[..i];
    }
  }

  /** Workers in other blocks do not notice a commit, because blocks do not share rows. */
  lemma CommitKeepsOthers(hash: Key -> int, s: State, w: WorkerId, v: WorkerId)
    requires LockInv(hash, s) && w in s.workers && WorkerInv(s, s.workers[w]) && InTxn(s, w, Recorded)
    requires v in s.workers && v != w && WorkerInv(s, s.workers[v])
    ensures WorkerInv(Publish(s, w), s.workers[v])
  {
    if Past(s, v, 2) {
      var mine, theirs := s.workers[w], s.workers[v];
      assert Past(s, v, 1) && Past(s, w, 1) && mine.key != theirs.key;
      assert theirs.txn.value.from != mine.txn.value.from;
      assert theirs.txn.value.from != mine.txn.value.into;
    }
  }

  lemma InsertKeepsTables(s: State, id: Id, src: Src)
    requires LedgerInv(s) && SourceInv(s) && id !in s.opps && src !in s.sources
    ensures LedgerInv(Inserted(s, id, src)) && SourceInv(Inserted(s, id, src))
  {
    var s' := Inserted(s, id, src);
    assert MergedInto(s'.opps) == MergedInto(s.opps);
    RootOfUnmentioned(s.ledger, id);
  }

  lemma InsertKeepsCounts(s: State, id: Id, src: Src)
    requires LedgerInv(s) && SourceInv(s) && CountInv(s) && id !in s.opps && src !in s.sources
    ensures CountInv(Inserted(s, id, src))
  {
    var s' := Inserted(s, id, src);
    forall i | 0 <= i < |s.ledger|
      ensures s.ledger[i].moved == |RootedAt(s.ledger[..i], s'.firstOwner, s.ledger[i].from)|
    {
      RootOfUnmentioned(s.ledger[..i], id);
      assert RootedAt(s.ledger[..i], s'.firstOwner, s.ledger[i].from)
          == RootedAt(s.ledger[..i], s.firstOwner, s.ledger[i].from);
    }
  }

  lemma InsertKeepsWorker(s: State, id: Id, src: Src, k: Worker)
    requires WorkerInv(s, k) && id !in s.opps && src !in s.sources
    ensures WorkerInv(Inserted(s, id, src), k)
  {
    if k.txn.Some? && k.txn.value.phase.Rank() >= 4 {
      assert OwnedBy(Inserted(s, id, src).sources, k.txn.value.from) == OwnedBy(s.sources, k.txn.value.from);
    }
  }

  /** Every statement of every worker keeps the invariant, as long as rechecked rows keep their block. */
  lemma StepKeepsInv(hash: Key -> int, s: State, e: Event)
    requires Inv(hash, s) && KeyStable(s, e)
    ensures Inv(hash, Next(hash, s, e))
  {
    if Enabled(hash, s, e) {
      match e
      case Commit(w) => CommitKeepsInv(hash, s, w);
      case InsertPosting(id, src) => InsertKeepsInv(hash, s, id, src);
      case SetBlockKey(id, newKey) => SetBlockKeyKeepsInv(hash, s, id, newKey);
      case _ => WorkerStepKeepsInv(hash, s, e);
    }
  }

  lemma CommitKeepsInv(hash: Key -> int, s: State, w: WorkerId)
    requires Inv(hash, s) && Enabled(hash, s, Commit(w))
    ensures Inv(hash, Next(hash, s, Commit(w)))
  {
    var s' := Publish(s, w);
    assert WorkerInv(s, s.workers[w]);
    CommitKeepsLedger(s, w);
    CommitKeepsOwners(s, w);
    CommitKeepsCounts(s, w);
    forall v | v in s'.workers
      ensures WorkerInv(s', s'.workers[v])
    {
      if v != w {
        CommitKeepsOthers(hash, s, w, v);
      }
    }
    assert forall v :: Past(s', v, 1) ==> Past(s, v, 1);
  }

  lemma InsertKeepsInv(hash: Key -> int, s: State, id: Id, src: Src)
    requires Inv(hash, s) && id !in s.opps && src !in s.sources
    ensures Inv(hash, Inserted(s, id, src))
  {
    InsertKeepsTables(s, id, src);
    InsertKeepsCounts(s, id, src);
    forall w | w in s.workers
      ensures WorkerInv(Inserted(s, id, src), s.workers[w])
    {
      InsertKeepsWorker(s, id, src, s.workers[w]);
    }
    assert forall v :: Past(Inserted(s, id, src), v, 1) ==> Past(s, v, 1);
  }

  lemma RekeyKeepsWorker(s: State, id: Id, newKey: Key, w: WorkerId)
    requires w in s.workers && WorkerInv(s, s.workers[w]) && id in s.opps
    requires Rechecked(s, w, id) ==> s.workers[w].key == newKey
    ensures WorkerInv(Rekeyed(s, id, newKey), s.workers[w])
  {
  }

  lemma RekeyKeepsTables(s: State, id: Id, newKey: Key)
    requires LedgerInv(s) && SourceInv(s) && CountInv(s) && id in s.opps
    ensures var s' := Rekeyed(s, id, newKey); LedgerInv(s') && SourceInv(s') && CountInv(s')
  {
    var s' := Rekeyed(s, id, newKey);
    assert MergedInto(s'.opps) == MergedInto(s.opps);
    assert CountInv(s') by { assert CountInv(s); }
  }

  lemma SetBlockKeyKeepsInv(hash: Key -> int, s: State, id: Id, newKey: Key)
    requires Inv(hash, s) && id in s.opps && KeyStable(s, SetBlockKey(id, newKey))
    ensures Inv(hash, Rekeyed(s, id, newKey))
  {
    var s' := Rekeyed(s, id, newKey);
    RekeyKeepsTables(s, id, newKey);
    forall w | w in s'.workers
      ensures WorkerInv(s', s'.workers[w])
    {
      RekeyKeepsWorker(s, id, newKey, w);
    }
    assert forall v :: Past(s', v, 1) ==> Past(s, v, 1);
  }

  ghost predicate SameTables(s: State, s': State) {
    s'.opps == s.opps && s'.sources == s.sources && s'.firstOwner == s.firstOwner && s'.ledger == s.ledger
  }

  /** A statement that only moves worker `w` along keeps the invariant if `w` itself is in order. */
  lemma OneWorkerMoves(hash: Key -> int, s: State, s': State, w: WorkerId)
    requires Inv(hash, s) && SameTables(s, s')
    requires forall v | v in s'.workers && v != w :: v in s.workers && s'.workers[v] == s.workers[v]
    requires w in s'.workers ==> WorkerInv(s, s'.workers[w])
    requires Past(s', w, 1) ==> forall v | v in s.workers && v != w && Past(s, v, 1) ::
             hash(s.workers[v].key) != hash(s'.workers[w].key)
    ensures Inv(hash, s')
  {
    assert CountInv(s') by { assert CountInv(s); }
    assert forall v | v in s'.workers && v != w :: Past(s', v, 1) ==> Past(s, v, 1);
    forall v | v in s'.workers
      ensures WorkerInv(s', s'.workers[v])
    {
      if v != w {
        assert WorkerInv(s, s.workers[v]);
      }
    }
  }

  predicate IsWorkerStep(e: Event) {
    !e.Commit? && !e.InsertPosting? && !e.SetBlockKey?
  }

  lemma WorkerStepLeavesOthers(hash: Key -> int, s: State, e: Event)
    requires IsWorkerStep(e)
    ensures SameTables(s, Next(hash, s, e))
    ensures forall v | v in Next(hash, s, e).workers && v != e.w ::
            v in s.workers && Next(hash, s, e).workers[v] == s.workers[v]
  {
  }

  lemma WorkerStaysInOrder(hash: Key -> int, s: State, e: Event)
    requires IsWorkerStep(e) && Enabled(hash, s, e) && KeyStable(s, e)
    requires e.w in s.workers ==> WorkerInv(s, s.workers[e.w])
    ensures e.w in Next(hash, s, e).workers ==> WorkerInv(s, Next(hash, s, e).workers[e.w])
  {
  }

  /** A worker is inside the lock after a statement only if it was before, or has just been granted it. */
  lemma WorkerKeepsTheLock(hash: Key -> int, s: State, e: Event)
    requires IsWorkerStep(e) && Enabled(hash, s, e)
    ensures Past(Next(hash, s, e), e.w, 1) ==>
            (Past(s, e.w, 1) || e.LockBlock?) && Next(hash, s, e).workers[e.w].key == s.workers[e.w].key
  {
  }

  lemma WorkerStepKeepsInv(hash: Key -> int, s: State, e: Event)
    requires Inv(hash, s) && Enabled(hash, s, e) && KeyStable(s, e) && IsWorkerStep(e)
    ensures Inv(hash, Next(hash, s, e))
  {
    WorkerStepLeavesOthers(hash, s, e);
    WorkerStaysInOrder(hash, s, e);
    WorkerKeepsTheLock(hash, s, e);
    OneWorkerMoves(hash, s, Next(hash, s, e), e.w);
  }
}
