/**
 The merge tables and the code that writes them: one method per SQL statement,
 `Merge` as the deduper runs it, and the block sweep on top.
 */
module MergeStore {
  import opened Options
  import opened MergeForest
  import opened MergeProtocol
  import D = Decide

  /** One row of `ListBlockMembers`. The join with source rows can list an id more than once. */
  datatype Member = Member(id: Id, firstSeen: int, candidate: D.Candidate)

  datatype Outcome = Merged | VersionConflict | ConstraintViolation

  /** ORDER BY first_seen_at, id. */
  predicate Earlier(a: Member, b: Member) {
    a.firstSeen < b.firstSeen || (a.firstSeen == b.firstSeen && a.id < b.id)
  }

  /** By first sighting and then by id: an order in which any two rows of different ids have one place each. */
  lemma EarlierIsAnOrder(a: Member, b: Member, c: Member)
    ensures a.firstSeen < b.firstSeen ==> Earlier(a, b)
    ensures a.firstSeen == b.firstSeen ==> (Earlier(a, b) <==> a.id < b.id)
    ensures !(Earlier(a, b) && Earlier(b, a)) && (Earlier(a, b) && Earlier(b, c) ==> Earlier(a, c))
  {
  }

  ghost predicate Listed(members: seq<Member>) {
    forall i, j :: 0 <= i < j < |members| ==> Earlier(members[i], members[j]) || members[i].id == members[j].id
  }

  ghost predicate DistinctIds(members: seq<Member>) {
    forall i, j :: 0 <= i < j < |members| ==> members[i].id != members[j].id
  }

  /** No other worker holds the advisory lock this worker needs. */
  ghost predicate LockFree(hash: Key -> int, s: State, w: WorkerId) {
    w in s.workers && forall v | v in s.workers && v != w && Past(s, v, 1) ::
        hash(s.workers[v].key) != hash(s.workers[w].key)
  }

  /** No other open merge has touched the row or its source rows. */
  ghost predicate RowsFree(s: State, w: WorkerId, from: Id) {
    && (forall v | v in s.workers && v != w && Past(s, v, 4) ::
        s.workers[v].txn.value.moved !! OwnedBy(s.sources, from))
    && (forall v | v in s.workers && v != w && Past(s, v, 5) :: s.workers[v].txn.value.from != from)
  }

  /** The worker holds both rows, they are still in its block, and the block's lock is free. */
  ghost predicate Mergeable(hash: Key -> int, s: State, w: WorkerId, from: Id, into: Id) {
    && Inv(hash, s) && LockFree(hash, s, w) && s.workers[w].txn.None?
    && from in s.workers[w].ids && into in s.workers[w].ids
    && InBlock(s, from, s.workers[w].key) && InBlock(s, into, s.workers[w].key)
  }

  class Database {
    var opps: map<Id, Opp>
    var sources: map<Src, Id>
    ghost var firstOwner: map<Src, Id>
    var ledger: seq<MergeRecord>
    var workers: map<WorkerId, Worker>
    var reviewQueue: set<(Id, Id)>

    ghost function Snapshot(): State
      reads this
    {
      State(opps, sources, firstOwner, ledger, workers)
    }

    constructor ()
      ensures Snapshot() == Empty && reviewQueue == {}
    {
      opps, sources, firstOwner, ledger, workers, reviewQueue := map[], map[], map[], [], map[], {};
    }

    // -------------------------------------------------------------- one method per statement

    method SetPhase(w: WorkerId, txn: Option<Txn>)
      requires w in workers
      modifies this`workers
      ensures Snapshot() == SetTxn(old(Snapshot()), w, txn)
    {
      workers := workers[w := workers[w].(txn := txn)];
    }

    method LockBlock(ghost hash: Key -> int, w: WorkerId)
      requires Enabled(hash, Snapshot(), Event.LockBlock(w))
      modifies this`workers
      ensures Snapshot() == Next(hash, old(Snapshot()), Event.LockBlock(w))
    {
      SetPhase(w, Some(workers[w].txn.value.(phase := Locked)));
    }

    method IsUnmerged(id: Id) returns (unmerged: bool)
      requires id in opps
      ensures unmerged == Unmerged(Snapshot(), id)
    {
      unmerged := opps[id].mergedInto.None?;
    }

    /** UPDATE opportunity_source; returns the number of rows touched. */
    method MoveSourceRows(ghost hash: Key -> int, w: WorkerId) returns (moved: nat)
      requires Enabled(hash, Snapshot(), Event.MoveSourceRows(w))
      modifies this`workers
      ensures Snapshot() == Next(hash, old(Snapshot()), Event.MoveSourceRows(w))
      ensures moved == |OwnedBy(sources, workers[w].txn.value.from)|
    {
      var t := workers[w].txn.value;
      var rows := OwnedBy(sources, t.from);
      moved := |rows|;
      SetPhase(w, Some(t.(phase := Moved, moved := rows)));
    }

    /** UPDATE opportunity ... AND merged_into IS NULL; on no rows the caller rolls back. */
    method MarkMerged(ghost hash: Key -> int, w: WorkerId) returns (marked: nat)
      requires Enabled(hash, Snapshot(), Event.MarkMerged(w)) && workers[w].txn.value.from in opps
      modifies this`workers
      ensures Snapshot() == Next(hash, old(Snapshot()), Event.MarkMerged(w))
      ensures marked == if Unmerged(old(Snapshot()), old(workers)[w].txn.value.from) then 1 else 0
    {
      var t := workers[w].txn.value;
      if opps[t.from].mergedInto.None? {
        marked := 1;
        SetPhase(w, Some(t.(phase := Marked)));
      } else {
        marked := 0;
        SetPhase(w, None);
      }
    }

    /** INSERT INTO opportunity_merge; the CHECK refuses a row that merges into itself. */
    method RecordMerge(ghost hash: Key -> int, w: WorkerId) returns (ok: bool)
      requires Enabled(hash, Snapshot(), Event.RecordMerge(w))
      modifies this`workers
      ensures Snapshot() == Next(hash, old(Snapshot()), Event.RecordMerge(w))
      ensures ok == (old(workers)[w].txn.value.from != old(workers)[w].txn.value.into)
    {
      var t := workers[w].txn.value;
      ok := t.from != t.into;
      SetPhase(w, if ok then Some(t.(phase := Recorded)) else None);
    }

    method Commit(ghost hash: Key -> int, w: WorkerId)
      requires Enabled(hash, Snapshot(), Event.Commit(w)) && workers[w].txn.value.from in opps
      modifies this`opps, this`sources, this`ledger, this`workers
      ensures Snapshot() == Publish(old(Snapshot()), w) == Next(hash, old(Snapshot()), Event.Commit(w))
    {
      var t := workers[w].txn.value;
      opps := opps[t.from := opps[t.from].(mergedInto := Some(t.into))];
      sources := map src | src in sources :: if src in t.moved then t.into else sources[src];
      ledger := ledger + [MergeRecord(t.from, t.into, |t.moved|)];
      workers := workers[w := workers[w].(txn := None)];
    }

    // -------------------------------------------------------------- Deduper.merge

    // Merges of other blocks may be anywhere in their transactions: `LockFree` and
    // `RowsFree` say that this block's lock and the rows of the merge are not theirs.

    /** Takes the block lock. */
    method BeginAndLock(ghost hash: Key -> int, w: WorkerId, from: Id, into: Id)
      requires LockFree(hash, Snapshot(), w) && w in workers && from in workers[w].ids && into in workers[w].ids
      modifies this`workers
      ensures Snapshot() == SetTxn(old(Snapshot()), w, Some(Txn(from, into, Locked, {})))
    {
      SetPhase(w, Some(Txn(from, into, Begun, {})));
      LockBlock(hash, w);
    }

    /** Re-reads both sides; on a merged side the transaction is rolled back. */
    method Recheck(w: WorkerId, from: Id, into: Id) returns (ok: bool)
      requires w in workers && workers[w].txn == Some(Txn(from, into, Locked, {})) && from in opps && into in opps
      modifies this`workers
      ensures ok == (Unmerged(old(Snapshot()), from) && Unmerged(old(Snapshot()), into))
      ensures Snapshot() == SetTxn(old(Snapshot()), w, if ok then Some(Txn(from, into, CheckedInto, {})) else None)
    {
      ghost var s := Snapshot();
      var both := [from, into];
      for k := 0 to 2
        invariant Snapshot() == SetTxn(s, w, Some(Txn(from, into, if k == 0 then Locked else if k == 1
                  then CheckedFrom else CheckedInto, {})))
        invariant forall m :: 0 <= m < k ==> Unmerged(s, both[m])
      {
        var unmerged := IsUnmerged(both[k]);
        if !unmerged {
          SetPhase(w, None);
          return false;
        }
        SetPhase(w, Some(Txn(from, into, if k == 0 then CheckedFrom else CheckedInto, {})));
      }
      assert Unmerged(s, both[0]) && Unmerged(s, both[1]);
      return true;
    }

    /** Marks and records; a self-merge is refused by the ledger and rolled back. */
    method MarkAndRecord(ghost hash: Key -> int, w: WorkerId, from: Id, into: Id, ghost moved: set<Src>)
      returns (ok: bool)
      requires RowsFree(Snapshot(), w, from) && w in workers && workers[w].txn == Some(Txn(from, into, Moved, moved))
      requires Unmerged(Snapshot(), from)
      modifies this`workers
      ensures ok == (from != into)
      ensures Snapshot() == SetTxn(old(Snapshot()), w, if ok then Some(Txn(from, into, Recorded, moved)) else None)
    {
      ghost var s := Snapshot();
      var marked := MarkMerged(hash, w);
      assert marked == 1 && Snapshot() == SetTxn(s, w, Some(Txn(from, into, Marked, moved)));
      ok := RecordMerge(hash, w);
    }

    method LockAndRecheck(ghost hash: Key -> int, w: WorkerId, from: Id, into: Id) returns (ok: bool)
      requires LockFree(hash, Snapshot(), w) && w in workers && from in opps && into in opps
      requires from in workers[w].ids && into in workers[w].ids
      modifies this`workers
      ensures ok == (Unmerged(old(Snapshot()), from) && Unmerged(old(Snapshot()), into))
      ensures Snapshot() == SetTxn(old(Snapshot()), w, if ok then Some(Txn(from, into, CheckedInto, {})) else None)
    {
      BeginAndLock(hash, w, from, into);
      ok := Recheck(w, from, into);
    }

    method MoveMarkRecord(ghost hash: Key -> int, w: WorkerId, from: Id, into: Id) returns (ok: bool)
      requires RowsFree(Snapshot(), w, from) && w in workers && workers[w].txn == Some(Txn(from, into, CheckedInto, {}))
      requires Unmerged(Snapshot(), from)
      modifies this`workers
      ensures ok == (from != into)
      ensures Snapshot() == SetTxn(old(Snapshot()), w, if ok
              then Some(Txn(from, into, Recorded, OwnedBy(sources, from))) else None)
    {
      var _ := MoveSourceRows(hash, w);
      ok := MarkAndRecord(hash, w, from, into, OwnedBy(sources, from));
    }

    /** The whole transaction, run while no other worker holds the block's lock. */
    method Merge(ghost hash: Key -> int, w: WorkerId, from: Id, into: Id) returns (outcome: Outcome)
      requires LockFree(hash, Snapshot(), w) && RowsFree(Snapshot(), w, from)
      requires workers[w].txn.None? && from in opps && into in opps && from in workers[w].ids && into in workers[w].ids
      modifies this`opps, this`sources, this`ledger, this`workers
      ensures outcome == MergeOutcome(old(Snapshot()), from, into)
      ensures Snapshot() == if outcome == Merged then Publish(Ready(old(Snapshot()), w, from, into), w)
              else old(Snapshot())
    {
      ghost var s := Snapshot();
      var ok := LockAndRecheck(hash, w, from, into);
      if !ok {
        assert workers == s.workers;
        return VersionConflict;
      }
      ok := MoveMarkRecord(hash, w, from, into);
      if !ok {
        assert workers == s.workers;
        return ConstraintViolation;
      }
      Commit(hash, w);
      return Merged;
    }
  }

  function MergeOutcome(s: State, from: Id, into: Id): Outcome {
    if !Unmerged(s, from) || !Unmerged(s, into) then VersionConflict
    else if from == into then ConstraintViolation
    else Merged
  }

  /** The effect of one merge on the tables. */
  ghost predicate MergedOne(s: State, t: State, from: Id, into: Id) {
    && from in s.opps && into in s.opps && from != into
    && t.opps == s.opps[from := s.opps[from].(mergedInto := Some(into))]
    && t.sources == (map src | src in s.sources :: if s.sources[src] == from then into else s.sources[src])
    && t.firstOwner == s.firstOwner
    && t.ledger == s.ledger + [MergeRecord(from, into, |OwnedBy(s.sources, from)|)]
  }

  function Ready(s: State, w: WorkerId, from: Id, into: Id): State
    requires w in s.workers
  {
    SetTxn(s, w, Some(Txn(from, into, Recorded, OwnedBy(s.sources, from))))
  }

  /**
   A worker whose block nobody else is merging can run the whole transaction: merges of other
   blocks have other rows.
   */
  lemma OtherBlocksOtherRows(hash: Key -> int, s: State, w: WorkerId, from: Id, into: Id)
    requires Mergeable(hash, s, w, from, into)
    ensures RowsFree(s, w, from) && from in s.opps && into in s.opps
  {
    forall v | v in s.workers && v != w && Past(s, v, 4)
      ensures s.workers[v].txn.value.from != from && s.workers[v].txn.value.moved !! OwnedBy(s.sources, from)
    {
      assert WorkerInv(s, s.workers[v]) && Past(s, v, 1);
    }
  }

  /** A merge run while its block's lock is free keeps the protocol's invariant and does what it says. */
  lemma MergeKeepsInv(hash: Key -> int, s: State, w: WorkerId, from: Id, into: Id)
    requires Mergeable(hash, s, w, from, into) && MergeOutcome(s, from, into) == Merged
    ensures var t := Publish(Ready(s, w, from, into), w);
            Inv(hash, t) && t.workers == s.workers && MergedOne(s, t, from, into)
  {
    var ready := Ready(s, w, from, into);
    assert WorkerInv(s, s.workers[w]);
    OneWorkerMoves(hash, s, ready, w);
    assert Enabled(hash, ready, Event.Commit(w));
    CommitKeepsInv(hash, ready, w);
    CommitPublishes(s, w, from, into);
  }

  lemma CommitPublishes(s: State, w: WorkerId, from: Id, into: Id)
    requires w in s.workers && s.workers[w].txn.None? && from in s.opps && into in s.opps && from != into
    ensures var t := Publish(Ready(s, w, from, into), w);
            t.workers == s.workers && MergedOne(s, t, from, into)
  {
  }
}
