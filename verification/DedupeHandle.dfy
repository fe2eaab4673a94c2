/**
 The deduper's handler: one row against the candidates of its block, in the order
 the query returned them.
 */
module DedupeHandle {
  import opened Options
  import opened MergeForest
  import opened MergeProtocol
  import opened MergeStore
  import D = Decide

  type Decider = (D.Candidate, D.Candidate) -> D.Verdict

  /** `Proceed` lets the worker advance the row; `Handled` and `Conflict` leave it alone. */
  datatype HandleResult = Proceed | Handled | Conflict

  predicate Matches(decide: Decider, me: Member, c: Member) {
    decide(me.candidate, c.candidate).AutoApply()
  }

  /** Judged the same, but not confidently enough to merge without a human. */
  predicate Doubtful(decide: Decider, me: Member, c: Member) {
    decide(me.candidate, c.candidate).same && !Matches(decide, me, c)
  }

  /**
   What is done about a pair: merged from a confidence of 75 hundredths on, queued below it, passed
   over otherwise.
   */
  lemma WhatIsDoneAboutAPair(decide: Decider, me: Member, c: Member)
    ensures var v := decide(me.candidate, c.candidate);
            && (Matches(decide, me, c) <==> v.same && v.confidence >= 75)
            && (Doubtful(decide, me, c) <==> v.same && v.confidence < 75)
  {
  }

  /** The candidate the row is merged into, if any: the first automatic match in the list. */
  predicate IsChosen(decide: Decider, me: Member, cands: seq<Member>, k: nat) {
    k < |cands| && Matches(decide, me, cands[k]) && forall m :: 0 <= m < k ==> !Matches(decide, me, cands[m])
  }

  predicate NoneChosen(decide: Decider, me: Member, cands: seq<Member>) {
    forall m :: 0 <= m < |cands| ==> !Matches(decide, me, cands[m])
  }

  function DoubtfulPairs(decide: Decider, me: Member, cands: seq<Member>): set<(Id, Id)> {
    set c | c in cands && Doubtful(decide, me, c) :: (me.id, c.id)
  }

  /**
   What the worker's list looks like: rows it has read in the row's block, never the
   row itself, and every entry of a row with that row's first sighting.
   */
  ghost predicate Holds(hash: Key -> int, s: State, w: WorkerId, me: Member, cands: seq<Member>) {
    && Inv(hash, s)
    && (forall c | c in cands :: Mergeable(hash, s, w, me.id, c.id) && c.id != me.id)
    && (forall c, d | c in cands && d in cands && c.id == d.id :: c.firstSeen == d.firstSeen)
  }

  /** The record says that the row went into an older candidate. */
  ghost predicate IntoOlder(me: Member, cands: seq<Member>, r: MergeRecord) {
    exists c | c in cands :: c.id == r.into && Earlier(c, me)
  }

  ghost predicate FirstMatchIsOlder(decide: Decider, me: Member, cands: seq<Member>) {
    exists k: nat :: IsChosen(decide, me, cands, k) && Earlier(cands[k], me)
  }

  lemma AgeOfTheMerge(decide: Decider, me: Member, cands: seq<Member>, k: nat, r: MergeRecord)
    requires IsChosen(decide, me, cands, k) && r.into == cands[k].id
    requires forall c, d | c in cands && d in cands && c.id == d.id :: c.firstSeen == d.firstSeen
    ensures IntoOlder(me, cands, r) <==> FirstMatchIsOlder(decide, me, cands)
  {
    assert cands[k] in cands;
    if n: nat :| IsChosen(decide, me, cands, n) && Earlier(cands[n], me) {
      assert n == k;
    }
  }

  /** The merge of a chosen pair; a side merged meanwhile makes the handler yield. */
  method MergeInto(ghost hash: Key -> int, db: Database, w: WorkerId, me: Member, c: Member)
    returns (result: HandleResult)
    requires Mergeable(hash, db.Snapshot(), w, me.id, c.id) && c.id != me.id
    modifies db`opps, db`sources, db`ledger, db`workers
    ensures Inv(hash, db.Snapshot()) && db.workers == old(db.workers)
    ensures result == if Unmerged(old(db.Snapshot()), me.id) && Unmerged(old(db.Snapshot()), c.id) then Handled
            else Conflict
    ensures if result == Handled then MergedOne(old(db.Snapshot()), db.Snapshot(), me.id, c.id)
            else db.Snapshot() == old(db.Snapshot())
  {
    ghost var s := db.Snapshot();
    OtherBlocksOtherRows(hash, s, w, me.id, c.id);
    var outcome := db.Merge(hash, w, me.id, c.id);
    if outcome != Merged {
      return Conflict;
    }
    MergeKeepsInv(hash, s, w, me.id, c.id);
    result := Handled;
  }

  /** The loop over the candidates, up to the first automatic match; doubtful pairs on the way are queued for review. */
  method Scan(decide: Decider, db: Database, me: Member, cands: seq<Member>) returns (chosen: nat)
    modifies db`reviewQueue
    ensures if chosen == |cands| then NoneChosen(decide, me, cands) else IsChosen(decide, me, cands, chosen)
    ensures chosen <= |cands| && db.reviewQueue == old(db.reviewQueue) + DoubtfulPairs(decide, me, cands[..chosen])
  {
    for k := 0 to |cands|
      invariant forall m :: 0 <= m < k ==> !Matches(decide, me, cands[m])
      invariant db.reviewQueue == old(db.reviewQueue) + DoubtfulPairs(decide, me, cands[..k])
    {
      var c := cands[k];
      var v := decide(me.candidate, c.candidate);
      OneMorePair(decide, me, cands, k);
      if !v.same {
        continue;
      }
      if !v.AutoApply() {
        db.reviewQueue := db.reviewQueue + {(me.id, c.id)};
        continue;
      }
      return k;
    }
    chosen := |cands|;
  }

  /**
   At most one merge, of this row into the first automatic match, and only if both
   are still unmerged. The merge goes into an older row if and only if that first
   match happens to be older.
   */
  method Handle(ghost hash: Key -> int, decide: Decider, db: Database, w: WorkerId, me: Member, cands: seq<Member>)
    returns (result: HandleResult, ghost chosen: nat)
    requires Holds(hash, db.Snapshot(), w, me, cands)
    modifies db
    ensures Inv(hash, db.Snapshot()) && db.workers == old(db.workers)
    ensures chosen == |cands| <==> result == Proceed
    ensures if result == Proceed then NoneChosen(decide, me, cands) else IsChosen(decide, me, cands, chosen)
    ensures result == if NoneChosen(decide, me, cands) then Proceed
                      else if Unmerged(old(db.Snapshot()), me.id) && Unmerged(old(db.Snapshot()), cands[chosen].id)
                          then Handled
                      else Conflict
    ensures result == Handled ==> MergedOne(old(db.Snapshot()), db.Snapshot(), me.id, cands[chosen].id)
    ensures result == Handled ==>
              (IntoOlder(me, cands, db.ledger[|db.ledger| - 1]) <==> FirstMatchIsOlder(decide, me, cands))
    ensures result != Handled ==> db.Snapshot() == old(db.Snapshot())
    ensures chosen <= |cands| && db.reviewQueue == old(db.reviewQueue) + DoubtfulPairs(decide, me, cands[..chosen])
  {
    ghost var s := db.Snapshot();
    var k := Scan(decide, db, me, cands);
    assert db.Snapshot() == s;
    chosen := k;
    if k == |cands| {
      return Proceed, chosen;
    }
    assert cands[k] in cands;
    result := MergeInto(hash, db, w, me, cands[k]);
    if result == Handled {
      AgeOfTheMerge(decide, me, cands, k, db.ledger[|db.ledger| - 1]);
    }
  }

  lemma OneMorePair(decide: Decider, me: Member, cands: seq<Member>, k: nat)
    requires k < |cands|
    ensures DoubtfulPairs(decide, me, cands[..k + 1])
         == DoubtfulPairs(decide, me, cands[..k]) + if Doubtful(decide, me, cands[k]) then {(me.id, cands[k].id)}
             else {}
  {
    assert cands[..k + 1] == cands[..k] + [cands[k]];
    assert forall c :: c in cands[..k + 1] <==> c in cands[..k] || c == cands[k];
  }

  // ---------------------------------------------------------------- a pair where age is ignored

  /** Two unmerged rows of one block, each with one source row, and a worker that has read both. */
  function TwoRows(key: Key, w: WorkerId, a: Id, b: Id): State {
    State(map[a := Opp(Some(key), None), b := Opp(Some(key), None)], map[0 := a, 1 := b], map[0 := a, 1 := b], [],
          map[w := Worker(key, {a, b}, None)])
  }

  lemma TwoRowsHold(hash: Key -> int, key: Key, w: WorkerId, older: Member, newer: Member)
    requires older.id != newer.id
    ensures Holds(hash, TwoRows(key, w, older.id, newer.id), w, older, [newer])
    ensures OwnedBy(TwoRows(key, w, older.id, newer.id).sources, older.id) == {0}
  {
    var s := TwoRows(key, w, older.id, newer.id);
    assert MergedInto(s.opps) == map[];
    assert forall c :: c in [newer] <==> c == newer;
  }

  lemma HashesMatch(lower: char -> char, a: D.Candidate, b: D.Candidate)
    requires a.companyId == b.companyId != "" && a.contentHash == b.contentHash && |a.contentHash| > 0
    requires !D.GeoConflict(a, b)
    ensures D.Decide(lower, a, b).AutoApply()
  {
  }

  method TwoRowDatabase(key: Key, w: WorkerId, a: Id, b: Id) returns (db: Database)
    ensures fresh(db) && db.Snapshot() == TwoRows(key, w, a, b)
  {
    db := new Database();
    db.opps := map[a := Opp(Some(key), None), b := Opp(Some(key), None)];
    db.sources := map[0 := a, 1 := b];
    db.firstOwner := map[0 := a, 1 := b];
    db.workers := map[w := Worker(key, {a, b}, None)];
  }

  lemma TwoRowsMerged(key: Key, w: WorkerId, older: Member, newer: Member, t: State)
    requires Earlier(older, newer) && older.id != newer.id
    requires MergedOne(TwoRows(key, w, older.id, newer.id), t, older.id, newer.id)
    ensures t.ledger == [MergeRecord(older.id, newer.id, 1)] && !IntoOlder(older, [newer], t.ledger[0])
    ensures !Unmerged(t, older.id) && Unmerged(t, newer.id)
  {
    assert OwnedBy(TwoRows(key, w, older.id, newer.id).sources, older.id) == {0};
  }

  /**
   The handler has no regard for age. For any two rows of one employer that share a
   content hash and have no conflicting scopes: on a database that holds just these,
   handling the older one merges it into the newer. Only the block sweep merges into
   the earlier row.
   */
  method OlderMergesIntoNewer(ghost hash: Key -> int, lower: char -> char, key: Key, w: WorkerId, older: Member,
          newer: Member)
    returns (db: Database, result: HandleResult)
    requires Earlier(older, newer) && older.id != newer.id
    requires older.candidate.companyId == newer.candidate.companyId != ""
    requires older.candidate.contentHash == newer.candidate.contentHash && |older.candidate.contentHash| > 0
    requires !D.GeoConflict(older.candidate, newer.candidate)
    ensures result == Handled && fresh(db)
    ensures db.ledger == [MergeRecord(older.id, newer.id, 1)]
    ensures !Unmerged(db.Snapshot(), older.id) && Unmerged(db.Snapshot(), newer.id)
    ensures !IntoOlder(older, [newer], db.ledger[0])
  {
    var decide: Decider := (a, b) => D.Decide(lower, a, b);
    db := TwoRowDatabase(key, w, older.id, newer.id);
    TwoRowsHold(hash, key, w, older, newer);
    HashesMatch(lower, older.candidate, newer.candidate);
    assert Matches(decide, older, [newer][0]);
    ghost var chosen;
    result, chosen := Handle(hash, decide, db, w, older, [newer]);
    TwoRowsMerged(key, w, older, newer, db.Snapshot());
  }
}
