/**
 The shape a merge ledger leaves behind.

 `opportunity.merged_into` is a partial function from rows to rows, and
 `opportunity_merge` lists the links in the order they were committed. This
 module is the theory of such ledgers: when a ledger is sound, the links form a
 forest whose roots are exactly the unmerged rows.
 */
module MergeForest {
  type Id = nat

  /** One row of `opportunity_merge`: who merged into whom, and how many source rows moved. */
  datatype MergeRecord = MergeRecord(from: Id, into: Id, moved: nat)

  /** `merged_into`, rebuilt by replaying a ledger from the start. */
  function Links(ledger: seq<MergeRecord>): map<Id, Id> {
    if |ledger| == 0 then map[] else
    var last := ledger[|ledger| - 1];
    Links(ledger[..|ledger| - 1])[last.from := last.into]
  }

  /** Every record joined two different rows that were both unmerged at the time. */
  ghost predicate Sound(ledger: seq<MergeRecord>) {
    |ledger| == 0 ||
    var front, last := ledger[..|ledger| - 1], ledger[|ledger| - 1];
    Sound(front) && last.from != last.into && last.from !in Links(front) && last.into !in Links(front)
  }

  /** The row that stands for `id` once the whole ledger has been applied. */
  function Root(ledger: seq<MergeRecord>, id: Id): Id {
    if |ledger| == 0 then id else
    var r := Root(ledger[..|ledger| - 1], id);
    var last := ledger[|ledger| - 1];
    if r == last.from then last.into else r
  }

  /** `p` follows the links step by step. */
  ghost predicate IsPath(m: map<Id, Id>, p: seq<Id>) {
    |p| > 0 && forall i :: 0 <= i < |p| - 1 ==> p[i] in m && m[p[i]] == p[i + 1]
  }

  ghost predicate Connects(m: map<Id, Id>, p: seq<Id>, a: Id, b: Id) {
    IsPath(m, p) && p[0] == a && p[|p| - 1] == b
  }

  ghost predicate Acyclic(m: map<Id, Id>) {
    forall p | IsPath(m, p) && |p| >= 2 :: p[0] != p[|p| - 1]
  }

  /** Appending a record replays as one more link and one more hop of `Root`. */
  lemma ReplayAppend(ledger: seq<MergeRecord>, r: MergeRecord)
    ensures Links(ledger + [r]) == Links(ledger)[r.from := r.into]
    ensures forall id :: Root(ledger + [r], id) == if Root(ledger, id) == r.from then r.into else Root(ledger, id)
    ensures Sound(ledger + [r]) <==>
            Sound(ledger) && r.from != r.into && r.from !in Links(ledger) && r.into !in Links(ledger)
  {
    assert (ledger + [r])[..|ledger|] == ledger;
  }

  /** Every chain of links ends, within one hop per record, in the unmerged row `Root` names. */
  lemma {:induction false} ChainsEndInRoots(ledger: seq<MergeRecord>, id: Id)
    requires Sound(ledger)
    ensures Root(ledger, id) !in Links(ledger)
    ensures exists p :: |p| <= |ledger| + 1 && Connects(Links(ledger), p, id, Root(ledger, id))
  {
    if |ledger| == 0 {
      assert Connects(Links(ledger), [id], id, id);
    } else {
      var front, last := ledger[..|ledger| - 1], ledger[|ledger| - 1];
      ChainsEndInRoots(front, id);
      var p :| |p| <= |front| + 1 && Connects(Links(front), p, id, Root(front, id));
      var q := if Root(front, id) == last.from then p + [last.into] else p;
      assert Connects(Links(ledger), q, id, Root(ledger, id));
    }
  }

  /** No walk along the links of a sound ledger comes back to where it started. */
  lemma {:induction false} SoundLedgersAreAcyclic(ledger: seq<MergeRecord>)
    requires Sound(ledger)
    ensures Acyclic(Links(ledger))
  {
    if |ledger| > 0 {
      var front, last := ledger[..|ledger| - 1], ledger[|ledger| - 1];
      SoundLedgersAreAcyclic(front);
      forall p | IsPath(Links(ledger), p) && |p| >= 2
        ensures p[0] != p[|p| - 1]
      {
        if forall i :: 0 <= i < |p| - 1 ==> p[i] != last.from {
          assert IsPath(Links(front), p);
        } else {
          // The new link ends in an unmerged row, so the walk stops right after it.
          var i :| 0 <= i < |p| - 1 && p[i] == last.from;
          assert p[i + 1] == last.into && i + 1 == |p| - 1;
        }
      }
    }
  }

  /** A row is linked exactly when the ledger has a record for it, and then exactly one. */
  lemma {:induction false} OneRecordPerMergedRow(ledger: seq<MergeRecord>, id: Id)
    requires Sound(ledger)
    ensures id in Links(ledger) <==> exists i :: 0 <= i < |ledger| && ledger[i].from == id
    ensures forall i, j :: 0 <= i < |ledger| && 0 <= j < |ledger| && ledger[i].from == id && ledger[j].from == id ==>
            i == j
    ensures forall i :: 0 <= i < |ledger| && ledger[i].from == id ==> Links(ledger)[id] == ledger[i].into
  {
    if |ledger| > 0 {
      var n := |ledger| - 1;
      var front := ledger[..n];
      OneRecordPerMergedRow(front, id);
      assert forall i :: 0 <= i < n ==> ledger[i] == front[i];
      if id == ledger[n].from {
        assert forall i :: 0 <= i < n ==> front[i].from != id;
      } else if id in Links(front) {
        var i :| 0 <= i < n && front[i].from == id;
        assert ledger[i].from == id;
      }
    }
  }

  /** Replaying a prefix says nothing about rows the ledger never mentions. */
  lemma {:induction false} RootOfUnmentioned(ledger: seq<MergeRecord>, id: Id)
    requires forall i :: 0 <= i < |ledger| ==> ledger[i].from != id
    ensures Root(ledger, id) == id
  {
    if |ledger| > 0 {
      RootOfUnmentioned(ledger[..|ledger| - 1], id);
    }
  }

  /** Roots stay inside any set of rows that contains the row itself and every target. */
  lemma {:induction false} RootStaysWithin(ledger: seq<MergeRecord>, id: Id, rows: set<Id>)
    requires id in rows
    requires forall i :: 0 <= i < |ledger| ==> ledger[i].into in rows
    ensures Root(ledger, id) in rows
  {
    if |ledger| > 0 {
      RootStaysWithin(ledger[..|ledger| - 1], id, rows);
    }
  }

  /** Cutting a walk at its first visit to `a` leaves a walk that never uses the link out of `a`. */
  lemma {:induction false} StopAtFirst(m: map<Id, Id>, a: Id, b: Id, p: seq<Id>)
    requires |p| > 0 && a !in m && Connects(m[a := b], p, p[0], a)
    ensures exists q :: Connects(m, q, p[0], a)
  {
    if p[0] == a {
      assert Connects(m, [a], a, a);
    } else {
      assert Connects(m[a := b], p[1..], p[1], a);
      StopAtFirst(m, a, b, p[1..]);
      var q :| Connects(m, q, p[1], a);
      assert Connects(m, [p[0]] + q, p[0], a);
    }
  }

  lemma AvoidsTheLink(m: map<Id, Id>, a: Id, b: Id, p: seq<Id>)
    requires IsPath(m[a := b], p) && forall i :: 0 <= i < |p| - 1 ==> p[i] != a
    ensures IsPath(m, p)
  {
  }

  lemma ThroughTheLink(m: map<Id, Id>, a: Id, b: Id, p: seq<Id>)
    requires Connects(m, p, b, a) && a !in m
    ensures IsPath(m[a := b], [a] + p)
  {
    var loop := [a] + p;
    forall i | 0 <= i < |loop| - 1
      ensures loop[i] in m[a := b] && m[a := b][loop[i]] == loop[i + 1]
    {
      if i > 0 {
        assert loop[i] == p[i - 1] && loop[i + 1] == p[i];
      }
    }
  }

  /** A walk that returns to its start, read from the new link round to the new link. */
  lemma CycleThroughLink(m: map<Id, Id>, a: Id, b: Id, p: seq<Id>, i: nat)
    requires IsPath(m[a := b], p) && i + 1 < |p| && p[0] == p[|p| - 1] && p[i] == a
    ensures Connects(m[a := b], p[i + 1..] + p[1..i + 1], b, a)
  {
    var around, n := p[i + 1..] + p[1..i + 1], |p| - (i + 1);
    forall k | 0 <= k < |around|
      ensures around[k] == if k < n then p[i + 1 + k] else p[k - n + 1]
    {
    }
    forall k | 0 <= k < |around| - 1
      ensures around[k] in m[a := b] && m[a := b][around[k]] == around[k + 1]
    {
      if k == n - 1 {
        assert around[k] == p[0] && around[k + 1] == p[1];
      }
    }
  }

  lemma CycleLeadsBack(m: map<Id, Id>, a: Id, b: Id, p: seq<Id>)
    requires Acyclic(m) && a !in m && IsPath(m[a := b], p) && |p| >= 2 && p[0] == p[|p| - 1]
    ensures exists q :: Connects(m, q, b, a)
  {
    if forall i :: 0 <= i < |p| - 1 ==> p[i] != a {
      AvoidsTheLink(m, a, b, p);
    } else {
      var i :| 0 <= i < |p| - 1 && p[i] == a;
      CycleThroughLink(m, a, b, p, i);
      StopAtFirst(m, a, b, p[i + 1..] + p[1..i + 1]);
    }
  }

  /** Adding the link a -> b keeps a link map acyclic exactly when b does not already lead to a. */
  lemma LinkKeepsAcyclicIff(m: map<Id, Id>, a: Id, b: Id)
    requires Acyclic(m) && a !in m
    ensures Acyclic(m[a := b]) <==> !exists p :: Connects(m, p, b, a)
  {
    if p :| Connects(m, p, b, a) {
      ThroughTheLink(m, a, b, p);
      assert ([a] + p)[0] == ([a] + p)[|p|];
    }
    if p :| IsPath(m[a := b], p) && |p| >= 2 && p[0] == p[|p| - 1] {
      CycleLeadsBack(m, a, b, p);
    }
  }
}
