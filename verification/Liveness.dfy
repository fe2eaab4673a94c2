/**
 Absence-based liveness: an opportunity is closed because polls that succeeded
 did not see it, and for no other reason.

 The machine below has one event per statement or transaction that touches the
 miss counter, the closed flag or the ownership of source rows. Polls of
 different sources, merges and ingests interleave freely.
 */
module Liveness {
  import opened Options

  type Id = nat
  type SourceId = nat
  type JobId = string

  const MAX_CONSECUTIVE_MISSES: nat := 2

  datatype Opp = Opp(misses: nat, closed: bool)

  datatype SourceKey = SourceKey(source: SourceId, job: JobId)

  /** `ats` is NULL unless the adapter names both the type and the job. */
  datatype SourceRow = SourceRow(owner: Id, contentHash: seq<int>, ats: Option<(string, string)>)

  datatype State = State(opps: map<Id, Opp>, sources: map<SourceKey, SourceRow>)

  datatype Posting = Posting(sourceJobId: JobId, atsType: string, atsJobId: string, title: string,
      contentHash: seq<int>)

  /** `Linked` to the row another source brought in; `Refused` when the insert of the source row fails. */
  datatype Outcome = Created | Updated | Unchanged | Linked | Refused

  datatype Event =
    | Upsert(source: SourceId, posting: Posting, newId: Id)
    | BumpMisses(source: SourceId, seen: set<JobId>)
    | CloseMissed
    | MoveSourceRows(from: Id, into: Id)

  const Empty := State(map[], map[])

  function AtsOf(p: Posting): Option<(string, string)> {
    if p.atsType == "" || p.atsJobId == "" then None else Some((p.atsType, p.atsJobId))
  }

  /** WHERE ats_type = $1 AND ats_job_id = $2, which no row meets when a parameter is NULL. */
  function AtsHolders(s: State, ats: Option<(string, string)>): set<SourceKey> {
    set k | k in s.sources && ats.Some? && s.sources[k].ats == ats
  }

  /** FindCanonicalByATS: the owner of some row that holds the pair. */
  ghost function FindCanonicalByATS(s: State, ats: Option<(string, string)>): (owner: Option<Id>)
    ensures owner.Some? <==> AtsHolders(s, ats) != {}
    ensures owner.Some? ==> exists k :: k in AtsHolders(s, ats) && s.sources[k].owner == owner.value
  {
    if AtsHolders(s, ats) == {} then None else
    var k :| k in AtsHolders(s, ats);
    Some(s.sources[k].owner)
  }

  /**
   InsertSourceRow; both unique keys guard it: (source_id, source_job_id), and the pair where
   neither part is NULL.
   */
  function InsertSourceRow(s: State, key: SourceKey, row: SourceRow): Option<State> {
    if key in s.sources || AtsHolders(s, row.ats) != {} then None else Some(s.(sources := s.sources[key := row]))
  }

  function InsertOpportunity(s: State, newId: Id): State {
    s.(opps := s.opps[newId := Opp(0, false)])
  }

  /** A posting new to its source: find or create its row, then insert the source row. The whole is one transaction. */
  ghost function Attach(s: State, source: SourceId, p: Posting, newId: Id): Option<State> {
    var key := SourceKey(source, p.sourceJobId);
    match FindCanonicalByATS(s, AtsOf(p))
    case Some(owner) => InsertSourceRow(s, key, SourceRow(owner, p.contentHash, AtsOf(p)))
    case None => InsertSourceRow(InsertOpportunity(s, newId), key, SourceRow(newId, p.contentHash, AtsOf(p)))
  }

  ghost function OutcomeOf(s: State, source: SourceId, p: Posting, newId: Id): Outcome {
    var key := SourceKey(source, p.sourceJobId);
    if key in s.sources then (if s.sources[key].contentHash == p.contentHash then Unchanged else Updated)
    else if Attach(s, source, p, newId).None? then Refused
    else if FindCanonicalByATS(s, AtsOf(p)).Some? then Linked
    else Created
  }

  /** A seen row is marked seen or updated; either way it is open again, with no misses. */
  function Touch(s: State, key: SourceKey, contentHash: seq<int>): State
    requires key in s.sources
  {
    State(s.opps[s.sources[key].owner := Opp(0, false)], s.sources[key := s.sources[key].(contentHash := contentHash)])
  }

  /** The transaction of one posting, rolled back when it is refused. */
  ghost function UpsertState(s: State, source: SourceId, p: Posting, newId: Id): State {
    var key := SourceKey(source, p.sourceJobId);
    if key in s.sources then Touch(s, key, p.contentHash)
    else match Attach(s, source, p, newId)
      case Some(s') => s'
      case None => s
  }

  /** The poll's source knows the opportunity, and the poll upserted none of its jobs there. */
  predicate Absent(s: State, source: SourceId, seen: set<JobId>, id: Id) {
    && (exists k | k in s.sources :: k.source == source && s.sources[k].owner == id)
    && (forall k | k in s.sources && k.source == source && s.sources[k].owner == id :: k.job !in seen)
  }

  function Bumped(s: State, source: SourceId, seen: set<JobId>): State {
    s.(opps := map id | id in s.opps ::
      if !s.opps[id].closed && Absent(s, source, seen, id) then s.opps[id].(misses := s.opps[id].misses + 1)
          else s.opps[id])
  }

  function Closed(s: State): State {
    s.(opps := map id | id in s.opps ::
      if s.opps[id].misses >= MAX_CONSECUTIVE_MISSES then s.opps[id].(closed := true) else s.opps[id])
  }

  predicate Enabled(s: State, e: Event) {
    match e
    case Upsert(source, p, newId) => newId !in s.opps
    case BumpMisses(source, seen) => true
    case CloseMissed => true
    case MoveSourceRows(from, into) => from in s.opps && into in s.opps
  }

  ghost function Next(s: State, e: Event): State {
    if !Enabled(s, e) then s else
    match e
    case Upsert(source, p, newId) => UpsertState(s, source, p, newId)
    case BumpMisses(source, seen) => Bumped(s, source, seen)
    case CloseMissed => Closed(s)
    case MoveSourceRows(from, into) =>
      s.(sources := map k | k in s.sources ::
          if s.sources[k].owner == from then s.sources[k].(owner := into) else s.sources[k])
  }

  ghost function Run(s: State, es: seq<Event>): State {
    if |es| == 0 then s else Next(Run(s, es[..|es| - 1]), es[|es| - 1])
  }

  // ---------------------------------------------------------------- history

  /** The jobs under which a source lists the opportunity. */
  function JobsAt(s: State, source: SourceId, id: Id): set<JobId> {
    set k | k in s.sources && k.source == source && s.sources[k].owner == id :: k.job
  }

  /** Some source row already holds the posting's ATS pair, and the posting names both of its parts. */
  predicate Taken(s: State, p: Posting) {
    |p.atsType| > 0 && |p.atsJobId| > 0 && exists k | k in s.sources ::
        s.sources[k].ats == Some((p.atsType, p.atsJobId))
  }

  /** The event is a sighting: one of the opportunity's source rows is seen again, or the opportunity is created. */
  predicate Sights(s: State, e: Event, id: Id) {
    && e.Upsert? && e.newId !in s.opps
    && var key := SourceKey(e.source, e.posting.sourceJobId);
       if key in s.sources then s.sources[key].owner == id else e.newId == id && !Taken(s, e.posting)
  }

  /** The event is a completed poll of a source that lists the opportunity, and it saw none of those jobs. */
  predicate Misses(s: State, e: Event, id: Id) {
    e.BumpMisses? && JobsAt(s, e.source, id) != {} && JobsAt(s, e.source, id) !! e.seen
  }

  /** Completed polls since the last sighting that should have shown the opportunity and did not. */
  ghost function Absences(s: State, es: seq<Event>, id: Id): nat {
    if |es| == 0 then 0 else
    var before, e := Run(s, es[..|es| - 1]), es[|es| - 1];
    var n := Absences(s, es[..|es| - 1], id);
    if Sights(before, e, id) then 0 else if Misses(before, e, id) then n + 1 else n
  }

  lemma AbsentIff(s: State, source: SourceId, seen: set<JobId>, id: Id)
    ensures Absent(s, source, seen, id) <==> JobsAt(s, source, id) != {} && JobsAt(s, source, id) !! seen
  {
    var jobs := JobsAt(s, source, id);
    if Absent(s, source, seen, id) {
      var k :| k in s.sources && k.source == source && s.sources[k].owner == id;
      assert k.job in jobs;
    }
    if jobs != {} && jobs !! seen {
      var job :| job in jobs;
      forall k | k in s.sources && k.source == source && s.sources[k].owner == id
        ensures k.job !in seen
      {
        assert k.job in jobs;
      }
    }
  }

  lemma TakenIff(s: State, p: Posting)
    ensures Taken(s, p) <==> AtsHolders(s, AtsOf(p)) != {}
  {
    if Taken(s, p) {
      var k :| k in s.sources && s.sources[k].ats == Some((p.atsType, p.atsJobId));
      assert k in AtsHolders(s, AtsOf(p));
    }
    if AtsHolders(s, AtsOf(p)) != {} {
      var k :| k in AtsHolders(s, AtsOf(p));
      assert s.sources[k].ats == Some((p.atsType, p.atsJobId));
    }
  }

  ghost predicate OwnersExist(s: State) {
    forall k | k in s.sources :: s.sources[k].owner in s.opps
  }

  /** While a row is open its counter is the number of absences; once closed there were enough of them. */
  ghost predicate Counts(o: Opp, absences: nat) {
    if o.closed then o.misses >= MAX_CONSECUTIVE_MISSES && absences >= o.misses else o.misses == absences
  }

  lemma {:induction false} MissesCountAbsences(es: seq<Event>, id: Id)
    ensures var s := Run(Empty, es);
            && OwnersExist(s)
            && (id in s.opps ==> Counts(s.opps[id], Absences(Empty, es, id)))
            && (id !in s.opps ==> Absences(Empty, es, id) == 0)
  {
    if |es| > 0 {
      var s, e := Run(Empty, es[..|es| - 1]), es[|es| - 1];
      MissesCountAbsences(es[..|es| - 1], id);
      StepCounts(s, e, id, Absences(Empty, es[..|es| - 1], id));
    }
  }

  lemma StepCounts(s: State, e: Event, id: Id, n: nat)
    requires OwnersExist(s) && (id in s.opps ==> Counts(s.opps[id], n)) && (id !in s.opps ==> n == 0)
    ensures var s' := Next(s, e);
            var n' := if Sights(s, e, id) then 0 else if Misses(s, e, id) then n + 1 else n;
            && OwnersExist(s')
            && (id in s'.opps ==> Counts(s'.opps[id], n'))
            && (id !in s'.opps ==> n' == 0)
  {
    match e
    case Upsert(source, p, newId) =>
      TakenIff(s, p);
      RefusedIffTheAtsIsTaken(s, source, p, newId);
    case BumpMisses(source, seen) => AbsentIff(s, source, seen, id);
    case _ =>
  }

  /**
   Main theorem. A closed opportunity has been missed by at least
   two completed polls since it was last seen, and as soon as
   the closing statement has run, every opportunity missed that often is closed.
   */
  lemma ClosedMeansMissed(es: seq<Event>, id: Id)
    requires id in Run(Empty, es).opps
    ensures Run(Empty, es).opps[id].closed ==> Absences(Empty, es, id) >= 2
    ensures |es| > 0 && es[|es| - 1].CloseMissed? ==>
              (Run(Empty, es).opps[id].closed <==> Absences(Empty, es, id) >= 2)
  {
    MissesCountAbsences(es, id);
    if |es| > 0 && es[|es| - 1].CloseMissed? {
      MissesCountAbsences(es[..|es| - 1], id);
    }
  }

  /** Only a completed poll raises a counter, only the statement after one closes a row, and a sighting undoes both. */
  lemma OnlyPollsCount(s: State, e: Event, id: Id)
    requires id in s.opps && OwnersExist(s)
    ensures id in Next(s, e).opps
    ensures var o, o' := s.opps[id], Next(s, e).opps[id];
            && (o'.misses > o.misses <==> Misses(s, e, id) && !o.closed)
            && (o'.misses > o.misses ==> o'.misses == o.misses + 1)
            && (o'.misses < o.misses ==> Sights(s, e, id))
            && (o'.closed && !o.closed <==> e.CloseMissed? && o.misses >= 2 && !o.closed)
            && (!o'.closed && o.closed ==> Sights(s, e, id))
            && (Sights(s, e, id) ==> o' == Opp(0, false))
  {
    match e
    case Upsert(source, p, newId) =>
      TakenIff(s, p);
      RefusedIffTheAtsIsTaken(s, source, p, newId);
    case BumpMisses(source, seen) => AbsentIff(s, source, seen, id);
    case _ =>
  }

  /** Merging hands the source rows over, with all they have stored, and changes nothing else. */
  lemma MovedRowsChangeHands(s: State, from: Id, into: Id, source: SourceId, id: Id)
    requires from in s.opps && into in s.opps && from != into
    ensures var s' := Next(s, MoveSourceRows(from, into));
            && s'.opps == s.opps && s'.sources.Keys == s.sources.Keys
            && (forall k | k in s.sources :: s'.sources[k].(owner := s.sources[k].owner) == s.sources[k])
            && JobsAt(s', source, from) == {}
            && JobsAt(s', source, into) == JobsAt(s, source, into) + JobsAt(s, source, from)
            && (id != from && id != into ==> JobsAt(s', source, id) == JobsAt(s, source, id))
  {
    var s' := Next(s, MoveSourceRows(from, into));
    assert forall k | k in s'.sources :: s'.sources[k].owner != from;
    forall job | job in JobsAt(s, source, into) + JobsAt(s, source, from)
      ensures job in JobsAt(s', source, into)
    {
      var k :| k in s.sources && k.source == source && k.job == job && s.sources[k].owner in {into, from};
      assert s'.sources[k].owner == into;
    }
    forall job | job in JobsAt(s, source, id) && id != from && id != into
      ensures job in JobsAt(s', source, id)
    {
      var k :| k in s.sources && k.source == source && k.job == job && s.sources[k].owner == id;
      assert s'.sources[k].owner == id;
    }
  }

  // ---------------------------------------------------------------- linking

  /** Whatever the tables hold: when the lookup finds a row to link to, inserting the source row fails. */
  lemma LinkingAlwaysFails(s: State, source: SourceId, p: Posting, newId: Id)
    requires FindCanonicalByATS(s, AtsOf(p)).Some? && SourceKey(source, p.sourceJobId) !in s.sources
    ensures Attach(s, source, p, newId).None?
    ensures OutcomeOf(s, source, p, newId) == Refused && Next(s, Upsert(source, p, newId)) == s
  {
  }

  /**
   So no posting is ever linked: one that its source already lists is updated or left as it is,
   by its content; one that is new to its source is refused exactly when its pair is taken.
   */
  lemma RefusedIffTheAtsIsTaken(s: State, source: SourceId, p: Posting, newId: Id)
    ensures var outcome, key := OutcomeOf(s, source, p, newId), SourceKey(source, p.sourceJobId);
            && outcome != Linked
            && (outcome == Refused <==> key !in s.sources && Taken(s, p))
            && (outcome == Created <==> key !in s.sources && !Taken(s, p))
            && (outcome == Unchanged <==> key in s.sources && s.sources[key].contentHash == p.contentHash)
            && (outcome == Updated <==> key in s.sources && s.sources[key].contentHash != p.contentHash)
  {
    TakenIff(s, p);
    if AtsHolders(s, AtsOf(p)) == {} {
      assert AtsHolders(InsertOpportunity(s, newId), AtsOf(p)) == {};
    }
  }

  /**
   What a posting leaves behind: a new row under its job, owned by the row it created, or its
   content in the old one.
   */
  lemma UpsertStores(s: State, source: SourceId, p: Posting, newId: Id, k: SourceKey)
    requires newId !in s.opps
    ensures var s', key := Next(s, Upsert(source, p, newId)), SourceKey(source, p.sourceJobId);
            && (k in s'.sources <==> k in s.sources || (k == key && !Taken(s, p)))
            && (k != key && k in s.sources ==> s'.sources[k] == s.sources[k])
            && (key in s.sources ==> s'.sources[key] == s.sources[key].(contentHash := p.contentHash))
            && (key !in s.sources && !Taken(s, p) ==>
                  && s'.sources[key].owner == newId && s'.sources[key].contentHash == p.contentHash
                  && s'.sources[key].ats == if |p.atsType| > 0 && |p.atsJobId| > 0
                                            then Some((p.atsType, p.atsJobId)) else None)
  {
    RefusedIffTheAtsIsTaken(s, source, p, newId);
    TakenIff(s, p);
  }

  /** Two unique keys guard the source rows: one row for each job of a source, and one for each ATS pair. */
  lemma InsertsAreGuarded(s: State, key: SourceKey, row: SourceRow)
    ensures InsertSourceRow(s, key, row)
         == if key in s.sources || (row.ats.Some? && exists k | k in s.sources :: s.sources[k].ats == row.ats) then None
            else Some(s.(sources := s.sources[key := row]))
  {
    if row.ats.Some? {
      if k :| k in s.sources && s.sources[k].ats == row.ats {
        assert k in AtsHolders(s, row.ats);
      }
    }
  }

  /** So the same posting in the next poll is unchanged, unless it was refused, and then it is refused again. */
  lemma SecondPollIsUnchanged(s: State, source: SourceId, p: Posting, newId: Id, laterId: Id)
    requires newId !in s.opps
    ensures OutcomeOf(Next(s, Upsert(source, p, newId)), source, p, laterId)
         == if OutcomeOf(s, source, p, newId) == Refused then Refused else Unchanged
  {
    var key := SourceKey(source, p.sourceJobId);
    UpsertStores(s, source, p, newId, key);
    RefusedIffTheAtsIsTaken(s, source, p, newId);
    RefusedIffTheAtsIsTaken(Next(s, Upsert(source, p, newId)), source, p, laterId);
  }

  lemma {:induction false} HoldersStay(s: State, es: seq<Event>, key: SourceKey)
    requires key in s.sources
    ensures key in Run(s, es).sources && Run(s, es).sources[key].ats == s.sources[key].ats
  {
    if |es| > 0 {
      var t, e := Run(s, es[..|es| - 1]), es[|es| - 1];
      HoldersStay(s, es[..|es| - 1], key);
      if e.Upsert? && Enabled(t, e) {
        assert key in UpsertState(t, e.source, e.posting, e.newId).sources;
      }
    }
  }

  lemma {:induction false} OnlyUpsertsAttach(s: State, es: seq<Event>, key: SourceKey, ats: Option<(string, string)>)
    requires ats.Some? && AtsHolders(s, ats) != {} && key !in s.sources
    requires forall k :: 0 <= k < |es| && es[k].Upsert? && SourceKey(es[k].source, es[k].posting.sourceJobId) == key ==>
               AtsOf(es[k].posting) == ats
    ensures key !in Run(s, es).sources && AtsHolders(Run(s, es), ats) != {}
  {
    var holder :| holder in AtsHolders(s, ats);
    HoldersStay(s, es, holder);
    assert holder in AtsHolders(Run(s, es), ats);
    if |es| > 0 {
      var t, e := Run(s, es[..|es| - 1]), es[|es| - 1];
      OnlyUpsertsAttach(s, es[..|es| - 1], key, ats);
      if e.Upsert? && Enabled(t, e) {
        RefusedIffTheAtsIsTaken(t, e.source, e.posting, e.newId);
      }
    }
  }

  /**
   Once one source has brought in an ATS posting, the same posting through another
   source is refused in every later poll: it never gets a source row.
   */
  lemma {:induction false} RefusedForEver(s: State, es: seq<Event>, source: SourceId, p: Posting, newId: Id)
    requires AtsHolders(s, AtsOf(p)) != {} && SourceKey(source, p.sourceJobId) !in s.sources
    requires forall k ::
             0 <= k < |es| && es[k].Upsert? && es[k].source == source && es[k].posting.sourceJobId == p.sourceJobId ==>
               AtsOf(es[k].posting) == AtsOf(p)
    ensures OutcomeOf(Run(s, es), source, p, newId) == Refused
    ensures Next(Run(s, es), Upsert(source, p, newId)) == Run(s, es)
  {
    OnlyUpsertsAttach(s, es, SourceKey(source, p.sourceJobId), AtsOf(p));
    RefusedIffTheAtsIsTaken(Run(s, es), source, p, newId);
  }
}
