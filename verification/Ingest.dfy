/**
 One poll of one source: fetch, parse, upsert every usable posting, and only then
 count absences and close what was missed too often.

 The method is proved to take exactly the events of the `Liveness` machine that
 `PollEvents` lists, so what is proved there about runs holds of polls.
 */
module Ingest {
  import opened Options
  import opened Liveness

  datatype Document = Unreadable | Parsed(postings: seq<Posting>)

  datatype Fetch = NotModified | Failed | Documents(docs: seq<Document>)

  datatype Status = Completed | Unmodified | FetchError | ParseError | MissesError | ClosingError

  datatype Result = Result(
    fetched: nat, created: nat, updated: nat, same: nat, skipped: nat, missed: nat, closed: nat)
  {
    function Usable(): nat {
      created + updated + same
    }
  }

  /** What storage does during one poll: which postings' transactions fail, and whether the two last statements do. */
  datatype Faults = Faults(upserts: set<nat>, misses: bool, closing: bool)

  predicate Skips(p: Posting) {
    p.atsJobId == "" || p.title == ""
  }

  /** The postings of the documents before the first one that does not parse. */
  function Readable(docs: seq<Document>): seq<Posting> {
    if |docs| == 0 || docs[0].Unreadable? then [] else docs[0].postings + Readable(docs[1..])
  }

  predicate AllParse(docs: seq<Document>) {
    forall d | d in docs :: d.Parsed?
  }

  /** The upserts that commit, in order; the n-th posting would get id `ids(n)` if it is new. */
  ghost function Upserts(s: State, source: SourceId, ps: seq<Posting>, faults: set<nat>, ids: nat -> Id): seq<Event> {
    if |ps| == 0 then [] else
    var n := |ps| - 1;
    var es := Upserts(s, source, ps[..n], faults, ids);
    if Skips(ps[n]) || n in faults || OutcomeOf(Run(s, es), source, ps[n], ids(n)) == Refused then es
    else es + [Upsert(source, ps[n], ids(n))]
  }

  function SeenJobs(es: seq<Event>): set<JobId> {
    set e | e in es && e.Upsert? :: e.posting.sourceJobId
  }

  /** How many of the events had this outcome when they happened. */
  ghost function Tally(s: State, es: seq<Event>, outcome: Outcome): nat {
    if |es| == 0 then 0 else
    var n := |es| - 1;
    Tally(s, es[..n], outcome)
    + if es[n].Upsert? && OutcomeOf(Run(s, es[..n]), es[n].source, es[n].posting, es[n].newId) == outcome then 1 else 0
  }

  /** Everything a poll does to the tables. */
  ghost function PollEvents(s: State, source: SourceId, fetch: Fetch, faults: Faults, ids: nat -> Id): seq<Event> {
    if !fetch.Documents? then [] else
    var es := Upserts(s, source, Readable(fetch.docs), faults.upserts, ids);
    if !AllParse(fetch.docs) || faults.misses then es
    else if faults.closing then es + [BumpMisses(source, SeenJobs(es))]
    else es + [BumpMisses(source, SeenJobs(es)), CloseMissed]
  }

  function StatusOf(fetch: Fetch, faults: Faults): Status {
    match fetch
    case NotModified => Unmodified
    case Failed => FetchError
    case Documents(docs) =>
      if !AllParse(docs) then ParseError
      else if faults.misses then MissesError
      else if faults.closing then ClosingError
      else Completed
  }

  /** Row ids are drawn fresh. */
  ghost predicate FreshIds(s: State, ids: nat -> Id) {
    && (forall i: nat, j: nat :: ids(i) == ids(j) ==> i == j)
    && (forall i: nat :: ids(i) !in s.opps)
  }

  ghost predicate OnlyIdsBelow(before: map<Id, Opp>, now: map<Id, Opp>, ids: nat -> Id, n: nat) {
    forall id | id in now && id !in before :: exists i: nat :: i < n && ids(i) == id
  }

  function OverdueIds(s: State): set<Id> {
    set id | id in s.opps && !s.opps[id].closed && s.opps[id].misses >= MAX_CONSECUTIVE_MISSES
  }

  function AbsentIds(s: State, source: SourceId, seen: set<JobId>): set<Id> {
    set id | id in s.opps && !s.opps[id].closed && Absent(s, source, seen, id)
  }

  /** The rows whose counter the poll raises. */
  ghost function MissedBy(s: State, source: SourceId, docs: seq<Document>, upserts: set<nat>, ids: nat -> Id): set<Id> {
    var es := Upserts(s, source, Readable(docs), upserts, ids);
    set id | id in Run(s, es).opps && !Run(s, es).opps[id].closed
        && Misses(Run(s, es), BumpMisses(source, SeenJobs(es)), id)
  }

  /** The rows it closes. */
  ghost function ClosedBy(s: State, source: SourceId, docs: seq<Document>, upserts: set<nat>, ids: nat -> Id): set<Id> {
    var es := Upserts(s, source, Readable(docs), upserts, ids);
    var counted := Run(s, es + [BumpMisses(source, SeenJobs(es))]);
    set id | id in counted.opps && !counted.opps[id].closed && counted.opps[id].misses >= 2
  }

  lemma AbsentIdsAre(s: State, source: SourceId, seen: set<JobId>)
    ensures AbsentIds(s, source, seen)
         == set id | id in s.opps && !s.opps[id].closed && Misses(s, BumpMisses(source, seen), id)
  {
    forall id | id in s.opps
      ensures Absent(s, source, seen, id) <==> Misses(s, BumpMisses(source, seen), id)
    {
      AbsentIff(s, source, seen, id);
    }
  }

  class Store {
    var opps: map<Id, Opp>
    var sources: map<SourceKey, SourceRow>

    function Tables(): State
      reads this
    {
      State(opps, sources)
    }

    ghost predicate Valid()
      reads this
    {
      OwnersExist(Tables())
    }

    constructor ()
      ensures Tables() == Empty && Valid()
    {
      opps, sources := map[], map[];
    }

    method LookUpByATS(ats: Option<(string, string)>) returns (owner: Option<Id>)
      ensures owner.Some? <==> AtsHolders(Tables(), ats) != {}
      ensures owner.Some? ==> exists k :: k in AtsHolders(Tables(), ats) && sources[k].owner == owner.value
    {
      var holders := AtsHolders(Tables(), ats);
      if holders == {} {
        return None;
      }
      var k :| k in holders;
      owner := Some(sources[k].owner);
    }

    /** Refused by either unique key. */
    method InsertSource(key: SourceKey, row: SourceRow) returns (ok: bool)
      modifies this`sources
      ensures ok == InsertSourceRow(old(Tables()), key, row).Some?
      ensures Tables() == if ok then InsertSourceRow(old(Tables()), key, row).value else old(Tables())
    {
      ok := key !in sources && AtsHolders(Tables(), row.ats) == {};
      if ok {
        sources := sources[key := row];
      }
    }

    /**
     The transaction of one posting. A posting new to its source is linked to the row
     that holds its ATS pair, or gets a row of its own; when the source row cannot be
     inserted everything is rolled back.
     */
    method UpsertPosting(source: SourceId, p: Posting, newId: Id) returns (outcome: Outcome)
      requires Valid() && newId !in opps
      modifies this
      ensures Valid()
      ensures outcome == OutcomeOf(old(Tables()), source, p, newId)
      ensures Tables() == Next(old(Tables()), Upsert(source, p, newId))
      ensures outcome != Linked
    {
      RefusedIffTheAtsIsTaken(Tables(), source, p, newId);
      var key := SourceKey(source, p.sourceJobId);
      if key in sources {
        var existing := sources[key];
        opps := opps[existing.owner := Opp(0, false)];
        outcome := if existing.contentHash == p.contentHash then Unchanged else Updated;
        sources := sources[key := existing.(contentHash := p.contentHash)];
        return;
      }
      var opps0, sources0 := opps, sources;
      var linked := LookUpByATS(AtsOf(p));
      var owner;
      if linked.Some? {
        owner, outcome := linked.value, Linked; // reported as unchanged, had it ever committed
      } else {
        opps := opps[newId := Opp(0, false)];
        owner, outcome := newId, Created;
      }
      var ok := InsertSource(key, SourceRow(owner, p.contentHash, AtsOf(p)));
      if !ok {
        opps, sources, outcome := opps0, sources0, Refused;
      }
    }

    method BumpMissesForAbsent(source: SourceId, seen: set<JobId>) returns (n: nat)
      modifies this`opps
      ensures Tables() == Next(old(Tables()), BumpMisses(source, seen))
      ensures n == |AbsentIds(old(Tables()), source, seen)|
    {
      n := |AbsentIds(Tables(), source, seen)|;
      opps := Bumped(Tables(), source, seen).opps;
    }

    method CloseMissedOpportunities() returns (n: nat)
      modifies this`opps
      ensures Tables() == Next(old(Tables()), CloseMissed)
      ensures n == |OverdueIds(old(Tables()))|
      ensures OverdueIds(Tables()) == {}
    {
      n := |OverdueIds(Tables())|;
      opps := Closed(Tables()).opps;
    }

    /** One turn of the reconciliation loop: skip the posting, or upsert it and remember that it was seen. */
    method Reconcile(ghost s: State, source: SourceId, ghost ps: seq<Posting>, n: nat, p: Posting, faults: set<nat>,
            ids: nat -> Id,
                     ghost es: seq<Event>, seen: set<JobId>, res: Result)
      returns (ghost es': seq<Event>, seen': set<JobId>, res': Result)
      requires Valid() && n == |ps| && Progress(s, Tables(), source, ps, faults, ids, es, seen, res)
      modifies this
      ensures Valid() && Progress(s, Tables(), source, ps + [p], faults, ids, es', seen', res')
      ensures res'.fetched == res.fetched && res'.missed == res.missed && res'.closed == res.closed
    {
      es', seen', res' := es, seen, res;
      if Skips(p) || n in faults {
        SkipOne(s, Tables(), source, ps, p, faults, ids, es, seen, res);
        res' := res.(skipped := res.skipped + 1);
        return;
      }
      ghost var before := Tables();
      FreshSoFar(s, before, source, ps, faults, ids, es, seen, res);
      var outcome := UpsertPosting(source, p, ids(n));
      if outcome == Refused {
        SkipOne(s, before, source, ps, p, faults, ids, es, seen, res);
        res' := res.(skipped := res.skipped + 1);
        return;
      }
      TakeOne(s, before, source, ps, p, faults, ids, es, seen, res);
      es' := es + [Upsert(source, p, ids(n))];
      res' := Counted(res, outcome);
      seen' := seen + {p.sourceJobId};
    }

    /** The inner loop: the postings of one document, after the postings `before`. */
    method ReconcileDocument(ghost s: State, source: SourceId, ghost before: seq<Posting>, first: nat,
            postings: seq<Posting>, faults: set<nat>, ids: nat -> Id,
                             ghost es: seq<Event>, seen: set<JobId>, res: Result)
      returns (ghost es': seq<Event>, seen': set<JobId>, res': Result)
      requires Valid() && first == |before| && Progress(s, Tables(), source, before, faults, ids, es, seen, res)
      modifies this
      ensures Valid() && Progress(s, Tables(), source, before + postings, faults, ids, es', seen', res')
      ensures res'.fetched == res.fetched && res'.missed == res.missed && res'.closed == res.closed
    {
      es', seen', res' := es, seen, res;
      assert before + postings[..0] == before;
      for k := 0 to |postings|
        invariant Valid() && res'.fetched == res.fetched && res'.missed == res.missed && res'.closed == res.closed
        invariant Progress(s, Tables(), source, before + postings[..k], faults, ids, es', seen', res')
      {
        assert before + postings[..k + 1] == before + postings[..k] + [postings[k]];
        es', seen', res' := Reconcile(s, source, before + postings[..k], first + k, postings[k], faults, ids, es',
            seen', res');
      }
      assert postings[..|postings|] == postings;
    }

    /** The loop over the documents; `ok` is false when one does not parse. */
    method ReconcileAll(source: SourceId, docs: seq<Document>, faults: set<nat>, ids: nat -> Id)
      returns (ghost es: seq<Event>, seen: set<JobId>, res: Result, ok: bool)
      requires Valid() && FreshIds(Tables(), ids)
      modifies this
      ensures Valid() && ok == AllParse(docs)
      ensures Progress(old(Tables()), Tables(), source, Readable(docs), faults, ids, es, seen, res)
      ensures res.fetched == |Readable(docs)| && res.missed == res.closed == 0
    {
      ghost var s := Tables();
      es, seen, res := [], {}, Result(0, 0, 0, 0, 0, 0, 0);
      for d := 0 to |docs|
        invariant Valid() && AllParse(docs[..d]) && res.fetched == |Readable(docs[..d])|
        invariant res.missed == res.closed == 0
        invariant Progress(s, Tables(), source, Readable(docs[..d]), faults, ids, es, seen, res)
      {
        if docs[d].Unreadable? {
          StopsAt(docs, d);
          return es, seen, res, false;
        }
        var postings, first := docs[d].postings, res.fetched;
        res := res.(fetched := first + |postings|);
        es, seen, res := ReconcileDocument(s, source, Readable(docs[..d]), first, postings, faults, ids, es, seen, res);
        OneMoreDocument(docs, d);
      }
      assert docs[..|docs|] == docs;
      ok := true;
    }

    method RunSource(source: SourceId, fetch: Fetch, faults: Faults, ids: nat -> Id)
      returns (res: Result, status: Status)
      requires Valid() && FreshIds(Tables(), ids)
      modifies this
      ensures status == StatusOf(fetch, faults)
      ensures Tables() == Run(old(Tables()), PollEvents(old(Tables()), source, fetch, faults, ids))
      ensures fetch.Documents? ==>
              Balances(old(Tables()), Upserts(old(Tables()), source, Readable(fetch.docs), faults.upserts, ids),
                  |Readable(fetch.docs)|, res)
      ensures fetch.Documents? ==> res.fetched == |Readable(fetch.docs)| == res.Usable() + res.skipped
      ensures !fetch.Documents? ==> res == Result(0, 0, 0, 0, 0, 0, 0)
      ensures res.missed == if status in {Completed, ClosingError}
                            then |MissedBy(old(Tables()), source, fetch.docs, faults.upserts, ids)| else 0
      ensures res.closed == if status == Completed
                            then |ClosedBy(old(Tables()), source, fetch.docs, faults.upserts, ids)| else 0
      ensures status == Completed ==> OverdueIds(Tables()) == {}
    {
      res := Result(0, 0, 0, 0, 0, 0, 0);
      if fetch.NotModified? {
        return res, Unmodified;
      }
      if fetch.Failed? {
        return res, FetchError;
      }
      ghost var s := Tables();
      ghost var es: seq<Event>;
      var seen, ok;
      es, seen, res, ok := ReconcileAll(source, fetch.docs, faults.upserts, ids);
      if !ok {
        return res, ParseError;
      }
      if faults.misses {
        return res, MissesError;
      }
      RunSplit(s, es, BumpMisses(source, seen));
      AbsentIdsAre(Tables(), source, seen);
      var missed := BumpMissesForAbsent(source, seen);
      res := res.(missed := missed);
      if faults.closing {
        return res, ClosingError;
      }
      RunSplit(s, es + [BumpMisses(source, seen)], CloseMissed);
      assert es + [BumpMisses(source, seen), CloseMissed] == es + [BumpMisses(source, seen)] + [CloseMissed];
      var closed := CloseMissedOpportunities();
      res := res.(closed := closed);
      status := Completed;
    }
  }

  function Counted(res: Result, outcome: Outcome): Result {
    match outcome
    case Created => res.(created := res.created + 1)
    case Updated => res.(updated := res.updated + 1)
    case _ => res.(same := res.same + 1)
  }

  /** Where the reconciliation loop stands after the postings `ps`. */
  ghost predicate Progress(s: State, now: State, source: SourceId, ps: seq<Posting>, faults: set<nat>, ids: nat -> Id,
          es: seq<Event>, seen: set<JobId>, res: Result)
  {
    && FreshIds(s, ids)
    && es == Upserts(s, source, ps, faults, ids) && now == Run(s, es)
    && seen == SeenJobs(es)
    && OnlyIdsBelow(s.opps, now.opps, ids, |ps|)
    && Balances(s, es, |ps|, res)
  }

  /** Every posting handled is either one of the upserts, counted by its outcome, or skipped. */
  ghost predicate Balances(s: State, es: seq<Event>, handled: nat, res: Result) {
    && res.created == Tally(s, es, Created) && res.updated == Tally(s, es, Updated)
        && res.same == Tally(s, es, Unchanged)
    && res.Usable() == |es| && handled == |es| + res.skipped
  }

  lemma FreshSoFar(s: State, now: State, source: SourceId, ps: seq<Posting>, faults: set<nat>, ids: nat -> Id,
          es: seq<Event>, seen: set<JobId>, res: Result)
    requires Progress(s, now, source, ps, faults, ids, es, seen, res)
    ensures ids(|ps|) !in now.opps
  {
  }

  lemma RunSplit(s: State, es: seq<Event>, e: Event)
    ensures Run(s, es + [e]) == Next(Run(s, es), e)
  {
    assert (es + [e])[..|es|] == es;
  }

  lemma SkipOne(s: State, now: State, source: SourceId, ps: seq<Posting>, p: Posting, faults: set<nat>,
          ids: nat -> Id, es: seq<Event>, seen: set<JobId>, res: Result)
    requires Progress(s, now, source, ps, faults, ids, es, seen, res)
    requires Skips(p) || |ps| in faults || OutcomeOf(now, source, p, ids(|ps|)) == Refused
    ensures Progress(s, now, source, ps + [p], faults, ids, es, seen, res.(skipped := res.skipped + 1))
  {
    assert (ps + [p])[..|ps|] == ps;
  }

  lemma TakeOne(s: State, now: State, source: SourceId, ps: seq<Posting>, p: Posting, faults: set<nat>,
          ids: nat -> Id, es: seq<Event>, seen: set<JobId>, res: Result)
    requires Progress(s, now, source, ps, faults, ids, es, seen, res)
    requires !Skips(p) && |ps| !in faults && OutcomeOf(now, source, p, ids(|ps|)) != Refused
             && ids(|ps|) !in now.opps && OwnersExist(now)
    ensures var e := Upsert(source, p, ids(|ps|));
            Progress(s, Next(now, e), source, ps + [p], faults, ids, es + [e], seen + {p.sourceJobId},
                Counted(res, OutcomeOf(now, source, p, ids(|ps|))))
  {
    var e := Upsert(source, p, ids(|ps|));
    assert (ps + [p])[..|ps|] == ps;
    RunSplit(s, es, e);
    RefusedIffTheAtsIsTaken(now, source, p, ids(|ps|));
    OneMoreSeen(es, e);
    OneMoreCounted(s, es, e, |ps|, res);
    OneMoreId(s.opps, now, e, ids, |ps|);
  }

  lemma OneMoreSeen(es: seq<Event>, e: Event)
    requires e.Upsert?
    ensures SeenJobs(es + [e]) == SeenJobs(es) + {e.posting.sourceJobId}
  {
    assert e in es + [e];
    assert forall x :: x in es + [e] <==> x in es || x == e;
  }

  lemma OneMoreCounted(s: State, es: seq<Event>, e: Event, handled: nat, res: Result)
    requires Balances(s, es, handled, res) && e.Upsert?
             && OutcomeOf(Run(s, es), e.source, e.posting, e.newId) !in {Refused, Linked}
    ensures Balances(s, es + [e], handled + 1, Counted(res, OutcomeOf(Run(s, es), e.source, e.posting, e.newId)))
  {
    assert (es + [e])[..|es|] == es;
  }

  lemma OneMoreId(before: map<Id, Opp>, now: State, e: Event, ids: nat -> Id, n: nat)
    requires e.Upsert? && e.newId == ids(n) && OnlyIdsBelow(before, now.opps, ids, n) && OwnersExist(now)
    ensures OnlyIdsBelow(before, Next(now, e).opps, ids, n + 1)
  {
    forall id | id in Next(now, e).opps && id !in before
      ensures exists i: nat :: i < n + 1 && ids(i) == id
    {
      if id !in now.opps {
        assert id == ids(n);
      } else {
        var i: nat :| i < n && ids(i) == id;
      }
    }
  }

  lemma {:induction false} ReadableAppend(docs: seq<Document>, d: Document)
    requires AllParse(docs) && d.Parsed?
    ensures Readable(docs + [d]) == Readable(docs) + d.postings
  {
    if |docs| == 0 {
      assert (docs + [d])[1..] == [];
    } else {
      assert (docs + [d])[1..] == docs[1..] + [d];
      ReadableAppend(docs[1..], d);
      assert docs[0] in docs;
    }
  }

  lemma OneMoreDocument(docs: seq<Document>, d: nat)
    requires d < |docs| && AllParse(docs[..d]) && docs[d].Parsed?
    ensures Readable(docs[..d + 1]) == Readable(docs[..d]) + docs[d].postings && AllParse(docs[..d + 1])
  {
    assert docs[..d + 1] == docs[..d] + [docs[d]];
    ReadableAppend(docs[..d], docs[d]);
  }

  lemma {:induction false} StopsAt(docs: seq<Document>, d: nat)
    requires d < |docs| && AllParse(docs[..d]) && docs[d].Unreadable?
    ensures Readable(docs) == Readable(docs[..d]) && !AllParse(docs)
  {
    assert docs[d] in docs;
    if d > 0 {
      assert docs[..d][1..] == docs[1..][..d - 1];
      assert docs[..d][0] in docs[..d];
      StopsAt(docs[1..], d - 1);
    }
  }

  // ---------------------------------------------------------------- what a poll means

  lemma {:induction false} RunAppend(s: State, es: seq<Event>, fs: seq<Event>)
    ensures Run(s, es + fs) == Run(Run(s, es), fs)
  {
    if |fs| == 0 {
      assert es + fs == es;
    } else {
      assert (es + fs)[..|es + fs| - 1] == es + fs[..|fs| - 1];
      RunAppend(s, es, fs[..|fs| - 1]);
    }
  }

  lemma OneUpsertHelps(s: State, e: Event, id: Id)
    requires OwnersExist(s) && id in s.opps && e.Upsert?
    ensures OwnersExist(Next(s, e)) && id in Next(s, e).opps
    ensures Next(s, e).opps[id] == s.opps[id] || Next(s, e).opps[id] == Opp(0, false)
  {
  }

  /** Upserts alone never raise a counter and never close a row. */
  lemma {:induction false} UpsertsOnlyHelp(s: State, source: SourceId, ps: seq<Posting>, faults: set<nat>,
          ids: nat -> Id, id: Id)
    requires OwnersExist(s) && id in s.opps
    ensures var s' := Run(s, Upserts(s, source, ps, faults, ids));
            OwnersExist(s') && id in s'.opps && (s'.opps[id] == s.opps[id] || s'.opps[id] == Opp(0, false))
  {
    if |ps| > 0 {
      var n := |ps| - 1;
      var es := Upserts(s, source, ps[..n], faults, ids);
      UpsertsOnlyHelp(s, source, ps[..n], faults, ids, id);
      var e := Upsert(source, ps[n], ids(n));
      RunSplit(s, es, e);
      OneUpsertHelps(Run(s, es), e, id);
    }
  }

  /**
   A poll that does not complete closes nothing. Unless only the closing statement failed it
   raises no miss count either, and without documents it does nothing at all.
   */
  lemma FailedPollsCloseNothing(s: State, source: SourceId, fetch: Fetch, faults: Faults, ids: nat -> Id, id: Id)
    requires OwnersExist(s) && id in s.opps && StatusOf(fetch, faults) != Completed
    ensures var s' := Run(s, PollEvents(s, source, fetch, faults, ids));
            && id in s'.opps && (s'.opps[id].closed ==> s.opps[id].closed)
            && (StatusOf(fetch, faults) != ClosingError ==> s'.opps[id] == s.opps[id] || s'.opps[id] == Opp(0, false))
            && (!fetch.Documents? ==> s' == s)
  {
    if fetch.Documents? {
      var es := Upserts(s, source, Readable(fetch.docs), faults.upserts, ids);
      UpsertsOnlyHelp(s, source, Readable(fetch.docs), faults.upserts, ids, id);
      RunSplit(s, es, BumpMisses(source, SeenJobs(es)));
    }
  }

  /**
   Main theorem. Take any history of polls, merges and ingests, and then a poll.
   A row is closed afterwards only if at least two completed
   polls since its last sighting had not shown it; when the poll completes, that
   is also enough.
   */
  lemma PollClosesExactlyTheMissed(history: seq<Event>, source: SourceId, fetch: Fetch, faults: Faults,
          ids: nat -> Id, id: Id)
    requires var es := PollEvents(Run(Empty, history), source, fetch, faults, ids);
             id in Run(Run(Empty, history), es).opps
    ensures var es := PollEvents(Run(Empty, history), source, fetch, faults, ids);
            var o, absences := Run(Run(Empty, history), es).opps[id], Absences(Empty, history + es, id);
            && (o.closed ==> absences >= 2)
            && (StatusOf(fetch, faults) == Completed ==> (o.closed <==> absences >= 2))
  {
    var es := PollEvents(Run(Empty, history), source, fetch, faults, ids);
    RunAppend(Empty, history, es);
    ClosedMeansMissed(history + es, id);
    if StatusOf(fetch, faults) == Completed {
      assert es[|es| - 1] == CloseMissed;
      assert (history + es)[|history + es| - 1] == CloseMissed;
    }
  }

  lemma CommittedInPrefix(s: State, source: SourceId, ps: seq<Posting>, faults: set<nat>, ids: nat -> Id, last: nat,
          n: nat)
    requires n < last <= |ps|
    ensures Committed(s, source, ps, faults, ids, n) <==> Committed(s, source, ps[..last], faults, ids, n)
  {
    assert ps[..last][..n] == ps[..n];
  }

  /** The last posting adds its job, if it commits. */
  lemma LastSeen(s: State, source: SourceId, ps: seq<Posting>, faults: set<nat>, ids: nat -> Id)
    requires |ps| > 0
    ensures var n := |ps| - 1;
            SeenJobs(Upserts(s, source, ps, faults, ids))
            == SeenJobs(Upserts(s, source, ps[..n], faults, ids))
               + if Committed(s, source, ps, faults, ids, n) then {ps[n].sourceJobId} else {}
  {
    var n := |ps| - 1;
    var es := Upserts(s, source, ps[..n], faults, ids);
    OneMoreSeen(es, Upsert(source, ps[n], ids(n)));
  }

  /** A posting whose transaction failed counts as absent: it is not among the jobs the poll has seen. */
  lemma {:induction false} SeenMeansUpserted(s: State, source: SourceId, ps: seq<Posting>, faults: set<nat>,
          ids: nat -> Id, job: JobId)
    ensures job in SeenJobs(Upserts(s, source, ps, faults, ids)) <==>
              exists n: nat :: n < |ps| && Committed(s, source, ps, faults, ids, n) && ps[n].sourceJobId == job
  {
    if |ps| > 0 {
      var last := |ps| - 1;
      SeenMeansUpserted(s, source, ps[..last], faults, ids, job);
      LastSeen(s, source, ps, faults, ids);
      forall n: nat | n < last
        ensures Committed(s, source, ps, faults, ids, n) <==> Committed(s, source, ps[..last], faults, ids, n)
      {
        CommittedInPrefix(s, source, ps, faults, ids, last, n);
      }
    }
  }

  /** The n-th posting is usable and its transaction commits, given what the ones before it did. */
  ghost predicate Committed(s: State, source: SourceId, ps: seq<Posting>, faults: set<nat>, ids: nat -> Id, n: nat)
    requires n < |ps|
  {
    && |ps[n].atsJobId| > 0 && |ps[n].title| > 0 && n !in faults
    && OutcomeOf(Run(s, Upserts(s, source, ps[..n], faults, ids)), source, ps[n], ids(n)) != Refused
  }

  /** How a poll ends, by the first thing that goes wrong. */
  lemma StatusIff(fetch: Fetch, faults: Faults)
    ensures var status := StatusOf(fetch, faults);
            var parses := fetch.Documents? && forall i | 0 <= i < |fetch.docs| :: fetch.docs[i].Parsed?;
            && (status == Completed <==> parses && !faults.misses && !faults.closing)
            && (status == ClosingError <==> parses && !faults.misses && faults.closing)
            && (status == MissesError <==> parses && faults.misses)
            && (status == ParseError <==> fetch.Documents? && !parses)
            && (status == Unmodified <==> fetch == NotModified)
            && (status == FetchError <==> fetch == Failed)
  {
  }

  // ---------------------------------------------------------------- what a completed poll does to one row

  /** One of the first `n` postings is usable, is stored, and is listed under a job of the row. */
  ghost predicate Sighted(s: State, source: SourceId, ps: seq<Posting>, faults: set<nat>, id: Id, n: nat)
    requires n <= |ps|
  {
    exists k | 0 <= k < n ::
      |ps[k].atsJobId| > 0 && |ps[k].title| > 0 && k !in faults && ps[k].sourceJobId in JobsAt(s, source, id)
  }

  lemma ListedMeans(s: State, source: SourceId, id: Id, job: JobId)
    ensures job in JobsAt(s, source, id) <==>
              SourceKey(source, job) in s.sources && s.sources[SourceKey(source, job)].owner == id
  {
    if SourceKey(source, job) in s.sources && s.sources[SourceKey(source, job)].owner == id {
      var k := SourceKey(source, job);
      assert k.job in JobsAt(s, source, id);
    }
  }

  /** Where one row stands after the first `n` postings. */
  ghost predicate RowSoFar(s: State, now: State, source: SourceId, ps: seq<Posting>, faults: set<nat>, id: Id, n: nat)
    requires n <= |ps|
  {
    && OwnersExist(now) && id in s.opps && id in now.opps && JobsAt(now, source, id) == JobsAt(s, source, id)
    && (forall k | k in s.sources :: k in now.sources && now.sources[k].owner == s.sources[k].owner)
    && now.opps[id] == if Sighted(s, source, ps, faults, id, n) then Opp(0, false) else s.opps[id]
  }

  lemma JobsStay(s: State, source: SourceId, p: Posting, newId: Id, id: Id)
    requires newId !in s.opps && id in s.opps
    ensures JobsAt(Next(s, Upsert(source, p, newId)), source, id) == JobsAt(s, source, id)
  {
    var s', key := Next(s, Upsert(source, p, newId)), SourceKey(source, p.sourceJobId);
    forall job
      ensures job in JobsAt(s', source, id) <==> job in JobsAt(s, source, id)
    {
      ListedMeans(s, source, id, job);
      ListedMeans(s', source, id, job);
      UpsertStores(s, source, p, newId, SourceKey(source, job));
    }
  }

  lemma OnePosting(s: State, now: State, source: SourceId, ps: seq<Posting>, faults: set<nat>, id: Id, n: nat,
          newId: Id)
    requires n < |ps| && RowSoFar(s, now, source, ps, faults, id, n) && newId !in now.opps
    requires |ps[n].atsJobId| > 0 && |ps[n].title| > 0 && n !in faults
    ensures RowSoFar(s, Next(now, Upsert(source, ps[n], newId)), source, ps, faults, id, n + 1)
  {
    var e, now' := Upsert(source, ps[n], newId), Next(now, Upsert(source, ps[n], newId));
    OneUpsertHelps(now, e, id);
    JobsStay(now, source, ps[n], newId, id);
    forall k | k in s.sources
      ensures k in now'.sources && now'.sources[k].owner == s.sources[k].owner
    {
      UpsertStores(now, source, ps[n], newId, k);
    }
    ListedMeans(now, source, id, ps[n].sourceJobId);
    RefusedIffTheAtsIsTaken(now, source, ps[n], newId);
    OnlyPollsCount(now, e, id);
    assert Sighted(s, source, ps, faults, id, n + 1) <==>
             Sighted(s, source, ps, faults, id, n) || ps[n].sourceJobId in JobsAt(s, source, id);
  }

  lemma NoPosting(s: State, now: State, source: SourceId, ps: seq<Posting>, faults: set<nat>, id: Id, n: nat)
    requires n < |ps| && RowSoFar(s, now, source, ps, faults, id, n)
    requires |ps[n].atsJobId| == 0 || |ps[n].title| == 0 || n in faults
             || (ps[n].sourceJobId !in JobsAt(s, source, id))
    ensures RowSoFar(s, now, source, ps, faults, id, n + 1)
  {
    assert Sighted(s, source, ps, faults, id, n + 1) <==> Sighted(s, source, ps, faults, id, n);
  }

  lemma {:induction false} UpsertsDo(s: State, source: SourceId, ps: seq<Posting>, faults: set<nat>, ids: nat -> Id,
          id: Id, n: nat)
    requires OwnersExist(s) && id in s.opps && FreshIds(s, ids) && n <= |ps|
    ensures var es := Upserts(s, source, ps[..n], faults, ids);
            RowSoFar(s, Run(s, es), source, ps, faults, id, n) && OnlyIdsBelow(s.opps, Run(s, es).opps, ids, n)
  {
    if n > 0 {
      var k := n - 1;
      var es := Upserts(s, source, ps[..k], faults, ids);
      var now, e := Run(s, es), Upsert(source, ps[k], ids(k));
      UpsertsDo(s, source, ps, faults, ids, id, k);
      assert ps[..n][..k] == ps[..k] && ps[..n][k] == ps[k];
      RunSplit(s, es, e);
      ListedMeans(now, source, id, ps[k].sourceJobId);
      RefusedIffTheAtsIsTaken(now, source, ps[k], ids(k));
      if Skips(ps[k]) || k in faults || OutcomeOf(now, source, ps[k], ids(k)) == Refused {
        NoPosting(s, now, source, ps, faults, id, k);
      } else {
        OnePosting(s, now, source, ps, faults, id, k, ids(k));
        OneMoreId(s.opps, now, e, ids, k);
      }
    }
  }

  lemma SeenMeansSighted(s: State, source: SourceId, ps: seq<Posting>, faults: set<nat>, ids: nat -> Id, id: Id)
    requires OwnersExist(s) && id in s.opps && FreshIds(s, ids)
    ensures JobsAt(s, source, id) !! SeenJobs(Upserts(s, source, ps, faults, ids)) <==>
              !Sighted(s, source, ps, faults, id, |ps|)
  {
    var seen := SeenJobs(Upserts(s, source, ps, faults, ids));
    if Sighted(s, source, ps, faults, id, |ps|) {
      var k :| 0 <= k < |ps| && |ps[k].atsJobId| > 0 && |ps[k].title| > 0 && k !in faults
               && ps[k].sourceJobId in JobsAt(s, source, id);
      ListedIsCommitted(s, source, ps, faults, ids, id, k);
      SeenMeansUpserted(s, source, ps, faults, ids, ps[k].sourceJobId);
      assert ps[k].sourceJobId in seen;
    }
    forall job | job in JobsAt(s, source, id) && job in seen
      ensures Sighted(s, source, ps, faults, id, |ps|)
    {
      SeenMeansUpserted(s, source, ps, faults, ids, job);
      var k: nat :| k < |ps| && Committed(s, source, ps, faults, ids, k) && ps[k].sourceJobId == job;
    }
  }

  lemma ListedIsCommitted(s: State, source: SourceId, ps: seq<Posting>, faults: set<nat>, ids: nat -> Id, id: Id,
          k: nat)
    requires OwnersExist(s) && id in s.opps && FreshIds(s, ids) && k < |ps|
    requires |ps[k].atsJobId| > 0 && |ps[k].title| > 0 && k !in faults && ps[k].sourceJobId in JobsAt(s, source, id)
    ensures Committed(s, source, ps, faults, ids, k)
  {
    var now := Run(s, Upserts(s, source, ps[..k], faults, ids));
    UpsertsDo(s, source, ps, faults, ids, id, k);
    ListedMeans(now, source, id, ps[k].sourceJobId);
    RefusedIffTheAtsIsTaken(now, source, ps[k], ids(k));
  }

  /**
   Main theorem: what a poll of a source that gets as far as counting does to a row, from the
   documents alone. A row one of whose jobs there is among the usable postings that were
   stored is open with no misses. An open row of that source none of whose jobs is has one
   miss more. A row the source does not list, and one that is closed already, keeps its
   counter. When the poll completes, the rows with two misses are closed, and no others.
   */
  lemma PollDoes(s: State, source: SourceId, docs: seq<Document>, faults: Faults, ids: nat -> Id, id: Id)
    requires OwnersExist(s) && id in s.opps && FreshIds(s, ids) && AllParse(docs) && !faults.misses
    ensures var s' := Run(s, PollEvents(s, source, Documents(docs), faults, ids));
            var o := s.opps[id];
            var counted := if Sighted(s, source, Readable(docs), faults.upserts, id, |Readable(docs)|)
                then Opp(0, false)
                           else if JobsAt(s, source, id) != {} && !o.closed then Opp(o.misses + 1, false)
                           else o;
            && id in s'.opps && s'.opps[id].misses == counted.misses
            && (s'.opps[id].closed <==> counted.closed || (!faults.closing && counted.misses >= 2))
  {
    var ps := Readable(docs);
    var es := Upserts(s, source, ps, faults.upserts, ids);
    var now, seen := Run(s, es), SeenJobs(es);
    UpsertsDo(s, source, ps, faults.upserts, ids, id, |ps|);
    assert ps[..|ps|] == ps;
    SeenMeansSighted(s, source, ps, faults.upserts, ids, id);
    AbsentIff(now, source, seen, id);
    RunSplit(s, es, BumpMisses(source, seen));
    RunSplit(s, es + [BumpMisses(source, seen)], CloseMissed);
    assert es + [BumpMisses(source, seen), CloseMissed] == es + [BumpMisses(source, seen)] + [CloseMissed];
  }
}
