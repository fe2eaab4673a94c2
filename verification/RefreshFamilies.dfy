/**
 Refresh-token families: every login starts one, rotation extends it, and a
 replayed token ends it.

 One request is one step. `Refresh` reads its token outside the transaction that
 rotates it and marks it used without a guard, so two requests racing on the same
 token are outside this model. A secret is represented by the id of its row.
 */
module RefreshFamilies {
  import opened Options

  type TokenId = nat
  type SessionId = nat
  type FamilyId = nat
  type UserId = nat

  datatype Token = Token(
    family: FamilyId, user: UserId, session: SessionId, expires: int,
    used: bool, replacedBy: Option<TokenId>, revoked: bool)

  datatype Session = Session(user: UserId, expires: int, revoked: bool)

  datatype State = State(tokens: map<TokenId, Token>, sessions: map<SessionId, Session>, active: set<UserId>, now: int)

  datatype Policy = Policy(sessionTTL: int, refreshTTL: int)

  /** `commits` says whether the step's transaction goes through. */
  datatype Event =
    | Issue(user: UserId, session: SessionId, token: TokenId, family: FamilyId)
    | Refresh(presented: TokenId, session: SessionId, token: TokenId, commits: bool)
    | Logout(ended: SessionId, commits: bool)
    | SetStatus(user: UserId, active: bool)
    | Tick(elapsed: nat)

  datatype Outcome = Rotated | Replayed | Invalid | Suspended | Failed

  const Empty := State(map[], map[], {}, 0)

  predicate Live(s: State, id: SessionId) {
    id in s.sessions && !s.sessions[id].revoked && s.sessions[id].expires > s.now
  }

  function OutcomeOf(s: State, presented: TokenId, commits: bool): Outcome {
    if presented !in s.tokens then Invalid else
    var rt := s.tokens[presented];
    if rt.used then Replayed
    else if rt.revoked || rt.expires <= s.now then Invalid
    else if rt.user !in s.active then Suspended
    else if !commits then Failed
    else Rotated
  }

  function Revoke(sessions: map<SessionId, Session>, ids: set<SessionId>): map<SessionId, Session> {
    map id | id in sessions :: if id in ids then sessions[id].(revoked := true) else sessions[id]
  }

  function SessionsOf(s: State, family: FamilyId): set<SessionId> {
    set t | t in s.tokens && s.tokens[t].family == family :: s.tokens[t].session
  }

  function RevokeFamily(s: State, family: FamilyId): State {
    s.(tokens := map t | t in s.tokens ::
        if s.tokens[t].family == family then s.tokens[t].(revoked := true) else s.tokens[t],
       sessions := Revoke(s.sessions, SessionsOf(s, family)))
  }

  /** The rows CreateSession and CreateRefreshToken add. */
  function Grant(policy: Policy, s: State, user: UserId, session: SessionId, token: TokenId, family: FamilyId): State {
    s.(sessions := s.sessions[session := Session(user, s.now + policy.sessionTTL, false)],
       tokens := s.tokens[token := Token(family, user, session, s.now + policy.refreshTTL, false, None, false)])
  }

  function Rotate(policy: Policy, s: State, presented: TokenId, session: SessionId, token: TokenId): State
    requires presented in s.tokens
  {
    var rt := s.tokens[presented];
    var g := Grant(policy, s, rt.user, session, token, rt.family);
    g.(tokens := g.tokens[presented := rt.(used := true, replacedBy := Some(token))],
       sessions := Revoke(g.sessions, {rt.session}))
  }

  /** New rows get new ids, and a login gets a family no token has. */
  predicate Enabled(s: State, e: Event) {
    match e
    case Issue(user, session, token, family) =>
      session !in s.sessions && token !in s.tokens && forall t | t in s.tokens :: s.tokens[t].family != family
    case Refresh(presented, session, token, commits) => session !in s.sessions && token !in s.tokens
    case _ => true
  }

  function Next(policy: Policy, s: State, e: Event): State {
    if !Enabled(s, e) then s else
    match e
    case Issue(user, session, token, family) => Grant(policy, s, user, session, token, family)
    case Refresh(presented, session, token, commits) =>
      (match OutcomeOf(s, presented, commits)
       case Rotated => Rotate(policy, s, presented, session, token)
       case Replayed => if commits then RevokeFamily(s, s.tokens[presented].family) else s
       case _ => s)
    case Logout(ended, commits) => if Live(s, ended) && commits then s.(sessions := Revoke(s.sessions, {ended})) else s
    case SetStatus(user, active) => s.(active := if active then s.active + {user} else s.active - {user})
    case Tick(d) => s.(now := s.now + d)
  }

  function Run(policy: Policy, s: State, es: seq<Event>): State {
    if |es| == 0 then s else Next(policy, Run(policy, s, es[..|es| - 1]), es[|es| - 1])
  }

  // ---------------------------------------------------------------- the chain

  /** The family's tokens in the order of their rotations: all but the last used, each naming its replacement. */
  ghost predicate IsChain(s: State, family: FamilyId, chain: seq<TokenId>) {
    && |chain| > 0
    && (forall i, j :: 0 <= i < j < |chain| ==> chain[i] != chain[j])
    && (forall t :: t in chain <==> t in s.tokens && s.tokens[t].family == family)
    && (forall i :: 0 <= i < |chain| - 1 ==> s.tokens[chain[i]].used)
    && (forall i, j :: 0 <= i && j == i + 1 < |chain| ==> s.tokens[chain[i]].replacedBy == Some(chain[j]))
    && !s.tokens[chain[|chain| - 1]].used && s.tokens[chain[|chain| - 1]].replacedBy == None
  }

  ghost predicate HasChain(s: State, family: FamilyId) {
    exists chain :: IsChain(s, family, chain)
  }

  ghost predicate FamiliesAreChains(s: State) {
    forall t | t in s.tokens :: HasChain(s, s.tokens[t].family)
  }

  /** Each token has a session of its own, and a used token's session is revoked. */
  ghost predicate SessionsMatch(s: State) {
    && (forall t | t in s.tokens :: s.tokens[t].session in s.sessions)
    && (forall t, u | t in s.tokens && u in s.tokens && t != u :: s.tokens[t].session != s.tokens[u].session)
    && (forall t | t in s.tokens && s.tokens[t].used :: s.sessions[s.tokens[t].session].revoked)
  }

  ghost predicate Inv(s: State) {
    FamiliesAreChains(s) && SessionsMatch(s)
  }

  /** Only these three fields of the family's tokens matter to its chain. */
  ghost predicate SameLinks(s: State, s': State, family: FamilyId) {
    && Members(s', family) == Members(s, family)
    && forall t | t in Members(s, family) ::
        s'.tokens[t].used == s.tokens[t].used && s'.tokens[t].replacedBy == s.tokens[t].replacedBy
  }

  lemma SameChain(s: State, s': State, family: FamilyId, chain: seq<TokenId>)
    requires IsChain(s, family, chain) && SameLinks(s, s', family)
    ensures IsChain(s', family, chain)
  {
    forall t
      ensures t in chain <==> t in s'.tokens && s'.tokens[t].family == family
    {
      assert t in chain <==> t in Members(s, family);
      assert t in Members(s', family) <==> t in s'.tokens && s'.tokens[t].family == family;
    }
    forall i | 0 <= i < |chain|
      ensures chain[i] in Members(s, family)
    {
      assert chain[i] in chain;
    }
  }

  lemma SameHasChain(s: State, s': State, family: FamilyId)
    requires HasChain(s, family) && SameLinks(s, s', family)
    ensures HasChain(s', family)
  {
    var chain :| IsChain(s, family, chain);
    SameChain(s, s', family, chain);
  }

  lemma GrantStartsAChain(policy: Policy, s: State, user: UserId, session: SessionId, token: TokenId, family: FamilyId)
    requires Enabled(s, Issue(user, session, token, family))
    ensures HasChain(Grant(policy, s, user, session, token, family), family)
  {
    assert IsChain(Grant(policy, s, user, session, token, family), family, [token]);
  }

  /** An unused token is the last of its chain. */
  lemma UnusedIsLast(s: State, family: FamilyId, chain: seq<TokenId>, t: TokenId)
    requires IsChain(s, family, chain) && t in s.tokens && s.tokens[t].family == family && !s.tokens[t].used
    ensures chain[|chain| - 1] == t
  {
    var i :| 0 <= i < |chain| && chain[i] == t;
  }

  lemma RotationExtendsTheChain(policy: Policy, s: State, presented: TokenId, session: SessionId, token: TokenId,
          chain: seq<TokenId>)
    requires presented in s.tokens && IsChain(s, s.tokens[presented].family, chain) && !s.tokens[presented].used
             && token !in s.tokens
    ensures IsChain(Rotate(policy, s, presented, session, token), s.tokens[presented].family, chain + [token])
  {
    var s', family, longer := Rotate(policy, s, presented, session, token), s.tokens[presented].family, chain + [token];
    UnusedIsLast(s, family, chain, presented);
    assert forall i :: 0 <= i < |chain| ==> chain[i] in chain;
    assert forall t :: t in longer <==> t in chain || t == token;
    forall i | 0 <= i < |longer| - 1
      ensures s'.tokens[longer[i]].used
      ensures forall j :: j == i + 1 ==> s'.tokens[longer[i]].replacedBy == Some(longer[j])
    {
      if i + 1 < |chain| {
        assert longer[i] == chain[i] && longer[i + 1] == chain[i + 1] && chain[i] != chain[|chain| - 1];
      } else {
        assert longer[i] == presented && longer[i + 1] == token;
      }
    }
  }

  lemma RotationKeepsChains(policy: Policy, s: State, presented: TokenId, session: SessionId, token: TokenId)
    requires presented in s.tokens && HasChain(s, s.tokens[presented].family) && !s.tokens[presented].used
             && token !in s.tokens
    ensures HasChain(Rotate(policy, s, presented, session, token), s.tokens[presented].family)
  {
    var chain :| IsChain(s, s.tokens[presented].family, chain);
    RotationExtendsTheChain(policy, s, presented, session, token, chain);
  }

  predicate Rotates(s: State, e: Event) {
    e.Refresh? && OutcomeOf(s, e.presented, e.commits) == Rotated
  }

  /** A step touches the links of one family at most. */
  lemma OthersKeepTheirLinks(policy: Policy, s: State, e: Event, f: FamilyId)
    requires Enabled(s, e)
    requires e.Issue? ==> f != e.family
    requires Rotates(s, e) ==> f != s.tokens[e.presented].family
    ensures SameLinks(s, Next(policy, s, e), f)
  {
  }

  lemma StepKeepsChains(policy: Policy, s: State, e: Event)
    requires FamiliesAreChains(s) && Enabled(s, e)
    ensures FamiliesAreChains(Next(policy, s, e))
  {
    var s' := Next(policy, s, e);
    forall t | t in s'.tokens
      ensures HasChain(s', s'.tokens[t].family)
    {
      var f := s'.tokens[t].family;
      if e.Issue? && f == e.family {
        GrantStartsAChain(policy, s, e.user, e.session, e.token, e.family);
      } else if Rotates(s, e) && f == s.tokens[e.presented].family {
        RotationKeepsChains(policy, s, e.presented, e.session, e.token);
      } else {
        OthersKeepTheirLinks(policy, s, e, f);
        assert t in Members(s', f);
        SameHasChain(s, s', f);
      }
    }
  }

  lemma StepKeepsSessions(policy: Policy, s: State, e: Event)
    requires SessionsMatch(s)
    ensures SessionsMatch(Next(policy, s, e))
  {
    if Enabled(s, e) && Rotates(s, e) {
      var s' := Next(policy, s, e);
      assert s'.sessions[s.tokens[e.presented].session].revoked;
    }
  }

  lemma {:induction false} RunKeepsInv(policy: Policy, es: seq<Event>)
    ensures Inv(Run(policy, Empty, es))
  {
    if |es| > 0 {
      var s, e := Run(policy, Empty, es[..|es| - 1]), es[|es| - 1];
      RunKeepsInv(policy, es[..|es| - 1]);
      if Enabled(s, e) {
        StepKeepsChains(policy, s, e);
        StepKeepsSessions(policy, s, e);
      }
    }
  }

  // ---------------------------------------------------------------- what the chain is for

  lemma Tail(s: State, t: TokenId) returns (tail: TokenId)
    requires FamiliesAreChains(s) && t in s.tokens
    ensures tail in Members(s, s.tokens[t].family)
    ensures forall u | u in Members(s, s.tokens[t].family) :: s.tokens[u].used <==> u != tail
  {
    var family := s.tokens[t].family;
    var chain :| IsChain(s, family, chain);
    tail := chain[|chain| - 1];
    assert tail in chain;
    forall u | u in Members(s, family)
      ensures s.tokens[u].used <==> u != tail
    {
      if !s.tokens[u].used {
        UnusedIsLast(s, family, chain, u);
      }
    }
  }

  lemma OnlyTheTailIsLive(s: State, family: FamilyId, tail: TokenId, id: SessionId)
    requires SessionsMatch(s) && tail in s.tokens && id in SessionsOf(s, family) && Live(s, id)
    requires forall u | u in Members(s, family) && u != tail :: s.tokens[u].used
    ensures id == s.tokens[tail].session
  {
    var u :| u in s.tokens && s.tokens[u].family == family && s.tokens[u].session == id;
    assert u in Members(s, family);
  }

  /** In every reachable state exactly one token of a family is unused, and no session but that token's can be live. */
  lemma OneUnusedTokenPerFamily(policy: Policy, es: seq<Event>, t: TokenId) returns (tail: TokenId)
    requires t in Run(policy, Empty, es).tokens
    ensures var s := Run(policy, Empty, es);
            var family := s.tokens[t].family;
            && tail in Members(s, family)
            && (forall u | u in Members(s, family) :: s.tokens[u].used <==> u != tail)
            && (forall id | id in SessionsOf(s, family) && Live(s, id) :: id == s.tokens[tail].session)
  {
    var s := Run(policy, Empty, es);
    RunKeepsInv(policy, es);
    tail := Tail(s, t);
    forall id | id in SessionsOf(s, s.tokens[t].family) && Live(s, id)
      ensures id == s.tokens[tail].session
    {
      OnlyTheTailIsLive(s, s.tokens[t].family, tail, id);
    }
  }

  /** Every token of the family is revoked, and so is the session of each. */
  ghost predicate Dead(s: State, family: FamilyId) {
    forall t | t in s.tokens && s.tokens[t].family == family ::
      s.tokens[t].revoked && s.tokens[t].session in s.sessions && s.sessions[s.tokens[t].session].revoked
  }

  function Members(s: State, family: FamilyId): set<TokenId> {
    set t | t in s.tokens && s.tokens[t].family == family
  }

  lemma DeadStepStaysDead(policy: Policy, s: State, e: Event, family: FamilyId)
    requires Dead(s, family) && Members(s, family) != {}
    ensures Dead(Next(policy, s, e), family) && Members(Next(policy, s, e), family) == Members(s, family)
  {
    var m :| m in Members(s, family);
  }

  lemma {:induction false} RunFrom(policy: Policy, es: seq<Event>, later: seq<Event>)
    ensures Run(policy, Run(policy, Empty, es), later) == Run(policy, Empty, es + later)
  {
    if |later| == 0 {
      assert es + later == es;
    } else {
      assert (es + later)[..|es + later| - 1] == es + later[..|later| - 1];
      RunFrom(policy, es, later[..|later| - 1]);
    }
  }

  lemma {:induction false} DeadStaysDead(policy: Policy, es: seq<Event>, later: seq<Event>, family: FamilyId)
    requires Dead(Run(policy, Empty, es), family) && Members(Run(policy, Empty, es), family) != {}
    ensures var s, s' := Run(policy, Empty, es), Run(policy, Run(policy, Empty, es), later);
            Dead(s', family) && Members(s', family) == Members(s, family)
  {
    if |later| > 0 {
      DeadStaysDead(policy, es, later[..|later| - 1], family);
      DeadStepStaysDead(policy, Run(policy, Run(policy, Empty, es), later[..|later| - 1]), later[|later| - 1], family);
    }
  }

  lemma RevocationKills(policy: Policy, s: State, e: Event)
    requires SessionsMatch(s) && e.Refresh? && Enabled(s, e) && e.commits
    requires e.presented in s.tokens && s.tokens[e.presented].used
    ensures var family := s.tokens[e.presented].family;
            && OutcomeOf(s, e.presented, true) == Replayed
            && Dead(Next(policy, s, e), family)
            && Members(Next(policy, s, e), family) == Members(s, family) && e.presented in Members(s, family)
  {
  }

  lemma NothingLivesInADeadFamily(s: State, family: FamilyId)
    requires Dead(s, family)
    ensures forall id | id in SessionsOf(s, family) :: !Live(s, id)
    ensures forall t, commits | t in Members(s, family) :: OutcomeOf(s, t, commits) != Rotated
  {
    forall id | id in SessionsOf(s, family)
      ensures !Live(s, id)
    {
      var t :| t in s.tokens && s.tokens[t].family == family && s.tokens[t].session == id;
    }
  }

  /**
   Main theorem. Once a used token has been presented again, every token and
   session of its family is revoked, and whatever happens later the family gains
   no token, none of its tokens rotates and none of its sessions is live.
   */
  lemma ReplayEndsTheFamily(policy: Policy, es: seq<Event>, e: Event, later: seq<Event>)
    requires e.Refresh? && e.commits && Enabled(Run(policy, Empty, es), e)
    requires e.presented in Run(policy, Empty, es).tokens && Run(policy, Empty, es).tokens[e.presented].used
    ensures var s, s' := Run(policy, Empty, es), Run(policy, Empty, es + [e] + later);
            var family := s.tokens[e.presented].family;
            && Dead(s', family) && Members(s', family) == Members(s, family)
            && (forall id | id in SessionsOf(s', family) :: !Live(s', id))
            && (forall t, commits | t in Members(s', family) :: OutcomeOf(s', t, commits) != Rotated)
  {
    var s := Run(policy, Empty, es);
    var family := s.tokens[e.presented].family;
    RunKeepsInv(policy, es);
    RevocationKills(policy, s, e);
    assert (es + [e])[..|es|] == es;
    DeadStaysDead(policy, es + [e], later, family);
    RunFrom(policy, es + [e], later);
    NothingLivesInADeadFamily(Run(policy, Empty, es + [e] + later), family);
  }

  /** A used token stays used. */
  lemma {:induction false} UsedForGood(policy: Policy, s: State, later: seq<Event>, t: TokenId)
    requires t in s.tokens && s.tokens[t].used
    ensures var s' := Run(policy, s, later);
            t in s'.tokens && s'.tokens[t].used && s'.tokens[t].family == s.tokens[t].family
  {
    if |later| > 0 {
      UsedForGood(policy, s, later[..|later| - 1], t);
    }
  }

  /** So a token that has rotated once and is presented a second time, however much later and by whom, is caught. */
  lemma SecondUseIsCaught(policy: Policy, es: seq<Event>, first: Event, between: seq<Event>, second: Event)
    requires first.Refresh? && second.Refresh? && first.presented == second.presented && second.commits
    requires Enabled(Run(policy, Empty, es), first)
             && OutcomeOf(Run(policy, Empty, es), first.presented, first.commits) == Rotated
    requires Enabled(Run(policy, Empty, es + [first] + between), second)
    ensures var s := Run(policy, Empty, es + [first] + between);
            && OutcomeOf(s, second.presented, second.commits) == Replayed
            && Dead(Next(policy, s, second), Run(policy, Empty, es).tokens[first.presented].family)
  {
    var s, t := Run(policy, Empty, es), first.presented;
    assert (es + [first])[..|es|] == es;
    var s1 := Run(policy, Empty, es + [first]);
    RotatedIsUsed(policy, s, first);
    RunFrom(policy, es + [first], between);
    UsedForGood(policy, s1, between, t);
    RunKeepsInv(policy, es + [first] + between);
    RevocationKills(policy, Run(policy, Empty, es + [first] + between), second);
  }

  lemma RotatedIsUsed(policy: Policy, s: State, e: Event)
    requires Enabled(s, e) && Rotates(s, e)
    ensures var s' := Next(policy, s, e);
            e.presented in s'.tokens && s'.tokens[e.presented].used
                && s'.tokens[e.presented].family == s.tokens[e.presented].family
  {
  }

  // ---------------------------------------------------------------- who a session speaks for

  predicate Backs(s: State, t: TokenId, id: SessionId) {
    t in s.tokens && id in s.sessions && s.tokens[t].session == id && s.tokens[t].user == s.sessions[id].user
  }

  ghost predicate SessionsAreBacked(s: State) {
    forall id | id in s.sessions :: exists t :: Backs(s, t, id)
  }

  lemma BackingStays(policy: Policy, s: State, e: Event, t: TokenId, id: SessionId)
    requires Backs(s, t, id)
    ensures Backs(Next(policy, s, e), t, id)
  {
  }

  lemma StepKeepsBacking(policy: Policy, s: State, e: Event)
    requires SessionsAreBacked(s)
    ensures SessionsAreBacked(Next(policy, s, e))
  {
    var s' := Next(policy, s, e);
    forall id | id in s'.sessions
      ensures exists t :: Backs(s', t, id)
    {
      if id in s.sessions {
        var t :| Backs(s, t, id);
        BackingStays(policy, s, e, t, id);
      } else {
        assert Backs(s', e.token, id);
      }
    }
  }

  lemma {:induction false} RunKeepsBacking(policy: Policy, es: seq<Event>)
    ensures SessionsAreBacked(Run(policy, Empty, es))
  {
    if |es| > 0 {
      RunKeepsBacking(policy, es[..|es| - 1]);
      StepKeepsBacking(policy, Run(policy, Empty, es[..|es| - 1]), es[|es| - 1]);
    }
  }

  lemma LiveMeansUnused(s: State, t: TokenId, id: SessionId)
    requires SessionsMatch(s) && Backs(s, t, id) && Live(s, id)
    ensures !s.tokens[t].used
  {
  }

  /**
   In every reachable state a live session is the session of an unused token of the
   same user: what Authenticate accepts is the newest session of some login.
   */
  lemma LiveSessionsBelongToTails(policy: Policy, es: seq<Event>, id: SessionId) returns (t: TokenId)
    requires Live(Run(policy, Empty, es), id)
    ensures Backs(Run(policy, Empty, es), t, id) && !Run(policy, Empty, es).tokens[t].used
  {
    var s := Run(policy, Empty, es);
    RunKeepsInv(policy, es);
    RunKeepsBacking(policy, es);
    t :| Backs(s, t, id);
    LiveMeansUnused(s, t, id);
  }

  /** A session that has been revoked, by a logout, a rotation or a replay, is never accepted again. */
  lemma {:induction false} SignedOutForGood(policy: Policy, s: State, later: seq<Event>, id: SessionId)
    requires id in s.sessions && s.sessions[id].revoked
    ensures var s' := Run(policy, s, later); id in s'.sessions && s'.sessions[id].revoked && !Live(s', id)
  {
    if |later| > 0 {
      SignedOutForGood(policy, s, later[..|later| - 1], id);
    }
  }

  // ---------------------------------------------------------------- what a request is answered

  /** Each answer, in the columns of the presented token's row. */
  lemma AnswersIff(s: State, presented: TokenId, commits: bool)
    ensures var outcome, known := OutcomeOf(s, presented, commits), presented in s.tokens;
            && (outcome == Replayed <==> known && s.tokens[presented].used)
            && (outcome == Rotated <==>
                && known && !s.tokens[presented].used && !s.tokens[presented].revoked
                && s.now < s.tokens[presented].expires && s.tokens[presented].user in s.active && commits)
            && (outcome == Suspended <==>
                && known && !s.tokens[presented].used && !s.tokens[presented].revoked
                && s.now < s.tokens[presented].expires && s.tokens[presented].user !in s.active)
            && (outcome == Failed <==>
                && known && !s.tokens[presented].used && !s.tokens[presented].revoked
                && s.now < s.tokens[presented].expires && s.tokens[presented].user in s.active && !commits)
            && (outcome == Invalid <==>
                known ==> !s.tokens[presented].used
                          && (s.tokens[presented].revoked || s.tokens[presented].expires <= s.now))
  {
  }

  /** A request that is refused, or whose transaction fails, changes nothing. */
  lemma RefusalsChangeNothing(policy: Policy, s: State, e: Event)
    requires (e.Refresh? && (!e.commits || OutcomeOf(s, e.presented, e.commits) in {Invalid, Suspended}))
             || (e.Logout? && !e.commits)
    ensures Next(policy, s, e) == s
  {
  }

  /** Time and the users' status are what the events about them say, and no other event touches them. */
  lemma TimeAndStatus(policy: Policy, s: State, e: Event, user: UserId)
    ensures var s' := Next(policy, s, e);
            && s'.now == (if e.Tick? then s.now + e.elapsed else s.now)
            && (user in s'.active <==> if e.SetStatus? && e.user == user then e.active else user in s.active)
            && (e.Tick? || e.SetStatus? ==> s'.tokens == s.tokens && s'.sessions == s.sessions)
  {
  }

  // ---------------------------------------------------------------- how long a login lasts

  /** The event adds the token. */
  predicate Grants(policy: Policy, s: State, e: Event, t: TokenId) {
    t !in s.tokens && t in Next(policy, s, e).tokens
  }

  /** A new token runs for `refreshTTL` from now and its session for `sessionTTL`; both are good for the same user. */
  lemma GrantedToken(policy: Policy, s: State, e: Event, t: TokenId)
    requires Grants(policy, s, e, t) && SessionsMatch(s)
    ensures var s' := Next(policy, s, e); var rt := s'.tokens[t];
            && s'.now == s.now && rt.expires == s.now + policy.refreshTTL && !rt.used && !rt.revoked
            && rt.session !in s.sessions && rt.session in s'.sessions
            && s'.sessions[rt.session] == Session(rt.user, s.now + policy.sessionTTL, false)
            && (e.Issue? ==> rt.user == e.user)
            && (e.Refresh? ==> rt.user == s.tokens[e.presented].user && rt.family == s.tokens[e.presented].family)
            && (e.Issue? || e.Refresh?)
  {
  }

  /** What never changes in a token and its session. */
  lemma {:induction false} TermsStay(policy: Policy, s: State, later: seq<Event>, t: TokenId)
    requires t in s.tokens && s.tokens[t].session in s.sessions
    ensures var s' := Run(policy, s, later);
            && t in s'.tokens && s'.tokens[t].expires == s.tokens[t].expires
            && s'.tokens[t].user == s.tokens[t].user && s'.tokens[t].session == s.tokens[t].session
            && s.tokens[t].session in s'.sessions
            && s'.sessions[s.tokens[t].session].expires == s.sessions[s.tokens[t].session].expires
            && s'.sessions[s.tokens[t].session].user == s.sessions[s.tokens[t].session].user
  {
    if |later| > 0 {
      TermsStay(policy, s, later[..|later| - 1], t);
    }
  }

  /**
   Main theorem: in every run, whatever happens in between, a token is good for exactly
   `refreshTTL` from the event that granted it, unless it is used or revoked before, and
   its session for exactly `sessionTTL`.
   */
  lemma LoginsExpire(policy: Policy, es: seq<Event>, k: nat, t: TokenId, commits: bool)
    requires k < |es| && Grants(policy, Run(policy, Empty, es[..k]), es[k], t)
    ensures var granted, s := Run(policy, Empty, es[..k]).now, Run(policy, Empty, es);
            && t in s.tokens && s.tokens[t].session in s.sessions
            && (OutcomeOf(s, t, commits) == Rotated <==>
                && !s.tokens[t].used && !s.tokens[t].revoked && s.now < granted + policy.refreshTTL
                && s.tokens[t].user in s.active && commits)
            && (Live(s, s.tokens[t].session) <==>
                !s.sessions[s.tokens[t].session].revoked && s.now < granted + policy.sessionTTL)
  {
    var before := Run(policy, Empty, es[..k]);
    assert es[..k + 1][..k] == es[..k];
    RunKeepsInv(policy, es[..k]);
    GrantedToken(policy, before, es[k], t);
    assert es == es[..k + 1] + es[k + 1..];
    RunFrom(policy, es[..k + 1], es[k + 1..]);
    TermsStay(policy, Run(policy, Empty, es[..k + 1]), es[k + 1..], t);
    AnswersIff(Run(policy, Empty, es), t, commits);
  }

  // ---------------------------------------------------------------- whom a request concerns

  ghost predicate OneUserPerFamily(s: State) {
    forall t, u | t in s.tokens && u in s.tokens && s.tokens[t].family == s.tokens[u].family ::
      s.tokens[t].user == s.tokens[u].user
  }

  lemma StepKeepsUsers(policy: Policy, s: State, e: Event)
    requires OneUserPerFamily(s)
    ensures OneUserPerFamily(Next(policy, s, e))
  {
  }

  /** A family speaks for the user whose login began it. */
  lemma {:induction false} FamiliesHaveOneUser(policy: Policy, es: seq<Event>)
    ensures OneUserPerFamily(Run(policy, Empty, es))
  {
    if |es| > 0 {
      FamiliesHaveOneUser(policy, es[..|es| - 1]);
      StepKeepsUsers(policy, Run(policy, Empty, es[..|es| - 1]), es[|es| - 1]);
    }
  }

  lemma OthersKeepTheirRows(policy: Policy, s: State, e: Event, t: TokenId)
    requires SessionsMatch(s) && t in s.tokens && Enabled(s, e)
    requires e.Refresh? && e.presented in s.tokens ==> s.tokens[t].family != s.tokens[e.presented].family
    requires e.Logout? ==> s.tokens[t].session != e.ended
    ensures var s' := Next(policy, s, e);
            && t in s'.tokens && s'.tokens[t] == s.tokens[t] && s.tokens[t].session in s'.sessions
            && s'.sessions[s.tokens[t].session] == s.sessions[s.tokens[t].session]
  {
  }

  /**
   In every reachable state a refresh, even a replay, leaves the tokens and sessions of every
   other family as they are, and a logout every other session and all tokens.
   */
  lemma OthersAreUntouched(policy: Policy, es: seq<Event>, e: Event, t: TokenId)
    requires var s := Run(policy, Empty, es);
             && t in s.tokens && Enabled(s, e)
             && (e.Refresh? && e.presented in s.tokens ==> s.tokens[t].family != s.tokens[e.presented].family)
    ensures var s, s' := Run(policy, Empty, es), Run(policy, Empty, es + [e]); var id := s.tokens[t].session;
            && t in s'.tokens && s'.tokens[t] == s.tokens[t] && id in s.sessions && id in s'.sessions
            && (if e.Logout? && e.ended == id
                then s'.sessions[id] == s.sessions[id].(revoked := s'.sessions[id].revoked)
                else s'.sessions[id] == s.sessions[id])
  {
    var s := Run(policy, Empty, es);
    RunKeepsInv(policy, es);
    assert (es + [e])[..|es|] == es;
    if !(e.Logout? && e.ended == s.tokens[t].session) {
      OthersKeepTheirRows(policy, s, e, t);
    }
  }

  /** A logout that goes through ends a live session, and no other kind of event but a refresh ever ends one. */
  lemma LogoutEndsTheSession(policy: Policy, s: State, e: Event, id: SessionId)
    requires id in s.sessions && !s.sessions[id].revoked && Enabled(s, e) && !e.Refresh?
    ensures var s' := Next(policy, s, e);
            && id in s'.sessions
            && (s'.sessions[id].revoked <==> e == Logout(id, true) && s.now < s.sessions[id].expires)
  {
  }

  // ---------------------------------------------------------------- the service

  class Service {
    const policy: Policy
    var tokens: map<TokenId, Token>
    var sessions: map<SessionId, Session>
    var active: set<UserId>
    var now: int

    constructor (policy: Policy)
      ensures this.policy == policy && Tables() == Empty
    {
      this.policy := policy;
      tokens, sessions, active, now := map[], map[], {}, 0;
    }

    function Tables(): State
      reads this
    {
      State(tokens, sessions, active, now)
    }

    method CreateSession(user: UserId, id: SessionId)
      requires id !in sessions
      modifies this`sessions
      ensures sessions == old(sessions)[id := Session(user, now + policy.sessionTTL, false)]
    {
      sessions := sessions[id := Session(user, now + policy.sessionTTL, false)];
    }

    method CreateRefreshToken(family: FamilyId, user: UserId, session: SessionId, id: TokenId)
      requires id !in tokens
      modifies this`tokens
      ensures tokens == old(tokens)[id := Token(family, user, session, now + policy.refreshTTL, false, None, false)]
    {
      tokens := tokens[id := Token(family, user, session, now + policy.refreshTTL, false, None, false)];
    }

    /** Leaves a session that is already revoked, or missing, as it is. */
    method RevokeSession(id: SessionId)
      modifies this`sessions
      ensures sessions == Revoke(old(sessions), {id})
    {
      if id in sessions && !sessions[id].revoked {
        sessions := sessions[id := sessions[id].(revoked := true)];
      }
    }

    method IssueTokens(user: UserId, session: SessionId, token: TokenId, family: FamilyId)
      requires Enabled(Tables(), Issue(user, session, token, family))
      modifies this
      ensures Tables() == Next(policy, old(Tables()), Issue(user, session, token, family))
    {
      CreateSession(user, session);
      CreateRefreshToken(family, user, session, token);
    }

    /** Presenting a used token revokes its family; an unused one rotates if it and its user are in order. */
    method RefreshToken(presented: TokenId, session: SessionId, token: TokenId, commits: bool)
      returns (outcome: Outcome)
      requires Enabled(Tables(), Refresh(presented, session, token, commits))
      modifies this
      ensures outcome == OutcomeOf(old(Tables()), presented, commits)
      ensures Tables() == Next(policy, old(Tables()), Refresh(presented, session, token, commits))
    {
      if presented !in tokens {
        return Invalid;
      }
      var rt := tokens[presented];
      if rt.used {
        if commits {
          var s := RevokeFamily(Tables(), rt.family);
          tokens, sessions := s.tokens, s.sessions;
        }
        return Replayed;
      }
      if rt.revoked || rt.expires <= now {
        return Invalid;
      }
      if rt.user !in active {
        return Suspended;
      }
      if !commits {
        return Failed;
      }
      CreateSession(rt.user, session);
      CreateRefreshToken(rt.family, rt.user, session, token);
      tokens := tokens[presented := tokens[presented].(used := true, replacedBy := Some(token))];
      RevokeSession(rt.session);
      outcome := Rotated;
    }

    method EndSession(id: SessionId, commits: bool)
      modifies this
      ensures Tables() == Next(policy, old(Tables()), Logout(id, commits))
    {
      if Live(Tables(), id) && commits {
        RevokeSession(id);
      }
    }

    /** A session speaks for its user while it is live and the user is active. */
    method Authenticate(id: SessionId) returns (user: Option<UserId>)
      ensures user.Some? <==>
                id in sessions && !sessions[id].revoked && now < sessions[id].expires && sessions[id].user in active
      ensures user.Some? ==> user.value == sessions[id].user
    {
      if Live(Tables(), id) && sessions[id].user in active {
        return Some(sessions[id].user);
      }
      user := None;
    }
  }
}
