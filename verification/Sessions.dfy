/**
 Refresh-token sessions: login opens a family, each refresh revokes the presented token and issues
 the next one of its family, logout and the account-wide revocations revoke.

 A token is the position of its session row; a family is named by the position of its first session.
 */
module Sessions {
  import opened Wrappers

  datatype Session = Session(user: nat, family: nat, revoked: bool, expires: int)

  datatype AuthError = InvalidRefresh | RefreshReuse | RefreshExpired | UserUnavailable

  datatype Refreshed = Refreshed(sessions: seq<Session>, result: Result<nat, AuthError>)

  const TTL: nat := 30 * 24 * 3600

  // ---------------------------------------------------------------------------------------------
  // Effects on the table
  // ---------------------------------------------------------------------------------------------

  function Revoke(ss: seq<Session>, i: nat): seq<Session>
    requires i < |ss|
  {
    ss[i := ss[i].(revoked := true)]
  }

  /** `t` is `s` with exactly the sessions that satisfy `p` revoked as well. */
  ghost predicate RevokedWhere(s: seq<Session>, t: seq<Session>, p: Session -> bool) {
    && |t| == |s|
    && forall i :: 0 <= i < |s| ==> t[i] == if p(s[i]) then s[i].(revoked := true) else s[i]
  }

  function RevokeFamily(ss: seq<Session>, f: nat): seq<Session> {
    if ss == [] then []
    else
      var s := ss[|ss| - 1];
      RevokeFamily(ss[..|ss| - 1], f) + [if s.family == f then s.(revoked := true) else s]
  }

  function RevokeUser(ss: seq<Session>, u: nat): seq<Session> {
    if ss == [] then []
    else
      var s := ss[|ss| - 1];
      RevokeUser(ss[..|ss| - 1], u) + [if s.user == u then s.(revoked := true) else s]
  }

  lemma {:induction false} RevokeFamilyAt(ss: seq<Session>, f: nat)
    ensures RevokedWhere(ss, RevokeFamily(ss, f), (s: Session) => s.family == f)
  {
    if ss != [] { RevokeFamilyAt(ss[..|ss| - 1], f); }
  }

  lemma {:induction false} RevokeUserAt(ss: seq<Session>, u: nat)
    ensures RevokedWhere(ss, RevokeUser(ss, u), (s: Session) => s.user == u)
  {
    if ss != [] { RevokeUserAt(ss[..|ss| - 1], u); }
  }

  /** What `refresh` does inside its database session; `active` is whether the user may still log in. */
  function RefreshInSession(ss: seq<Session>, token: nat, now: int, active: bool): Refreshed {
    if token >= |ss| then Refreshed(ss, Err(InvalidRefresh))
    else
      var s := ss[token];
      if s.revoked then Refreshed(RevokeFamily(ss, s.family), Err(RefreshReuse))
      else if s.expires < now then Refreshed(ss, Err(RefreshExpired))
      else if !active then Refreshed(ss, Err(UserUnavailable))
      else Refreshed(Revoke(ss, token) + [Session(s.user, s.family, false, now + TTL)], Ok(|ss|))
  }

  /** Which answer a presented token gets, by its row and its user alone. */
  predicate VerdictFits(ss: seq<Session>, token: nat, now: int, active: bool, r: Result<nat, AuthError>) {
    && (r.Ok? <==> token < |ss| && !ss[token].revoked && now <= ss[token].expires && active)
    && (r == Err(InvalidRefresh) <==> token >= |ss|)
    && (r == Err(RefreshReuse) <==> token < |ss| && ss[token].revoked)
    && (r == Err(RefreshExpired) <==> token < |ss| && !ss[token].revoked && ss[token].expires < now)
    && (r == Err(UserUnavailable) <==> token < |ss| && !ss[token].revoked && now <= ss[token].expires && !active)
  }

  /** `token` was exchanged for `next`: the one is revoked, the other is a new live session of the same
      user and family that lasts thirty days, and every other session is as it was. */
  ghost predicate Rotated(ss: seq<Session>, ss': seq<Session>, token: nat, next: nat, now: int) {
    && token < |ss| && next == |ss| && |ss'| == |ss| + 1
    && (forall i :: 0 <= i < |ss| ==> ss'[i] == if i == token then ss[i].(revoked := true) else ss[i])
    && ss'[next].user == ss[token].user && ss'[next].family == ss[token].family
    && !ss'[next].revoked && ss'[next].expires == now + 30 * 24 * 3600
  }

  /** What the request commits: an exception rolls everything back. */
  function RefreshRequest(ss: seq<Session>, token: nat, now: int, active: bool): Refreshed {
    var r := RefreshInSession(ss, token, now, active);
    if r.result.Err? then Refreshed(ss, r.result) else r
  }

  // ---------------------------------------------------------------------------------------------
  // The service
  // ---------------------------------------------------------------------------------------------

  class AuthService {
    var sessions: seq<Session>

    constructor ()
      ensures sessions == []
    {
      sessions := [];
    }

    method CreateSession(user: nat, family: Option<nat>, now: int) returns (token: nat)
      modifies this
      ensures token == |old(sessions)|
      ensures sessions == old(sessions)
                + [Session(user, if family.Some? then family.value else |old(sessions)|, false, now + TTL)]
      ensures family.None? ==> sessions == Next(old(sessions), Login(user, now))
    {
      token := |sessions|;
      sessions := sessions + [Session(user, if family.Some? then family.value else token, false, now + TTL)];
    }

    method RevokeFamilyRows(f: nat)
      modifies this
      ensures sessions == RevokeFamily(old(sessions), f)
      ensures RevokedWhere(old(sessions), sessions, (s: Session) => s.family == f)
    {
      ghost var was := sessions;
      RevokeFamilyAt(was, f);
      for i := 0 to |sessions|
        invariant |sessions| == |was|
        invariant forall k :: 0 <= k < i ==> sessions[k] == RevokeFamily(was, f)[k]
        invariant forall k :: i <= k < |was| ==> sessions[k] == was[k]
      {
        if sessions[i].family == f && !sessions[i].revoked {
          sessions := sessions[i := sessions[i].(revoked := true)];
        }
      }
    }

    method RevokeAllSessions(user: nat)
      modifies this
      ensures sessions == Next(old(sessions), RevokeAll(user))
      ensures RevokedWhere(old(sessions), sessions, (s: Session) => s.user == user)
    {
      ghost var was := sessions;
      RevokeUserAt(was, user);
      for i := 0 to |sessions|
        invariant |sessions| == |was|
        invariant forall k :: 0 <= k < i ==> sessions[k] == RevokeUser(was, user)[k]
        invariant forall k :: i <= k < |was| ==> sessions[k] == was[k]
      {
        if sessions[i].user == user && !sessions[i].revoked {
          sessions := sessions[i := sessions[i].(revoked := true)];
        }
      }
    }

    method Logout(token: nat)
      modifies this
      ensures sessions == Next(old(sessions), LogsOut(token))
      ensures |sessions| == |old(sessions)|
      ensures forall i :: 0 <= i < |sessions| ==>
                sessions[i] == if i == token then old(sessions)[i].(revoked := true) else old(sessions)[i]
    {
      if token < |sessions| && !sessions[token].revoked {
        sessions := sessions[token := sessions[token].(revoked := true)];
      }
    }

    method Refresh(token: nat, now: int, active: bool) returns (r: Result<nat, AuthError>)
      modifies this
      ensures Refreshed(sessions, r) == RefreshInSession(old(sessions), token, now, active)
      ensures VerdictFits(old(sessions), token, now, active, r)
      ensures r == Err(RefreshReuse) ==>
                && token < |old(sessions)|
                && var family := old(sessions)[token].family;
                   RevokedWhere(old(sessions), sessions, (s: Session) => s.family == family)
      ensures r.Err? && r != Err(RefreshReuse) ==> sessions == old(sessions)
      ensures r.Ok? ==> Rotated(old(sessions), sessions, token, r.value, now)
    {
      if token >= |sessions| { return Err(InvalidRefresh); }
      var s := sessions[token];
      if s.revoked {
        RevokeFamilyRows(s.family);
        return Err(RefreshReuse);
      }
      if s.expires < now { return Err(RefreshExpired); }
      if !active { return Err(UserUnavailable); }
      sessions := sessions[token := s.(revoked := true)];
      var next := CreateSession(s.user, Some(s.family), now);
      r := Ok(next);
    }

    /** The whole request: commit, or roll back when `Refresh` raised. It succeeds exactly for an
        unrevoked, unexpired token of an active user; then that token is revoked and the one returned is
        a live session of the same user and family, and otherwise nothing is committed. */
    method HandleRefresh(token: nat, now: int, active: bool) returns (r: Result<nat, AuthError>)
      modifies this
      ensures Refreshed(sessions, r) == RefreshRequest(old(sessions), token, now, active)
      ensures sessions == Next(old(sessions), Refreshes(token, now, active))
      ensures VerdictFits(old(sessions), token, now, active, r)
      ensures r.Err? ==> sessions == old(sessions)
      ensures r.Ok? ==> Rotated(old(sessions), sessions, token, r.value, now)
    {
      var saved := sessions;
      r := Refresh(token, now, active);
      if r.Err? { sessions := saved; }
    }
  }

  // ---------------------------------------------------------------------------------------------
  // Serialised runs
  // ---------------------------------------------------------------------------------------------

  /** `RevokeAll` is a password reset or a suspension. */
  datatype Step =
    | Login(user: nat, now: int)
    | Refreshes(token: nat, now: int, active: bool)
    | LogsOut(token: nat)
    | RevokeAll(user: nat)

  function Next(ss: seq<Session>, s: Step): seq<Session> {
    match s
    case Login(u, now) => ss + [Session(u, |ss|, false, now + TTL)]
    case Refreshes(token, now, active) => RefreshRequest(ss, token, now, active).sessions
    case LogsOut(token) => if token < |ss| then Revoke(ss, token) else ss
    case RevokeAll(u) => RevokeUser(ss, u)
  }

  function Run(steps: seq<Step>): seq<Session> {
    if steps == [] then [] else Next(Run(steps[..|steps| - 1]), steps[|steps| - 1])
  }

  /** Over every serialised run: which refresh succeeds, and what it leaves. */
  lemma RefreshesIff(steps: seq<Step>, token: nat, now: int, active: bool)
    ensures var ss, ss' := Run(steps), Run(steps + [Refreshes(token, now, active)]);
            if token < |ss| && !ss[token].revoked && now <= ss[token].expires && active
            then Rotated(ss, ss', token, |ss|, now) else ss' == ss
  {
    assert (steps + [Refreshes(token, now, active)])[..|steps|] == steps;
  }

  /** All but the newest session of each family are revoked. */
  ghost predicate OnlyNewestLive(ss: seq<Session>) {
    forall i, j :: 0 <= i < j < |ss| && ss[i].family == ss[j].family ==> ss[i].revoked
  }

  /** No session names a family opened later, and a family belongs to one user. */
  ghost predicate FamiliesOk(ss: seq<Session>) {
    && (forall i :: 0 <= i < |ss| ==> ss[i].family <= i)
    && (forall i, j :: 0 <= i < j < |ss| && ss[i].family == ss[j].family ==> ss[i].user == ss[j].user)
  }

  /** `t` continues `s`: the same sessions, none of them unrevoked again, and possibly newer ones. */
  ghost predicate Continues(s: seq<Session>, t: seq<Session>) {
    && |s| <= |t|
    && forall i :: 0 <= i < |s| ==>
         t[i].user == s[i].user && t[i].family == s[i].family && (s[i].revoked ==> t[i].revoked)
  }

  /** Revoking sessions, whichever they are, keeps the chains. */
  lemma RevokingKeeps(ss: seq<Session>, t: seq<Session>)
    requires OnlyNewestLive(ss) && FamiliesOk(ss) && |t| == |ss| && Continues(ss, t)
    ensures OnlyNewestLive(t) && FamiliesOk(t)
  {}

  /** So does a new session whose family is new or has nothing live. */
  lemma IssuingKeeps(ss: seq<Session>, n: Session)
    requires OnlyNewestLive(ss) && FamiliesOk(ss)
    requires n.family == |ss| || (exists k :: 0 <= k < |ss| && ss[k].family == n.family && ss[k].user == n.user)
    requires forall k :: 0 <= k < |ss| && ss[k].family == n.family ==> ss[k].revoked
    ensures OnlyNewestLive(ss + [n]) && FamiliesOk(ss + [n]) && Continues(ss, ss + [n])
  {
    if n.family != |ss| {
      var k :| 0 <= k < |ss| && ss[k].family == n.family && ss[k].user == n.user;
      assert forall i :: 0 <= i < |ss| && ss[i].family == n.family ==> ss[i].user == n.user;
    }
  }

  lemma NextFacts(ss: seq<Session>, s: Step)
    requires OnlyNewestLive(ss) && FamiliesOk(ss)
    ensures OnlyNewestLive(Next(ss, s)) && FamiliesOk(Next(ss, s)) && Continues(ss, Next(ss, s))
  {
    match s
    case Login(u, now) => IssuingKeeps(ss, Session(u, |ss|, false, now + TTL));
    case RevokeAll(u) =>
      RevokeUserAt(ss, u);
      RevokingKeeps(ss, RevokeUser(ss, u));
    case LogsOut(token) => if token < |ss| { RevokingKeeps(ss, Revoke(ss, token)); }
    case Refreshes(token, now, active) => RefreshKeeps(ss, token, now, active);
  }

  lemma RefreshKeeps(ss: seq<Session>, token: nat, now: int, active: bool)
    requires OnlyNewestLive(ss) && FamiliesOk(ss)
    ensures var t := RefreshRequest(ss, token, now, active).sessions;
            OnlyNewestLive(t) && FamiliesOk(t) && Continues(ss, t)
  {
    if RefreshRequest(ss, token, now, active).result.Ok? { RotatingKeeps(ss, token, now); }
  }

  lemma RotatingKeeps(ss: seq<Session>, token: nat, now: int)
    requires OnlyNewestLive(ss) && FamiliesOk(ss) && token < |ss| && !ss[token].revoked
    ensures var t := Revoke(ss, token) + [Session(ss[token].user, ss[token].family, false, now + TTL)];
            OnlyNewestLive(t) && FamiliesOk(t) && Continues(ss, t)
  {
    var mid := Revoke(ss, token);
    RevokingKeeps(ss, mid);
    assert mid[token].family == ss[token].family && mid[token].user == ss[token].user;
    IssuingKeeps(mid, Session(ss[token].user, ss[token].family, false, now + TTL));
  }

  lemma {:induction false} RunFacts(steps: seq<Step>)
    ensures OnlyNewestLive(Run(steps)) && FamiliesOk(Run(steps))
  {
    if steps != [] {
      RunFacts(steps[..|steps| - 1]);
      NextFacts(Run(steps[..|steps| - 1]), steps[|steps| - 1]);
    }
  }

  lemma {:induction false} RunContinues(steps: seq<Step>, i: nat)
    requires i <= |steps|
    ensures Continues(Run(steps[..i]), Run(steps))
  {
    if i < |steps| {
      var front := steps[..|steps| - 1];
      assert front[..i] == steps[..i];
      RunContinues(front, i);
      RunFacts(front);
      NextFacts(Run(front), steps[|steps| - 1]);
    } else {
      assert steps[..i] == steps;
    }
  }

  /** In every serialised run a family has at most one unrevoked session, its newest, and a revoked
      session never comes back. */
  lemma FamilyChain(steps: seq<Step>, i: nat)
    requires i <= |steps|
    ensures OnlyNewestLive(Run(steps)) && FamiliesOk(Run(steps))
    ensures Continues(Run(steps[..i]), Run(steps))
  {
    RunFacts(steps);
    RunContinues(steps, i);
  }

  predicate Succeeds(ss: seq<Session>, s: Step) {
    s.Refreshes? && RefreshRequest(ss, s.token, s.now, s.active).result.Ok?
  }

  /** A token refreshes successfully at most once. */
  lemma TokenRefreshesOnce(steps: seq<Step>, i: nat, j: nat)
    requires i < |steps| && j < |steps|
    requires Succeeds(Run(steps[..i]), steps[i]) && Succeeds(Run(steps[..j]), steps[j])
    requires steps[i].token == steps[j].token
    ensures i == j
  {
    if i < j {
      SecondRefreshFails(steps, i, j);
    } else if j < i {
      SecondRefreshFails(steps, j, i);
    }
  }

  lemma SecondRefreshFails(steps: seq<Step>, i: nat, j: nat)
    requires i < j < |steps| && steps[j].Refreshes? && Succeeds(Run(steps[..i]), steps[i])
    requires steps[i].token == steps[j].token
    ensures !Succeeds(Run(steps[..j]), steps[j])
  {
    assert steps[..i + 1][..i] == steps[..i];
    assert Run(steps[..i + 1])[steps[i].token].revoked;
    assert steps[..j][..i + 1] == steps[..i + 1];
    RunContinues(steps[..j], i + 1);
  }

  /** A successful refresh makes the new token the only live one of its family. */
  lemma RefreshRotates(steps: seq<Step>, token: nat, now: int)
    requires var ss := Run(steps); token < |ss| && !ss[token].revoked && now <= ss[token].expires
    ensures var ss, r := Run(steps), RefreshRequest(Run(steps), token, now, true);
            && r.result == Ok(|ss|)
            && forall k :: 0 <= k < |r.sessions| && r.sessions[k].family == ss[token].family ==>
                 (r.sessions[k].revoked <==> k != |ss|)
  {
    RunFacts(steps);
    NextFacts(Run(steps), Refreshes(token, now, true));
  }

  // ---------------------------------------------------------------------------------------------
  // Reuse detection
  // ---------------------------------------------------------------------------------------------

  /** Presenting a revoked token revokes its whole family inside the database session and raises;
      the exception then undoes it. What is committed is the state before the request, so the family
      ends up fully revoked exactly when it already was. */
  lemma ReuseRevokesOnlyInSession(steps: seq<Step>, token: nat, now: int, active: bool)
    requires var ss := Run(steps); token < |ss| && ss[token].revoked
    ensures var ss, f := Run(steps), Run(steps)[token].family;
            var inside := RefreshInSession(ss, token, now, active);
            var committed := RefreshRequest(ss, token, now, active);
            && inside.result == Err(RefreshReuse) && committed.result == Err(RefreshReuse)
            && RevokedWhere(ss, inside.sessions, (s: Session) => s.family == f)
            && committed.sessions == ss
            && (inside.sessions == committed.sessions
                <==> forall k :: 0 <= k < |ss| && ss[k].family == f ==> ss[k].revoked)
  {
    var ss := Run(steps);
    RevokeFamilyAt(ss, ss[token].family);
    var inside := RefreshInSession(ss, token, now, active).sessions;
    if forall k :: 0 <= k < |ss| && ss[k].family == ss[token].family ==> ss[k].revoked {
      assert forall k :: 0 <= k < |ss| ==> inside[k] == ss[k];
    }
  }

  /** So the chain survives: after any successful refresh, replaying the old token leaves the new
      one working. */
  lemma ChainSurvivesReuse(steps: seq<Step>, token: nat, now: int, later: int)
    requires var ss := Run(steps); token < |ss| && !ss[token].revoked && now <= ss[token].expires
    requires later <= now + TTL
    ensures var ss := Run(steps);
            var rotated := RefreshRequest(ss, token, now, true).sessions;
            var replayed := RefreshRequest(rotated, token, later, true);
            && replayed.result == Err(RefreshReuse)
            && RefreshRequest(replayed.sessions, |ss|, later, true).result.Ok?
  {
    RunFacts(steps);
  }
}
