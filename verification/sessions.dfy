/**
 Refresh-token families: a login starts a family, each refresh replaces its one current
 session, presenting a replaced token or logging out ends the family for good. Secrets are
 compared by their hashes, which are opaque values here.
 */
module Sessions {
  import opened Basics
  import opened Observations

  type SessionId = int
  type FamilyId = int
  type UserId = int

  datatype User = User(active: bool, tokenVersion: nat)

  datatype Session = Session(
    user: UserId, family: FamilyId, hash: int, tokenVersion: nat, expiresAt: Time,
    rotatedAt: Option<Time>, revokedAt: Option<Time>)

  datatype Identity = Identity(users: map<UserId, User>, sessions: map<SessionId, Session>, tenantActive: bool)

  // ----- Who is let in -----

  datatype Claims = Claims(user: UserId, tokenVersion: nat, session: SessionId, expiresAt: Time)

  /** The check made for every request that carries an access token of a session. */
  predicate Accepted(s: Identity, c: Claims, now: Time) {
    && now < c.expiresAt
    && c.user in s.users && s.users[c.user].active && s.users[c.user].tokenVersion == c.tokenVersion && s.tenantActive
    && c.session in s.sessions
    && var a := s.sessions[c.session];
       a.user == c.user && a.tokenVersion == c.tokenVersion && a.revokedAt.None? && a.rotatedAt.None?
           && now < a.expiresAt
  }

  /** Some access token of the session could still be accepted, or its refresh token be exchanged. */
  predicate Usable(a: Session) { a.rotatedAt.None? && a.revokedAt.None? }

  // ----- Login, refresh, logout -----

  function NewSession(user: UserId, u: User, family: FamilyId, hash: int, expiresAt: Time): Session {
    Session(user, family, hash, u.tokenVersion, expiresAt, None, None)
  }

  function Login(
    s: Identity, user: UserId, id: SessionId, family: FamilyId, hash: int, now: Time, lifetime: nat): Identity
    requires user in s.users
  {
    s.(sessions := s.sessions[id := NewSession(user, s.users[user], family, hash, now + lifetime)])
  }

  datatype RefreshError = InvalidRefreshToken | RefreshTokenReused

  function RevokeFamily(s: Identity, family: FamilyId, now: Time): Identity {
    s.(sessions := map id | id in s.sessions ::
      if s.sessions[id].family == family && s.sessions[id].revokedAt.None? then s.sessions[id].(revokedAt := Some(now))
      else s.sessions[id])
  }

  predicate MayContinue(s: Identity, a: Session) {
    a.user in s.users && s.users[a.user].active && s.tenantActive && s.users[a.user].tokenVersion == a.tokenVersion
  }

  datatype Refresh = Refresh(session: SessionId, hash: int, newId: SessionId, newHash: int, now: Time, lifetime: nat)

  /** Exchange a refresh token. Errors may still leave something behind: what a reuse revokes stays revoked. */
  function Rotate(s: Identity, q: Refresh): (Identity, Result<SessionId, RefreshError>) {
    if q.session !in s.sessions || s.sessions[q.session].hash != q.hash then (s, Err(InvalidRefreshToken))
    else
      var a := s.sessions[q.session];
      if a.rotatedAt.Some? then (RevokeFamily(s, a.family, q.now), Err(RefreshTokenReused))
      else if a.revokedAt.Some? || a.expiresAt <= q.now then (s, Err(InvalidRefreshToken))
      else if !MayContinue(s, a) then
        (s.(sessions := s.sessions[q.session := a.(revokedAt := Some(q.now))]), Err(InvalidRefreshToken))
      else
        var rotated := s.sessions[q.session := a.(rotatedAt := Some(q.now))];
        var replacement := NewSession(a.user, s.users[a.user], a.family, q.newHash, q.now + q.lifetime);
        (s.(sessions := rotated[q.newId := replacement]), Ok(q.newId))
  }

  /** Logging out ends the session, or for a token without one every token of the user. */
  function Logout(s: Identity, user: UserId, session: Option<SessionId>, now: Time): Identity {
    match session
    case None =>
      if user !in s.users then s
      else s.(users := s.users[user := s.users[user].(tokenVersion := s.users[user].tokenVersion + 1)])
    case Some(id) =>
      if id !in s.sessions || s.sessions[id].user != user || s.sessions[id].revokedAt.Some? then s
      else s.(sessions := s.sessions[id := s.sessions[id].(revokedAt := Some(now))])
  }

  // ----- Steps and runs -----

  datatype SessionStep =
    | LoginStep(user: UserId, id: SessionId, family: FamilyId, hash: int, now: Time, lifetime: nat)
    | RefreshStep(refresh: Refresh)
    | LogoutStep(who: UserId, session: Option<SessionId>, at: Time)
    | SetActiveStep(whose: UserId, active: bool)
    | SetTenantStep(tenantActive: bool)

  predicate NewFamily(s: Identity, family: FamilyId) {
    forall id :: id in s.sessions ==> s.sessions[id].family != family
  }

  /** Session and family ids are new when they are made. */
  function RunStep(s: Identity, step: SessionStep): Identity {
    match step
    case LoginStep(user, id, family, hash, now, lifetime) =>
      if user in s.users && id !in s.sessions && NewFamily(s, family)
          then Login(s, user, id, family, hash, now, lifetime) else s
    case RefreshStep(q) => if q.newId in s.sessions then s else Rotate(s, q).0
    case LogoutStep(user, session, now) => Logout(s, user, session, now)
    case SetActiveStep(user, active) => if user in s.users
        then s.(users := s.users[user := s.users[user].(active := active)]) else s
    case SetTenantStep(active) => s.(tenantActive := active)
  }

  function Run(s: Identity, steps: seq<SessionStep>): Identity
    decreases |steps|
  {
    if steps == [] then s else Run(RunStep(s, steps[0]), steps[1..])
  }

  // ----- One current session per family -----

  predicate IsCurrent(s: Identity, id: SessionId, family: FamilyId) {
    id in s.sessions && s.sessions[id].family == family && s.sessions[id].rotatedAt.None?
  }

  ghost predicate OneCurrent(s: Identity) {
    && (forall i, j, f {:trigger IsCurrent(s, i, f), IsCurrent(s, j, f)} :: IsCurrent(s, i, f) && IsCurrent(s, j, f) ==>
         i == j)
    && (forall id {:trigger s.sessions[id]} :: id in s.sessions ==> exists c :: IsCurrent(s, c, s.sessions[id].family))
  }

  lemma StepKeepsCurrent(s: Identity, step: SessionStep)
    requires OneCurrent(s)
    ensures OneCurrent(RunStep(s, step))
  {
    var next := RunStep(s, step);
    forall i, j, f | IsCurrent(next, i, f) && IsCurrent(next, j, f)
      ensures i == j
    {
      CurrentBefore(s, step, i, f);
      CurrentBefore(s, step, j, f);
    }
    forall id | id in next.sessions
      ensures exists c :: IsCurrent(next, c, next.sessions[id].family)
    {
      StillCurrent(s, step, id);
    }
  }

  /** The session that a step makes, if any, and the one that it replaces. */
  predicate Replaces(s: Identity, step: SessionStep) {
    step.RefreshStep? && step.refresh.newId !in s.sessions && Rotate(s, step.refresh).1.Ok?
  }

  /** What was current before: the session itself, or the one that a refresh replaced by it. */
  lemma CurrentBefore(s: Identity, step: SessionStep, id: SessionId, f: FamilyId)
    requires IsCurrent(RunStep(s, step), id, f)
    ensures
      IsCurrent(s, id, f) || (step.LoginStep? && id == step.id && NewFamily(s, f))
      || (Replaces(s, step) && id == step.refresh.newId && IsCurrent(s, step.refresh.session, f))
    ensures IsCurrent(s, id, f) && Replaces(s, step) ==> id != step.refresh.session
  {
  }

  lemma StillCurrent(s: Identity, step: SessionStep, id: SessionId)
    requires OneCurrent(s) && id in RunStep(s, step).sessions
    ensures exists c :: IsCurrent(RunStep(s, step), c, RunStep(s, step).sessions[id].family)
  {
    var next := RunStep(s, step);
    var f := next.sessions[id].family;
    if id in s.sessions {
      assert f == s.sessions[id].family;
      var c :| IsCurrent(s, c, f);
      if Replaces(s, step) && c == step.refresh.session {
        assert IsCurrent(next, step.refresh.newId, f);
      } else {
        assert IsCurrent(next, c, f);
      }
    } else {
      assert IsCurrent(next, id, f);
    }
  }

  lemma {:induction false} RunKeepsCurrent(s: Identity, steps: seq<SessionStep>)
    requires OneCurrent(s)
    ensures OneCurrent(Run(s, steps))
    decreases |steps|
  {
    if steps != [] {
      StepKeepsCurrent(s, steps[0]);
      RunKeepsCurrent(RunStep(s, steps[0]), steps[1..]);
    }
  }

  /** At any time at most one session of a family lets anybody in, and it is the family's current one. */
  lemma OneAcceptedPerFamily(users: map<UserId, User>, steps: seq<SessionStep>, a: Claims, b: Claims, now: Time)
    requires
      var s := Run(Identity(users, map[], true), steps);
      Accepted(s, a, now) && Accepted(s, b, now) && s.sessions[a.session].family == s.sessions[b.session].family
    ensures a.session == b.session && a.user == b.user && a.tokenVersion == b.tokenVersion
  {
    var start := Identity(users, map[], true);
    RunKeepsCurrent(start, steps);
    var s := Run(start, steps);
    assert IsCurrent(s, a.session, s.sessions[a.session].family);
    assert IsCurrent(s, b.session, s.sessions[a.session].family);
  }

  // ----- A family that ended stays ended -----

  /** No session of the family can be used; the family exists. */
  ghost predicate Ended(s: Identity, f: FamilyId) {
    && (exists id :: id in s.sessions && s.sessions[id].family == f)
    && (forall id {:trigger s.sessions[id]} :: id in s.sessions && s.sessions[id].family == f ==>
         !Usable(s.sessions[id]))
  }

  lemma StepKeepsEnded(s: Identity, step: SessionStep, f: FamilyId)
    requires Ended(s, f)
    ensures Ended(RunStep(s, step), f)
  {
    var next := RunStep(s, step);
    var id :| id in s.sessions && s.sessions[id].family == f;
    assert id in next.sessions && next.sessions[id].family == f;
  }

  lemma {:induction false} EndedForever(s: Identity, steps: seq<SessionStep>, f: FamilyId, c: Claims, now: Time)
    requires Ended(s, f)
    ensures Ended(Run(s, steps), f)
    ensures Accepted(Run(s, steps), c, now) ==> Run(s, steps).sessions[c.session].family != f
    decreases |steps|
  {
    if steps != [] {
      StepKeepsEnded(s, steps[0], f);
      EndedForever(RunStep(s, steps[0]), steps[1..], f, c, now);
    }
  }

  /** Presenting a token that was already replaced ends the whole family. */
  lemma ReuseEnds(s: Identity, q: Refresh)
    requires q.session in s.sessions && s.sessions[q.session].hash == q.hash && s.sessions[q.session].rotatedAt.Some?
    ensures Rotate(s, q).1 == Err(RefreshTokenReused)
    ensures Ended(Rotate(s, q).0, s.sessions[q.session].family)
  {
    assert q.session in Rotate(s, q).0.sessions;
  }

  /** Logging out the current session ends the family. */
  lemma LogoutEnds(s: Identity, user: UserId, id: SessionId, now: Time)
    requires OneCurrent(s) && id in s.sessions && s.sessions[id].user == user && s.sessions[id].rotatedAt.None?
    ensures Ended(Logout(s, user, Some(id), now), s.sessions[id].family)
  {
    var next := Logout(s, user, Some(id), now);
    var f := s.sessions[id].family;
    assert id in next.sessions && next.sessions[id].family == f;
    forall j | j in next.sessions && next.sessions[j].family == f
      ensures !Usable(next.sessions[j])
    {
      if j != id && s.sessions[j].rotatedAt.None? {
        assert IsCurrent(s, j, f) && IsCurrent(s, id, f);
      }
    }
  }

  /** From then on nobody is let in by any session of that family, whatever happens later. */
  lemma ReuseLocksOut(s: Identity, q: Refresh, steps: seq<SessionStep>, c: Claims, now: Time)
    requires q.session in s.sessions && s.sessions[q.session].hash == q.hash && s.sessions[q.session].rotatedAt.Some?
    ensures Accepted(Run(Rotate(s, q).0, steps), c, now) ==>
              Run(Rotate(s, q).0, steps).sessions[c.session].family != s.sessions[q.session].family
  {
    ReuseEnds(s, q);
    EndedForever(Rotate(s, q).0, steps, s.sessions[q.session].family, c, now);
  }

  /** A user's token version never goes down, and tokens of an older version are never accepted again. */
  lemma {:induction false} OldVersionsStayOut(s: Identity, steps: seq<SessionStep>, c: Claims, now: Time)
    requires c.user in s.users && c.tokenVersion < s.users[c.user].tokenVersion
    ensures c.user in Run(s, steps).users && c.tokenVersion < Run(s, steps).users[c.user].tokenVersion
    ensures !Accepted(Run(s, steps), c, now)
    decreases |steps|
  {
    if steps != [] {
      OldVersionsStayOut(RunStep(s, steps[0]), steps[1..], c, now);
    }
  }

  // ----- How long a session lets its user in -----

  /** The refresh token is known, and its session neither replaced nor revoked nor past its lifetime. */
  predicate Presents(s: Identity, q: Refresh, id: SessionId) {
    && q.session == id && id in s.sessions && s.sessions[id].hash == q.hash && Usable(s.sessions[id])
    && q.now < s.sessions[id].expiresAt
  }

  /** A token that was replaced before, of the same family, is presented again. */
  predicate Replays(s: Identity, q: Refresh, family: FamilyId) {
    && q.session in s.sessions && s.sessions[q.session].hash == q.hash
    && s.sessions[q.session].rotatedAt.Some? && s.sessions[q.session].family == family
  }

  /** What ends one session: its exchange, a replay in its family, its logout or a logout of all its user's tokens. */
  predicate EndedBy(s: Identity, step: SessionStep, id: SessionId)
    requires id in s.sessions
  {
    var a := s.sessions[id];
    match step
    case RefreshStep(q) => q.newId !in s.sessions && (Presents(s, q, id) || Replays(s, q, a.family))
    case LogoutStep(who, session, at) => who == a.user && (session.None? || session.value == id)
    case _ => false
  }

  ghost predicate EndedDuring(s: Identity, steps: seq<SessionStep>, id: SessionId)
    requires id in s.sessions
    decreases |steps|
  {
    steps != [] && (EndedBy(s, steps[0], id)
                    || (id in RunStep(s, steps[0]).sessions && EndedDuring(RunStep(s, steps[0]), steps[1..], id)))
  }

  /** The session is usable and of its user's present token version. */
  predicate Standing(s: Identity, id: SessionId) {
    && id in s.sessions && Usable(s.sessions[id]) && s.sessions[id].user in s.users
    && s.users[s.sessions[id].user].tokenVersion == s.sessions[id].tokenVersion
  }

  predicate SameGrant(a: Session, b: Session) {
    a.user == b.user && a.family == b.family && a.hash == b.hash && a.tokenVersion == b.tokenVersion
        && a.expiresAt == b.expiresAt
  }

  /** A moment that is recorded stays recorded. */
  predicate Keeps(t: Option<Time>, t': Option<Time>) { t.Some? ==> t' == t }

  lemma GrantStays(s: Identity, step: SessionStep, id: SessionId)
    requires id in s.sessions
    ensures id in RunStep(s, step).sessions && SameGrant(RunStep(s, step).sessions[id], s.sessions[id])
    ensures Keeps(s.sessions[id].rotatedAt, RunStep(s, step).sessions[id].rotatedAt)
    ensures Keeps(s.sessions[id].revokedAt, RunStep(s, step).sessions[id].revokedAt)
    ensures s.users.Keys == RunStep(s, step).users.Keys
  {
  }

  /** No token version is older than its session's: it only rises. */
  predicate NotAhead(s: Identity, id: SessionId) {
    id in s.sessions && s.sessions[id].user in s.users
    && s.sessions[id].tokenVersion <= s.users[s.sessions[id].user].tokenVersion
  }

  lemma StandingSteps(s: Identity, step: SessionStep, id: SessionId)
    requires NotAhead(s, id)
    ensures NotAhead(RunStep(s, step), id)
    ensures Standing(RunStep(s, step), id) <==> Standing(s, id) && !EndedBy(s, step, id)
  {
    GrantStays(s, step, id);
  }

  lemma {:induction false} StandingRuns(s: Identity, steps: seq<SessionStep>, id: SessionId)
    requires NotAhead(s, id)
    ensures id in Run(s, steps).sessions && SameGrant(Run(s, steps).sessions[id], s.sessions[id])
    ensures Standing(Run(s, steps), id) <==> Standing(s, id) && !EndedDuring(s, steps, id)
    decreases |steps|
  {
    if steps != [] {
      StandingSteps(s, steps[0], id);
      GrantStays(s, steps[0], id);
      StandingRuns(RunStep(s, steps[0]), steps[1..], id);
    }
  }

  /** A token of one session: issued to its user, for its version. */
  predicate IssuedFor(a: Session, id: SessionId, c: Claims) {
    c.session == id && c.user == a.user && c.tokenVersion == a.tokenVersion
  }

  /**
   Whatever happens after a session was made, a token of it is accepted exactly as long as
   neither the token nor the session has run out, nothing ended the session, and user and
   tenant are active at that moment.
   */
  lemma AcceptedIff(s: Identity, steps: seq<SessionStep>, c: Claims, now: Time)
    requires Standing(s, c.session) && IssuedFor(s.sessions[c.session], c.session, c)
    ensures c.user in Run(s, steps).users
    ensures
      var last := Run(s, steps);
      Accepted(last, c, now) <==>
      && now < c.expiresAt && now < s.sessions[c.session].expiresAt
      && !EndedDuring(s, steps, c.session) && last.users[c.user].active && last.tenantActive
  {
    StandingRuns(s, steps, c.session);
    UsersStay(s, steps);
  }

  /** Nobody is let in by a token that does not match its session and its user's present version. */
  lemma OnlyIssuedTokens(s: Identity, c: Claims, now: Time)
    requires Accepted(s, c, now)
    ensures Standing(s, c.session) && IssuedFor(s.sessions[c.session], c.session, c)
  {
  }

  lemma {:induction false} UsersStay(s: Identity, steps: seq<SessionStep>)
    ensures Run(s, steps).users.Keys == s.users.Keys
    decreases |steps|
  {
    if steps != [] {
      UsersStay(RunStep(s, steps[0]), steps[1..]);
    }
  }

  /** Neither the user nor the tenant is switched on again in these steps. */
  predicate SwitchesOn(step: SessionStep, user: UserId) {
    (step.SetActiveStep? && step.whose == user && step.active) || (step.SetTenantStep? && step.tenantActive)
  }

  lemma {:induction false} StaysOff(s: Identity, steps: seq<SessionStep>, user: UserId)
    requires forall i :: 0 <= i < |steps| ==> !SwitchesOn(steps[i], user)
    ensures !s.tenantActive ==> !Run(s, steps).tenantActive
    ensures user in s.users && !s.users[user].active ==>
            user in Run(s, steps).users && !Run(s, steps).users[user].active
    decreases |steps|
  {
    if steps != [] {
      assert !SwitchesOn(steps[0], user);
      StaysOff(RunStep(s, steps[0]), steps[1..], user);
    }
  }

  /** From a suspension of the user or the tenant on, until it is lifted, no token of the user is accepted. */
  lemma SuspendedStayOut(s: Identity, suspension: SessionStep, steps: seq<SessionStep>, c: Claims, now: Time)
    requires c.user in s.users
    requires suspension == SetActiveStep(c.user, false) || suspension == SetTenantStep(false)
    requires forall i :: 0 <= i < |steps| ==> !SwitchesOn(steps[i], c.user)
    ensures !Accepted(Run(RunStep(s, suspension), steps), c, now)
  {
    StaysOff(RunStep(s, suspension), steps, c.user);
  }

  /** A login makes a standing session of the user that lasts its lifetime, and changes nothing else. */
  lemma LoginStands(
    s: Identity, user: UserId, id: SessionId, family: FamilyId, hash: int, now: Time, lifetime: nat)
    requires user in s.users && id !in s.sessions && NewFamily(s, family)
    ensures
      var next := RunStep(s, LoginStep(user, id, family, hash, now, lifetime));
      && Standing(next, id) && next.users == s.users && next.tenantActive == s.tenantActive
      && next.sessions == s.sessions[id := next.sessions[id]]
      && next.sessions[id].user == user && next.sessions[id].family == family && next.sessions[id].hash == hash
      && next.sessions[id].expiresAt == now + lifetime
  {
  }

  /** The token of a replaced or unknown session buys nothing; that of a standing one does if its user may go on. */
  predicate MayExchange(s: Identity, q: Refresh) {
    && Presents(s, q, q.session) && Standing(s, q.session)
    && s.users[s.sessions[q.session].user].active && s.tenantActive
  }

  /**
   An exchange succeeds exactly when its token is of a standing session within its lifetime and
   user and tenant are active. It is reported as reuse exactly when the session was replaced.
   */
  lemma RotateOutcome(s: Identity, q: Refresh)
    requires q.newId !in s.sessions
    ensures Rotate(s, q).1.Ok? <==> MayExchange(s, q)
    ensures Rotate(s, q).1 == Err(RefreshTokenReused) <==>
            q.session in s.sessions && s.sessions[q.session].hash == q.hash && s.sessions[q.session].rotatedAt.Some?
  {
  }

  /** The new session stands in for the old one: same user and family, a whole lifetime, and the old one ended. */
  lemma RotateReplaces(s: Identity, q: Refresh)
    requires MayExchange(s, q) && q.newId !in s.sessions
    ensures
      var (next, r) := Rotate(s, q);
      var (a, b) := (s.sessions[q.session], next.sessions[q.newId]);
      && r == Ok(q.newId) && Standing(next, q.newId) && !Usable(next.sessions[q.session])
      && b.user == a.user && b.family == a.family && b.hash == q.newHash && b.expiresAt == q.now + q.lifetime
      && next.users == s.users && next.tenantActive == s.tenantActive
      && next.sessions.Keys == s.sessions.Keys + {q.newId}
      && forall id :: id in s.sessions && id != q.session ==> next.sessions[id] == s.sessions[id]
  {
  }

  /** A refused exchange ends the family of a replayed token, or a session that may not go on, or nothing. */
  lemma RotateRefuses(s: Identity, q: Refresh, id: SessionId)
    requires !MayExchange(s, q) && q.newId !in s.sessions && id in s.sessions
    ensures
      var next := Rotate(s, q).0;
      && next.sessions.Keys == s.sessions.Keys && next.users == s.users && next.tenantActive == s.tenantActive
      && (if s.sessions[id].revokedAt.None? && (Replays(s, q, s.sessions[id].family) || Presents(s, q, id)) then
            next.sessions[id] == s.sessions[id].(revokedAt := Some(q.now))
          else next.sessions[id] == s.sessions[id])
  {
  }

  // ----- The tables as the service updates them -----

  class IdentityStore {
    var users: map<UserId, User>
    var sessions: map<SessionId, Session>
    var tenantActive: bool

    constructor (users: map<UserId, User>)
      ensures View() == Identity(users, map[], true)
    {
      this.users := users;
      sessions, tenantActive := map[], true;
    }

    function View(): Identity
      reads this
    {
      Identity(users, sessions, tenantActive)
    }

    /** Revoke every session of a family that is not revoked yet. */
    method RevokeAll(family: FamilyId, now: Time)
      modifies this
      ensures View() == RevokeFamily(old(View()), family, now)
    {
      var before := sessions;
      var next := sessions;
      var done: set<SessionId> := {};
      while done != before.Keys
        invariant done <= before.Keys && next.Keys == before.Keys
        invariant forall id :: id in before ==>
                    next[id] == if id in done && before[id].family == family && before[id].revokedAt.None?
                                then before[id].(revokedAt := Some(now)) else before[id]
        decreases before.Keys - done
        modifies {}
      {
        SomeRemain(before.Keys, done);
        var id := Pick(before.Keys - done);
        if before[id].family == family && before[id].revokedAt.None? {
          next := next[id := before[id].(revokedAt := Some(now))];
        }
        done := done + {id};
      }
      ghost var revoked := RevokeFamily(View(), family, now).sessions;
      forall id
        ensures id in next <==> id in revoked
        ensures id in next ==> next[id] == revoked[id]
      {
        assert id in done <==> id in before;
      }
      SetsEqual(next.Keys, revoked.Keys);
      MapsEqual(next, revoked);
      sessions := next;
    }

    method RotateSession(q: Refresh) returns (r: Result<SessionId, RefreshError>)
      modifies this
      ensures (View(), r) == Rotate(old(View()), q)
    {
      if q.session !in sessions || sessions[q.session].hash != q.hash {
        return Err(InvalidRefreshToken);
      }
      var presented := sessions[q.session];
      if presented.rotatedAt.Some? {
        RevokeAll(presented.family, q.now);
        return Err(RefreshTokenReused);
      }
      if presented.revokedAt.Some? || presented.expiresAt <= q.now {
        return Err(InvalidRefreshToken);
      }
      if presented.user !in users || !users[presented.user].active || !tenantActive
         || users[presented.user].tokenVersion != presented.tokenVersion {
        sessions := sessions[q.session := presented.(revokedAt := Some(q.now))];
        return Err(InvalidRefreshToken);
      }
      sessions := sessions[q.session := presented.(rotatedAt := Some(q.now))];
      sessions := sessions[q.newId := Session(
        presented.user, presented.family, q.newHash, users[presented.user].tokenVersion, q.now + q.lifetime, None,
        None)];
      return Ok(q.newId);
    }

    method RevokeSession(user: UserId, session: Option<SessionId>, now: Time)
      modifies this
      ensures View() == Logout(old(View()), user, session, now)
    {
      if session.None? {
        if user in users {
          users := users[user := users[user].(tokenVersion := users[user].tokenVersion + 1)];
        }
        return;
      }
      var id := session.value;
      if id in sessions && sessions[id].user == user && sessions[id].revokedAt.None? {
        sessions := sessions[id := sessions[id].(revokedAt := Some(now))];
      }
    }
  }
}
