/** Revocation of refresh tokens: one table of revoked ids and per-user "revoke all" sentinels, from
    which expired rows are deleted now and then.  Times are in milliseconds, token claims in seconds. */
module Revocation {
  import opened Common

  type User = nat

  /** A session has an access token and a refresh token, each with an id of its own. */
  datatype Id = AccessId(n: nat) | RefreshId(n: nat)

  datatype Token = Token(id: Id, user: User, iat: nat, exp: nat)

  /** A revoked token, or the sentinel that invalidates a user's tokens issued before `at`. */
  datatype Row = TokenRow(id: Id) | SentinelRow(user: User, at: nat)

  /** Rows with their expiry, and when the table was last cleaned. */
  datatype Auth = Auth(table: map<Row, int>, lastCleanup: int)

  const CLEANUP_INTERVAL_MS := 15 * 60_000

  // ---------------------------------------------------------------------------------------------
  // Token lifetime
  // ---------------------------------------------------------------------------------------------

  datatype TimeUnit = Seconds | Minutes | Hours | Days

  function Factor(u: TimeUnit): nat {
    match u
    case Seconds => 1_000
    case Minutes => 60_000
    case Hours => 3_600_000
    case Days => 86_400_000
  }

  /** The configured lifetime as parsed; `None` is a text of another form. */
  function RefreshTokenMaxAgeMs(configured: Option<(nat, TimeUnit)>): nat {
    match configured
    case None => 7 * 24 * 60 * 60_000
    case Some((n, u)) => if n * Factor(u) < 60_000 then 60_000 else n * Factor(u)
  }

  // ---------------------------------------------------------------------------------------------
  // Operations
  // ---------------------------------------------------------------------------------------------

  function Cleaned(a: Auth, now: nat, force: bool): Auth {
    if !force && now - a.lastCleanup < CLEANUP_INTERVAL_MS then a
    else Auth(map r | r in a.table && a.table[r] >= now :: a.table[r], now)
  }

  predicate RevokedBySentinel(table: map<Row, int>, user: User, iat: nat) {
    exists r <- table :: r.SentinelRow? && r.user == user && iat * 1000 < r.at
  }

  /** Does the table, together with the token's own expiry, let the token through?  Access tokens are checked
      like this on every request, refresh tokens when they are presented. */
  predicate Acceptable(a: Auth, now: nat, t: Token) {
    && now / 1000 < t.exp
    && TokenRow(t.id) !in a.table
    && !RevokedBySentinel(a.table, t.user, t.iat)
  }

  function Revoke(a: Auth, t: Option<Token>): Auth {
    match t
    case None => a
    case Some(token) => a.(table := a.table[TokenRow(token.id) := token.exp * 1000])
  }

  function RevokeAll(a: Auth, user: User, at: nat, maxAge: nat): Auth {
    var others := map r | r in a.table && !(r.SentinelRow? && r.user == user) :: a.table[r];
    a.(table := others[SentinelRow(user, at) := at + maxAge])
  }

  /** A refresh rotates: the presented token is revoked before a new one is issued. */
  function Refresh(a: Auth, now: nat, t: Token, active: bool): (Auth, bool) {
    var c := Cleaned(a, now, false);
    if Acceptable(c, now, t) then (Revoke(c, Some(t)), active) else (c, false)
  }

  function Logout(a: Auth, now: nat, t: Option<Token>): Auth {
    Revoke(Cleaned(a, now, false), t)
  }

  function LogoutAll(a: Auth, now: nat, user: User, t: Option<Token>, maxAge: nat): Auth {
    RevokeAll(Revoke(Cleaned(a, now, false), t), user, now, maxAge)
  }

  /** The sentinel of a password change lies just before the new session's issue second. */
  function SentinelBefore(iat: nat): nat {
    if iat == 0 then 0 else iat * 1000 - 1
  }

  function ChangePassword(a: Auth, now: nat, user: User, t: Option<Token>, maxAge: nat): Auth {
    RevokeAll(Revoke(a, t), user, SentinelBefore(now / 1000), maxAge)
  }

  ghost predicate OneSentinel(table: map<Row, int>) {
    forall r, q :: r in table && q in table && r.SentinelRow? && q.SentinelRow? && r.user == q.user ==> r == q
  }

  class AuthService {
    const maxAge: nat
    var revoked: map<Row, int>
    var lastRevokedTokenCleanupAt: int

    function State(): Auth
      reads this
    {
      Auth(revoked, lastRevokedTokenCleanupAt)
    }

    ghost predicate Valid()
      reads this
    {
      OneSentinel(revoked)
    }

    constructor (configured: Option<(nat, TimeUnit)>, stored: map<Row, int>)
      requires OneSentinel(stored)
      ensures Valid() && maxAge == RefreshTokenMaxAgeMs(configured) && State() == Auth(stored, 0)
    {
      maxAge, revoked, lastRevokedTokenCleanupAt := RefreshTokenMaxAgeMs(configured), stored, 0;
    }

    method CleanupExpiredRevokedTokens(now: nat, force: bool)
      requires Valid()
      modifies this
      ensures Valid() && State() == Cleaned(old(State()), now, force)
    {
      if !force && now - lastRevokedTokenCleanupAt < CLEANUP_INTERVAL_MS {
        return;
      }
      lastRevokedTokenCleanupAt := now;
      revoked := map r | r in revoked && revoked[r] >= now :: revoked[r];
    }

    /** Looks at some sentinel of the user; there is at most one. */
    method IsRevokedByUserSentinel(user: User, tokenIat: nat) returns (r: bool)
      requires Valid()
      ensures r == RevokedBySentinel(revoked, user, tokenIat)
    {
      if !exists s <- revoked :: s.SentinelRow? && s.user == user {
        return false;
      }
      var sentinel :| sentinel in revoked && sentinel.SentinelRow? && sentinel.user == user;
      return tokenIat * 1000 < sentinel.at;
    }

    method Save(row: Row, expiresAt: int)
      requires Valid() && row.TokenRow?
      modifies this`revoked
      ensures Valid() && revoked == old(revoked)[row := expiresAt]
    {
      revoked := revoked[row := expiresAt];
    }

    method ReplaceSentinel(user: User, at: nat)
      requires Valid()
      modifies this`revoked
      ensures Valid() && State() == RevokeAll(old(State()), user, at, maxAge)
    {
      revoked := map r | r in revoked && !(r.SentinelRow? && r.user == user) :: revoked[r];
      revoked := revoked[SentinelRow(user, at) := at + maxAge];
    }

    method RefreshToken(now: nat, token: Token, active: bool) returns (accepted: bool)
      requires Valid()
      modifies this
      ensures Valid() && (State(), accepted) == Refresh(old(State()), now, token, active)
    {
      CleanupExpiredRevokedTokens(now, false);
      if now / 1000 >= token.exp || TokenRow(token.id) in revoked {
        return false;
      }
      var invalidated := IsRevokedByUserSentinel(token.user, token.iat);
      if invalidated {
        return false;
      }
      Save(TokenRow(token.id), token.exp * 1000);
      return active;
    }

    method LogoutSession(now: nat, token: Option<Token>)
      requires Valid()
      modifies this
      ensures Valid() && State() == Logout(old(State()), now, token)
    {
      CleanupExpiredRevokedTokens(now, false);
      if token.Some? {
        Save(TokenRow(token.value.id), token.value.exp * 1000);
      }
    }

    method LogoutAllSessions(now: nat, user: User, token: Option<Token>)
      requires Valid()
      modifies this
      ensures Valid() && State() == LogoutAll(old(State()), now, user, token, maxAge)
    {
      CleanupExpiredRevokedTokens(now, false);
      if token.Some? {
        Save(TokenRow(token.value.id), token.value.exp * 1000);
      }
      ReplaceSentinel(user, now);
    }

    method ChangeUserPassword(now: nat, user: User, token: Option<Token>) returns (newTokenIssuedAt: nat)
      requires Valid()
      modifies this
      ensures Valid() && State() == ChangePassword(old(State()), now, user, token, maxAge)
      ensures newTokenIssuedAt == now / 1000
    {
      newTokenIssuedAt := now / 1000;
      var revokedAt := if newTokenIssuedAt * 1000 - 1 < 0 then 0 else newTokenIssuedAt * 1000 - 1;
      if token.Some? {
        Save(TokenRow(token.value.id), token.value.exp * 1000);
      }
      ReplaceSentinel(user, revokedAt);
    }
  }

  // ---------------------------------------------------------------------------------------------
  // Histories
  // ---------------------------------------------------------------------------------------------

  datatype Event =
    | Cleanup(force: bool)
    | Present(token: Token, active: bool)
    | LeaveSession(ended: Option<Token>)
    | LeaveAll(user: User, ended: Option<Token>)
    | NewPassword(user: User, ended: Option<Token>)

  datatype Timed = Timed(now: nat, event: Event)

  /** The service's table, the tokens that were rotated or revoked one by one, and for each user the
      second of the latest logout-all or password change. */
  datatype World = World(auth: Auth, now: nat, spent: set<Token>, cutoff: map<User, nat>)

  ghost function Next(w: World, e: Timed, maxAge: nat): World {
    var now, second := e.now, e.now / 1000;
    match e.event
    case Cleanup(force) => w.(auth := Cleaned(w.auth, now, force), now := now)
    case Present(t, active) =>
      w.(auth := Refresh(w.auth, now, t, active).0, now := now,
         spent := if Acceptable(Cleaned(w.auth, now, false), now, t) then w.spent + {t} else w.spent)
    case LeaveSession(t) =>
      w.(auth := Logout(w.auth, now, t), now := now, spent := w.spent + Ended(t))
    case LeaveAll(user, t) =>
      World(LogoutAll(w.auth, now, user, t, maxAge), now, w.spent + Ended(t), w.cutoff[user := second])
    case NewPassword(user, t) =>
      World(ChangePassword(w.auth, now, user, t, maxAge), now, w.spent + Ended(t), w.cutoff[user := second])
  }

  function Ended(t: Option<Token>): set<Token> {
    if t.Some? then {t.value} else {}
  }

  ghost function History(w: World, events: seq<Timed>, maxAge: nat): World
    decreases |events|
  {
    if events == [] then w else History(Next(w, events[0], maxAge), events[1..], maxAge)
  }

  /** `issued` says which token was issued under an id; none lives longer than the computed age. */
  ghost predicate Genuine(t: Token, issued: Id -> Token, maxAge: nat) {
    t == issued(t.id) && t.exp * 1000 <= t.iat * 1000 + maxAge
  }

  /** The token that ends with a session is the access token of the request. */
  ghost predicate GenuineEnd(t: Option<Token>, issued: Id -> Token, maxAge: nat) {
    t.Some? ==> t.value.id.AccessId? && Genuine(t.value, issued, maxAge)
  }

  ghost predicate GenuineEvent(e: Event, issued: Id -> Token, maxAge: nat) {
    match e
    case Cleanup(_) => true
    case Present(t, _) => t.id.RefreshId? && Genuine(t, issued, maxAge)
    case LeaveSession(t) => GenuineEnd(t, issued, maxAge)
    case LeaveAll(_, t) => GenuineEnd(t, issued, maxAge)
    case NewPassword(_, t) => GenuineEnd(t, issued, maxAge)
  }

  /** The clock does not run backwards. */
  ghost predicate Ordered(w: World, events: seq<Timed>, issued: Id -> Token, maxAge: nat) {
    && (forall i :: 0 <= i < |events| ==> w.now <= events[i].now && GenuineEvent(events[i].event, issued, maxAge))
    && (forall i, k :: 0 <= i < k < |events| ==> events[i].now <= events[k].now)
  }

  /** A token revoked by its id has its row until it expires. */
  ghost predicate SpentIsBlocked(w: World, t: Token) {
    w.now / 1000 >= t.exp || (TokenRow(t.id) in w.auth.table && w.auth.table[TokenRow(t.id)] == t.exp * 1000)
  }

  /** The user's sentinel reaches at least to the cutoff, or every token from before it has expired. */
  ghost predicate CutoffIsBlocked(w: World, user: User, second: nat, maxAge: nat) {
    || w.now > second * 1000 - 1 + maxAge
    || exists at: nat ::
         && SentinelRow(user, at) in w.auth.table && at >= second * 1000 - 1
         && w.auth.table[SentinelRow(user, at)] == at + maxAge
  }

  /** Rows expire with their tokens, and only spent tokens have one. */
  ghost predicate Consistent(w: World, issued: Id -> Token, maxAge: nat) {
    forall r <- w.auth.table ::
      match r
      case TokenRow(id) => w.auth.table[r] == issued(id).exp * 1000 && issued(id) in w.spent
      case SentinelRow(_, at) => w.auth.table[r] == at + maxAge
  }

  ghost predicate Inv(w: World, issued: Id -> Token, maxAge: nat) {
    && OneSentinel(w.auth.table)
    && Consistent(w, issued, maxAge)
    && (forall t <- w.spent :: Genuine(t, issued, maxAge) && SpentIsBlocked(w, t))
    && (forall u <- w.cutoff :: w.cutoff[u] <= w.now / 1000 && CutoffIsBlocked(w, u, w.cutoff[u], maxAge))
  }

  ghost function Swept(w: World, now: nat, force: bool): World {
    w.(auth := Cleaned(w.auth, now, force), now := now)
  }

  /** Cleaning deletes only rows that no live token needs. */
  lemma CleanupKeepsInv(w: World, now: nat, force: bool, issued: Id -> Token, maxAge: nat)
    requires Inv(w, issued, maxAge) && w.now <= now
    ensures Inv(Swept(w, now, force), issued, maxAge)
  {
    var w' := Swept(w, now, force);
    assert w.now / 1000 <= now / 1000;
    forall t | t in w.spent
      ensures SpentIsBlocked(w', t)
    {
      assert SpentIsBlocked(w, t);
    }
    forall u | u in w.cutoff
      ensures CutoffIsBlocked(w', u, w.cutoff[u], maxAge)
    {
      assert CutoffIsBlocked(w, u, w.cutoff[u], maxAge);
    }
  }

  lemma RevokeKeepsInv(w: World, t: Option<Token>, issued: Id -> Token, maxAge: nat)
    requires Inv(w, issued, maxAge) && (t.Some? ==> Genuine(t.value, issued, maxAge))
    ensures Inv(w.(auth := Revoke(w.auth, t), spent := w.spent + Ended(t)), issued, maxAge)
  {
    var w' := w.(auth := Revoke(w.auth, t), spent := w.spent + Ended(t));
    forall s | s in w'.spent
      ensures Genuine(s, issued, maxAge) && SpentIsBlocked(w', s)
    {
      assert s in w.spent ==> SpentIsBlocked(w, s);
    }
    forall u | u in w.cutoff
      ensures CutoffIsBlocked(w', u, w.cutoff[u], maxAge)
    {
      assert CutoffIsBlocked(w, u, w.cutoff[u], maxAge);
    }
  }

  /** A new sentinel may even lie before the old one, but never before an earlier cutoff second. */
  lemma RevokeAllKeepsInv(w: World, user: User, at: nat, issued: Id -> Token, maxAge: nat)
    requires Inv(w, issued, maxAge) && at >= w.now / 1000 * 1000 - 1
    ensures Inv(w.(auth := RevokeAll(w.auth, user, at, maxAge), cutoff := w.cutoff[user := w.now / 1000]), issued,
                maxAge)
  {
    var w' := w.(auth := RevokeAll(w.auth, user, at, maxAge), cutoff := w.cutoff[user := w.now / 1000]);
    assert SentinelRow(user, at) in w'.auth.table;
    forall t | t in w.spent
      ensures SpentIsBlocked(w', t)
    {
      assert SpentIsBlocked(w, t);
    }
    forall u | u in w'.cutoff && u != user
      ensures CutoffIsBlocked(w', u, w'.cutoff[u], maxAge)
    {
      assert CutoffIsBlocked(w, u, w.cutoff[u], maxAge);
    }
  }

  lemma EventKeepsInv(w: World, e: Timed, issued: Id -> Token, maxAge: nat)
    requires Inv(w, issued, maxAge) && w.now <= e.now && GenuineEvent(e.event, issued, maxAge)
    ensures Inv(Next(w, e, maxAge), issued, maxAge)
  {
    var now, swept := e.now, Swept(w, e.now, false);
    CleanupKeepsInv(w, now, false, issued, maxAge);
    match e.event
    case Cleanup(force) => CleanupKeepsInv(w, now, force, issued, maxAge);
    case Present(t, active) => RevokeKeepsInv(swept, Some(t), issued, maxAge);
    case LeaveSession(t) => RevokeKeepsInv(swept, t, issued, maxAge);
    case LeaveAll(user, t) =>
      RevokeKeepsInv(swept, t, issued, maxAge);
      RevokeAllKeepsInv(swept.(auth := Revoke(swept.auth, t), spent := w.spent + Ended(t)), user, now, issued, maxAge);
    case NewPassword(user, t) =>
      var later := w.(now := now);
      LaterKeepsInv(w, now, issued, maxAge);
      RevokeKeepsInv(later, t, issued, maxAge);
      RevokeAllKeepsInv(later.(auth := Revoke(w.auth, t), spent := w.spent + Ended(t)), user,
                        SentinelBefore(now / 1000), issued, maxAge);
  }

  lemma LaterKeepsInv(w: World, now: nat, issued: Id -> Token, maxAge: nat)
    requires Inv(w, issued, maxAge) && w.now <= now
    ensures Inv(w.(now := now), issued, maxAge)
  {
    var w' := w.(now := now);
    forall t | t in w.spent
      ensures SpentIsBlocked(w', t)
    {
      assert SpentIsBlocked(w, t);
    }
    forall u | u in w.cutoff
      ensures CutoffIsBlocked(w', u, w.cutoff[u], maxAge)
    {
      assert CutoffIsBlocked(w, u, w.cutoff[u], maxAge);
    }
  }

  /** Time goes on, and what is revoked stays recorded. */
  ghost predicate Grows(w: World, w': World) {
    && w.now <= w'.now && w.spent <= w'.spent
    && forall u <- w.cutoff :: u in w'.cutoff && w.cutoff[u] <= w'.cutoff[u]
  }

  lemma EventGrows(w: World, e: Timed, issued: Id -> Token, maxAge: nat)
    requires Inv(w, issued, maxAge) && w.now <= e.now
    ensures Grows(w, Next(w, e, maxAge)) && Next(w, e, maxAge).now == e.now
  {
    assert w.now / 1000 <= e.now / 1000;
  }

  lemma {:induction false} HistoryKeepsInv(w: World, events: seq<Timed>, issued: Id -> Token, maxAge: nat)
    requires Inv(w, issued, maxAge) && Ordered(w, events, issued, maxAge)
    ensures var w' := History(w, events, maxAge);
            && Inv(w', issued, maxAge) && Grows(w, w')
            && (forall i :: 0 <= i < |events| ==> events[i].now <= w'.now)
    decreases |events|
  {
    if events != [] {
      var next := Next(w, events[0], maxAge);
      EventKeepsInv(w, events[0], issued, maxAge);
      EventGrows(w, events[0], issued, maxAge);
      HistoryKeepsInv(next, events[1..], issued, maxAge);
      assert forall i :: 0 < i < |events| ==> events[i] == events[1..][i - 1];
    }
  }

  /** A token that is spent, or older than its user's cutoff. */
  ghost predicate Revoked(w: World, t: Token) {
    t in w.spent || (t.user in w.cutoff && t.iat < w.cutoff[t.user])
  }

  lemma RevokedTokenIsRefused(w: World, now: nat, t: Token, issued: Id -> Token, maxAge: nat)
    requires Inv(w, issued, maxAge) && w.now <= now && Genuine(t, issued, maxAge) && Revoked(w, t)
    ensures !Acceptable(w.auth, now, t)
  {
    var later := w.(now := now);
    LaterKeepsInv(w, now, issued, maxAge);
    if t in w.spent {
      assert SpentIsBlocked(later, t);
    } else {
      assert CutoffIsBlocked(later, t.user, w.cutoff[t.user], maxAge);
    }
  }

  /** Cleaning up changes no answer: what it deletes belongs to tokens that have expired. */
  lemma CleanupIsInvisible(w: World, now: nat, force: bool, later: nat, t: Token, issued: Id -> Token, maxAge: nat)
    requires Inv(w, issued, maxAge) && now <= later && Genuine(t, issued, maxAge)
    ensures Acceptable(Cleaned(w.auth, now, force), later, t) <==> Acceptable(w.auth, later, t)
  {
    if later / 1000 < t.exp {
      assert TokenRow(t.id) in w.auth.table ==> w.auth.table[TokenRow(t.id)] == t.exp * 1000;
      forall r | r in w.auth.table && r.SentinelRow? && t.iat * 1000 < r.at
        ensures w.auth.table[r] >= now
      {
        assert w.auth.table[r] == r.at + maxAge;
      }
    }
  }

  /** Revocation survives cleanup: after any further history, a refresh token that was rotated, an access
      token whose session was ended, and any token issued in a second before a logout-all or password change
      of its user is never accepted again. */
  lemma RevokedStaysRevoked(w: World, events: seq<Timed>, now: nat, t: Token, active: bool, issued: Id -> Token,
                            maxAge: nat)
    requires Inv(w, issued, maxAge) && Ordered(w, events, issued, maxAge) && Genuine(t, issued, maxAge) && Revoked(w, t)
    requires w.now <= now && forall i :: 0 <= i < |events| ==> events[i].now <= now
    ensures var a := History(w, events, maxAge).auth;
            !Acceptable(a, now, t) && !Refresh(a, now, t, active).1
  {
    var w' := History(w, events, maxAge);
    HistoryKeepsInv(w, events, issued, maxAge);
    HistoryTime(w, events, maxAge, now);
    RevokedTokenIsRefused(w', now, t, issued, maxAge);
    CleanupIsInvisible(w', now, false, now, t, issued, maxAge);
  }

  lemma {:induction false} HistoryTime(w: World, events: seq<Timed>, maxAge: nat, now: nat)
    requires w.now <= now && forall i :: 0 <= i < |events| ==> events[i].now <= now
    ensures History(w, events, maxAge).now <= now
    decreases |events|
  {
    if events != [] {
      HistoryTime(Next(w, events[0], maxAge), events[1..], maxAge, now);
    }
  }

  /** A refresh token works once: presented again, at once or after any further history, it is refused. */
  lemma RotatedTokenIsSpent(w: World, first: nat, t: Token, active: bool, events: seq<Timed>, later: nat,
                            issued: Id -> Token, maxAge: nat)
    requires Inv(w, issued, maxAge) && w.now <= first && t.id.RefreshId? && Genuine(t, issued, maxAge)
    requires Refresh(w.auth, first, t, active).1
    requires var next := Next(w, Timed(first, Present(t, active)), maxAge); Ordered(next, events, issued, maxAge)
    requires first <= later && forall i :: 0 <= i < |events| ==> events[i].now <= later
    ensures var next := Next(w, Timed(first, Present(t, active)), maxAge);
            !Refresh(History(next, events, maxAge).auth, later, t, active).1
  {
    EventKeepsInv(w, Timed(first, Present(t, active)), issued, maxAge);
    RevokedStaysRevoked(Next(w, Timed(first, Present(t, active)), maxAge), events, later, t, active, issued, maxAge);
  }

  /** A logout ends the access token of the request and leaves the session's refresh token as it was: from
      then on it is refused exactly when it has expired, was rotated before, or lies before its user's
      sentinel. */
  lemma LogoutLeavesRefreshToken(w: World, now: nat, ended: Option<Token>, later: nat, t: Token, issued: Id -> Token,
                                 maxAge: nat)
    requires Inv(w, issued, maxAge) && w.now <= now <= later
    requires GenuineEnd(ended, issued, maxAge) && t.id.RefreshId? && Genuine(t, issued, maxAge)
    ensures var w' := Next(w, Timed(now, LeaveSession(ended)), maxAge);
            && (!Refresh(w'.auth, later, t, true).1 <==>
                  later / 1000 >= t.exp || t in w.spent || RevokedBySentinel(w.auth.table, t.user, t.iat))
            && (ended.Some? ==> !Acceptable(w'.auth, later, ended.value))
  {
    var w' := Next(w, Timed(now, LeaveSession(ended)), maxAge);
    EventKeepsInv(w, Timed(now, LeaveSession(ended)), issued, maxAge);
    CleanupIsInvisible(w', later, false, later, t, issued, maxAge);
    CleanupIsInvisible(w, now, false, later, t, issued, maxAge);
    if t in w.spent {
      RevokedTokenIsRefused(w', later, t, issued, maxAge);
    }
    if ended.Some? {
      RevokedTokenIsRefused(w', later, ended.value, issued, maxAge);
    }
  }

  /** For instance, a second after a logout the refresh token still opens a session. */
  lemma LoggedOutSessionCanRefresh()
    ensures var access, refresh := Token(AccessId(1), 7, 0, 900), Token(RefreshId(2), 7, 0, 604_800);
            Refresh(Logout(Auth(map[], 0), 5_000, Some(access)), 6_000, refresh, true).1
  {
  }

  /** The session issued by a password change is not rejected by its own sentinel: until its id is revoked
      or a later sentinel comes, it is accepted at every moment of its life. */
  lemma NewSessionSurvives(a: Auth, now: nat, user: User, ended: Option<Token>, session: Token, later: nat, maxAge: nat)
    requires session.user == user && session.iat == now / 1000
    requires session.id.RefreshId? && TokenRow(session.id) !in a.table && (ended.Some? ==> ended.value.id.AccessId?)
    ensures Refresh(ChangePassword(a, now, user, ended, maxAge), later, session, true).1 <==> later / 1000 < session.exp
  {
    var after := Cleaned(ChangePassword(a, now, user, ended, maxAge), later, false);
    assert forall r <- after.table :: r.SentinelRow? && r.user == user ==> r.at == SentinelBefore(session.iat);
  }

  /** What the token library makes of a unit. */
  function SecondsIn(u: TimeUnit): nat {
    match u
    case Seconds => 1
    case Minutes => 60
    case Hours => 60 * 60
    case Days => 24 * 60 * 60
  }

  lemma ThousandTimes(n: nat, u: TimeUnit)
    ensures n * SecondsIn(u) * 1000 == n * Factor(u)
  {
    assert Factor(u) == SecondsIn(u) * 1000;
    assert n * (SecondsIn(u) * 1000) == n * SecondsIn(u) * 1000;
  }

  /** For a configured lifetime of the recognised form the age is the lifetime of a token, and at least a minute; of
      another form it is a week. */
  lemma ConfiguredLifetimeFits(n: nat, u: TimeUnit, t: Token)
    requires t.exp == t.iat + n * SecondsIn(u)
    ensures var age := RefreshTokenMaxAgeMs(Some((n, u)));
            && age == (if n * SecondsIn(u) < 60 then 60 * 1000 else n * SecondsIn(u) * 1000)
            && t.exp * 1000 <= t.iat * 1000 + age
    ensures RefreshTokenMaxAgeMs(None) == 7 * SecondsIn(Days) * 1000
  {
    ThousandTimes(n, u);
  }

  /** A cleanup, when forced or a quarter of an hour after the last one, deletes exactly the rows that have expired;
      otherwise nothing changes. */
  lemma CleanupMeaning(a: Auth, now: nat, force: bool, r: Row)
    ensures var c := Cleaned(a, now, force);
            if force || now >= a.lastCleanup + 15 * 60 * 1000
            then
              && c.lastCleanup == now
              && (r in c.table <==> r in a.table && a.table[r] >= now)
              && (r in c.table ==> c.table[r] == a.table[r])
            else c == a
  {
  }

  /** Likewise as an event of a history: afterwards no expired row is left, and no other row is lost. */
  lemma CleanupEventDeletesExpired(w: World, now: nat, maxAge: nat, r: Row)
    ensures var table := Next(w, Timed(now, Cleanup(true)), maxAge).auth.table;
            && (r in table <==> r in w.auth.table && w.auth.table[r] >= now)
            && (r in table ==> table[r] == w.auth.table[r])
  {
    CleanupMeaning(w.auth, now, true, r);
  }

  /** A session that is opened after a logout-all passes its sentinel and is accepted until it expires if and only
      if it was not issued in the second of the logout-all, of which the issue time keeps only the beginning. */
  lemma SessionAfterLogoutAllIff(a: Auth, now: nat, user: User, ended: Option<Token>, session: Token, later: nat,
                                 maxAge: nat)
    requires session.user == user && session.id.RefreshId? && TokenRow(session.id) !in a.table
    requires ended.Some? ==> ended.value.id.AccessId?
    requires session.iat >= now / 1000 && session.exp * 1000 <= session.iat * 1000 + maxAge && now <= later
    requires later / 1000 < session.exp
    ensures Refresh(LogoutAll(a, now, user, ended, maxAge), later, session, true).1 <==>
            session.iat > now / 1000 || now % 1000 == 0
  {
    var out := LogoutAll(a, now, user, ended, maxAge);
    var after := Cleaned(out, later, false);
    assert forall r <- after.table :: r.SentinelRow? && r.user == user ==> r.at == now;
    if session.iat == now / 1000 {
      assert out.table[SentinelRow(user, now)] == now + maxAge >= later;
      assert SentinelRow(user, now) in after.table;
    }
  }

  /** For instance, a session opened half a second after a logout-all, in the same second, is refused. */
  lemma SameSecondSessionIsRefused()
    ensures var session := Token(RefreshId(2), 7, 10, 604_810);
            !Refresh(LogoutAll(Auth(map[], 0), 10_200, 7, None, 604_800_000), 10_700, session, true).1
  {
    SessionAfterLogoutAllIff(Auth(map[], 0), 10_200, 7, None, Token(RefreshId(2), 7, 10, 604_810), 10_700,
                             604_800_000);
  }
}
