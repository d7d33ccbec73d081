/**
 * Refreshing a session. The refresh token the server hands out wraps what it needs to ask the SSO provider
 * again: the provider's refresh token, or its access token when there is none. Times are in seconds.
 */
module SsoRefresh {
  import opened Common

  /** `BW_EXPIRATION`, `DEFAULT_REFRESH_VALIDITY`, `MOBILE_REFRESH_VALIDITY`, `DEFAULT_ACCESS_VALIDITY`. */
  const BW_EXPIRATION := 300
  const DEFAULT_REFRESH_VALIDITY := 30 * 86400
  const MOBILE_REFRESH_VALIDITY := 90 * 86400
  const DEFAULT_ACCESS_VALIDITY := 2 * 3600

  datatype AuthMethod = OrgApiKey | Password | Sso | UserApiKey

  datatype TokenWrapper = Access(token: string) | Refresh(token: string)

  datatype RefreshClaims = RefreshClaims(nbf: int, exp: int, sub: AuthMethod, token: Option<TokenWrapper>)

  datatype AccessClaims = AccessClaims(nbf: int, exp: int)

  datatype AuthTokens = AuthTokens(refresh: RefreshClaims, access: AccessClaims)

  /** Validity period read from a provider token, when it is a readable one of the configured issuer. */
  type Period = Option<(int, int)>

  datatype Settings = Settings(ssoEnabled: bool, ssoOnly: bool, authOnly: bool)

  /** A provider's reply to a refresh: new tokens and how long the access token lasts. */
  datatype Renewal = Renewal(newRefresh: Option<string>, access: string, expiresIn: Option<int>)

  /** What the outside answers during one refresh. */
  datatype Answers = Answers(
    deviceKnown: bool,
    mobile: bool,
    /** Reply to a refresh token, or a failure. */
    renewal: Option<Renewal>,
    /** Whether the access token is still accepted for user information. */
    stillValid: bool,
    /** What the tokens just obtained say about themselves. */
    accessPeriod: Period,
    refreshPeriod: Period)

  /** `AuthTokens::new`. */
  function NewTokens(sub: AuthMethod, mobile: bool, now: int): AuthTokens {
    var validity := if mobile then MOBILE_REFRESH_VALIDITY else DEFAULT_REFRESH_VALIDITY;
    AuthTokens(RefreshClaims(now, now + validity, sub, None), AccessClaims(now, now + DEFAULT_ACCESS_VALIDITY))
  }

  /** `create_auth_tokens_impl`: the provider's refresh token is wrapped, or else its access token. */
  function WrapTokens(refreshToken: Option<string>, refreshPeriod: Period, access: AccessClaims, accessToken: string,
                      now: int): AuthTokens {
    match refreshToken
    case Some(rt) =>
      var (nbf, exp) := match refreshPeriod case Some(p) => p case None => (now, now + DEFAULT_REFRESH_VALIDITY);
      AuthTokens(RefreshClaims(nbf, exp, Sso, Some(Refresh(rt))), access)
    case None =>
      AuthTokens(RefreshClaims(access.nbf, access.exp, Sso, Some(Access(accessToken))), access)
  }

  /** `create_auth_tokens`, and the end of `redeem`. */
  function CreateTokens(settings: Settings, refreshToken: Option<string>, accessToken: string, expiresIn: Option<int>,
                        accessPeriod: Period, refreshPeriod: Period, mobile: bool, now: int): Option<AuthTokens> {
    if settings.authOnly then Some(NewTokens(Sso, mobile, now))
    else
      match (accessPeriod, expiresIn)
      case (Some(p), _) => Some(WrapTokens(refreshToken, refreshPeriod, AccessClaims(p.0, p.1), accessToken, now))
      case (None, Some(d)) =>
        Some(WrapTokens(refreshToken, refreshPeriod, AccessClaims(now, now + d), accessToken, now))
      case (None, None) => None
  }

  /** `exchange_refresh_token`. */
  function ExchangeRefreshToken(settings: Settings, claims: RefreshClaims, a: Answers, now: int): Option<AuthTokens> {
    match claims.token
    case None => None
    case Some(Refresh(rt)) =>
      (match a.renewal
       case None => None
       case Some(n) =>
         var next := if n.newRefresh.Some? then n.newRefresh else Some(rt);
         CreateTokens(settings, next, n.access, n.expiresIn, a.accessPeriod, a.refreshPeriod, a.mobile, now))
    case Some(Access(at)) =>
      if claims.exp < now + BW_EXPIRATION || !a.stillValid then None
      else Some(WrapTokens(None, None, AccessClaims(now, claims.exp), at, now))
  }

  /** `refresh_tokens`: what becomes of the claims of a presented refresh token. */
  function RefreshTokens(settings: Settings, claims: RefreshClaims, a: Answers, now: int): Option<AuthTokens> {
    if !a.deviceKnown then None
    else
      match claims.sub
      case Sso =>
        if settings.ssoEnabled && settings.authOnly then Some(NewTokens(Sso, a.mobile, now))
        else if settings.ssoEnabled then ExchangeRefreshToken(settings, claims, a, now)
        else None
      case Password =>
        if settings.ssoEnabled && settings.ssoOnly then None else Some(NewTokens(Password, a.mobile, now))
      case _ => None
  }

  // ----- Chains of refreshes

  datatype Attempt = Attempt(now: int, answers: Answers)

  /** The tokens after a chain of refreshes, each with the refresh token of the one before; None once one fails. */
  function Chain(settings: Settings, first: AuthTokens, attempts: seq<Attempt>): Option<AuthTokens> {
    if attempts == [] then Some(first)
    else
      var last := attempts[|attempts| - 1];
      match Chain(settings, first, attempts[..|attempts| - 1])
      case None => None
      case Some(t) => RefreshTokens(settings, t.refresh, last.answers, last.now)
  }

  predicate SameKind(a: Option<TokenWrapper>, b: Option<TokenWrapper>) {
    match (a, b)
    case (None, None) => true
    case (Some(x), Some(y)) => x.Access? == y.Access?
    case _ => false
  }

  /** What first issues SSO tokens: the redeemed login. */
  predicate IssuedBySso(settings: Settings, t: AuthTokens) {
    t.refresh.sub.Sso? && (t.refresh.token.None? <==> settings.authOnly)
  }

  /** The dates of the tokens come from the provider's reply, or are counted from now. */
  predicate DatedBy(t: AuthTokens, a: Answers, now: int) {
    && a.renewal.Some?
    && (t.refresh.nbf, t.refresh.exp)
       == (if a.refreshPeriod.Some? then a.refreshPeriod.value else (now, now + 30 * 86400))
    && (a.accessPeriod.Some? ==> (t.access.nbf, t.access.exp) == a.accessPeriod.value)
    && (a.accessPeriod.None? ==> t.access.nbf == now && Some(t.access.exp - now) == a.renewal.value.expiresIn)
  }

  lemma OneRefresh(settings: Settings, t: AuthTokens, a: Answers, now: int)
    requires IssuedBySso(settings, t) && RefreshTokens(settings, t.refresh, a, now).Some?
    ensures var t' := RefreshTokens(settings, t.refresh, a, now).value;
            && IssuedBySso(settings, t') && SameKind(t.refresh.token, t'.refresh.token)
            && (t.refresh.token.Some? && t.refresh.token.value.Access? ==>
                  && t'.refresh.token == t.refresh.token
                  && t'.refresh.exp == t.refresh.exp == t'.access.exp && t'.refresh.nbf == t'.access.nbf == now
                  && now + BW_EXPIRATION <= t.refresh.exp)
            && (t.refresh.token.Some? && t.refresh.token.value.Refresh? ==>
                  && DatedBy(t', a, now)
                  && t'.refresh.token.value.token
                     == (if a.renewal.value.newRefresh.Some? then a.renewal.value.newRefresh.value
                         else t.refresh.token.value.token))
  {
  }

  /** The server's own sessions: those of a password login, and of single sign-on used for authentication only. */
  predicate OwnSession(settings: Settings, sub: AuthMethod) {
    sub.Password? || (sub.Sso? && settings.authOnly)
  }

  /**
   * Along any chain of an own session the method stays, and the dates slide: two hours of access and thirty days of
   * refreshing, ninety on a mobile device, from the last refresh on.
   */
  lemma {:induction false} OwnSessionSlides(settings: Settings, first: AuthTokens, attempts: seq<Attempt>)
    requires OwnSession(settings, first.refresh.sub) && attempts != [] && Chain(settings, first, attempts).Some?
    ensures var t, last := Chain(settings, first, attempts).value, attempts[|attempts| - 1];
            && t.refresh.sub == first.refresh.sub && t.refresh.token.None?
            && t.refresh.nbf == t.access.nbf == last.now
            && t.access.exp == last.now + 2 * 3600
            && t.refresh.exp == last.now + (if last.answers.mobile then 90 else 30) * 86400
  {
    var before := attempts[..|attempts| - 1];
    if before != [] { OwnSessionSlides(settings, first, before); }
  }

  /**
   * Along any chain of refreshes the wrapped kind never changes. A chain on an access token keeps that token and its
   * expiry to the end, so the session is not prolonged, and every success comes at least 300 seconds before it.
   */
  lemma {:induction false} ChainKeepsKind(settings: Settings, first: AuthTokens, attempts: seq<Attempt>)
    requires IssuedBySso(settings, first) && Chain(settings, first, attempts).Some?
    ensures var t := Chain(settings, first, attempts).value;
            && IssuedBySso(settings, t) && SameKind(first.refresh.token, t.refresh.token)
            && (first.refresh.token.Some? && first.refresh.token.value.Access? ==>
                  && t.refresh.token == first.refresh.token
                  && t.refresh.exp == first.refresh.exp
                  && (attempts != [] ==> var now := attempts[|attempts| - 1].now;
                        t.refresh.nbf == t.access.nbf == now && t.access.exp == first.refresh.exp)
                  && forall i :: 0 <= i < |attempts| ==> attempts[i].now + BW_EXPIRATION <= first.refresh.exp)
  {
    if attempts != [] {
      var before, last := attempts[..|attempts| - 1], attempts[|attempts| - 1];
      ChainKeepsKind(settings, first, before);
      OneRefresh(settings, Chain(settings, first, before).value, last.answers, last.now);
      assert forall i :: 0 <= i < |before| ==> attempts[i] == before[i];
    }
  }

  /** The last refresh token the provider has handed out, or the one the chain began with. */
  function CurrentToken(initial: string, attempts: seq<Attempt>): string {
    if attempts == [] then initial
    else
      var a := attempts[|attempts| - 1].answers;
      if a.renewal.Some? && a.renewal.value.newRefresh.Some? then a.renewal.value.newRefresh.value
      else CurrentToken(initial, attempts[..|attempts| - 1])
  }

  /**
   * A chain on a refresh token always holds the newest one the provider has issued (section 6 of RFC 6749), with the
   * dates that the provider's last reply carries.
   */
  lemma {:induction false} ChainKeepsNewestToken(settings: Settings, first: AuthTokens, attempts: seq<Attempt>)
    requires IssuedBySso(settings, first) && first.refresh.token.Some? && first.refresh.token.value.Refresh?
    requires Chain(settings, first, attempts).Some?
    ensures Chain(settings, first, attempts).value.refresh.token
            == Some(Refresh(CurrentToken(first.refresh.token.value.token, attempts)))
    ensures attempts != [] ==>
              var t, a := Chain(settings, first, attempts).value, attempts[|attempts| - 1].answers;
              DatedBy(t, a, attempts[|attempts| - 1].now)
  {
    if attempts != [] {
      var before, last := attempts[..|attempts| - 1], attempts[|attempts| - 1];
      ChainKeepsNewestToken(settings, first, before);
      ChainKeepsKind(settings, first, before);
      OneRefresh(settings, Chain(settings, first, before).value, last.answers, last.now);
    }
  }

  // ----- When a chain succeeds

  /** What one refresh needs of the session's first claims, of the settings and of the answers. */
  predicate Passes(settings: Settings, first: RefreshClaims, at: Attempt) {
    && at.answers.deviceKnown
    && match first.sub
       case Password => !(settings.ssoEnabled && settings.ssoOnly)
       case Sso => settings.ssoEnabled && (settings.authOnly || TokenPasses(first, at))
       case _ => false
  }

  /** A refresh token has to be renewed with a known expiry, an access token accepted with 300 seconds left. */
  predicate TokenPasses(first: RefreshClaims, at: Attempt) {
    match first.token
    case None => false
    case Some(Refresh(_)) =>
      at.answers.renewal.Some? && (at.answers.accessPeriod.Some? || at.answers.renewal.value.expiresIn.Some?)
    case Some(Access(_)) => at.now + 300 <= first.exp && at.answers.stillValid
  }

  /** What later claims of a session share with the first ones. */
  predicate Alike(settings: Settings, first: RefreshClaims, c: RefreshClaims) {
    && c.sub == first.sub
    && (first.sub.Sso? && !settings.authOnly ==>
          && SameKind(first.token, c.token)
          && (first.token.Some? && first.token.value.Access? ==> c.exp == first.exp))
  }

  lemma RefreshIsAlike(settings: Settings, first: RefreshClaims, c: RefreshClaims, at: Attempt)
    requires Alike(settings, first, c)
    ensures RefreshTokens(settings, c, at.answers, at.now).Some? <==> Passes(settings, first, at)
    ensures RefreshTokens(settings, c, at.answers, at.now).Some? ==>
              Alike(settings, first, RefreshTokens(settings, c, at.answers, at.now).value.refresh)
  {
  }

  lemma {:induction false} ChainIsAlike(settings: Settings, first: AuthTokens, attempts: seq<Attempt>)
    ensures Chain(settings, first, attempts).Some? ==>
              Alike(settings, first.refresh, Chain(settings, first, attempts).value.refresh)
    ensures Chain(settings, first, attempts).Some?
            <==> forall i :: 0 <= i < |attempts| ==> Passes(settings, first.refresh, attempts[i])
  {
    if attempts != [] {
      var before, last := attempts[..|attempts| - 1], attempts[|attempts| - 1];
      ChainIsAlike(settings, first, before);
      assert forall i :: 0 <= i < |before| ==> attempts[i] == before[i];
      assert attempts[|attempts| - 1] == last;
      if Chain(settings, first, before).Some? {
        RefreshIsAlike(settings, first.refresh, Chain(settings, first, before).value.refresh, last);
      }
    }
  }

  /**
   * Whatever the session, a chain of refreshes succeeds exactly when the device is known at each of them and: a
   * password session is not ruled out by single sign-on only; a single sign-on session is not ruled out by the setting,
   * and its token, where it has to be looked at, is renewed or still accepted.
   */
  lemma {:induction false} ChainSucceedsIff(settings: Settings, first: AuthTokens, attempts: seq<Attempt>)
    ensures Chain(settings, first, attempts).Some?
            <==> forall i :: 0 <= i < |attempts| ==> Passes(settings, first.refresh, attempts[i])
  {
    ChainIsAlike(settings, first, attempts);
  }

  /** What a redeemed login brings: the provider's tokens and their periods. */
  datatype Login = Login(refreshToken: Option<string>, accessToken: string, expiresIn: Option<int>,
                         accessPeriod: Period, refreshPeriod: Period, mobile: bool, now: int)

  function Redeem(settings: Settings, l: Login): Option<AuthTokens> {
    CreateTokens(settings, l.refreshToken, l.accessToken, l.expiresIn, l.accessPeriod, l.refreshPeriod, l.mobile, l.now)
  }

  /** The dates of the tokens that a login starts with. */
  predicate FirstDates(settings: Settings, l: Login, t: AuthTokens) {
    var access := if settings.authOnly then (l.now, l.now + 2 * 3600)
                  else if l.accessPeriod.Some? then l.accessPeriod.value
                  else (l.now, l.now + if l.expiresIn.Some? then l.expiresIn.value else 0);
    var refresh := if settings.authOnly then (l.now, l.now + (if l.mobile then 90 else 30) * 86400)
                   else if l.refreshToken.None? then access
                   else if l.refreshPeriod.Some? then l.refreshPeriod.value
                   else (l.now, l.now + 30 * 86400);
    (t.access.nbf, t.access.exp) == access && (t.refresh.nbf, t.refresh.exp) == refresh
  }

  /** A session: the redeemed login and the refreshes since then. */
  function Session(settings: Settings, l: Login, attempts: seq<Attempt>): Option<AuthTokens> {
    match Redeem(settings, l)
    case None => None
    case Some(first) => Chain(settings, first, attempts)
  }

  lemma {:induction false} DisabledChainFails(settings: Settings, first: AuthTokens, attempts: seq<Attempt>)
    requires first.refresh.sub.Sso? && !settings.ssoEnabled && attempts != []
    ensures Chain(settings, first, attempts).None?
  {
    var before := attempts[..|attempts| - 1];
    if before != [] { DisabledChainFails(settings, first, before); }
  }

  /**
   * From the redeemed login through any number of refreshes: the session wraps the newest refresh token of the provider
   * if the login brought one, and otherwise the login's access token with the expiry it had then; with single sign-on
   * disabled there is no refresh at all.
   */
  lemma {:induction false} SessionKeepsToken(settings: Settings, l: Login, attempts: seq<Attempt>)
    requires Session(settings, l, attempts).Some?
    ensures attempts == [] ==> FirstDates(settings, l, Session(settings, l, attempts).value)
    ensures var t := Session(settings, l, attempts).value;
            && t.refresh.sub.Sso? && (settings.ssoEnabled || attempts == [])
            && (settings.authOnly ==> t.refresh.token.None?)
            && (!settings.authOnly && l.refreshToken.Some? ==>
                  t.refresh.token == Some(Refresh(CurrentToken(l.refreshToken.value, attempts))))
            && (!settings.authOnly && l.refreshToken.None? ==>
                  && t.refresh.token == Some(Access(l.accessToken))
                  && t.refresh.exp == t.access.exp
                  && t.access.exp
                     == (if l.accessPeriod.Some? then l.accessPeriod.value.1 else l.now + l.expiresIn.value))
  {
    var first := Redeem(settings, l).value;
    ChainKeepsKind(settings, first, attempts);
    if !settings.ssoEnabled && attempts != [] { DisabledChainFails(settings, first, attempts); }
    if !settings.authOnly && l.refreshToken.Some? { ChainKeepsNewestToken(settings, first, attempts); }
  }
}
