/**
 * One authentication attempt as a state machine over the instance fields
 * `_token`, `_payload` and `_error`: each step function gives the new fields
 * and the call's result. The class in module JwtAuth is proved against these.
 */
module Authenticator {
  import opened Wrappers
  import opened PhpStrings
  import opened Claims
  import opened JwtConfig
  import opened TokenLocator
  import opened IdentityPolicy

  /** What `JWT::decode` does with a token: the claims, or the exception it throws. */
  type Verdict = Result<Fields, Exception>

  /** `JWT::decode(token, key, allowedAlgs)`. */
  type Decoder = (string, Key, seq<string>) -> Verdict

  /**
   * What the authenticator reads from outside the instance: the decoder,
   * `Security::getSalt()`, `Configure::read('debug')`, the Auth component's
   * `authError` and the user lookup.
   */
  datatype Env = Env(decode: Decoder, salt: string, debug: bool, authError: string, find: Finder)

  /** The fields `_token`, `_payload` and `_error`. */
  datatype AuthState = AuthState(token: Option<string>, payload: Option<Fields>, error: Option<Exception>)

  const Fresh := AuthState(None, None, None)

  /** What `getPayload` and `_decode` return: the payload or null, or an escaping exception. */
  type PayloadResult = Result<Option<Fields>, Exception>

  /** `if ($token)` on a string or null. */
  predicate TokenTruthy(t: Option<string>) {
    t.Some? && Truthy(t.value)
  }

  /** The decoder applied with the effective key and the allowed algorithms. */
  function Verify(c: Config, env: Env, token: string): Verdict {
    env.decode(token, EffectiveKey(c, env.salt), c.allowedAlgs)
  }

  /** `getToken($request)`. */
  function TokenStep(c: Config, s: AuthState, request: Option<Request>): (r: (AuthState, Option<string>))
    ensures request.None? ==> r == (s, s.token)
    ensures request.Some? ==> r.1 == LocateToken(c, request.value, s.token)
    ensures r.0 == s.(token := r.1)
  {
    match request
    case None => (s, s.token)
    case Some(r) =>
      var t := LocateToken(c, r, s.token);
      (s.(token := t), t)
  }

  /** `_decode($token)`: in debug mode a rejection escapes, otherwise it is recorded. */
  function DecodeStep(c: Config, env: Env, s: AuthState, token: string): (r: (AuthState, PayloadResult))
    ensures r.0.token == s.token && r.0.payload == s.payload
    ensures Verify(c, env, token).Success? ==> r == (s, Success(Some(Verify(c, env, token).value)))
    ensures r.1.Failure? <==> env.debug && Verify(c, env, token).Failure?
    ensures r.1.Failure? ==> r.0 == s && r.1.error == Verify(c, env, token).error
    ensures r.0.error != s.error ==> !env.debug && r.0.error == Some(Verify(c, env, token).error)
    ensures r.1.Success? && r.1.value.None? ==> r.0.error == Some(Verify(c, env, token).error)
    ensures !env.debug && Verify(c, env, token).Failure? ==>
      r == (s.(error := Some(Verify(c, env, token).error)), Success(None))
  {
    match Verify(c, env, token)
    case Success(claims) => (s, Success(Some(claims)))
    case Failure(e) =>
      if env.debug then (s, Failure(e)) else (s.(error := Some(e)), Success(None))
  }

  /** `getPayload($request)`. */
  function PayloadStep(c: Config, env: Env, s: AuthState, request: Option<Request>): (r: (AuthState, PayloadResult))
    ensures request.None? ==> r == (s, Success(s.payload))
    ensures request.Some? ==> r.0.token == LocateToken(c, request.value, s.token)
    ensures request.Some? && r.1.Success? ==> r.0.payload == r.1.value
    ensures r.1.Failure? ==> r.0.payload == s.payload && r.0.error == s.error
    ensures r.0.error != s.error ==>
      && request.Some? && TokenTruthy(r.0.token) && !env.debug && r.0.payload == None
      && Verify(c, env, r.0.token.value).Failure? && r.0.error == Some(Verify(c, env, r.0.token.value).error)
    ensures request.Some? && !TokenTruthy(r.0.token) ==> r == (AuthState(r.0.token, None, s.error), Success(None))
    ensures request.Some? && TokenTruthy(r.0.token) ==>
      var (d, out) := DecodeStep(c, env, s.(token := r.0.token), r.0.token.value);
      r.1 == out && r.0.error == d.error
  {
    if request.None? then (s, Success(s.payload))
    else
      var (s1, t) := TokenStep(c, s, request);
      if !TokenTruthy(t) then (s1.(payload := None), Success(None))
      else
        var (s2, out) := DecodeStep(c, env, s1, t.value);
        match out
        case Failure(e) => (s2, Failure(e))
        case Success(p) => (s2.(payload := p), Success(p))
  }

  /** `getUser($request)`, which `authenticate` also answers with. */
  function UserStep(c: Config, env: Env, s: AuthState, r: Request): (u: (AuthState, Identity))
    ensures u.0 == PayloadStep(c, env, s, Some(r)).0
    ensures PayloadStep(c, env, s, Some(r)).1.Failure? ==> u.1 == Thrown(PayloadStep(c, env, s, Some(r)).1.error)
    ensures PayloadStep(c, env, s, Some(r)).1.Success? ==> u.1 == ResolveIdentity(c, env.find, u.0.payload)
  {
    var (s1, out) := PayloadStep(c, env, s, Some(r));
    match out
    case Failure(e) => (s1, Thrown(e))
    case Success(p) => (s1, ResolveIdentity(c, env.find, p))
  }

  /**
   * `unauthenticated()`: nothing when the exception setting is switched off,
   * otherwise an exception of the configured class whose message is the
   * recorded decode error's, or else the `authError` setting.
   */
  function UnauthenticatedOutcome(c: Config, s: AuthState, authError: string): (r: Option<Exception>)
    ensures r.None? <==> !c.unauthenticatedException.Enabled()
    ensures r.Some? ==> r.value.kind == c.unauthenticatedException.name
    ensures r.Some? && s.error.Some? ==> r.value.message == s.error.value.message
    ensures r.Some? && s.error.None? ==> r.value.message == authError
  {
    if !c.unauthenticatedException.Enabled() then None
    else
      var message := if s.error.Some? then s.error.value.message else authError;
      Some(Exception(c.unauthenticatedException.name, message))
  }

  /** Asking twice for the token of the same request gives the same token and state. */
  lemma TokenStepIdempotent(c: Config, s: AuthState, r: Request)
    ensures TokenStep(c, TokenStep(c, s, Some(r)).0, Some(r)) == TokenStep(c, s, Some(r))
  {
    LocateIdempotent(c, r, s.token);
  }

  /**
   * A falsy token is never decoded: the payload is cleared, null is returned,
   * the error is kept, and the decoder's behaviour does not matter.
   */
  lemma FalsyTokenSkipsDecode(c: Config, env: Env, other: Env, s: AuthState, r: Request)
    requires !TokenTruthy(LocateToken(c, r, s.token))
    ensures PayloadStep(c, env, s, Some(r)) == PayloadStep(c, other, s, Some(r))
    ensures PayloadStep(c, env, s, Some(r)) ==
      (AuthState(LocateToken(c, r, s.token), None, s.error), Success(None))
  {
  }

  /**
   * The decoder gets the `key` setting when PHP reads it as true and the salt
   * otherwise, always with the configured algorithms.
   */
  lemma KeyOrSalt(c: Config, env: Env, token: string)
    ensures KeyTruthy(c.key) ==> Verify(c, env, token) == env.decode(token, c.key, c.allowedAlgs)
    ensures !KeyTruthy(c.key) ==> Verify(c, env, token) == env.decode(token, Secret(env.salt), c.allowedAlgs)
  {
  }

  /**
   * Debug off: a rejected token is recorded in `_error`, the payload is null,
   * `getUser` answers false, and a later `unauthenticated()` reports the
   * decoder's message.
   */
  lemma QuietRejection(c: Config, env: Env, s: AuthState, r: Request, e: Exception)
    requires !env.debug
    requires TokenTruthy(LocateToken(c, r, s.token))
    requires Verify(c, env, LocateToken(c, r, s.token).value) == Failure(e)
    ensures UserStep(c, env, s, r) == (AuthState(LocateToken(c, r, s.token), None, Some(e)), NoUser)
    ensures c.unauthenticatedException.Enabled() ==>
      UnauthenticatedOutcome(c, UserStep(c, env, s, r).0, env.authError) ==
      Some(Exception(c.unauthenticatedException.name, e.message))
  {
  }

  /** Debug on: a rejected token's exception escapes and `_payload` and `_error` stay as they were. */
  lemma LoudRejection(c: Config, env: Env, s: AuthState, r: Request, e: Exception)
    requires env.debug
    requires TokenTruthy(LocateToken(c, r, s.token))
    requires Verify(c, env, LocateToken(c, r, s.token).value) == Failure(e)
    ensures UserStep(c, env, s, r) == (s.(token := LocateToken(c, r, s.token)), Thrown(e))
  {
  }

  /** An accepted token's claims become the payload; an error recorded earlier is not cleared. */
  lemma AcceptedTokenStored(c: Config, env: Env, s: AuthState, r: Request, claims: Fields)
    requires TokenTruthy(LocateToken(c, r, s.token))
    requires Verify(c, env, LocateToken(c, r, s.token).value) == Success(claims)
    ensures PayloadStep(c, env, s, Some(r)) ==
      (AuthState(LocateToken(c, r, s.token), Some(claims), s.error), Success(Some(claims)))
    ensures UserStep(c, env, s, r).1 == ResolveIdentity(c, env.find, Some(claims))
  {
  }

  /** No token found means no user, whatever the decoder and the datastore would say. */
  lemma NoTokenNoUser(c: Config, env: Env, s: AuthState, r: Request)
    requires LocateToken(c, r, s.token).None?
    ensures UserStep(c, env, s, r).1 == NoUser
  {
  }

  /**
   * Under the defaults, `WrongBearer <token>` without a query token gives no
   * user, whatever token an earlier call stored: the enabled parameter
   * overwrites it with null.
   */
  lemma WrongBearerNoUser(env: Env, s: AuthState, r: Request, token: string)
    requires HeaderLine(r, "authorization") == "WrongBearer " + token
    requires "token" !in r.query
    ensures UserStep(DefaultConfig(), env, s, r).1 == NoUser
  {
    WrongBearerIgnored(r, s.token, token);
  }

  /**
   * A configured cookie that the request lacks gives no user, even when the
   * token sits in the query string or under another cookie name.
   */
  lemma MissingCookieNoUser(c: Config, env: Env, s: AuthState, r: Request)
    requires !HeaderApplies(c, r)
    requires c.cookie.Enabled() && c.cookie.name !in r.cookies
    ensures UserStep(c, env, s, r).1 == NoUser
  {
  }

  /**
   * With the cookie and the parameter switched off, a fresh instance finds
   * no user for a request without a bearer header, whatever its query holds.
   */
  lemma QueryOnlyTokenInvisible(c: Config, env: Env, r: Request)
    requires !HeaderApplies(c, r)
    requires !c.cookie.Enabled() && !c.parameter.Enabled()
    ensures UserStep(c, env, Fresh, r).1 == NoUser
  {
    NoSourceKeepsPrevious(c, r, None);
  }

  /**
   * When no source applies, the token stored by an earlier request is decoded
   * again: two such requests are treated alike, whatever they hold.
   */
  lemma NoSourceReusesStoredToken(c: Config, env: Env, s: AuthState, r1: Request, r2: Request)
    requires !HeaderApplies(c, r1) && !HeaderApplies(c, r2)
    requires !c.cookie.Enabled() && !c.parameter.Enabled()
    ensures TokenStep(c, s, Some(r1)) == (s, s.token)
    ensures UserStep(c, env, s, r1) == UserStep(c, env, s, r2)
  {
  }
}
