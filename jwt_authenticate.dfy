/**
 * The authentication adapter itself: an object holding its configuration
 * and the fields `_token`, `_payload` and `_error`, which its methods update
 * in place. Each method is proved to move the fields exactly as the
 * corresponding step function of module Authenticator says.
 */
module JwtAuth {
  import opened Wrappers
  import opened PhpStrings
  import opened Claims
  import opened JwtConfig
  import opened TokenLocator
  import opened IdentityPolicy
  import opened Authenticator

  class JwtAuthenticate {
    const config: Config
    /** `_token`: the token last located. */
    var token: Option<string>
    /** `_payload`: the claims last decoded, or null. */
    var payload: Option<Fields>
    /** `_error`: the last decoding failure swallowed outside debug mode. */
    var error: Option<Exception>

    function State(): AuthState
      reads this
    {
      AuthState(token, payload, error)
    }

    constructor (overrides: Overrides)
      ensures config == Configure(overrides)
      ensures State() == Fresh
    {
      config := Configure(overrides);
      token, payload, error := None, None, None;
    }

    method GetToken(request: Option<Request>) returns (t: Option<string>)
      modifies this
      ensures (State(), t) == TokenStep(config, old(State()), request)
    {
      if request.None? {
        return token;
      }
      var r := request.value;
      var header := HeaderLine(r, config.header);
      if Truthy(header) && StartsWithCI(header, config.prefix) {
        token := Some(RemoveAllCI(config.prefix + " ", header));
        return token;
      }
      if config.cookie.Enabled() {
        token := Lookup(r.cookies, config.cookie.name);
        return token;
      }
      if config.parameter.Enabled() {
        token := Lookup(r.query, config.parameter.name);
        return token;
      }
      return token;
    }

    /** `_decode($token)`. */
    method DecodeToken(t: string, env: Env) returns (out: PayloadResult)
      modifies this
      ensures (State(), out) == DecodeStep(config, env, old(State()), t)
    {
      var verdict := env.decode(t, EffectiveKey(config, env.salt), config.allowedAlgs);
      if verdict.Success? {
        return Success(Some(verdict.value));
      }
      if env.debug {
        return Failure(verdict.error);
      }
      error := Some(verdict.error);
      return Success(None);
    }

    method GetPayload(request: Option<Request>, env: Env) returns (out: PayloadResult)
      modifies this
      ensures (State(), out) == PayloadStep(config, env, old(State()), request)
    {
      if request.None? {
        return Success(payload);
      }
      var p: Option<Fields> := None;
      var t := GetToken(request);
      if t.Some? && Truthy(t.value) {
        var decoded := DecodeToken(t.value, env);
        if decoded.Failure? {
          return decoded;
        }
        p := decoded.value;
      }
      payload := p;
      return Success(p);
    }

    method GetUser(request: Request, env: Env) returns (res: Identity)
      modifies this
      ensures (State(), res) == UserStep(config, env, old(State()), request)
    {
      var out := GetPayload(Some(request), env);
      if out.Failure? {
        return Thrown(out.error);
      }
      if out.value.None? {
        return NoUser;
      }
      var p := out.value.value;
      if !config.queryDatasource {
        return User(p);
      }
      if !HasSubject(p) {
        return NoUser;
      }
      var subject := ToPhpString(p["sub"]);
      if subject.Failure? {
        return Thrown(subject.error);
      }
      var lookup := env.find(config.usernameField, subject.value);
      if lookup.Failure? {
        return Thrown(lookup.error);
      }
      var found := lookup.value;
      if !RecordFound(found) {
        return NoUser;
      }
      var user := found.value;
      user := user - {config.passwordField};
      return User(user);
    }

    method Authenticate(request: Request, env: Env) returns (res: Identity)
      modifies this
      ensures (State(), res) == UserStep(config, env, old(State()), request)
    {
      res := GetUser(request, env);
    }

    method Unauthenticated(env: Env) returns (raised: Option<Exception>)
      ensures raised == UnauthenticatedOutcome(config, State(), env.authError)
    {
      if !config.unauthenticatedException.Enabled() {
        return None;
      }
      var message := if error.Some? then error.value.message else env.authError;
      raised := Some(Exception(config.unauthenticatedException.name, message));
    }
  }

  /**
   * A fresh instance with the query parameter switched off finds no user for
   * a token given only in the query string, and `unauthenticated()` then
   * raises the default exception class with the `authError` message.
   */
  method ParameterDisabledScenario(env: Env, jwt: string) returns (user: Identity, raised: Option<Exception>)
    ensures user == NoUser
    ensures raised == Some(Exception(UnauthorizedException, env.authError))
  {
    var auth := new JwtAuthenticate(NoOverrides.(parameter := Some(Off)));
    var request := Request(map[], map[], map["token" := jwt]);
    QueryOnlyTokenInvisible(auth.config, env, request);
    user := auth.GetUser(request, env);
    raised := auth.Unauthenticated(env);
  }
}
