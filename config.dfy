/**
 * The settings of a `JwtAuthenticate` instance and the defaults its
 * constructor fills in.
 */
module JwtConfig {
  import opened Wrappers
  import opened PhpStrings

  /** A setting that is either a name or switched off with `false`. */
  datatype Name = Off | Named(name: string) {
    /** `!empty($setting)`: a name that PHP reads as true. */
    predicate Enabled()
      ensures Enabled() <==> Named? && name != "" && name != "0"
    {
      Named? && Truthy(name)
    }
  }

  /** The `key` setting: unset (`null`), a single secret, or a map of keys by key id. */
  datatype Key = NoKey | Secret(secret: string) | KeyRing(keys: map<string, string>)

  /** PHP's boolean reading of the `key` setting, as `?:` applies it. */
  predicate KeyTruthy(k: Key)
    ensures !KeyTruthy(k) <==> k == NoKey || k == Secret("") || k == Secret("0") || k == KeyRing(map[])
  {
    match k
    case NoKey => false
    case Secret(s) => Truthy(s)
    case KeyRing(m) => m != map[]
  }

  datatype Config = Config(
    cookie: Name,
    header: string,
    prefix: string,
    parameter: Name,
    queryDatasource: bool,
    usernameField: string,
    passwordField: string,
    unauthenticatedException: Name,
    key: Key,
    allowedAlgs: seq<string>)

  /** The configuration array handed to the constructor: `None` marks a key it leaves out. */
  datatype Overrides = Overrides(
    cookie: Option<Name>,
    header: Option<string>,
    prefix: Option<string>,
    parameter: Option<Name>,
    queryDatasource: Option<bool>,
    usernameField: Option<string>,
    passwordField: Option<string>,
    unauthenticatedException: Option<Name>,
    key: Option<Key>,
    allowedAlgs: Option<seq<string>>)

  const NoOverrides := Overrides(None, None, None, None, None, None, None, None, None, None)

  const UnauthorizedException := "Cake\\Http\\Exception\\UnauthorizedException"

  /**
   * The constructor: every key the caller supplies replaces the default, and
   * an empty or missing `allowedAlgs` becomes `['HS256']`.
   */
  function Configure(o: Overrides): (c: Config)
    ensures c.allowedAlgs != []
    ensures o.allowedAlgs.None? || o.allowedAlgs == Some([]) ==> c.allowedAlgs == ["HS256"]
    ensures o.allowedAlgs.Some? && o.allowedAlgs.value != [] ==> c.allowedAlgs == o.allowedAlgs.value
    ensures o.cookie.None? ==> c.cookie == Off
    ensures o.header.None? ==> c.header == "authorization"
    ensures o.prefix.None? ==> c.prefix == "bearer"
    ensures o.parameter.None? ==> c.parameter == Named("token")
    ensures o.queryDatasource.None? ==> c.queryDatasource
    ensures o.usernameField.None? ==> c.usernameField == "id"
    ensures o.passwordField.None? ==> c.passwordField == "password"
    ensures o.unauthenticatedException.None? ==> c.unauthenticatedException == Named(UnauthorizedException)
    ensures o.key.None? ==> c.key == NoKey
    ensures o.cookie.Some? ==> c.cookie == o.cookie.value
    ensures o.header.Some? ==> c.header == o.header.value
    ensures o.prefix.Some? ==> c.prefix == o.prefix.value
    ensures o.parameter.Some? ==> c.parameter == o.parameter.value
    ensures o.queryDatasource.Some? ==> c.queryDatasource == o.queryDatasource.value
    ensures o.usernameField.Some? ==> c.usernameField == o.usernameField.value
    ensures o.passwordField.Some? ==> c.passwordField == o.passwordField.value
    ensures o.unauthenticatedException.Some? ==> c.unauthenticatedException == o.unauthenticatedException.value
    ensures o.key.Some? ==> c.key == o.key.value
  {
    Config(
      o.cookie.GetOr(Off),
      o.header.GetOr("authorization"),
      o.prefix.GetOr("bearer"),
      o.parameter.GetOr(Named("token")),
      o.queryDatasource.GetOr(true),
      o.usernameField.GetOr("id"),
      o.passwordField.GetOr("password"),
      o.unauthenticatedException.GetOr(Named(UnauthorizedException)),
      o.key.GetOr(NoKey),
      if o.allowedAlgs.None? || o.allowedAlgs.value == [] then ["HS256"] else o.allowedAlgs.value)
  }

  /** The configuration of an instance built with an empty configuration array. */
  function DefaultConfig(): Config {
    Configure(NoOverrides)
  }

  /** A supplied key that PHP reads as true is used; otherwise the salt is. */
  function EffectiveKey(c: Config, salt: string): (k: Key)
    ensures k == c.key || k == Secret(salt)
    ensures KeyTruthy(c.key) ==> k == c.key
    ensures !KeyTruthy(c.key) ==> k == Secret(salt)
  {
    if KeyTruthy(c.key) then c.key else Secret(salt)
  }
}
