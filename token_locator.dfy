/**
 * Where `getToken` finds the token: the header first, then the cookie, then
 * the query parameter, each only under its own condition.
 */
module TokenLocator {
  import opened Wrappers
  import opened PhpStrings
  import opened JwtConfig

  /**
   * The request as the authenticator reads it. Headers are stored under
   * their lower-cased names with their values already joined into one line.
   */
  datatype Request = Request(
    headers: map<string, string>,
    cookies: map<string, string>,
    query: map<string, string>)

  /** `getHeaderLine(name)`: the header, looked up ignoring case, or "" when absent. */
  function HeaderLine(r: Request, name: string): string {
    if Lower(name) in r.headers then r.headers[Lower(name)] else ""
  }

  function Lookup(m: map<string, string>, k: string): Option<string> {
    if k in m then Some(m[k]) else None
  }

  datatype Source = FromHeader | FromCookie | FromQuery | Nowhere

  /** The header counts when PHP reads it as true and the prefix starts it. */
  predicate HeaderApplies(c: Config, r: Request) {
    var h := HeaderLine(r, c.header);
    Truthy(h) && StartsWithCI(h, c.prefix)
  }

  /** The source consulted: the first one whose condition holds. */
  function SelectSource(c: Config, r: Request): Source {
    if HeaderApplies(c, r) then FromHeader
    else if c.cookie.Enabled() then FromCookie
    else if c.parameter.Enabled() then FromQuery
    else Nowhere
  }

  /**
   * The token `getToken($request)` returns; `previous` is the token stored by
   * an earlier call, which is what comes back when no source applies.
   */
  function LocateToken(c: Config, r: Request, previous: Option<string>): (t: Option<string>)
    ensures HeaderApplies(c, r) ==> t == Some(RemoveAllCI(c.prefix + " ", HeaderLine(r, c.header)))
    ensures !HeaderApplies(c, r) && c.cookie.Enabled() ==> t == Lookup(r.cookies, c.cookie.name)
    ensures !HeaderApplies(c, r) && !c.cookie.Enabled() && c.parameter.Enabled() ==>
      t == Lookup(r.query, c.parameter.name)
    ensures !HeaderApplies(c, r) && !c.cookie.Enabled() && !c.parameter.Enabled() ==> t == previous
  {
    match SelectSource(c, r)
    case FromHeader => Some(RemoveAllCI(c.prefix + " ", HeaderLine(r, c.header)))
    case FromCookie => Lookup(r.cookies, c.cookie.name)
    case FromQuery => Lookup(r.query, c.parameter.name)
    case Nowhere => previous
  }

  /** When the header applies, cookies and query parameters play no part. */
  lemma HeaderIgnoresOtherSources(c: Config, r: Request, cookies: map<string, string>, query: map<string, string>)
    requires HeaderApplies(c, r)
    ensures LocateToken(c, r, None) == Some(RemoveAllCI(c.prefix + " ", HeaderLine(r, c.header)))
    ensures LocateToken(c, r.(cookies := cookies, query := query), None) == LocateToken(c, r, None)
  {
  }

  /**
   * `Bearer <token>` with the scheme matching the prefix in any case, and a
   * token without spaces (every JWT is one), yields exactly the token.
   */
  lemma BearerHeaderGivesToken(c: Config, r: Request, previous: Option<string>, scheme: string, token: string)
    requires HeaderLine(r, c.header) == scheme + " " + token
    requires EqualsCI(scheme, c.prefix)
    requires forall i :: 0 <= i < |token| ==> token[i] != ' '
    ensures HeaderApplies(c, r)
    ensures LocateToken(c, r, previous) == Some(token)
  {
    var h := HeaderLine(r, c.header);
    assert |Lower(scheme)| == |scheme|;
    assert h[|scheme|] == ' ';
    assert Truthy(h);
    assert h[..|c.prefix|] == scheme;
    var needle := c.prefix + " ";
    LowerConcat(scheme, " ");
    LowerConcat(c.prefix, " ");
    assert EqualsCI(scheme + " ", needle);
    NoSpaceNoOccurrence(needle, token);
    assert h == (scheme + " ") + token;
    RemoveLeadingOccurrence(needle, scheme + " ", token);
  }

  /**
   * A header the prefix does not start is ignored: the result is the one for
   * the same request without that header.
   */
  lemma MisplacedPrefixFallsThrough(c: Config, r: Request, previous: Option<string>)
    requires !StartsWithCI(HeaderLine(r, c.header), c.prefix)
    ensures LocateToken(c, r, previous) == LocateToken(c, r.(headers := r.headers - {Lower(c.header)}), previous)
  {
  }

  /** `WrongBearer <token>` under the default configuration is not a bearer header. */
  lemma WrongBearerIgnored(r: Request, previous: Option<string>, token: string)
    requires HeaderLine(r, "authorization") == "WrongBearer " + token
    requires "token" !in r.query
    ensures LocateToken(DefaultConfig(), r, previous) == None
  {
    var h := HeaderLine(r, "authorization");
    assert Lower(h[..6])[0] == 'w' != Lower("bearer")[0];
  }

  /**
   * A configured cookie decides alone: the result is that cookie or null,
   * whatever the query string holds.
   */
  lemma CookieShortCircuits(c: Config, r: Request, previous: Option<string>, query: map<string, string>)
    requires !HeaderApplies(c, r)
    requires c.cookie.Enabled()
    ensures LocateToken(c, r, previous) == Lookup(r.cookies, c.cookie.name)
    ensures LocateToken(c, r.(query := query), previous) == LocateToken(c, r, previous)
  {
  }

  /** With the cookie off, an enabled parameter reads that query key and no other. */
  lemma ParameterReadsItsKey(c: Config, r: Request, previous: Option<string>)
    requires !HeaderApplies(c, r)
    requires !c.cookie.Enabled()
    requires c.parameter.Enabled()
    ensures LocateToken(c, r, previous) == Lookup(r.query, c.parameter.name)
    ensures c.parameter.name !in r.query ==> LocateToken(c, r, previous) == None
  {
  }

  /**
   * With no source enabled beyond the header and the header not applying,
   * the stored token is returned and the query string is never read.
   */
  lemma NoSourceKeepsPrevious(c: Config, r: Request, previous: Option<string>)
    requires !HeaderApplies(c, r)
    requires !c.cookie.Enabled() && !c.parameter.Enabled()
    ensures LocateToken(c, r, previous) == previous
  {
  }

  /** Locating again on the same request finds the same token. */
  lemma LocateIdempotent(c: Config, r: Request, previous: Option<string>)
    ensures LocateToken(c, r, LocateToken(c, r, previous)) == LocateToken(c, r, previous)
  {
  }
}
