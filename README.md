# JWT authentication adapter (ADmad/cakephp-jwt-auth), modelled in Dafny

This project models `JwtAuthenticate`, the CakePHP authentication adapter that
accepts JSON Web Tokens. An instance holds its configuration and three fields
that its methods update in place: `_token` (the token last located),
`_payload` (the claims last decoded) and `_error` (the last decoding failure
swallowed outside debug mode). The model covers:

- the constructor's configuration defaults, including `allowedAlgs`
  falling back to `['HS256']`;
- `getToken`: the header first, then the cookie, then the query parameter.
  Each source is read under its own condition. PHP's reading of `""` and `"0"`
  as false applies, and so does ASCII case folding;
- `getPayload` and `_decode`. The key falls back to the salt. A verification
  failure is rethrown in debug mode and recorded in `_error` otherwise;
- `getUser` / `authenticate`. The payload can be passed through unchanged.
  Otherwise it is looked up by its `sub` claim, and the password field is
  stripped from the record found;
- `unauthenticated`. It does nothing when switched off. Otherwise it raises
  the configured exception class with the recorded error's message or the
  `authError` setting.

Layout, one module per file:

- `wrappers.dfy` (`Wrappers`): `Option` and `Result`.
- `php_strings.dfy` (`PhpStrings`): the PHP string built-ins the adapter
  uses. These are truthiness, `stripos(...) === 0`, `str_ireplace(needle, '', s)`
  as a left-to-right, non-overlapping scan, and the `(string)` cast of an
  integer.
- `claims.dfy` (`Claims`): PHP values, claim maps and records, exceptions,
  and the `(string)` cast of a claim.
- `config.dfy` (`JwtConfig`): settings, the supplied overrides and the
  constructor's defaults.
- `token_locator.dfy` (`TokenLocator`): the request and the pure form of the
  token search.
- `identity_policy.dfy` (`IdentityPolicy`): the pure form of what `getUser`
  does with a payload.
- `authenticator.dfy` (`Authenticator`): one attempt as a state machine over
  (`_token`, `_payload`, `_error`). It has one step function per method, plus
  the lemmas relating several steps.
- `jwt_authenticate.dfy` (`JwtAuth`): the class `JwtAuthenticate`. Its fields
  are updated in place. Each method is proved to change them exactly as the
  matching step function says.

Outside collaborators are parameters. The `Env` datatype carries each of them:

- `JWT::decode`: a total function from token, key and allowed algorithms to
  claims or an exception;
- `Security::getSalt()`: a string;
- `Configure::read('debug')`: a boolean;
- the Auth component's `authError`: a string;
- `_findUser`: a function from (field, value) to an optional record, or to the exception the datastore query throws.

Behaviour of `src/Auth/JwtAuthenticate.php` that a reader may not expect,
modelled as written:

- The prefix only has to start the header. No separator after it is required
  (line 194).
- Every case-insensitive occurrence of `prefix . ' '` is removed, not only the
  leading one (line 195; lemma `PhpStrings.CutLaterOccurrence`).
- A configured cookie decides alone, even when the request has no such
  cookie. The query is then not read (lines 198-206).
- The token is not cached. It is located again on every call. It keeps the
  same value because locating is idempotent (`TokenLocator.LocateIdempotent`).
- When no source applies, the token stored by an earlier call is returned and
  decoded again (line 218). So an instance reused across requests can
  authenticate a request that carries no token:
  `Authenticator.NoSourceReusesStoredToken`.
- With `queryDatasource` off, the payload is returned unchanged. A `password`
  claim in it is not removed.
- A successful decode does not clear `_error`. An error recorded by an
  earlier call is still reported by `unauthenticated`
  (`Authenticator.AcceptedTokenStored`).

## Model

| member | source | states |
|---|---|---|
| `JwtConfig.Configure` | src/Auth/JwtAuthenticate.php:93-110 | every supplied setting is kept as given; every setting the caller leaves out takes its documented default (cookie off, header `authorization`, prefix `bearer`, parameter `token`, datasource queried, username field `id`, `UnauthorizedException`, no key); `allowedAlgs` is `['HS256']` when missing or empty and exactly the supplied list otherwise, so it is never empty |
| `JwtConfig.Name.Enabled` | src/Auth/JwtAuthenticate.php:198 | `!empty()` of a name setting is true exactly for a name other than `""` and `"0"`; a setting switched off is never enabled |
| `JwtConfig.KeyTruthy` | src/Auth/JwtAuthenticate.php:233 | the key setting read as a boolean: it is false exactly for null, `""`, `"0"` and an empty key map; a string goes by PHP truthiness, a key map is true exactly when non-empty |
| `JwtConfig.EffectiveKey` | src/Auth/JwtAuthenticate.php:233 | `key ?: salt`: the key setting when it is truthy, the salt otherwise, and nothing else |
| `PhpStrings.Truthy` | src/Auth/JwtAuthenticate.php:172 | a string read as a boolean is false exactly for `""` and `"0"`; every other string, one-character ones included, is true |
| `PhpStrings.StartsWithCI` | src/Auth/JwtAuthenticate.php:194 | `stripos($s, $prefix) === 0` holds exactly when the prefix occurs, ignoring ASCII case, at position 0; an empty prefix always does |
| `PhpStrings.RemoveAllCI` | src/Auth/JwtAuthenticate.php:195 | removing a needle never lengthens the subject, and an empty needle leaves it unchanged |
| `PhpStrings.RemoveAllNoMatch` | src/Auth/JwtAuthenticate.php:195 | a subject in which the needle does not occur case-insensitively comes back unchanged |
| `PhpStrings.CutLeadingOccurrence` | src/Auth/JwtAuthenticate.php:195 | an occurrence at the front, in any case, is cut and the scan resumes behind it |
| `PhpStrings.KeepCleanPrefix` | src/Auth/JwtAuthenticate.php:195 | characters at which no occurrence starts are kept, in order |
| `PhpStrings.CutLaterOccurrence` | src/Auth/JwtAuthenticate.php:195 | an occurrence after the front is removed as well, not only the leading one |
| `PhpStrings.RemoveLeadingOccurrence` | src/Auth/JwtAuthenticate.php:195 | a leading occurrence followed by text holding none leaves exactly that text |
| `PhpStrings.NoSpaceNoOccurrence` | src/Auth/JwtAuthenticate.php:195 | `prefix . ' '` cannot occur in a token without spaces |
| `PhpStrings.IntToString` | src/Auth/JwtAuthenticate.php:147 | a non-negative integer becomes its decimal digits, with no leading zero except in `"0"`, which denote it; a negative one becomes `-` followed by the digits of its magnitude, also without a leading zero |
| `PhpStrings.DigitsRoundTrip` | src/Auth/JwtAuthenticate.php:147 | the decimal digits of a natural number denote that number |
| `PhpStrings.CanonicalIsDecimalForm` | src/Auth/JwtAuthenticate.php:147 | a digit string without a leading zero (other than `"0"`) is the decimal form of the number it denotes, so each number has exactly one such form |
| `PhpStrings.IntToStringInjective` | src/Auth/JwtAuthenticate.php:147 | two integers with the same `(string)` cast are equal |
| `Claims.ToPhpString` | src/Auth/JwtAuthenticate.php:147 | the cast fails exactly for an object, and then throws PHP's `Error` that an object of class `stdClass` cannot be converted to string; a string is used as it is; a non-negative integer becomes its decimal digits, with no leading zero except in `"0"`, denoting it; a negative one becomes `-` and the digits of its magnitude, again without a leading zero; `true` is `"1"`, `false` and null `""`, an array `"Array"` |
| `Claims.IntCastIsCanonicalForm` | src/Auth/JwtAuthenticate.php:147 | the lookup string of a non-negative integer `sub` is fixed: any digit string without a leading zero that denotes it is the cast's result (`1` is looked up as `"1"`, never `"01"`) |
| `Claims.DistinctIntegersCastApart` | src/Auth/JwtAuthenticate.php:147 | different integer `sub` claims are looked up under different strings |
| `Claims.HasSubject` | src/Auth/JwtAuthenticate.php:143 | `isset($payload->sub)`: the claim is present and not null |
| `TokenLocator.LocateToken` | src/Auth/JwtAuthenticate.php:193-218 | the header wins when it is truthy and starts with the prefix, giving the header with every `prefix . ' '` removed; otherwise a configured cookie gives that cookie or null; otherwise a configured parameter gives that query value or null; otherwise the stored token |
| `TokenLocator.HeaderIgnoresOtherSources` | src/Auth/JwtAuthenticate.php:193-196 | when the header is truthy and starts with the prefix, the token is the header with every `prefix . ' '` removed, and cookies and query play no part |
| `TokenLocator.BearerHeaderGivesToken` | tests/TestCase/Auth/JwtAuthenticateTest.php:119-121 | a header `<scheme> <token>` whose scheme equals the prefix ignoring case, with a token free of spaces, yields exactly that token |
| `TokenLocator.MisplacedPrefixFallsThrough` | src/Auth/JwtAuthenticate.php:194 | a header that the prefix does not start is treated as if it were absent |
| `TokenLocator.WrongBearerIgnored` | tests/TestCase/Auth/JwtAuthenticateTest.php:123-125 | with the defaults, `WrongBearer <token>` and no `token` query parameter gives no token, whatever was stored before |
| `TokenLocator.CookieShortCircuits` | src/Auth/JwtAuthenticate.php:198-206 | with the header not applying and a cookie configured, the result is that cookie or null whatever the query string holds |
| `TokenLocator.ParameterReadsItsKey` | src/Auth/JwtAuthenticate.php:208-216 | with the cookie off and a parameter configured, the result is that query key's value, or null when the key is absent |
| `TokenLocator.NoSourceKeepsPrevious` | src/Auth/JwtAuthenticate.php:218 | when no source applies, the stored token is returned unchanged |
| `TokenLocator.LocateIdempotent` | src/Auth/JwtAuthenticate.php:185-219 | locating again on the same request gives the same token |
| `IdentityPolicy.ResolveIdentity` | src/Auth/JwtAuthenticate.php:133-154 | a null payload gives false; with `queryDatasource` off the payload is the identity unchanged; a payload without `sub` gives false; an object `sub` throws the cast error; a datastore identity never holds the password field; an exception is only ever that cast error or the lookup's own exception, escaping unchanged |
| `IdentityPolicy.RecordFound` | src/Auth/JwtAuthenticate.php:148 | `!$user`: a record counts as found exactly when the lookup returned one and it is non-empty |
| `IdentityPolicy.FoundRecordStripped` | src/Auth/JwtAuthenticate.php:147-154 | for a `sub` that casts, an exception from the lookup by the configured field and the cast `sub` escapes unchanged; otherwise a user comes back exactly when that lookup finds a non-empty record, and it has that record's fields minus the password field, values intact |
| `IdentityPolicy.LookupOnlyBySubject` | src/Auth/JwtAuthenticate.php:147 | the answer depends on the datastore only through the record for the cast subject |
| `Authenticator.UnauthenticatedOutcome` | src/Auth/JwtAuthenticate.php:259-272 | nothing is raised exactly when the exception setting is falsy; otherwise the configured class is raised with the recorded error's message, or else `authError` |
| `Authenticator.TokenStep` | src/Auth/JwtAuthenticate.php:185-218 | a null request returns the stored token and changes nothing; otherwise the located token is returned and stored, and payload and error are left alone |
| `Authenticator.DecodeStep` | src/Auth/JwtAuthenticate.php:227-245 | token and payload are untouched; accepted claims are returned and nothing changes; a rejection escapes exactly in debug mode, with the decoder's exception and no state change; with debug off a rejection is recorded in `_error` and null is returned, and that is the only way `_error` changes |
| `Authenticator.PayloadStep` | src/Auth/JwtAuthenticate.php:163-176 | a null request returns the stored payload and changes nothing; otherwise the located token is stored; a falsy token is not decoded, null is stored and returned and `_error` kept; a truthy token's result and `_error` are those of `_decode`; unless an exception escapes, the result is stored in `_payload`; an escaping exception leaves payload and error as they were; `_error` changes only on a quiet rejection of a truthy token, to the decoder's exception, with the payload null |
| `Authenticator.UserStep` | src/Auth/JwtAuthenticate.php:131-155 | the fields change as `getPayload` changes them; an exception from it escapes; otherwise the identity is the one the payload resolves to |
| `Authenticator.TokenStepIdempotent` | src/Auth/JwtAuthenticate.php:185-219 | calling `getToken` twice on one request gives the same token and fields |
| `Authenticator.FalsyTokenSkipsDecode` | src/Auth/JwtAuthenticate.php:169-176 | a null, `""` or `"0"` token is never decoded: the payload is set to null and the error is kept |
| `Authenticator.KeyOrSalt` | src/Auth/JwtAuthenticate.php:231-235 | the decoder is given the key setting when PHP reads it as true and the salt when it is falsy (null, `""`, `"0"`, an empty key map), always with the configured algorithms |
| `Authenticator.QuietRejection` | src/Auth/JwtAuthenticate.php:238-245 | debug off: a rejected token is recorded in `_error`, the payload is null, `getUser` gives false, and `unauthenticated` then reports the decoder's message |
| `Authenticator.LoudRejection` | src/Auth/JwtAuthenticate.php:239-241 | debug on: the decoder's exception escapes `getUser`, and `_payload` and `_error` are left as they were |
| `Authenticator.AcceptedTokenStored` | src/Auth/JwtAuthenticate.php:231-237 | accepted claims become the payload and decide the identity; an earlier error is not cleared |
| `Authenticator.NoTokenNoUser` | src/Auth/JwtAuthenticate.php:133-137 | no token means no user, whatever the decoder or datastore would say |
| `Authenticator.WrongBearerNoUser` | tests/TestCase/Auth/JwtAuthenticateTest.php:123-125 | under the defaults, `WrongBearer <token>` with no `token` query parameter gives no user, whatever token an earlier call stored |
| `Authenticator.MissingCookieNoUser` | tests/TestCase/Auth/JwtAuthenticateTest.php:335-341 | with a cookie configured and absent from the request, no user is found, whatever the query or other cookies hold |
| `Authenticator.QueryOnlyTokenInvisible` | tests/TestCase/Auth/JwtAuthenticateTest.php:138-153 | with cookie and parameter off, a fresh instance finds no user for a request without a bearer header |
| `Authenticator.NoSourceReusesStoredToken` | src/Auth/JwtAuthenticate.php:218 | when no source applies, the stored token is kept, so any two such requests get the same answer |
| `JwtAuth.JwtAuthenticate.constructor` | src/Auth/JwtAuthenticate.php:91-111 | the configuration is the defaults overridden by the supplied settings; token, payload and error start null |
| `JwtAuth.JwtAuthenticate.GetToken` | src/Auth/JwtAuthenticate.php:185-219 | returns and stores the located token (or returns the stored one for a null request), as `Authenticator.TokenStep` |
| `JwtAuth.JwtAuthenticate.DecodeToken` | src/Auth/JwtAuthenticate.php:227-246 | returns the claims, rethrows in debug mode, or records the error and returns null, as `Authenticator.DecodeStep` |
| `JwtAuth.JwtAuthenticate.GetPayload` | src/Auth/JwtAuthenticate.php:163-177 | the new fields and the result are those of `Authenticator.PayloadStep` |
| `JwtAuth.JwtAuthenticate.GetUser` | src/Auth/JwtAuthenticate.php:131-155 | the new fields and the identity are those of `Authenticator.UserStep`; the record is stripped in place |
| `JwtAuth.JwtAuthenticate.Authenticate` | src/Auth/JwtAuthenticate.php:120-123 | answers exactly as `getUser` |
| `JwtAuth.JwtAuthenticate.Unauthenticated` | src/Auth/JwtAuthenticate.php:259-272 | raises exactly what `Authenticator.UnauthenticatedOutcome` gives for the current fields (nothing when the exception setting is falsy, otherwise that class with `_error`'s message or `authError`) and changes nothing |
| `JwtAuth.ParameterDisabledScenario` | tests/TestCase/Auth/JwtAuthenticateTest.php:138-153 | a fresh instance with `parameter` false gives no user for a query-only token, and `unauthenticated` raises `UnauthorizedException` with `authError` |

## Left out

- `JWT::decode` (signature checking, base64url, JSON parsing, time claims) is a foreign library. It is a parameter of the model (`Authenticator.Decoder`).
- `Security::getSalt()`, `Configure::read('debug')` and the Auth component's `authError` are framework state. They are parameters (`Authenticator.Env`).
- `_findUser`, the finder and the `userModel` query are inherited from `BaseAuthenticate`, which is not part of this model. They are a function from (field, value) to an optional record or an exception, which `getUser` lets escape after `_payload` is stored. The default password field name `password` also comes from `BaseAuthenticate` defaults.
- `json_decode(json_encode($payload), true)` is treated as the identity. Nested objects in the claims are not turned into arrays.
- Cookie and query values that are arrays are not modelled. Requests carry string values only. Header lines are already joined and stored under lower-cased names.
- Floating-point claims are not modelled. Integers are unbounded: PHP's 64-bit limit and the float fallback of JSON decoding are not captured.
- Exceptions outside `Exception` (PHP `Error`s from the decoder) are not modelled. Neither is a failure to instantiate the configured exception class.
- `setConfig` after construction (from `InstanceConfigTrait`) is not modelled. The configuration is fixed per instance, and the lemmas quantify over all configurations.
- The `response` argument of `authenticate` and `unauthenticated` is not used by the code and is dropped. So is the `request` argument of `unauthenticated` (line 259).
- `src/Error/JwtExceptionRenderer.php` (HTTP rendering) and `src/Exception/JwtException.php` (a value holder) have no decision logic. They are not part of this model.
- PHP 8 semantics are assumed: `stripos` with an empty prefix returns 0, and case folding is ASCII only.
