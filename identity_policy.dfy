/**
 * What `getUser` makes of a payload: nothing, the payload itself, or the
 * user record its `sub` claim names with the password field removed.
 */
module IdentityPolicy {
  import opened Wrappers
  import opened Claims
  import opened JwtConfig

  /**
   * The user lookup (`_findUser`): the first record whose `field` equals
   * `value`, `None`, or the exception the datastore query throws.
   */
  type Finder = (string, string) -> Result<Option<Fields>, Exception>

  /** `getUser`'s answer: `false`, an identity array, or an exception. */
  datatype Identity = NoUser | User(record: Fields) | Thrown(e: Exception)

  /** `!$user`: a missing record and an empty array both read as false. */
  predicate RecordFound(found: Option<Fields>)
    ensures RecordFound(found) <==> found.Some? && |found.value| > 0
  {
    found.Some? && found.value != map[]
  }

  /** The identity for a payload (`null` when decoding yielded none). */
  function ResolveIdentity(c: Config, find: Finder, payload: Option<Fields>): (r: Identity)
    ensures payload.None? ==> r == NoUser
    ensures payload.Some? && !c.queryDatasource ==> r == User(payload.value)
    ensures payload.Some? && c.queryDatasource && !HasSubject(payload.value) ==> r == NoUser
    ensures r.User? && c.queryDatasource ==> c.passwordField !in r.record
    ensures payload.Some? && c.queryDatasource && HasSubject(payload.value) && payload.value["sub"].Object? ==>
      r == Thrown(ObjectCastError)
    ensures r.Thrown? ==>
      && payload.Some? && c.queryDatasource && HasSubject(payload.value)
      && (|| (payload.value["sub"].Object? && r.e == ObjectCastError)
          || (!payload.value["sub"].Object? &&
              find(c.usernameField, ToPhpString(payload.value["sub"]).value) == Failure(r.e)))
  {
    if payload.None? then NoUser
    else if !c.queryDatasource then User(payload.value)
    else if !HasSubject(payload.value) then NoUser
    else match ToPhpString(payload.value["sub"])
      case Failure(e) => Thrown(e)
      case Success(subject) =>
        match find(c.usernameField, subject)
        case Failure(e) => Thrown(e)
        case Success(found) =>
          if RecordFound(found) then User(found.value - {c.passwordField}) else NoUser
  }

  /**
   * With the datastore queried, an exception from the lookup by the cast
   * `sub` claim escapes unchanged; otherwise a user comes back exactly when
   * that lookup finds a record, and it is that record without the password
   * field, every other field intact.
   */
  lemma FoundRecordStripped(c: Config, find: Finder, p: Fields, subject: string)
    requires c.queryDatasource
    requires HasSubject(p)
    requires ToPhpString(p["sub"]) == Success(subject)
    ensures find(c.usernameField, subject).Failure? ==>
      ResolveIdentity(c, find, Some(p)) == Thrown(find(c.usernameField, subject).error)
    ensures find(c.usernameField, subject).Success? ==>
      (RecordFound(find(c.usernameField, subject).value) <==> ResolveIdentity(c, find, Some(p)).User?)
    ensures find(c.usernameField, subject).Success? && RecordFound(find(c.usernameField, subject).value) ==>
      var rec := find(c.usernameField, subject).value.value;
      var u := ResolveIdentity(c, find, Some(p)).record;
      && u.Keys == rec.Keys - {c.passwordField}
      && forall f :: f in u ==> u[f] == rec[f]
  {
  }

  /** The decision depends on the lookup only through the record for the cast subject. */
  lemma LookupOnlyBySubject(c: Config, f1: Finder, f2: Finder, p: Fields, subject: string)
    requires c.queryDatasource
    requires HasSubject(p)
    requires ToPhpString(p["sub"]) == Success(subject)
    requires f1(c.usernameField, subject) == f2(c.usernameField, subject)
    ensures ResolveIdentity(c, f1, Some(p)) == ResolveIdentity(c, f2, Some(p))
  {
  }
}
