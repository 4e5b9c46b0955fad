/**
 * The values that flow through the authenticator: decoded JWT claims and
 * user records are both maps from field names to PHP values, and a failure
 * is an exception of some class carrying a message.
 */
module Claims {
  import opened Wrappers
  import opened PhpStrings

  /** A PHP value as JSON decoding or the datastore produces it (floats are not modelled). */
  datatype Value =
    | Null
    | Bool(b: bool)
    | Int(i: int)
    | Str(s: string)
    | List(items: seq<Value>)
    | Object(fields: map<string, Value>)

  /** A claims object or a user record. */
  type Fields = map<string, Value>

  /** A thrown exception: its class name and its message. */
  datatype Exception = Exception(kind: string, message: string)

  const ObjectCastError := Exception("Error", "Object of class stdClass could not be converted to string")

  /** `isset($payload->sub)`: the claim is present and not null. */
  predicate HasSubject(p: Fields)
    ensures HasSubject(p) <==> "sub" in p && !p["sub"].Null?
  {
    "sub" in p && p["sub"] != Null
  }

  /**
   * PHP's `(string)` cast: null and false give "", true gives "1", integers
   * their decimal form, arrays "Array" (with a warning), and an object
   * without `__toString` throws an `Error`.
   */
  function ToPhpString(v: Value): (r: Result<string, Exception>)
    ensures r.Failure? <==> v.Object?
    ensures v.Object? ==> r == Failure(ObjectCastError)
    ensures v.Str? ==> r == Success(v.s)
    ensures v.Int? && v.i >= 0 ==> r.Success? && Canonical(r.value) && DigitsValue(r.value) == v.i
    ensures v.Int? && v.i < 0 ==> r.Success? && |r.value| >= 2 && r.value[0] == '-' && Canonical(r.value[1..]) && r.value[1] != '0'
    ensures v.Int? && v.i < 0 ==> DigitsValue(r.value[1..]) == -v.i
    ensures v == Bool(true) ==> r == Success("1")
    ensures v == Bool(false) || v == Null ==> r == Success("")
    ensures v.List? ==> r == Success("Array")
  {
    match v
    case Null => Success("")
    case Bool(b) => Success(if b then "1" else "")
    case Int(i) => Success(IntToString(i))
    case Str(s) => Success(s)
    case List(_) => Success("Array")
    case Object(_) => Failure(ObjectCastError)
  }

  /**
   * The cast of a non-negative integer claim is fixed by its contract: the
   * one canonical digit string denoting it, e.g. "1" and not "01".
   */
  lemma IntCastIsCanonicalForm(i: nat, t: string)
    requires Canonical(t) && DigitsValue(t) == i
    ensures ToPhpString(Int(i)) == Success(t)
  {
    CanonicalIsDecimalForm(t);
  }

  /** Two different integer claims never cast to the same string. */
  lemma DistinctIntegersCastApart(a: int, b: int)
    requires a != b
    ensures ToPhpString(Int(a)) != ToPhpString(Int(b))
  {
    if ToPhpString(Int(a)) == ToPhpString(Int(b)) {
      IntToStringInjective(a, b);
    }
  }
}
