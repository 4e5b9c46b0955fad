/**
 * The PHP string built-ins the authenticator relies on, restricted to what
 * it uses: boolean reading of a string, ASCII case folding, `stripos(h, p) === 0`,
 * `str_ireplace(needle, '', h)` and the `(string)` cast of an integer.
 */
module PhpStrings {

  /** In a boolean context PHP reads exactly "" and "0" as false. */
  predicate Truthy(s: string)
    ensures !Truthy(s) <==> s == "" || s == "0"
    ensures |s| >= 2 ==> Truthy(s)
  {
    s != "" && s != "0"
  }

  function LowerChar(c: char): char {
    if 'A' <= c <= 'Z' then (c as int + 32) as char else c
  }

  /** ASCII-only lower-casing, as PHP 8 applies in `stripos` and `str_ireplace`. */
  function Lower(s: string): (r: string)
    ensures |r| == |s|
    ensures forall i :: 0 <= i < |s| ==> r[i] == LowerChar(s[i])
  {
    seq(|s|, i requires 0 <= i < |s| => LowerChar(s[i]))
  }

  predicate EqualsCI(a: string, b: string) {
    Lower(a) == Lower(b)
  }

  /** `stripos(s, prefix) === 0`: the prefix occurs, ignoring ASCII case, at index 0. */
  predicate StartsWithCI(s: string, prefix: string)
    ensures StartsWithCI(s, prefix) <==> OccursCIAt(prefix, s, 0)
    ensures prefix == [] ==> StartsWithCI(s, prefix)
  {
    assert |prefix| <= |s| ==> s[0..|prefix|] == s[..|prefix|];
    |prefix| <= |s| && EqualsCI(s[..|prefix|], prefix)
  }

  /** `needle` occurs in `s`, ignoring ASCII case, starting at index `i`. */
  predicate OccursCIAt(needle: string, s: string, i: int) {
    0 <= i && i + |needle| <= |s| && EqualsCI(s[i..i + |needle|], needle)
  }

  ghost predicate OccursCI(needle: string, s: string) {
    exists i :: OccursCIAt(needle, s, i)
  }

  /**
   * `str_ireplace(needle, '', s)`: scanning left to right, every
   * case-insensitive occurrence of `needle` is cut out; after a cut the scan
   * resumes behind it, so occurrences never overlap and the result is not
   * scanned again. An empty needle leaves `s` as it is.
   */
  function RemoveAllCI(needle: string, s: string): (r: string)
    ensures |r| <= |s|
    ensures needle == [] ==> r == s
    decreases |s|
  {
    if needle == [] || |s| < |needle| then s
    else if EqualsCI(s[..|needle|], needle) then RemoveAllCI(needle, s[|needle|..])
    else [s[0]] + RemoveAllCI(needle, s[1..])
  }

  lemma LowerConcat(a: string, b: string)
    ensures Lower(a + b) == Lower(a) + Lower(b)
  {
    assert forall i :: 0 <= i < |a + b| ==> Lower(a + b)[i] == (Lower(a) + Lower(b))[i];
  }

  /** Without an occurrence of the needle the subject comes back unchanged. */
  lemma {:induction false} RemoveAllNoMatch(needle: string, s: string)
    requires needle != []
    requires !OccursCI(needle, s)
    ensures RemoveAllCI(needle, s) == s
    decreases |s|
  {
    if |s| >= |needle| {
      assert !OccursCIAt(needle, s, 0);
      assert s[0..|needle|] == s[..|needle|];
      forall i | OccursCIAt(needle, s[1..], i)
        ensures OccursCIAt(needle, s, i + 1)
      {
        assert s[1..][i..i + |needle|] == s[i + 1..i + 1 + |needle|];
      }
      RemoveAllNoMatch(needle, s[1..]);
      assert [s[0]] + s[1..] == s;
    }
  }

  /** A needle ending in a space cannot occur in a string without spaces. */
  lemma NoSpaceNoOccurrence(needle: string, s: string)
    requires |needle| > 0 && needle[|needle| - 1] == ' '
    requires forall i :: 0 <= i < |s| ==> s[i] != ' '
    ensures !OccursCI(needle, s)
  {
    forall i | 0 <= i && i + |needle| <= |s|
      ensures !OccursCIAt(needle, s, i)
    {
      var k := |needle| - 1;
      assert Lower(s[i..i + |needle|])[k] == LowerChar(s[i + k]) != ' ';
      assert Lower(needle)[k] == ' ';
    }
  }

  /** An occurrence at the front is cut and the scan resumes behind it. */
  lemma CutLeadingOccurrence(needle: string, head: string, rest: string)
    requires needle != []
    requires EqualsCI(head, needle)
    ensures RemoveAllCI(needle, head + rest) == RemoveAllCI(needle, rest)
  {
    var s := head + rest;
    assert |Lower(head)| == |head|;
    assert s[..|needle|] == head;
    assert s[|needle|..] == rest;
  }

  /** A character at which no occurrence starts is kept. */
  lemma KeepFirst(needle: string, s: string)
    requires needle != [] && s != []
    requires !OccursCIAt(needle, s, 0)
    ensures RemoveAllCI(needle, s) == [s[0]] + RemoveAllCI(needle, s[1..])
  {
    if |s| >= |needle| {
      assert s[0..|needle|] == s[..|needle|];
    }
  }

  /** Occurrences in the tail are those of the whole, one index further on. */
  lemma OccursShift(needle: string, s: string, i: int)
    requires s != [] && 0 <= i
    ensures OccursCIAt(needle, s[1..], i) <==> OccursCIAt(needle, s, i + 1)
  {
    if 0 <= i && i + |needle| <= |s[1..]| {
      assert s[1..][i..i + |needle|] == s[i + 1..i + 1 + |needle|];
    }
  }

  /** A stretch free of occurrences stays free when the first character is dropped. */
  lemma CleanTail(needle: string, s: string, n: nat)
    requires 0 < n <= |s|
    requires forall i :: 0 <= i < n ==> !OccursCIAt(needle, s, i)
    ensures forall i :: 0 <= i < n - 1 ==> !OccursCIAt(needle, s[1..], i)
  {
    forall i | 0 <= i < n - 1
      ensures !OccursCIAt(needle, s[1..], i)
    {
      OccursShift(needle, s, i);
    }
  }

  /** Characters at which no occurrence starts are kept, in order. */
  lemma {:induction false} KeepCleanPrefix(needle: string, head: string, rest: string)
    requires needle != []
    requires forall i :: 0 <= i < |head| ==> !OccursCIAt(needle, head + rest, i)
    ensures RemoveAllCI(needle, head + rest) == head + RemoveAllCI(needle, rest)
    decreases |head|
  {
    if head == [] {
      assert head + rest == rest;
    } else {
      var s := head + rest;
      var tail := head[1..];
      KeepFirst(needle, s);
      CleanTail(needle, s, |head|);
      assert s[1..] == tail + rest;
      KeepCleanPrefix(needle, tail, rest);
      assert [s[0]] + (tail + RemoveAllCI(needle, rest)) == head + RemoveAllCI(needle, rest);
    }
  }

  /** A leading occurrence is cut and the rest, holding none, is kept whole. */
  lemma RemoveLeadingOccurrence(needle: string, head: string, rest: string)
    requires needle != []
    requires EqualsCI(head, needle)
    requires !OccursCI(needle, rest)
    ensures RemoveAllCI(needle, head + rest) == rest
  {
    CutLeadingOccurrence(needle, head, rest);
    RemoveAllNoMatch(needle, rest);
  }

  /**
   * Not only a leading occurrence goes: the first occurrence after a stretch
   * holding none is cut too, and the scan resumes behind it.
   */
  lemma CutLaterOccurrence(needle: string, head: string, occurrence: string, rest: string)
    requires needle != []
    requires forall i :: 0 <= i < |head| ==> !OccursCIAt(needle, head + (occurrence + rest), i)
    requires EqualsCI(occurrence, needle)
    ensures RemoveAllCI(needle, head + occurrence + rest) == head + RemoveAllCI(needle, rest)
  {
    assert head + occurrence + rest == head + (occurrence + rest);
    KeepCleanPrefix(needle, head, occurrence + rest);
    CutLeadingOccurrence(needle, occurrence, rest);
  }

  // The `(string)` cast of a PHP integer: optional minus sign, then decimal digits.

  function DigitChar(d: int): char
    requires 0 <= d < 10
  {
    ('0' as int + d) as char
  }

  predicate IsDigits(s: string) {
    forall i :: 0 <= i < |s| ==> '0' <= s[i] <= '9'
  }

  /** PHP's decimal form of a natural number: digits, with no leading zero except in "0". */
  predicate Canonical(s: string) {
    IsDigits(s) && s != [] && (s[0] == '0' ==> s == "0")
  }

  function NatToDigits(n: nat): (r: string)
    ensures |r| >= 1 && IsDigits(r)
    ensures r[0] == '0' <==> n == 0
    ensures Canonical(r)
    decreases n
  {
    if n < 10 then [DigitChar(n)] else NatToDigits(n / 10) + [DigitChar(n % 10)]
  }

  function IntToString(i: int): (r: string)
    ensures |r| >= 1
    ensures i >= 0 ==> r == NatToDigits(i) && Canonical(r) && DigitsValue(r) == i
    ensures i < 0 ==> |r| >= 2 && r[0] == '-' && r[1..] == NatToDigits(-i) && Canonical(r[1..]) && r[1] != '0'
    ensures i < 0 ==> DigitsValue(r[1..]) == -i
  {
    DigitsRoundTrip(if i < 0 then -i else i);
    if i < 0 then "-" + NatToDigits(-i) else NatToDigits(i)
  }

  /** The number a string of decimal digits denotes. */
  function DigitsValue(s: string): nat
    requires IsDigits(s)
    decreases |s|
  {
    if s == [] then 0 else DigitsValue(s[..|s| - 1]) * 10 + (s[|s| - 1] as int - '0' as int)
  }

  lemma {:induction false} DigitsRoundTrip(n: nat)
    ensures DigitsValue(NatToDigits(n)) == n
    decreases n
  {
    if n >= 10 {
      DigitsRoundTrip(n / 10);
      var s := NatToDigits(n / 10) + [DigitChar(n % 10)];
      assert s[..|s| - 1] == NatToDigits(n / 10);
    }
  }

  /** A canonical digit string is the decimal form of the number it denotes, so it is the only one. */
  lemma {:induction false} CanonicalIsDecimalForm(s: string)
    requires Canonical(s)
    ensures s == NatToDigits(DigitsValue(s))
    decreases |s|
  {
    var p := s[..|s| - 1];
    var d := s[|s| - 1] as int - '0' as int;
    if p == [] {
      assert s == [DigitChar(d)];
    } else {
      assert p[0] == s[0];
      CanonicalIsDecimalForm(p);
      var v := DigitsValue(p);
      assert v != 0;
      assert (v * 10 + d) / 10 == v && (v * 10 + d) % 10 == d;
      assert s == p + [DigitChar(d)];
    }
  }

  /** Distinct integers are cast to distinct strings. */
  lemma IntToStringInjective(a: int, b: int)
    requires IntToString(a) == IntToString(b)
    ensures a == b
  {
    if a < 0 && b < 0 {
      DigitsRoundTrip(-a);
      DigitsRoundTrip(-b);
    } else if a >= 0 && b >= 0 {
      DigitsRoundTrip(a);
      DigitsRoundTrip(b);
    }
  }
}
