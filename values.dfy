/** Scalar values the gateway hands to the database driver, and the JavaScript
    conventions it relies on: truthiness of options, the `limit = 10` default
    argument, and the case mapping of `toLowerCase` / `toUpperCase`. */
module Values {

  /** An optional value; `None` stands for JavaScript's `undefined` (an option
      or argument the caller did not supply). */
  datatype Option<+T> = None | Some(value: T) {
    function GetOr(default: T): T {
      match this
      case Some(v) => v
      case None => default
    }
  }

  /** A value bound to a positional placeholder `$k`: a number or a text. */
  datatype Param = PNum(n: int) | PText(s: string)

  /** JavaScript truthiness of an optional number: `undefined` and `0` are falsy.
      (NaN is not modelled: numbers are integers here.) */
  predicate TruthyNum(x: Option<int>)
    ensures x.None? ==> !TruthyNum(x)
    ensures x.Some? ==> (TruthyNum(x) <==> x.value != 0)
  {
    x.Some? && x.value != 0
  }

  /** JavaScript truthiness of an optional text: `undefined` and `""` are falsy. */
  predicate TruthyText(x: Option<string>)
    ensures x.None? ==> !TruthyText(x)
    ensures x.Some? ==> (TruthyText(x) <==> |x.value| > 0)
  {
    x.Some? && x.value != ""
  }

  /** The default of the `limit` argument of the two listing operations. */
  const DefaultLimit: int := 10

  /** A default parameter `limit = 10` applies exactly when the argument is `undefined`. */
  function EffectiveLimit(limit: Option<int>): (r: int)
    ensures limit.None? ==> r == DefaultLimit
    ensures limit.Some? ==> r == limit.value
  {
    limit.GetOr(DefaultLimit)
  }

  // ASCII case mapping; characters outside A-Z / a-z are left as they are.

  function LowerChar(c: char): char {
    if 'A' <= c <= 'Z' then (c as int + 32) as char else c
  }

  function UpperChar(c: char): char {
    if 'a' <= c <= 'z' then (c as int - 32) as char else c
  }

  /** `s.toLowerCase()`, character by character. */
  function Lower(s: string): (r: string)
    ensures |r| == |s|
    ensures forall i :: 0 <= i < |s| ==> r[i] == LowerChar(s[i])
  {
    if s == [] then [] else [LowerChar(s[0])] + Lower(s[1..])
  }

  /** `s.toUpperCase()`, character by character. */
  function Upper(s: string): (r: string)
    ensures |r| == |s|
    ensures forall i :: 0 <= i < |s| ==> r[i] == UpperChar(s[i])
  {
    if s == [] then [] else [UpperChar(s[0])] + Upper(s[1..])
  }

  /** Lower-casing a lower-cased text changes nothing. */
  lemma {:induction false} LowerIdempotent(s: string)
    ensures Lower(Lower(s)) == Lower(s)
  {
    if s != [] {
      LowerIdempotent(s[1..]);
      assert Lower(s)[1..] == Lower(s[1..]);
    }
  }

  /** Upper-casing an upper-cased text changes nothing. */
  lemma {:induction false} UpperIdempotent(s: string)
    ensures Upper(Upper(s)) == Upper(s)
  {
    if s != [] {
      UpperIdempotent(s[1..]);
      assert Upper(s)[1..] == Upper(s[1..]);
    }
  }

  /** Upper-casing loses nothing that lower-casing keeps: both fold to the same text. */
  lemma {:induction false} LowerOfUpper(s: string)
    ensures Lower(Upper(s)) == Lower(s)
  {
    if s != [] {
      LowerOfUpper(s[1..]);
      assert Upper(s)[1..] == Upper(s[1..]);
    }
  }
}
