/**
 * The few JavaScript string operations the session logic relies on:
 * `String.prototype.startsWith`, `Array.prototype.some` over prefixes,
 * `String.prototype.length`, which counts UTF-16 code units, and the
 * truthiness of a string that may be `undefined`.
 */
module JsStrings {
  import opened Wrappers

  /** Truthiness of a string that may be `undefined`: `undefined` and `''` are falsy. */
  predicate IsTruthy(v: Option<string>) {
    v.Some? && v.value != ""
  }

  /** `s.startsWith(prefix)`. */
  predicate StartsWith(s: string, prefix: string) {
    |prefix| <= |s| && s[..|prefix|] == prefix
  }

  /** `prefixes.some((p) => s.startsWith(p))`, scanning the array from the left. */
  function SomeStartsWith(s: string, prefixes: seq<string>): (r: bool)
    ensures r <==> exists k :: 0 <= k < |prefixes| && StartsWith(s, prefixes[k])
  {
    if prefixes == [] then false
    else if StartsWith(s, prefixes[0]) then true
    else
      var rest := SomeStartsWith(s, prefixes[1..]);
      assert forall k :: 1 <= k < |prefixes| ==> prefixes[k] == prefixes[1..][k - 1];
      rest
  }

  /** The number of UTF-16 code units JavaScript uses for one Unicode scalar value. */
  function Utf16Units(c: char): (n: nat)
    ensures 1 <= n <= 2
    ensures n == 2 <==> c as int >= 0x1_0000
  {
    if c as int < 0x1_0000 then 1 else 2
  }

  /** `s.length` in JavaScript: the UTF-16 length of `s`. */
  function JsLength(s: string): (n: nat)
    ensures |s| <= n <= 2 * |s|
    ensures (forall i :: 0 <= i < |s| ==> s[i] as int < 0x1_0000) ==> n == |s|
  {
    if s == [] then 0 else Utf16Units(s[0]) + JsLength(s[1..])
  }
}
