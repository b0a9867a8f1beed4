/** The few JavaScript value semantics the gateway relies on. */
module Js {
  import opened Wrappers

  /** A string-valued property or header is truthy when it is present and not empty
      (`if (!x)` rejects both `undefined`/`null` and `""`). */
  predicate Truthy(s: Option<string>) {
    s.Some? && s.value != ""
  }

  /** The result of `Number(x)` on a configured value: a finite number (here an integer,
      already scaled to the unit the caller works in) or NaN/Infinity. */
  datatype Num = Finite(value: int) | NotFinite

  /** `String.prototype.toLowerCase` on one character, restricted to ASCII letters
      (addresses are ASCII hex). */
  function LowerChar(c: char): (r: char)
    ensures !('A' <= r <= 'Z')
    ensures !('A' <= c <= 'Z') ==> r == c
  {
    if 'A' <= c <= 'Z' then (c as int + 32) as char else c
  }

  function Lower(s: string): (r: string)
    ensures |r| == |s|
    ensures forall i :: 0 <= i < |s| ==> r[i] == LowerChar(s[i])
  {
    seq(|s|, i requires 0 <= i < |s| => LowerChar(s[i]))
  }

  /** Lower-casing changes nothing the second time. */
  lemma LowerIdempotent(s: string)
    ensures Lower(Lower(s)) == Lower(s)
  {
  }

  /** Address comparison as the source writes it: `a.toLowerCase() === b.toLowerCase()`. */
  predicate SameAddress(a: string, b: string) {
    Lower(a) == Lower(b)
  }
}
