/**
 * The one rendering the loader asks of Go's `fmt` package: `%+v` applied to a
 * `[]string`, which prints the elements between square brackets, separated by
 * single spaces, with no quoting.
 */
module Fmt {

  /** `fmt.Sprintf("%+v", xs)` for a slice of strings. */
  function FormatStrings(xs: seq<string>): (r: string)
    ensures |r| >= 2 && r[0] == '[' && r[|r| - 1] == ']'
  {
    "[" + Join(xs) + "]"
  }

  /** The elements of `xs` separated by single spaces. */
  function Join(xs: seq<string>): string {
    if xs == [] then ""
    else if |xs| == 1 then xs[0]
    else xs[0] + " " + Join(xs[1..])
  }

  /** Where the `i`-th element starts in `Join(xs)`. */
  function Offset(xs: seq<string>, i: nat): nat
    requires i <= |xs|
  {
    if i == 0 then 0 else |xs[0]| + 1 + Offset(xs[1..], i - 1)
  }

  /** Every element appears verbatim in the joined text, at its offset. */
  lemma {:induction false} JoinListsElement(xs: seq<string>, i: nat)
    requires i < |xs|
    ensures Offset(xs, i) + |xs[i]| <= |Join(xs)|
    ensures Join(xs)[Offset(xs, i)..Offset(xs, i) + |xs[i]|] == xs[i]
  {
    if i > 0 {
      JoinListsElement(xs[1..], i - 1);
      var rest := Join(xs[1..]);
      var o := Offset(xs[1..], i - 1);
      assert Join(xs) == xs[0] + " " + rest;
      assert Join(xs)[|xs[0]| + 1 + o..|xs[0]| + 1 + o + |xs[i]|] == rest[o..o + |xs[i]|];
    }
  }

  /** Elements appear in order: each one ends before the next one starts. */
  lemma {:induction false} OffsetsIncrease(xs: seq<string>, i: nat)
    requires i + 1 < |xs|
    ensures Offset(xs, i) + |xs[i]| < Offset(xs, i + 1)
  {
    if i > 0 {
      OffsetsIncrease(xs[1..], i - 1);
    }
  }
}
