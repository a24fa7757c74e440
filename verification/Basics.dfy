/** Option and result types and a few helpers that several modules share. */
module Basics {

  datatype Option<+T> = None | Some(value: T) {
    function GetOr(default: T): (v: T) {
      if Some? then value else default
    }
  }

  datatype Result<+T, +E> = Ok(value: T) | Err(error: E)

  function Max(a: int, b: int): int {
    if a < b then b else a
  }

  function Sum(xs: seq<int>): (total: int) {
    if xs == [] then 0 else Sum(xs[..|xs| - 1]) + xs[|xs| - 1]
  }

  /** ASCII white space. */
  predicate Space(c: char) { c == ' ' || 9 as char <= c <= 13 as char }

  /** Lower case of the ASCII letters. */
  function Lower(s: string): (r: string)
    ensures |r| == |s|
    ensures forall i :: 0 <= i < |s| ==> r[i] == if 'A' <= s[i] <= 'Z' then s[i] + (32 as char) else s[i]
  {
    seq(|s|, i requires 0 <= i < |s| => if 'A' <= s[i] <= 'Z' then s[i] + (32 as char) else s[i])
  }
}
