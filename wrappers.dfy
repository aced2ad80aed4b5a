/**
 * Two TypeScript idioms every other module uses: optional values
 * (`T | undefined` or `T | null`) and the first-match search of
 * `Array.prototype.findIndex` / `find` / `String.prototype.indexOf`.
 */
module Wrappers {

  datatype Option<+T> = None | Some(value: T) {

    /** The value, or `default` when absent (the `x || default` and `x ?? default` idiom). */
    function GetOr(default: T): T {
      match this
      case Some(v) => v
      case None => default
    }
  }

  /** The first index holding x, or -1 when none does. */
  function FirstIndex<T(==)>(s: seq<T>, x: T): (r: int)
    ensures -1 <= r < |s|
    ensures r >= 0 ==> s[r] == x
    ensures forall k :: 0 <= k < |s| && (r < 0 || k < r) ==> s[k] != x
    decreases |s|
  {
    if s == [] then -1
    else if s[0] == x then 0
    else
      var r := FirstIndex(s[1..], x);
      assert forall k :: 0 < k < |s| ==> s[1..][k - 1] == s[k];
      if r < 0 then -1 else r + 1
  }
}
