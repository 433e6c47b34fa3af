/** The few JavaScript semantics the extension's scripts rely on. */
module Js {

  datatype Option<+T> = None | Some(value: T)

  /** Normalises an index argument of `String.prototype.slice`: a negative
      index counts from the end, and the result is clamped to [0, n]. */
  function ClampIndex(i: int, n: nat): (r: nat)
    ensures r <= n
    ensures 0 <= i <= n ==> r == i
    ensures i < 0 && n + i >= 0 ==> r == n + i
  {
    if i < 0 then (if n + i < 0 then 0 else n + i)
    else if i > n then n
    else i
  }

  /** `s.slice(start, end)`: the characters between the two normalised
      indices, or "" when the start is not before the end. */
  function Slice(s: string, start: int, end: int): (r: string)
    ensures |r| <= |s|
    ensures 0 <= start <= end <= |s| ==> r == s[start..end]
    ensures start == 0 <= end <= |s| ==> r == s[..end]
    ensures 0 <= start <= end == |s| ==> r == s[start..]
  {
    var from, to := ClampIndex(start, |s|), ClampIndex(end, |s|);
    if from < to then
      assert from == 0 ==> s[from..to] == s[..to];
      assert to == |s| ==> s[from..to] == s[from..];
      s[from..to]
    else ""
  }

  /** A negative start counts back from the end of the text. */
  lemma SliceFromEnd(s: string, start: int, end: int)
    requires -|s| <= start < 0 && |s| + start <= end <= |s|
    ensures Slice(s, start, end) == s[|s| + start..end]
  {
  }

  /** When the normalised start is not before the normalised end, the slice
      is empty. */
  lemma SliceEmptyRange(s: string, start: int, end: int)
    requires 0 <= end <= start || -|s| <= start < 0 <= end <= |s| + start
    ensures Slice(s, start, end) == ""
  {
  }

  /** A window that starts before the beginning of the text is never a
      suffix of the text before `end`: its negative start is counted from
      the end of the text and lands at or after `end`. */
  lemma SliceBeforeStartIsEmpty(s: string, end: int, width: int)
    requires 0 <= end < width <= |s|
    ensures Slice(s, end - width, end) == ""
  {
    assert ClampIndex(end - width, |s|) == |s| + end - width;
  }

  /** JavaScript truthiness of an attribute value (`getAttribute` gives
      `null` or a string): `null` and "" are falsy. */
  predicate Truthy(a: Option<string>) {
    a.Some? && a.value != ""
  }

  /** The property key an attribute value becomes when it indexes an
      object: `null` is converted to the string "null". */
  function PropertyKey(a: Option<string>): (k: string)
    ensures a.Some? ==> k == a.value
    ensures a.None? ==> k == "null"
  {
    if a.None? then "null" else a.value
  }
}
