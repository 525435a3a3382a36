/** Python's sequence indexing, shared by the modules that look values up in
    Python lists and strings. */
module Python {
  import opened Wrappers

  /** `s[k]`: negative indices count from the end, and an index outside
      -|s| .. |s| - 1 raises IndexError (None here). */
  function PyIndex<T>(s: seq<T>, k: int): (r: Option<T>)
    ensures r.Some? <==> -|s| <= k < |s|
    ensures 0 <= k < |s| ==> r == Some(s[k])
    ensures -|s| <= k < 0 ==> r == Some(s[|s| + k])
  {
    if 0 <= k < |s| then Some(s[k])
    else if -|s| <= k < 0 then Some(s[|s| + k])
    else None
  }
}
