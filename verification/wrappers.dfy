/** Optional values: the model of Python's `None` and of a query that found no row. */
module Wrappers {

  datatype Option<+T> = None | Some(value: T) {

    /** The value, or `default` when there is none (Python's `dict.get(key, default)`). */
    function GetOr(default: T): T
    {
      match this
      case Some(v) => v
      case None => default
    }
  }
}

/** Linear search over a table held as a sequence of rows. */
module Search {
  import opened Wrappers

  /** The index of the first element of `s` that satisfies `p`, scanning in
      order; `None` when no element does. This is the model of `fetchone()` on
      a `SELECT ... WHERE p`: the store's row order stands for the order in
      which the database happens to return rows. */
  function FirstIndex<T>(s: seq<T>, p: T -> bool): (r: Option<nat>)
    ensures r.Some? ==> r.value < |s| && p(s[r.value])
    ensures r.Some? ==> forall j :: 0 <= j < r.value ==> !p(s[j])
    ensures r.None? <==> forall j :: 0 <= j < |s| ==> !p(s[j])
  {
    if |s| == 0 then None
    else if p(s[0]) then Some(0)
    else match FirstIndex(s[1..], p)
      case None => None
      case Some(k) => Some(k + 1)
  }

  /** Rewriting rows without changing whether they match leaves the first
      match where it was. */
  lemma FirstIndexSameMatches<T>(before: seq<T>, after: seq<T>, p: T -> bool)
    requires |after| == |before|
    requires forall i :: 0 <= i < |before| ==> p(after[i]) == p(before[i])
    ensures FirstIndex(after, p) == FirstIndex(before, p)
  {
  }

  /** Appending rows never changes which earlier row is found first. */
  lemma {:induction false} FirstIndexAppend<T>(s: seq<T>, x: T, p: T -> bool)
    ensures FirstIndex(s, p).Some? ==> FirstIndex(s + [x], p) == FirstIndex(s, p)
    ensures FirstIndex(s, p).None? && p(x) ==> FirstIndex(s + [x], p) == Some(|s|)
    ensures FirstIndex(s, p).None? && !p(x) ==> FirstIndex(s + [x], p).None?
  {
    if |s| > 0 && !p(s[0]) {
      assert (s + [x])[1..] == s[1..] + [x];
      FirstIndexAppend(s[1..], x, p);
    }
  }
}
