/** The array built-ins the application uses on its lists: find / indexOf
    (the first element that matches) and filter (the matching elements, in order). */
module Seqs {
  import opened Wrappers

  /** Array.prototype.findIndex / indexOf: the position of the first element
      that matches, or None (JavaScript's -1 or undefined) when none does. */
  function FirstIndex<T>(s: seq<T>, matches: T -> bool): (r: Option<nat>)
    ensures r.None? <==> forall k :: 0 <= k < |s| ==> !matches(s[k])
    ensures r.Some? ==>
      && r.value < |s| && matches(s[r.value])
      && forall k :: 0 <= k < r.value ==> !matches(s[k])
  {
    if |s| == 0 then None
    else if matches(s[0]) then Some(0)
    else match FirstIndex(s[1..], matches)
      case None => None
      case Some(k) => Some(k + 1)
  }

  /** Two sequences whose elements match at the same positions have the same first match. */
  lemma {:induction false} FirstIndexAgrees<T>(s: seq<T>, t: seq<T>, matches: T -> bool)
    requires |s| == |t|
    requires forall k :: 0 <= k < |s| ==> matches(s[k]) == matches(t[k])
    ensures FirstIndex(s, matches) == FirstIndex(t, matches)
  {
    if |s| > 0 {
      FirstIndexAgrees(s[1..], t[1..], matches);
    }
  }

  /** Array.prototype.filter: the elements that `keep` accepts, in their order. */
  function Filter<T>(s: seq<T>, keep: T -> bool): (r: seq<T>)
    ensures |r| <= |s|
    ensures forall k :: 0 <= k < |r| ==> r[k] in s && keep(r[k])
    ensures forall k :: 0 <= k < |s| && keep(s[k]) ==> s[k] in r
  {
    if |s| == 0 then []
    else if keep(s[0]) then [s[0]] + Filter(s[1..], keep)
    else Filter(s[1..], keep)
  }

  lemma {:induction false} FilterAppend<T>(a: seq<T>, b: seq<T>, keep: T -> bool)
    ensures Filter(a + b, keep) == Filter(a, keep) + Filter(b, keep)
  {
    if |a| > 0 {
      FilterAppend(a[1..], b, keep);
      assert (a + b)[1..] == a[1..] + b;
    } else {
      assert a + b == b;
    }
  }

  /** Filtering removes exactly the rejected elements: when only one element is
      rejected, the result is the input with that one element cut out. */
  lemma {:induction false} FilterDropsOnlyRejected<T>(s: seq<T>, keep: T -> bool, j: nat)
    requires j < |s| && !keep(s[j])
    requires forall k :: 0 <= k < |s| && k != j ==> keep(s[k])
    ensures Filter(s, keep) == s[..j] + s[j + 1..]
  {
    FilterAppend(s[..j], s[j..], keep);
    assert s == s[..j] + s[j..];
    FilterKeepsAll(s[..j], keep);
    FilterAppend([s[j]], s[j + 1..], keep);
    assert s[j..] == [s[j]] + s[j + 1..];
    FilterKeepsAll(s[j + 1..], keep);
  }

  /** A filter that rejects nothing returns its input. */
  lemma {:induction false} FilterKeepsAll<T>(s: seq<T>, keep: T -> bool)
    requires forall k :: 0 <= k < |s| ==> keep(s[k])
    ensures Filter(s, keep) == s
  {
    if |s| > 0 {
      FilterKeepsAll(s[1..], keep);
    }
  }
}
