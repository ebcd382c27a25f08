/**
 * The array extensions `removeFirst(where:)` and `removeFirst(element:)` that
 * Browser.swift calls on its two lists. Their code is not part of this model;
 * they are taken to remove the first element that matches, if any, and to
 * return it.
 */
module Removal {
  import opened Wrappers

  /** Index of the first element of s that satisfies p, if there is one. */
  function FirstIndexWhere<T>(s: seq<T>, p: T -> bool): (i: Option<nat>)
    ensures i.None? <==> forall k :: 0 <= k < |s| ==> !p(s[k])
    ensures i.Some? ==> i.value < |s| && p(s[i.value])
    ensures i.Some? ==> forall k :: 0 <= k < i.value ==> !p(s[k])
  {
    if s == [] then None
    else if p(s[0]) then Some(0)
    else match FirstIndexWhere(s[1..], p)
      case None => None
      case Some(j) => Some(j + 1)
  }

  /** `removeFirst(where:)`: the removed element, if any, and what is left. */
  function RemoveFirstWhere<T>(s: seq<T>, p: T -> bool): (r: (Option<T>, seq<T>))
    ensures r.0.None? <==> forall k :: 0 <= k < |s| ==> !p(s[k])
    ensures r.0.None? ==> r.1 == s
    ensures r.0.Some? ==> p(r.0.value) && |r.1| == |s| - 1
  {
    match FirstIndexWhere(s, p)
    case None => (None, s)
    case Some(i) => (Some(s[i]), s[..i] + s[i + 1..])
  }

  /** What `removeFirst(where:)` removes and what it leaves make up the original list. */
  lemma RemoveFirstWhereMultiset<T>(s: seq<T>, p: T -> bool)
    ensures var r := RemoveFirstWhere(s, p);
      r.0.Some? ==> multiset(r.1) + multiset{r.0.value} == multiset(s)
  {
    var i := FirstIndexWhere(s, p);
    if i.Some? {
      assert s == s[..i.value] + [s[i.value]] + s[i.value + 1..];
    }
  }

  /** The predicate "equal to x". */
  function Equals<T(==)>(x: T): (p: T -> bool) {
    y => y == x
  }

  /** `removeFirst(element:)`: removes one occurrence of x, if it is present. */
  function RemoveFirst<T(==)>(s: seq<T>, x: T): (r: (Option<T>, seq<T>))
    ensures r.0.Some? <==> x in s
    ensures x !in s ==> r.1 == s
    ensures x in s ==> r.0 == Some(x) && |r.1| == |s| - 1
  {
    RemoveFirstWhere(s, Equals(x))
  }

  /** `removeFirst(element:)` takes exactly one x out of the multiset of the list, when there is one. */
  lemma RemoveFirstMultiset<T>(s: seq<T>, x: T)
    ensures multiset(RemoveFirst(s, x).1) == multiset(s) - multiset{x}
  {
    RemoveFirstWhereMultiset(s, Equals(x));
  }

  /** An element that satisfies p, preceded by none that does, is the first match. */
  lemma FirstIndexWhereAt<T>(s: seq<T>, p: T -> bool, i: nat)
    requires i < |s| && p(s[i])
    requires forall k :: 0 <= k < i ==> !p(s[k])
    ensures FirstIndexWhere(s, p) == Some(i)
  {
  }

  /**
   * An element that satisfies p, preceded by none that does, is the first
   * match: removing the first match removes exactly that position.
   */
  lemma RemoveFirstWhereAt<T>(s: seq<T>, p: T -> bool, i: nat)
    requires i < |s| && p(s[i])
    requires forall k :: 0 <= k < i ==> !p(s[k])
    ensures RemoveFirstWhere(s, p) == (Some(s[i]), s[..i] + s[i + 1..])
  {
  }
}
