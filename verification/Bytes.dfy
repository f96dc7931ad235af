/**
 Searching in byte strings: the two library calls (`std::find`, `std::search`)
 that the buffer, the request parser and the upload handler are built on.
 A byte is a `char`; a position equal to the length stands for "not found",
 as the end iterator does in the source.
 */
module Bytes {

  /** `std::find`: the first position of `c`, or `|s|`. */
  function IndexOf(s: string, c: char): (i: nat)
    ensures i <= |s|
    ensures i < |s| ==> s[i] == c
    ensures forall k :: 0 <= k < i ==> s[k] != c
  {
    if s == [] || s[0] == c then 0 else 1 + IndexOf(s[1..], c)
  }

  /** The pattern `p` starts at position `i` of `s` and fits in it. */
  predicate OccursAt(s: string, p: string, i: int) {
    0 <= i && i + |p| <= |s| && s[i..i + |p|] == p
  }

  /** `std::search` and `std::string::find`: the first occurrence of `p`, or `|s|`. */
  function Search(s: string, p: string): (i: nat)
    requires p != []
    ensures i <= |s|
    ensures i < |s| ==> OccursAt(s, p, i)
    ensures forall k :: 0 <= k < i ==> !OccursAt(s, p, k)
    ensures i == |s| ==> forall k :: !OccursAt(s, p, k)
  {
    SearchFrom(s, p, 0)
  }

  function SearchFrom(s: string, p: string, from: nat): (i: nat)
    requires p != [] && from <= |s|
    ensures from <= i <= |s|
    ensures i < |s| ==> OccursAt(s, p, i)
    ensures forall k :: from <= k < i ==> !OccursAt(s, p, k)
    decreases |s| - from
  {
    if from == |s| || OccursAt(s, p, from) then from else SearchFrom(s, p, from + 1)
  }

  /** The first occurrence is the only position with these two properties. */
  lemma SearchIs(s: string, p: string, i: nat)
    requires p != [] && OccursAt(s, p, i)
    requires forall k :: 0 <= k < i ==> !OccursAt(s, p, k)
    ensures Search(s, p) == i
  {
    assert !(Search(s, p) < i);
  }

  /** An occurrence found in a prefix is still the first one when bytes follow. */
  lemma SearchInPrefix(a: string, b: string, p: string)
    requires p != [] && Search(a, p) < |a|
    ensures Search(a + b, p) == Search(a, p)
  {
    var i := Search(a, p);
    assert (a + b)[i..i + |p|] == a[i..i + |p|];
    forall k | 0 <= k < i ensures !OccursAt(a + b, p, k) {
      assert (a + b)[k..k + |p|] == a[k..k + |p|];
      assert !OccursAt(a, p, k);
    }
    SearchIs(a + b, p, i);
  }

  /** A slice has the occurrences of the whole that fit between its ends. */
  lemma OccursInSlice(s: string, p: string, lo: nat, hi: nat, k: int)
    requires lo <= hi <= |s|
    ensures OccursAt(s[lo..hi], p, k) <==> 0 <= k && lo + k + |p| <= hi && OccursAt(s, p, lo + k)
  {
    if 0 <= k && lo + k + |p| <= hi {
      var t, n := s[lo..hi], |p|;
      var u, v := t[k..k + n], s[lo + k..lo + k + n];
      assert |u| == |v| && forall j :: 0 <= j < n ==> u[j] == v[j];
      assert u == v;
    }
  }

  /** No occurrence between `lo` and `hi` means the search of that slice fails. */
  lemma SearchInSlice(s: string, p: string, lo: nat, hi: nat)
    requires p != [] && lo <= hi <= |s|
    requires forall k :: lo <= k && k + |p| <= hi ==> !OccursAt(s, p, k)
    ensures Search(s[lo..hi], p) == hi - lo
  {
    OccursInSlice(s, p, lo, hi, Search(s[lo..hi], p));
  }
}
