/**
 * The track list as the player builds and shows it: the MP3 files of the
 * granted folder (`loadMusic`) and the search over their names (`getMusic`).
 */
module Catalog {
  import opened Paths

  /** `r` is `s` with some elements dropped and the rest in their original order. */
  ghost predicate Subsequence<T>(r: seq<T>, s: seq<T>)
    decreases |s|
  {
    if r == [] then true
    else if s == [] then false
    else (r[0] == s[0] && Subsequence(r[1..], s[1..])) || Subsequence(r, s[1..])
  }

  lemma {:induction false} SubsequenceReflexive<T>(s: seq<T>)
    ensures Subsequence(s, s)
    decreases |s|
  {
    if s != [] {
      SubsequenceReflexive(s[1..]);
    }
  }

  /** No track appears twice. */
  predicate Distinct<T(==)>(s: seq<T>) {
    forall i, j :: 0 <= i < j < |s| ==> s[i] != s[j]
  }

  /**
   * Swift's `s.filter(p)`: the elements of `s` that satisfy `p`, each as often
   * as it occurs in `s`, in their order in `s`.
   */
  function Keep<T(!new)>(s: seq<T>, p: T -> bool): (r: seq<T>)
    ensures Subsequence(r, s)
    ensures forall i :: 0 <= i < |r| ==> p(r[i])
    ensures forall x :: multiset(r)[x] == if p(x) then multiset(s)[x] else 0
  {
    if s == [] then []
    else
      assert s == [s[0]] + s[1..];
      var rest := Keep(s[1..], p);
      if p(s[0]) then [s[0]] + rest else rest
  }

  /** Filtering a second time with the same test changes nothing. */
  lemma {:induction false} KeepIdempotent<T(!new)>(s: seq<T>, p: T -> bool)
    ensures Keep(Keep(s, p), p) == Keep(s, p)
  {
    if s != [] {
      KeepIdempotent(s[1..], p);
    }
  }

  /** Two tests that agree on every element keep the same elements. */
  lemma {:induction false} KeepAgreeing<T(!new)>(s: seq<T>, p: T -> bool, q: T -> bool)
    requires forall x :: p(x) == q(x)
    ensures Keep(s, p) == Keep(s, q)
  {
    if s != [] {
      KeepAgreeing(s[1..], p, q);
    }
  }

  /** A folder listing holds no file twice, and neither does what is kept of it. */
  lemma {:induction false} KeepDistinct<T(!new)>(s: seq<T>, p: T -> bool)
    requires Distinct(s)
    ensures Distinct(Keep(s, p))
  {
    if s != [] {
      assert s == [s[0]] + s[1..];
      KeepDistinct(s[1..], p);
      var rest := Keep(s[1..], p);
      assert multiset(s[1..])[s[0]] == 0;
      assert s[0] !in rest;
    }
  }

  /** The search test of `getMusic`: the lower-cased file name contains the lower-cased query. */
  predicate Matches(track: string, query: string) {
    Contains(Lower(LastPathComponent(track)), Lower(query))
  }

  /**
   * `getMusic(query:)`: the whole list for an empty query, otherwise the
   * tracks whose file name contains the query ignoring case, in list order.
   */
  function Search(music: seq<string>, query: string): (r: seq<string>)
    ensures query == [] ==> r == music
    ensures Subsequence(r, music)
    ensures forall t :: multiset(r)[t] == if query == [] || Matches(t, query) then multiset(music)[t] else 0
  {
    if query == [] then
      SubsequenceReflexive(music);
      music
    else Keep(music, t => Matches(t, query))
  }

  /** A track is listed exactly when it is in the list and its name matches. */
  lemma SearchMembership(music: seq<string>, query: string, t: string)
    ensures t in Search(music, query) <==> t in music && (query == [] || Matches(t, query))
  {
    assert t in Search(music, query) <==> multiset(Search(music, query))[t] > 0;
  }

  /** The search ignores the case of the query. */
  lemma SearchIgnoresCase(music: seq<string>, q1: string, q2: string)
    requires Lower(q1) == Lower(q2)
    ensures Search(music, q1) == Search(music, q2)
  {
    if q1 != [] {
      KeepAgreeing(music, t => Matches(t, q1), t => Matches(t, q2));
    }
  }

  /** Two files whose names differ only in case are both listed or both hidden. */
  lemma SearchIgnoresNameCase(music: seq<string>, query: string, t1: string, t2: string)
    requires t1 in music && t2 in music
    requires Lower(LastPathComponent(t1)) == Lower(LastPathComponent(t2))
    ensures t1 in Search(music, query) <==> t2 in Search(music, query)
  {
    SearchMembership(music, query, t1);
    SearchMembership(music, query, t2);
  }
}
