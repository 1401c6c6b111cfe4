/**
 * The parts of Foundation's `URL` and `String` API that the player relies on,
 * over file paths written as strings.
 */
module Paths {

  /** `p` ends with `r`. */
  ghost predicate IsSuffix(r: string, p: string) {
    |r| <= |p| && r == p[|p| - |r|..]
  }

  /** `url.lastPathComponent` of a file path: the text after its final '/'. */
  function LastPathComponent(p: string): (r: string)
    ensures '/' !in r
    ensures IsSuffix(r, p)
    ensures |r| < |p| ==> p[|p| - |r| - 1] == '/'
  {
    if p == [] || p[|p| - 1] == '/' then []
    else
      var init := p[..|p| - 1];
      var r' := LastPathComponent(init);
      assert r' == init[|init| - |r'|..] == p[|p| - 1 - |r'|..|p| - 1];
      r' + [p[|p| - 1]]
  }

  /**
   * The three properties in the contract of LastPathComponent pin its result
   * down: any suffix of `p` without a '/' that is all of `p` or follows a '/'
   * is the last path component.
   */
  lemma LastPathComponentUnique(p: string, r: string)
    requires '/' !in r
    requires IsSuffix(r, p)
    requires |r| < |p| ==> p[|p| - |r| - 1] == '/'
    ensures r == LastPathComponent(p)
  {
  }

  /**
   * `"\(dir)/\(name)"`, the path the player rebuilds from the folder and a
   * remembered file name; its last component is that name whenever the name
   * holds no '/'.
   */
  function JoinPath(dir: string, name: string): (r: string)
    ensures |r| == |dir| + 1 + |name|
    ensures '/' !in name ==> LastPathComponent(r) == name
  {
    var r := dir + "/" + name;
    if '/' !in name then
      assert r[|r| - |name|..] == name;
      LastPathComponentUnique(r, name);
      r
    else r
  }

  predicate IsUpper(c: char) {
    'A' <= c <= 'Z'
  }

  /** ASCII lower-casing of one character. */
  function LowerChar(c: char): (d: char)
    ensures !IsUpper(d)
    ensures !IsUpper(c) ==> d == c
    ensures IsUpper(c) ==> 'a' <= d <= 'z' && d as int - c as int == 'a' as int - 'A' as int
  {
    if IsUpper(c) then (c as int + ('a' as int - 'A' as int)) as char else c
  }

  /** `s.lowercased()`, restricted to ASCII letters. */
  function Lower(s: string): (r: string)
    ensures |r| == |s|
    ensures forall i :: 0 <= i < |s| ==> r[i] == LowerChar(s[i])
  {
    seq(|s|, i requires 0 <= i < |s| => LowerChar(s[i]))
  }

  /** Lower-casing twice is lower-casing once. */
  lemma LowerIdempotent(s: string)
    ensures Lower(Lower(s)) == Lower(s)
  {
  }

  /** `q` occurs in `s` starting at index `i`. */
  ghost predicate OccursAt(s: string, q: string, i: int) {
    0 <= i && i + |q| <= |s| && s[i..i + |q|] == q
  }

  /** `s.contains(q)`: `q` is a contiguous substring of `s`. */
  predicate Contains(s: string, q: string)
    ensures Contains(s, q) <==> exists i :: OccursAt(s, q, i)
  {
    if q <= s then
      assert OccursAt(s, q, 0);
      true
    else if s == [] then false
    else if Contains(s[1..], q) then
      assert exists i :: OccursAt(s, q, i) by {
        var j :| OccursAt(s[1..], q, j);
        assert s[1..][j..j + |q|] == s[j + 1..j + 1 + |q|];
        assert OccursAt(s, q, j + 1);
      }
      true
    else
      assert forall i :: OccursAt(s, q, i) ==> OccursAt(s[1..], q, i - 1) by {
        forall i | OccursAt(s, q, i) ensures OccursAt(s[1..], q, i - 1) {
          assert s[1..][i - 1..i - 1 + |q|] == s[i..i + |q|];
        }
      }
      false
  }
}
