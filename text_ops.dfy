/**
 * String operations the exam constraint predicate relies on: a suffix test
 * (`str.endswith`) and removal of every occurrence of a pattern
 * (`str.replace(pattern, "")`, which scans left to right, removes
 * non-overlapping occurrences and does not rescan what it has produced).
 */
module TextOps {

  /** `s` ends with `suffix`. */
  predicate EndsWith(s: string, suffix: string)
  {
    |suffix| <= |s| && s[|s| - |suffix|..] == suffix
  }

  /** `p` occurs somewhere in `s` as a contiguous infix. */
  predicate Occurs(s: string, p: string)
    decreases |s|
  {
    |p| <= |s| && (s[..|p|] == p || Occurs(s[1..], p))
  }

  /** The first character of `p` appears nowhere else in `p`, so two
      occurrences of `p` can never overlap. */
  predicate HeadUnique(p: string)
  {
    |p| > 0 && forall i :: 1 <= i < |p| ==> p[i] != p[0]
  }

  /** `s` with every occurrence of `p` removed, leftmost first. Removal
      shortens the string by at least one copy of `p` exactly when `p`
      occurs, and leaves it untouched otherwise. */
  function RemoveAll(s: string, p: string): (r: string)
    requires |p| > 0
    ensures Occurs(s, p) ==> |r| <= |s| - |p|
    ensures !Occurs(s, p) ==> r == s
    decreases |s|
  {
    if |s| < |p| then s
    else if s[..|p|] == p then RemoveAll(s[|p|..], p)
    else [s[0]] + RemoveAll(s[1..], p)
  }

  /** Appending one copy of a head-unique pattern to a string that does not
      contain it, then removing every occurrence, gives the string back. */
  lemma {:induction false} RemoveAppended(s: string, p: string)
    requires HeadUnique(p)
    requires !Occurs(s, p)
    ensures RemoveAll(s + p, p) == s
    decreases |s|
  {
    var t := s + p;
    if s == [] {
      assert t[..|p|] == p && t[|p|..] == [];
    } else {
      assert !Occurs(s[1..], p);
      RemoveAppended(s[1..], p);
      assert t[1..] == s[1..] + p;
      assert t[..|p|] != p by {
        if |s| >= |p| {
          assert t[..|p|] == s[..|p|];
        } else {
          assert t[|s|] == p[0] != p[|s|];
        }
      }
      assert RemoveAll(t, p) == [s[0]] + s[1..];
    }
  }

  /** Appending one copy of a head-unique pattern makes no difference once
      every occurrence is removed. */
  lemma {:induction false} RemoveAppendedAny(s: string, p: string)
    requires HeadUnique(p)
    ensures RemoveAll(s + p, p) == RemoveAll(s, p)
    decreases |s|
  {
    var t := s + p;
    if |s| < |p| {
      RemoveAppended(s, p);
    } else if s[..|p|] == p {
      assert t[..|p|] == p;
      assert t[|p|..] == s[|p|..] + p;
      RemoveAppendedAny(s[|p|..], p);
    } else {
      assert t[..|p|] == s[..|p|];
      assert t[1..] == s[1..] + p;
      RemoveAppendedAny(s[1..], p);
    }
  }
}
