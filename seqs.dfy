/** Order-preserving selection from a sequence: the boolean-mask indexing
    `frame[mask]` of a data frame, seen row by row. */
module Seqs {

  /** The elements of `s` that `keep` accepts, in their original order. */
  function Select<T>(s: seq<T>, keep: T -> bool): (r: seq<T>)
    ensures |r| <= |s|
  {
    if s == [] then []
    else (if keep(s[0]) then [s[0]] else []) + Select(s[1..], keep)
  }

  /** `a` can be obtained from `b` by deleting elements. */
  predicate IsSubsequence<T(==)>(a: seq<T>, b: seq<T>)
  {
    if a == [] then true
    else if b == [] then false
    else (a[0] == b[0] && IsSubsequence(a[1..], b[1..])) || IsSubsequence(a, b[1..])
  }

  lemma {:induction false} SelectIsSubsequence<T>(s: seq<T>, keep: T -> bool)
    ensures IsSubsequence(Select(s, keep), s)
  {
    if s != [] {
      SelectIsSubsequence(s[1..], keep);
      var rest := Select(s[1..], keep);
      if keep(s[0]) {
        assert Select(s, keep) == [s[0]] + rest;
        assert ([s[0]] + rest)[1..] == rest;
      } else {
        assert Select(s, keep) == rest;
      }
    }
  }

  /** Every selected element is accepted by `keep`, and comes from `s`. */
  lemma {:induction false} SelectSound<T>(s: seq<T>, keep: T -> bool)
    ensures forall x :: x in Select(s, keep) ==> keep(x) && x in s
  {
    if s != [] {
      SelectSound(s[1..], keep);
      assert Select(s, keep) == (if keep(s[0]) then [s[0]] else []) + Select(s[1..], keep);
    }
  }

  /** Each accepted value is selected as often as it occurs in `s`; a rejected one never. */
  lemma {:induction false} SelectMultiplicity<T>(s: seq<T>, keep: T -> bool, x: T)
    ensures multiset(Select(s, keep))[x] == if keep(x) then multiset(s)[x] else 0
  {
    if s != [] {
      SelectMultiplicity(s[1..], keep, x);
      assert s == [s[0]] + s[1..];
      var head := if keep(s[0]) then [s[0]] else [];
      assert multiset(Select(s, keep)) == multiset(head) + multiset(Select(s[1..], keep));
    }
  }

  /** Every accepted element of `s` is kept. */
  lemma {:induction false} SelectComplete<T>(s: seq<T>, keep: T -> bool)
    ensures forall i :: 0 <= i < |s| && keep(s[i]) ==> s[i] in Select(s, keep)
  {
    forall i | 0 <= i < |s| && keep(s[i])
      ensures s[i] in Select(s, keep)
    {
      SelectMultiplicity(s, keep, s[i]);
    }
  }

  /** Nothing is dropped when `keep` accepts every element. */
  lemma {:induction false} SelectAll<T>(s: seq<T>, keep: T -> bool)
    requires forall k :: 0 <= k < |s| ==> keep(s[k])
    ensures Select(s, keep) == s
  {
    if s != [] {
      SelectAll(s[1..], keep);
    }
  }
}
