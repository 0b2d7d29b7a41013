/**
 * Order-preserving selection over sequences: the row-filtering primitive that
 * pandas' `dropna` and boolean-mask indexing both reduce to.
 */
module Sequences {

  /** `r` can be obtained from `s` by deleting elements (order kept). */
  ghost predicate IsSubsequence<T>(r: seq<T>, s: seq<T>)
    decreases |s|
  {
    r == [] ||
    (s != [] && (IsSubsequence(r, s[1..]) || (r[0] == s[0] && IsSubsequence(r[1..], s[1..]))))
  }

  /** The elements of `s` that satisfy `keep`, in their original order. */
  function Select<T(!new)>(s: seq<T>, keep: T -> bool): (r: seq<T>)
    ensures |r| <= |s|
  {
    if s == [] then []
    else
      assert s == [s[0]] + s[1..];
      Kept(s[0], keep) + Select(s[1..], keep)
  }

  /** `[x]` when `x` is kept, `[]` otherwise. */
  function Kept<T>(x: T, keep: T -> bool): seq<T> {
    if keep(x) then [x] else []
  }

  /** The selection holds exactly the kept elements of `s`, each as often as in `s`. */
  lemma {:induction false} SelectCounts<T(!new)>(s: seq<T>, keep: T -> bool)
    ensures forall x :: multiset(Select(s, keep))[x] == if keep(x) then multiset(s)[x] else 0
  {
    if s != [] {
      SelectCounts(s[1..], keep);
      assert s == [s[0]] + s[1..];
      assert multiset(s) == multiset([s[0]]) + multiset(s[1..]);
      assert multiset(Select(s, keep)) == multiset(Kept(s[0], keep)) + multiset(Select(s[1..], keep));
    }
  }

  /** Membership in the selection: an element is selected iff it occurs in `s` and is kept. */
  lemma SelectMembers<T(!new)>(s: seq<T>, keep: T -> bool)
    ensures forall x :: x in Select(s, keep) <==> x in s && keep(x)
  {
    SelectCounts(s, keep);
    forall x ensures x in Select(s, keep) <==> x in s && keep(x) {
      assert x in Select(s, keep) <==> multiset(Select(s, keep))[x] > 0;
      assert x in s <==> multiset(s)[x] > 0;
    }
  }

  /** Selection never reorders: the result is a subsequence of the input. */
  lemma {:induction false} SelectIsSubsequence<T(!new)>(s: seq<T>, keep: T -> bool)
    ensures IsSubsequence(Select(s, keep), s)
  {
    if s != [] {
      SelectIsSubsequence(s[1..], keep);
      var rest := Select(s[1..], keep);
      var r := Select(s, keep);
      if keep(s[0]) {
        assert r == [s[0]] + rest;
        assert r[0] == s[0] && r[1..] == rest;
      } else {
        assert r == rest;
      }
      assert IsSubsequence(r, s);
    }
  }

  /** A sequence whose every element is kept is selected unchanged. */
  lemma {:induction false} SelectAllKept<T(!new)>(s: seq<T>, keep: T -> bool)
    requires forall x :: x in s ==> keep(x)
    ensures Select(s, keep) == s
  {
    if s != [] {
      assert forall x :: x in s[1..] ==> x in s;
      SelectAllKept(s[1..], keep);
      assert s == [s[0]] + s[1..];
    }
  }

  /** Selecting twice with the same test is selecting once. */
  lemma SelectIdempotent<T(!new)>(s: seq<T>, keep: T -> bool)
    ensures Select(Select(s, keep), keep) == Select(s, keep)
  {
    SelectMembers(s, keep);
    SelectAllKept(Select(s, keep), keep);
  }

  /** Selection distributes over appending one element at the end. */
  lemma {:induction false} SelectSnoc<T(!new)>(s: seq<T>, x: T, keep: T -> bool)
    ensures Select(s + [x], keep) == Select(s, keep) + Kept(x, keep)
  {
    if s == [] {
      assert [x][1..] == [];
      assert Select([x], keep) == Kept(x, keep) + Select([], keep);
    } else {
      var t := s + [x];
      assert t[0] == s[0];
      assert t[1..] == s[1..] + [x];
      SelectSnoc(s[1..], x, keep);
      calc {
        Select(t, keep);
        Kept(s[0], keep) + Select(s[1..] + [x], keep);
        Kept(s[0], keep) + (Select(s[1..], keep) + Kept(x, keep));
        (Kept(s[0], keep) + Select(s[1..], keep)) + Kept(x, keep);
      }
    }
  }

  /** Both tests at once. */
  function Both<T>(p: T -> bool, q: T -> bool): T -> bool {
    x => p(x) && q(x)
  }

  /** Selecting by `p` and then by `q` is selecting by both at once. */
  lemma {:induction false} SelectThenSelect<T(!new)>(s: seq<T>, p: T -> bool, q: T -> bool)
    ensures Select(Select(s, p), q) == Select(s, Both(p, q))
  {
    if s != [] {
      SelectThenSelect(s[1..], p, q);
      var sp := Select(s[1..], p);
      if p(s[0]) {
        assert Select(s, p) == [s[0]] + sp;
        assert ([s[0]] + sp)[0] == s[0] && ([s[0]] + sp)[1..] == sp;
        assert Select([s[0]] + sp, q) == Kept(s[0], q) + Select(sp, q);
        assert Kept(s[0], q) == Kept(s[0], Both(p, q));
      } else {
        assert Select(s, p) == sp;
        assert Kept(s[0], Both(p, q)) == [];
      }
    }
  }
}
