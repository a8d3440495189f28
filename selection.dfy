/** `Array.prototype.filter` on sequences, and what it means to be a subsequence. */
module Selection {

  /** The elements of `s` that satisfy `p`, in their order in `s`. Like `Array.prototype.filter`,
      it visits the elements from the first to the last and appends each one that passes. */
  function Select<T>(s: seq<T>, p: T -> bool): (r: seq<T>)
    ensures |r| <= |s|
    ensures forall k :: 0 <= k < |r| ==> p(r[k])
    decreases |s|
  {
    if s == [] then []
    else Select(s[..|s| - 1], p) + (if p(s[|s| - 1]) then [s[|s| - 1]] else [])
  }

  /** The positions of `s` that `Select` keeps, in increasing order. */
  ghost function Kept<T>(s: seq<T>, p: T -> bool): seq<nat>
    decreases |s|
  {
    if s == [] then []
    else Kept(s[..|s| - 1], p) + (if p(s[|s| - 1]) then [|s| - 1] else [])
  }

  /** `idx` lists, in strictly increasing order, positions of `s` whose elements make up `r`. */
  ghost predicate Embeds<T>(idx: seq<nat>, r: seq<T>, s: seq<T>)
  {
    && |idx| == |r|
    && (forall k :: 0 <= k < |idx| ==> idx[k] < |s| && r[k] == s[idx[k]])
    && (forall j, k :: 0 <= j < k < |idx| ==> idx[j] < idx[k])
  }

  /** `r` is obtained from `s` by deleting elements: nothing added, nothing repeated, order kept. */
  ghost predicate IsSubsequence<T>(r: seq<T>, s: seq<T>)
  {
    exists idx :: Embeds(idx, r, s)
  }

  /** Every sequence is a subsequence of itself. */
  lemma SubsequenceOfItself<T>(s: seq<T>)
    ensures IsSubsequence(s, s)
  {
    var idx: seq<nat> := seq(|s|, i requires 0 <= i < |s| => i);
    assert Embeds(idx, s, s);
  }

  /** `Select` keeps exactly the positions whose element passes `p`, and no others, in order. */
  lemma {:induction false} SelectPositions<T>(s: seq<T>, p: T -> bool)
    ensures Embeds(Kept(s, p), Select(s, p), s)
    ensures forall i :: 0 <= i < |s| ==> (i in Kept(s, p) <==> p(s[i]))
    decreases |s|
  {
    if s != [] {
      var n := |s| - 1;
      var init := s[..n];
      SelectPositions(init, p);
      var idx0, r0 := Kept(init, p), Select(init, p);
      assert forall k :: 0 <= k < |idx0| ==> idx0[k] < n;
      if p(s[n]) {
        assert Kept(s, p) == idx0 + [n];
        assert Select(s, p) == r0 + [s[n]];
      } else {
        assert Kept(s, p) == idx0;
        assert Select(s, p) == r0;
      }
      forall i | 0 <= i < n ensures s[i] == init[i] { }
    }
  }

  /** The result of `Select` is a subsequence of its input. */
  lemma SelectIsSubsequence<T>(s: seq<T>, p: T -> bool)
    ensures IsSubsequence(Select(s, p), s)
  {
    SelectPositions(s, p);
  }

  /** An element is in the result exactly when it is in the input and passes `p`. */
  lemma {:induction false} SelectMembers<T>(s: seq<T>, p: T -> bool)
    ensures forall x :: x in Select(s, p) <==> x in s && p(x)
    decreases |s|
  {
    if s != [] {
      var n := |s| - 1;
      SelectMembers(s[..n], p);
      assert s == s[..n] + [s[n]];
    }
  }

  /** Each value that passes occurs as often in the result as in the input; the others not at all. */
  lemma {:induction false} SelectMultiplicity<T>(s: seq<T>, p: T -> bool)
    ensures forall x :: multiset(Select(s, p))[x] == if p(x) then multiset(s)[x] else 0
    decreases |s|
  {
    if s != [] {
      var n := |s| - 1;
      SelectMultiplicity(s[..n], p);
      assert s == s[..n] + [s[n]];
    }
  }

  /** When every element passes, `Select` returns its input unchanged. */
  lemma {:induction false} SelectAll<T>(s: seq<T>, p: T -> bool)
    requires forall i :: 0 <= i < |s| ==> p(s[i])
    ensures Select(s, p) == s
    decreases |s|
  {
    if s != [] {
      var n := |s| - 1;
      SelectAll(s[..n], p);
      assert s == s[..n] + [s[n]];
    }
  }

  /** `Select` depends only on the values its predicate takes. */
  lemma {:induction false} SelectSame<T>(s: seq<T>, p: T -> bool, q: T -> bool)
    requires forall i :: 0 <= i < |s| ==> p(s[i]) == q(s[i])
    ensures Select(s, p) == Select(s, q)
    decreases |s|
  {
    if s != [] {
      SelectSame(s[..|s| - 1], p, q);
    }
  }

  /** Two filter passes in a row are one pass with the conjunction of their predicates. */
  lemma {:induction false} SelectThenSelect<T>(s: seq<T>, p: T -> bool, q: T -> bool, pq: T -> bool)
    requires forall i :: 0 <= i < |s| ==> pq(s[i]) == (p(s[i]) && q(s[i]))
    ensures Select(Select(s, p), q) == Select(s, pq)
    decreases |s|
  {
    if s != [] {
      var n := |s| - 1;
      var init := s[..n];
      SelectThenSelect(init, p, q, pq);
      var r := Select(init, p);
      if p(s[n]) {
        assert Select(s, p) == r + [s[n]];
        assert (r + [s[n]])[..|r|] == r;
      } else {
        assert Select(s, p) == r;
        assert Select(s, pq) == Select(init, pq);
      }
    }
  }

  /** A second pass with the same predicate changes nothing. */
  lemma SelectIdempotent<T>(s: seq<T>, p: T -> bool)
    ensures Select(Select(s, p), p) == Select(s, p)
  {
    SelectAll(Select(s, p), p);
  }
}
