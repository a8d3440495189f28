/** Strings as the event filter uses them: lower-casing and substring search. */
module Text {

  /** Lower-cases one character; only the ASCII letters A-Z are mapped. */
  function LowerChar(c: char): char
  {
    if 'A' <= c <= 'Z' then (c as int + 32) as char else c
  }

  /** `String.prototype.toLowerCase`, restricted to ASCII letters. */
  function Lower(s: string): string
  {
    seq(|s|, i requires 0 <= i < |s| => LowerChar(s[i]))
  }

  /** No ASCII upper-case letter occurs in `s`. */
  predicate IsLower(s: string)
  {
    forall i :: 0 <= i < |s| ==> !('A' <= s[i] <= 'Z')
  }

  /** `q` occurs in `s` starting at offset `i`. */
  ghost predicate OccursAt(s: string, q: string, i: int)
  {
    0 <= i && i + |q| <= |s| && s[i..i + |q|] == q
  }

  /** Reference meaning of "q is a substring of s". */
  ghost predicate IsSubstring(q: string, s: string)
  {
    exists i :: OccursAt(s, q, i)
  }

  /** `s.includes(q)`: scans the offsets of `s` from the left. */
  function Includes(s: string, q: string): bool
    decreases |s|
  {
    if q == [] then true
    else if |s| < |q| then false
    else s[..|q|] == q || Includes(s[1..], q)
  }

  /** The scan finds `q` exactly when `q` occurs somewhere in `s`. */
  lemma {:induction false} IncludesIff(s: string, q: string)
    ensures Includes(s, q) <==> IsSubstring(q, s)
    decreases |s|
  {
    if q == [] {
      assert OccursAt(s, q, 0);
    } else if |s| < |q| {
      assert !IsSubstring(q, s);
    } else {
      var t := s[1..];
      IncludesIff(t, q);
      assert OccursAt(s, q, 0) <==> s[..|q|] == q by {
        assert s[0..0 + |q|] == s[..|q|];
      }
      forall j | 0 <= j ensures OccursAt(t, q, j) <==> OccursAt(s, q, j + 1) {
        if 0 <= j && j + |q| <= |t| {
          assert t[j..j + |q|] == s[j + 1..j + 1 + |q|];
        }
      }
      if IsSubstring(q, s) {
        var i :| OccursAt(s, q, i);
        if i > 0 {
          assert OccursAt(t, q, i - 1);
        }
      }
      if Includes(t, q) {
        var j :| OccursAt(t, q, j);
        assert OccursAt(s, q, j + 1);
      }
    }
  }

  /** Every result of `Lower` is lower-case, and lower-casing it again changes nothing. */
  lemma LowerIsLower(s: string)
    ensures IsLower(Lower(s))
    ensures Lower(Lower(s)) == Lower(s)
  {
  }

  /** A lower-case string is its own lower-cased form. */
  lemma LowerOfLower(s: string)
    requires IsLower(s)
    ensures Lower(s) == s
  {
  }

  /** Lower-casing commutes with taking a slice. */
  lemma LowerSlice(s: string, i: int, j: int)
    requires 0 <= i <= j <= |s|
    ensures Lower(s)[i..j] == Lower(s[i..j])
  {
  }

  /** A case-insensitive search on lower-cased text finds every exact-case occurrence. */
  lemma LowerFindsExact(s: string, q: string)
    requires Includes(s, q)
    ensures Includes(Lower(s), Lower(q))
  {
    IncludesIff(s, q);
    var i :| OccursAt(s, q, i);
    LowerSlice(s, i, i + |q|);
    assert OccursAt(Lower(s), Lower(q), i);
    IncludesIff(Lower(s), Lower(q));
  }

  /** Occurrence is transitive: whatever contains `q2` contains every substring `q1` of `q2`. */
  lemma {:induction false} IncludesTransitive(s: string, q2: string, q1: string)
    requires Includes(s, q2) && Includes(q2, q1)
    ensures Includes(s, q1)
  {
    IncludesIff(s, q2);
    IncludesIff(q2, q1);
    var i :| OccursAt(s, q2, i);
    var j :| OccursAt(q2, q1, j);
    forall k | 0 <= k < |q1| ensures s[i + j + k] == q1[k] {
      assert q1[k] == q2[j..j + |q1|][k] == q2[j + k];
      assert q2[j + k] == s[i..i + |q2|][j + k];
    }
    assert s[i + j..i + j + |q1|] == q1;
    assert OccursAt(s, q1, i + j);
    IncludesIff(s, q1);
  }
}
