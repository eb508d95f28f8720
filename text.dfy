/**
 * String primitives the source relies on: prefix and infix tests and
 * JavaScript's `String.prototype.replaceAll` with a non-empty string pattern
 * (a left-to-right scan that replaces non-overlapping occurrences).
 */
module Text {

  /** `s` begins with `p`. */
  predicate StartsWith(s: string, p: string)
  {
    |p| <= |s| && s[..|p|] == p
  }

  /** `p` occurs in `s` at some position. */
  predicate HasInfix(s: string, p: string)
    decreases |s|
  {
    StartsWith(s, p) || (|s| > 0 && HasInfix(s[1..], p))
  }

  /** `s.replaceAll(pat, rep)` for a non-empty `pat`. */
  function ReplaceAll(s: string, pat: string, rep: string): (r: string)
    requires pat != []
    ensures !HasInfix(s, pat) ==> r == s
    decreases |s|
  {
    if |s| < |pat| then s
    else if s[..|pat|] == pat then rep + ReplaceAll(s[|pat|..], pat, rep)
    else [s[0]] + ReplaceAll(s[1..], pat, rep)
  }

  lemma StartsWithCons(c: char, y: string, p: string)
    requires p != []
    ensures StartsWith([c] + y, p) <==> c == p[0] && StartsWith(y, p[1..])
  {
    if |p| <= |[c] + y| {
      assert ([c] + y)[..|p|] == [c] + y[..|p| - 1];
      if c == p[0] && StartsWith(y, p[1..]) {
        assert p == [p[0]] + p[1..];
      }
    }
  }

  lemma HasInfixCons(c: char, y: string, p: string)
    ensures HasInfix([c] + y, p) <==> StartsWith([c] + y, p) || HasInfix(y, p)
  {
    assert ([c] + y)[1..] == y;
  }

  lemma {:induction false} ShortHasNoInfix(s: string, p: string)
    requires |s| < |p|
    ensures !HasInfix(s, p)
    decreases |s|
  {
    if |s| > 0 {
      ShortHasNoInfix(s[1..], p);
    }
  }

  /** A prefix none of whose characters can start `p` adds no occurrence of `p`. */
  lemma {:induction false} HasInfixAfterAvoiding(a: string, y: string, p: string)
    requires p != [] && p[0] !in a
    ensures HasInfix(a + y, p) <==> HasInfix(y, p)
    decreases |a|
  {
    if a == [] {
      assert a + y == y;
    } else {
      assert a + y == [a[0]] + (a[1..] + y);
      assert a == [a[0]] + a[1..];
      HasInfixCons(a[0], a[1..] + y, p);
      StartsWithCons(a[0], a[1..] + y, p);
      HasInfixAfterAvoiding(a[1..], y, p);
    }
  }

  lemma {:induction false} SuffixHasInfix(s: string, k: nat, p: string)
    requires k <= |s|
    ensures HasInfix(s[k..], p) ==> HasInfix(s, p)
    decreases k
  {
    if k > 0 {
      assert s[1..][k - 1..] == s[k..];
      SuffixHasInfix(s[1..], k - 1, p);
    }
  }

  /** Step of the scan over a position where `pat` does not start. */
  lemma ReplaceAllCons(t: string, pat: string, rep: string)
    requires pat != [] && |t| > 0 && !StartsWith(t, pat)
    ensures ReplaceAll(t, pat, rep) == [t[0]] + ReplaceAll(t[1..], pat, rep)
  {
    if |t| < |pat| {
      ShortHasNoInfix(t[1..], pat);
      assert t == [t[0]] + t[1..];
    }
  }

  /** Step of the scan over an input that starts with `pat`. */
  lemma ReplaceAllLead(x: string, pat: string, rep: string)
    requires pat != []
    ensures ReplaceAll(pat + x, pat, rep) == rep + ReplaceAll(x, pat, rep)
  {
    assert (pat + x)[..|pat|] == pat;
    assert (pat + x)[|pat|..] == x;
  }

  /** The first character of the output: the replacement's, or the input's. */
  lemma ReplaceAllFirst(t: string, pat: string, rep: string)
    requires pat != [] && rep != []
    ensures |ReplaceAll(t, pat, rep)| > 0 <==> |t| > 0
    ensures |t| > 0 && StartsWith(t, pat) ==> ReplaceAll(t, pat, rep)[0] == rep[0]
    ensures |t| > 0 && !StartsWith(t, pat) ==> ReplaceAll(t, pat, rep)[0] == t[0]
  {
    if |t| > 0 && !StartsWith(t, pat) {
      ReplaceAllCons(t, pat, rep);
    }
  }

  /**
   * When the replacement starts with a character that `q` never uses, a
   * prefix `q` of the output is a prefix of the input already.
   */
  lemma {:induction false} ReplaceAllKeepsPrefix(t: string, pat: string, rep: string, q: string)
    requires pat != [] && rep != [] && rep[0] !in q
    ensures StartsWith(ReplaceAll(t, pat, rep), q) ==> StartsWith(t, q)
    decreases |t|
  {
    if q != [] && StartsWith(ReplaceAll(t, pat, rep), q) {
      ReplaceAllFirst(t, pat, rep);
      assert q == [q[0]] + q[1..];
      assert !StartsWith(t, pat);
      ReplaceAllCons(t, pat, rep);
      StartsWithCons(t[0], ReplaceAll(t[1..], pat, rep), q);
      ReplaceAllKeepsPrefix(t[1..], pat, rep, q[1..]);
      StartsWithCons(t[0], t[1..], q);
      assert t == [t[0]] + t[1..];
    }
  }
}
