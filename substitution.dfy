/**
 * Left-to-right, non-overlapping substitution of a non-empty pattern, the
 * behaviour of Python's `str.replace(old, new)`. The model uses it for the
 * option-name rewriting `k.replace('_', '-')` and for redacting the internal
 * source file name out of compiler output.
 */
module Substitution {

  /** `p` occurs in `t` starting at index `i`. */
  predicate OccursAt(t: string, p: string, i: int) {
    0 <= i && i + |p| <= |t| && t[i..i + |p|] == p
  }

  predicate Contains(t: string, p: string) {
    exists i :: 0 <= i <= |t| - |p| && OccursAt(t, p, i)
  }

  /** No character of `a` appears in `b`. */
  predicate Disjoint(a: string, b: string) {
    forall c :: c in a ==> c !in b
  }

  /** Scans `s` from the left; at each position either replaces a whole match of `p` by `r` or copies one character. */
  function Replace(s: string, p: string, r: string): string
    requires |p| > 0
    decreases |s|
  {
    if |s| < |p| then s
    else if s[..|p|] == p then r + Replace(s[|p|..], p, r)
    else [s[0]] + Replace(s[1..], p, r)
  }

  /** Text in which the pattern does not occur comes back unchanged. */
  lemma {:induction false} ReplaceWithoutMatch(s: string, p: string, r: string)
    requires |p| > 0
    requires !Contains(s, p)
    ensures Replace(s, p, r) == s
    decreases |s|
  {
    if |s| >= |p| {
      assert !OccursAt(s, p, 0);
      assert s[..|p|] != p;
      forall i | OccursAt(s[1..], p, i)
        ensures false
      {
        assert s[1..][i..i + |p|] == s[i + 1..i + 1 + |p|];
        assert OccursAt(s, p, i + 1);
      }
      ReplaceWithoutMatch(s[1..], p, r);
      assert s == [s[0]] + s[1..];
    }
  }

  /**
   * As long as the output shows no character of the replacement, it is a
   * verbatim copy of the input: a prefix of the output free of `r`'s
   * characters equals the same-length prefix of the input.
   */
  lemma {:induction false} CopiedPrefix(s: string, p: string, r: string, k: nat)
    requires |p| > 0 && |r| > 0
    requires k <= |Replace(s, p, r)|
    requires forall j :: 0 <= j < k ==> Replace(s, p, r)[j] !in r
    ensures k <= |s| && Replace(s, p, r)[..k] == s[..k]
    decreases |s|
  {
    var t := Replace(s, p, r);
    if |s| < |p| {
    } else if s[..|p|] == p {
      // the output starts with r[0], so k is 0
      assert t[0] == r[0] && r[0] in r;
    } else if k > 0 {
      var rest := Replace(s[1..], p, r);
      assert t == [s[0]] + rest;
      forall j | 0 <= j < k - 1
        ensures rest[j] !in r
      {
        assert rest[j] == t[j + 1];
      }
      CopiedPrefix(s[1..], p, r, k - 1);
      assert t[..k] == [s[0]] + rest[..k - 1];
      assert s[..k] == [s[0]] + s[1..][..k - 1];
    }
  }

  /**
   * When the replacement is non-empty and shares no character with the
   * pattern, no occurrence of the pattern survives the substitution.
   */
  lemma {:induction false} ReplaceRemovesAll(s: string, p: string, r: string)
    requires |p| > 0 && |r| > 0
    requires Disjoint(r, p)
    ensures !Contains(Replace(s, p, r), p)
    decreases |s|
  {
    var t := Replace(s, p, r);
    if |s| < |p| {
      assert t == s;
    } else if s[..|p|] == p {
      var rest := Replace(s[|p|..], p, r);
      assert t == r + rest;
      ReplaceRemovesAll(s[|p|..], p, r);
      forall i | 0 <= i <= |t| - |p|
        ensures !OccursAt(t, p, i)
      {
        if i < |r| {
          assert t[i] == r[i] && r[i] in r && p[0] in p;
          assert t[i..i + |p|][0] != p[0];
        } else {
          assert t[i..i + |p|] == rest[i - |r|..i - |r| + |p|];
          assert !OccursAt(rest, p, i - |r|);
        }
      }
    } else {
      var rest := Replace(s[1..], p, r);
      assert t == [s[0]] + rest;
      ReplaceRemovesAll(s[1..], p, r);
      forall i | 0 <= i <= |t| - |p|
        ensures !OccursAt(t, p, i)
      {
        if i == 0 {
          if forall j :: 0 <= j < |p| ==> t[j] !in r {
            CopiedPrefix(s, p, r, |p|);
          } else {
            var j :| 0 <= j < |p| && t[j] in r;
            assert t[j] !in p;
          }
        } else {
          assert t[i..i + |p|] == rest[i - 1..i - 1 + |p|];
          assert !OccursAt(rest, p, i - 1);
        }
      }
    }
  }

  /** Replacing one character by another is a character-by-character mapping that keeps the length. */
  lemma {:induction false} ReplaceChar(s: string, a: char, b: char)
    ensures |Replace(s, [a], [b])| == |s|
    ensures forall i :: 0 <= i < |s| ==> Replace(s, [a], [b])[i] == (if s[i] == a then b else s[i])
    decreases |s|
  {
    if |s| > 0 {
      ReplaceChar(s[1..], a, b);
      var rest := Replace(s[1..], [a], [b]);
      if s[..1] == [a] {
        assert s[0] == a;
        assert s[1..] == s[|[a]|..];
        assert Replace(s, [a], [b]) == [b] + rest;
      } else {
        assert s[0] != a;
        assert Replace(s, [a], [b]) == [s[0]] + rest;
      }
    }
  }

  /** A text that starts with a prefix free of the pattern's first character contains the pattern only if its tail does. */
  lemma PrefixWithoutLead(h: string, x: string, p: string)
    requires |p| > 0
    requires p[0] !in h
    requires !Contains(x, p)
    ensures !Contains(h + x, p)
  {
    var t := h + x;
    forall i | 0 <= i <= |t| - |p|
      ensures !OccursAt(t, p, i)
    {
      if i < |h| {
        assert t[i] == h[i] && p[0] in p;
        assert t[i..i + |p|][0] != p[0];
      } else {
        assert t[i..i + |p|] == x[i - |h|..i - |h| + |p|];
        assert !OccursAt(x, p, i - |h|);
      }
    }
  }
}
