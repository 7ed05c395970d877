/**
 * Text primitives the template engine is built on: substring search
 * (Rust's `str::contains`) and replace-all (Rust's `str::replace`), over
 * `string`, which is `seq<char>`.
 */
module Text {

  /** `pat` occurs at the very start of `s`. */
  predicate StartsWith(s: string, pat: string) {
    |pat| <= |s| && s[..|pat|] == pat
  }

  /** `pat` occurs in `s` starting at index `i`. */
  predicate OccursAt(s: string, pat: string, i: int) {
    0 <= i && i + |pat| <= |s| && s[i..i + |pat|] == pat
  }

  /** `str::contains` with a string pattern: `pat` occurs somewhere in `s`. */
  predicate Contains(s: string, pat: string)
    decreases |s|
  {
    StartsWith(s, pat) || (|s| > 0 && Contains(s[1..], pat))
  }

  /** The recursive search agrees with the positional definition of an occurrence. */
  lemma {:induction false} ContainsIffOccurs(s: string, pat: string)
    ensures Contains(s, pat) <==> exists i :: OccursAt(s, pat, i)
    decreases |s|
  {
    if |s| == 0 {
      if |pat| == 0 {
        assert OccursAt(s, pat, 0);
      }
    } else {
      ContainsIffOccurs(s[1..], pat);
      if StartsWith(s, pat) {
        assert OccursAt(s, pat, 0);
      }
      if Contains(s[1..], pat) {
        var i :| OccursAt(s[1..], pat, i);
        assert s[i + 1..i + 1 + |pat|] == s[1..][i..i + |pat|];
        assert OccursAt(s, pat, i + 1);
      }
      if exists i :: OccursAt(s, pat, i) {
        var i :| OccursAt(s, pat, i);
        if i == 0 {
          assert StartsWith(s, pat);
        } else {
          assert s[1..][i - 1..i - 1 + |pat|] == s[i..i + |pat|];
          assert OccursAt(s[1..], pat, i - 1);
        }
      }
    }
  }

  /** An occurrence found at a known position makes `Contains` hold. */
  lemma OccursAtContains(s: string, pat: string, i: int)
    requires OccursAt(s, pat, i)
    ensures Contains(s, pat)
  {
    ContainsIffOccurs(s, pat);
  }

  /**
   * A text containing a non-empty pattern contains the pattern's first
   * character; so a pattern led by a character absent from `s` is not found.
   */
  lemma ContainsLead(s: string, pat: string)
    requires |pat| > 0
    ensures Contains(s, pat) ==> pat[0] in s
  {
    ContainsIffOccurs(s, pat);
    if Contains(s, pat) {
      var i :| OccursAt(s, pat, i);
      assert s[i] == s[i..i + |pat|][0] == pat[0];
    }
  }

  /** A text containing a pattern contains each of the pattern's characters. */
  lemma ContainsChar(s: string, pat: string, k: nat)
    requires k < |pat|
    ensures Contains(s, pat) ==> pat[k] in s
  {
    ContainsIffOccurs(s, pat);
    if Contains(s, pat) {
      var i :| OccursAt(s, pat, i);
      assert s[i + k] == s[i..i + |pat|][k] == pat[k];
    }
  }

  /** Finding a pattern also finds each of its prefixes (so `%dt` in a text means `%d` is there too). */
  lemma PrefixContained(s: string, pat: string, k: nat)
    requires k <= |pat|
    ensures Contains(s, pat) ==> Contains(s, pat[..k])
  {
    ContainsIffOccurs(s, pat);
    if Contains(s, pat) {
      var i :| OccursAt(s, pat, i);
      assert s[i..i + k] == s[i..i + |pat|][..k];
      OccursAtContains(s, pat[..k], i);
    }
  }

  /**
   * A search that fails at the start, and whose first character cannot occur
   * in the next `n - 1` positions, continues from position `n`.
   */
  lemma ContainsSkip(s: string, pat: string, n: nat)
    requires |pat| > 0 && n <= |s| && !StartsWith(s, pat)
    requires forall j :: 0 < j < n ==> s[j] != pat[0]
    ensures Contains(s, pat) ==> Contains(s[n..], pat)
  {
    ContainsIffOccurs(s, pat);
    if Contains(s, pat) {
      var i :| OccursAt(s, pat, i);
      assert s[i] == s[i..i + |pat|][0] == pat[0];
      assert i != 0 by {
        assert s[..|pat|] != pat;
      }
      assert s[n..][i - n..i - n + |pat|] == s[i..i + |pat|];
      OccursAtContains(s[n..], pat, i - n);
    }
  }

  /** What is found in a suffix is found in the whole text. */
  lemma ContainedInSuffix(a: string, b: string, pat: string)
    requires Contains(b, pat)
    ensures Contains(a + b, pat)
  {
    ContainsIffOccurs(b, pat);
    var i :| OccursAt(b, pat, i);
    assert (a + b)[|a| + i..|a| + i + |pat|] == b[i..i + |pat|];
    OccursAtContains(a + b, pat, |a| + i);
  }

  /** An occurrence of `pat` in `a + b` that starts inside `a` and ends inside `b`. */
  predicate Straddles(a: string, b: string, pat: string) {
    exists i :: i < |a| < i + |pat| && OccursAt(a + b, pat, i)
  }

  /** An occurrence in `a + b` lies in `a`, lies in `b`, or straddles the seam. */
  lemma ContainsSplit(a: string, b: string, pat: string)
    ensures Contains(a + b, pat) ==> Contains(a, pat) || Contains(b, pat) || Straddles(a, b, pat)
  {
    ContainsIffOccurs(a + b, pat);
    if Contains(a + b, pat) {
      var i :| OccursAt(a + b, pat, i);
      if i + |pat| <= |a| {
        assert a[i..i + |pat|] == (a + b)[i..i + |pat|];
        OccursAtContains(a, pat, i);
      } else if i >= |a| {
        assert b[i - |a|..i - |a| + |pat|] == (a + b)[i..i + |pat|];
        OccursAtContains(b, pat, i - |a|);
      }
    }
  }

  /** A two-character pattern can only straddle as "last character of `a`, first of `b`". */
  lemma StraddleOfTwo(a: string, b: string, pat: string)
    requires |pat| == 2
    ensures Straddles(a, b, pat) ==> |a| > 0 && |b| > 0 && a[|a| - 1] == pat[0] && b[0] == pat[1]
  {
    if Straddles(a, b, pat) {
      var i :| i < |a| < i + |pat| && OccursAt(a + b, pat, i);
      var s := a + b;
      assert i == |a| - 1;
      assert s[i] == s[i..i + 2][0] == pat[0];
      assert s[i + 1] == s[i..i + 2][1] == pat[1];
      assert s[i] == a[|a| - 1] && s[i + 1] == b[0];
    }
  }

  /** A three-character pattern straddles after its first or after its second character. */
  lemma StraddleOfThree(a: string, b: string, pat: string)
    requires |pat| == 3
    ensures Straddles(a, b, pat) ==>
      && |a| > 0 && |b| > 0
      && ((a[|a| - 1] == pat[0] && b[0] == pat[1])
       || (|a| >= 2 && a[|a| - 2] == pat[0] && a[|a| - 1] == pat[1] && b[0] == pat[2]))
  {
    if Straddles(a, b, pat) {
      var i :| i < |a| < i + |pat| && OccursAt(a + b, pat, i);
      var s := a + b;
      assert s[i] == s[i..i + 3][0] == pat[0];
      assert s[i + 1] == s[i..i + 3][1] == pat[1];
      assert s[i + 2] == s[i..i + 3][2] == pat[2];
      if i == |a| - 1 {
        assert s[i] == a[|a| - 1] && s[i + 1] == b[0];
      } else {
        assert i == |a| - 2;
        assert s[i] == a[|a| - 2] && s[i + 1] == a[|a| - 1] && s[i + 2] == b[0];
      }
    }
  }

  /**
   * `str::replace`: every occurrence of `pat` in `s`, found left to right
   * without overlap, is replaced by `rep`. The replacement text is never
   * searched again. The pattern is non-empty (every call in the logger uses
   * a fixed placeholder).
   */
  function ReplaceAll(s: string, pat: string, rep: string): (r: string)
    requires |pat| > 0
    ensures |rep| >= |pat| ==> |r| >= |s|
    ensures |rep| <= |pat| ==> |r| <= |s|
    ensures r == s <==> !Contains(s, pat) || rep == pat
    decreases |s|
  {
    if |s| < |pat| then
      ShortNotContained(s, pat);
      s
    else if s[..|pat|] == pat then
      var r := rep + ReplaceAll(s[|pat|..], pat, rep);
      assert s == pat + s[|pat|..];
      assert r == s ==> r[..|rep|] == rep && r[..|pat|] == pat;
      r
    else
      [s[0]] + ReplaceAll(s[1..], pat, rep)
  }

  /** A text shorter than the pattern cannot contain it. */
  lemma {:induction false} ShortNotContained(s: string, pat: string)
    requires |s| < |pat|
    ensures !Contains(s, pat)
    decreases |s|
  {
    if |s| > 0 {
      ShortNotContained(s[1..], pat);
    }
  }

  /**
   * Replacing in a concatenation is replacing in each part, as long as no
   * occurrence of the pattern straddles the seam.
   */
  lemma {:induction false} ReplaceAllAppend(a: string, b: string, pat: string, rep: string)
    requires |pat| > 0 && !Straddles(a, b, pat)
    ensures ReplaceAll(a + b, pat, rep) == ReplaceAll(a, pat, rep) + ReplaceAll(b, pat, rep)
    decreases |a|
  {
    if |a| == 0 {
      assert a + b == b;
    } else if |a + b| < |pat| {
    } else if (a + b)[..|pat|] == pat {
      if |a| < |pat| {
        assert OccursAt(a + b, pat, 0);
        assert false;
      }
      assert a[..|pat|] == pat;
      assert (a + b)[|pat|..] == a[|pat|..] + b;
      StraddleInSuffix(a, b, pat, |pat|);
      ReplaceAllAppend(a[|pat|..], b, pat, rep);
      assert ReplaceAll(a, pat, rep) == rep + ReplaceAll(a[|pat|..], pat, rep);
    } else {
      assert (a + b)[1..] == a[1..] + b && (a + b)[0] == a[0];
      if |a| >= |pat| {
        assert a[..|pat|] == (a + b)[..|pat|];
      }
      StraddleInSuffix(a, b, pat, 1);
      ReplaceAllAppend(a[1..], b, pat, rep);
      assert ReplaceAll(a, pat, rep) == [a[0]] + ReplaceAll(a[1..], pat, rep);
    }
  }

  /** A straddling occurrence after dropping a prefix of `a` straddles the full seam too. */
  lemma StraddleInSuffix(a: string, b: string, pat: string, k: nat)
    requires k <= |a|
    ensures Straddles(a[k..], b, pat) ==> Straddles(a, b, pat)
  {
    if Straddles(a[k..], b, pat) {
      var i :| i < |a[k..]| < i + |pat| && OccursAt(a[k..] + b, pat, i);
      assert a[k..] + b == (a + b)[k..];
      assert (a + b)[k + i..k + i + |pat|] == (a[k..] + b)[i..i + |pat|];
      assert OccursAt(a + b, pat, k + i);
    }
  }
}
