/**
 The two regular expressions of the job form's validator, stated as
 predicates over string indices.

 - the email check `/\S+@\S+\.\S+/.test(email)` is unanchored: it holds when
   SOME substring of the email matches;
 - the portfolio check `/^https?:\/\/\S+\.\S+$/.test(url)` is anchored: the
   WHOLE url must match.

 A regular expression matches a string exactly when the string can be split
 into pieces that its parts match, so each predicate says "there are split
 points such that ...".
 */
module Patterns {

  /** The characters of the JavaScript class `\s` (the ECMAScript WhiteSpace
      and LineTerminator characters); `\S` matches every other character. */
  predicate IsSpace(c: char)
    ensures c == ' ' || c == '\t' || c == '\n' || c == '\r' ==> IsSpace(c)
    ensures '!' <= c <= '~' ==> !IsSpace(c)  // no visible ASCII character is white space
  {
    || ('\t' <= c <= '\r')             // tab, line feed, vertical tab, form feed, carriage return
    || c == ' '
    || c == '\U{00A0}'                 // no-break space
    || c == '\U{1680}'
    || ('\U{2000}' <= c <= '\U{200A}') // the spaces of the General Punctuation block
    || c == '\U{2028}' || c == '\U{2029}' // line and paragraph separators
    || c == '\U{202F}' || c == '\U{205F}' || c == '\U{3000}'
    || c == '\U{FEFF}'                 // byte order mark
  }

  /** `\S+` matches exactly s[i..j]: a non-empty run without white space. */
  predicate NonSpaceRun(s: string, i: int, j: int) {
    0 <= i < j <= |s| && forall k | i <= k < j :: !IsSpace(s[k])
  }

  /** `\S+@\S+\.\S+` matches s[a..e], with its '@' at p and its '.' at q. */
  predicate EmailMatchAt(s: string, a: int, p: int, q: int, e: int) {
    && NonSpaceRun(s, a, p)
    && NonSpaceRun(s, p + 1, q)
    && NonSpaceRun(s, q + 1, e)
    && s[p] == '@'
    && s[q] == '.'
  }

  /** `/\S+@\S+\.\S+/.test(s)`: some substring of s matches the pattern. */
  predicate EmailPattern(s: string)
    ensures EmailPattern(s) ==> |s| >= 5  // the shortest match is "a@b.c"
  {
    exists a, p, q, e | 0 <= a < |s| && a < p < |s| && p < q < |s| && q < e <= |s| ::
      EmailMatchAt(s, a, p, q, e)
  }

  /** The local form of the email test at an '@' at p and a '.' at q: a
      non-space character just before the '@', a non-empty run without white
      space between the two, and a non-space character just after the '.'. */
  predicate EmailShapeAt(s: string, p: int, q: int) {
    && 0 < p
    && NonSpaceRun(s, p + 1, q)
    && q < |s| - 1
    && s[p] == '@'
    && s[q] == '.'
    && !IsSpace(s[p - 1])
    && !IsSpace(s[q + 1])
  }

  /** Some '@' and some later '.' have the local form of the email test. */
  predicate EmailShape(s: string) {
    exists p, q | 0 < p < |s| && p < q < |s| :: EmailShapeAt(s, p, q)
  }

  /** The unanchored test only looks at the '@', the '.' and their immediate
      surroundings: the runs before the '@' and after the '.' can always be
      shortened to one character. */
  lemma EmailPatternIsShape(s: string)
    ensures EmailPattern(s) <==> EmailShape(s)
  {
    if EmailPattern(s) {
      var a, p, q, e :| 0 <= a < |s| && a < p < |s| && p < q < |s| && q < e <= |s| && EmailMatchAt(s, a, p, q, e);
      assert EmailShapeAt(s, p, q);
    }
    if EmailShape(s) {
      var p, q :| 0 < p < |s| && p < q < |s| && EmailShapeAt(s, p, q);
      assert NonSpaceRun(s, p - 1, p);
      assert NonSpaceRun(s, q + 1, q + 2);
      assert EmailMatchAt(s, p - 1, p, q, q + 2);
    }
  }

  /** Because the email test is not anchored, text added on either side of an
      address that passes it never makes it fail. */
  lemma EmailPatternUnanchored(pre: string, s: string, post: string)
    requires EmailPattern(s)
    ensures EmailPattern(pre + s + post)
  {
    var a, p, q, e :| 0 <= a < |s| && a < p < |s| && p < q < |s| && q < e <= |s| && EmailMatchAt(s, a, p, q, e);
    var t, n := pre + s + post, |pre|;
    NonSpaceRunEmbedded(pre, s, post, a, p);
    NonSpaceRunEmbedded(pre, s, post, p + 1, q);
    NonSpaceRunEmbedded(pre, s, post, q + 1, e);
    assert t[n + p] == s[p] && t[n + q] == s[q];
    assert EmailMatchAt(t, n + a, n + p, n + q, n + e) && n + e <= |t|;
  }

  /** A run without white space stays one when text is added on either side. */
  lemma NonSpaceRunEmbedded(pre: string, s: string, post: string, i: int, j: int)
    requires NonSpaceRun(s, i, j)
    ensures NonSpaceRun(pre + s + post, |pre| + i, |pre| + j)
  {
    var t := pre + s + post;
    forall k | |pre| + i <= k < |pre| + j ensures !IsSpace(t[k]) {
      assert t[k] == s[k - |pre|];
    }
  }

  /** `\S+\.\S+` matches ALL of t (the part of the url after the scheme). */
  predicate DottedRun(t: string) {
    exists q | 0 < q < |t| - 1 :: t[q] == '.' && NonSpaceRun(t, 0, q) && NonSpaceRun(t, q + 1, |t|)
  }

  /** `/^https?:\/\/\S+\.\S+$/.test(s)`: the whole string is "http://" or
      "https://" followed by a dotted run without white space. */
  predicate UrlPattern(s: string)
    ensures UrlPattern(s) ==> |s| >= 10  // the shortest match is "http://a.b"
  {
    || (|s| >= 7 && s[..7] == "http://" && DottedRun(s[7..]))
    || (|s| >= 8 && s[..8] == "https://" && DottedRun(s[8..]))
  }

  /** The length of the scheme part "http://" or "https://" that s starts with, if any. */
  function SchemeLength(s: string): (n: nat)
    ensures n == 0 || n == 7 || n == 8
    ensures n == 7 <==> |s| >= 7 && s[..7] == "http://"
    ensures n == 8 <==> |s| >= 8 && s[..8] == "https://"
  {
    if |s| >= 7 && s[..7] == "http://" then assert s[4] == ':'; 7
    else if |s| >= 8 && s[..8] == "https://" then 8
    else 0
  }

  /** The anchored url test, restated without split points: a scheme, no white
      space anywhere, and a '.' that is neither the first nor the last
      character after the scheme. */
  lemma UrlPatternCharacterized(s: string)
    ensures UrlPattern(s) <==>
      && SchemeLength(s) > 0
      && (forall k | 0 <= k < |s| :: !IsSpace(s[k]))
      && (exists q | SchemeLength(s) < q < |s| - 1 :: s[q] == '.')
  {
    var n := SchemeLength(s);
    if UrlPattern(s) {
      assert n > 0;
      var t := s[n..];
      var q :| 0 < q < |t| - 1 && t[q] == '.' && NonSpaceRun(t, 0, q) && NonSpaceRun(t, q + 1, |t|);
      assert s[n + q] == '.';
      forall k | 0 <= k < |s| ensures !IsSpace(s[k]) {
        if k >= n {
          assert s[k] == t[k - n];
        } else {
          assert s[k] == s[..n][k];
        }
      }
    }
    if && n > 0
       && (forall k | 0 <= k < |s| :: !IsSpace(s[k]))
       && (exists q | n < q < |s| - 1 :: s[q] == '.')
    {
      var q :| n < q < |s| - 1 && s[q] == '.';
      var t := s[n..];
      assert t[q - n] == '.';
      assert NonSpaceRun(t, 0, q - n);
      assert NonSpaceRun(t, q - n + 1, |t|);
      assert DottedRun(t);
    }
  }

  /** Because the url test is anchored, a url that passes it stops passing as
      soon as white space is added at its end. */
  lemma UrlPatternAnchored(s: string)
    requires UrlPattern(s)
    ensures !UrlPattern(s + " ")
  {
    UrlPatternCharacterized(s + " ");
    assert (s + " ")[|s|] == ' ';
  }
}
