/**
  The page detector of the comments monitor.

  The raw-text half is the compiled regular expression `document\s+comments`
  with the IGNORECASE flag, searched anywhere in the page: the word
  "document", a non-empty run of whitespace, then the word "comments", in any
  letter case. Case folding and the whitespace class are modelled over ASCII,
  and the whitespace class leaves out the separators U+001C to U+001F and
  U+0085, which the Unicode `\s` also matches.

  The structural half (a CSS selector evaluated by an HTML parser) is outside
  the model; its answer enters as the boolean `selectorHit`.
 */
module Detector {

  const Document: string := "document"
  const Comments: string := "comments"

  /** The characters `\s` matches in the model: space, tab, line feed,
      carriage return, form feed and vertical tab. All of them are control
      characters or the space, so none is a letter and folding keeps them. */
  predicate IsSpace(c: char)
    ensures IsSpace(c) ==> c <= ' ' && Lower(c) == c
  {
    c == ' ' || c == '\t' || c == '\n' || c == '\r' || c == '\U{0C}' || c == '\U{0B}'
  }

  /** ASCII case folding: upper-case letters to lower case, everything else unchanged. */
  function Lower(c: char): (r: char)
    ensures !('A' <= r <= 'Z')
    ensures 'A' <= c <= 'Z' ==> 'a' <= r <= 'z' && r as int - 'a' as int == c as int - 'A' as int
    ensures !('A' <= c <= 'Z') ==> r == c
  {
    if 'A' <= c <= 'Z' then (c as int + 32) as char else c
  }

  /** `s[i..]` begins with the lower-case word `w`, up to letter case. */
  predicate WordAt(s: string, i: nat, w: string) {
    i + |w| <= |s| && forall k :: 0 <= k < |w| ==> Lower(s[i + k]) == w[k]
  }

  /** Every character of `s[lo..hi]` is whitespace. */
  predicate AllSpace(s: string, lo: nat, hi: nat)
    requires lo <= hi <= |s|
  {
    forall k :: lo <= k < hi ==> IsSpace(s[k])
  }

  /** The pattern matches `s[i..j + |Comments|]`: "document" at `i`,
      whitespace over `[i + 8, j)` (at least one character), "comments" at `j`. */
  predicate MatchAt(s: string, i: nat, j: nat) {
    && i + |Document| < j
    && WordAt(s, j, Comments)
    && WordAt(s, i, Document)
    && AllSpace(s, i + |Document|, j)
  }

  /** The regular-expression search succeeds somewhere in `s`. A hit needs
      at least both words and one whitespace character between them. */
  ghost predicate PatternFound(s: string)
    ensures PatternFound(s) ==> |Document| + 1 + |Comments| <= |s|
  {
    exists i: nat, j: nat :: MatchAt(s, i, j)
  }

  /** No whitespace character is changed by folding or is the first letter of "comments". */
  lemma SpaceIsNotLetter(c: char)
    ensures IsSpace(c) ==> Lower(c) == c && c != Comments[0]
  {
  }

  /** Two characters equal up to case are both whitespace or both not. */
  lemma SpaceRespectsFolding(a: char, b: char)
    requires Lower(a) == Lower(b)
    ensures IsSpace(a) <==> IsSpace(b)
  {
  }

  /** A match lies inside the text and begins with the first letters of both words. */
  lemma MatchBounds(s: string, i: nat, j: nat)
    ensures MatchAt(s, i, j) ==>
      && i + |Document| < j && j + |Comments| <= |s|
      && Lower(s[i]) == Document[0] && Lower(s[j]) == Comments[0]
  {
    if MatchAt(s, i, j) {
      assert Lower(s[i + 0]) == Document[0];
      assert Lower(s[j + 0]) == Comments[0];
    }
  }

  /** At a fixed start `i`, the end of the whitespace run is determined: it is
      the first non-whitespace position at or after `i + 8`. Hence a scan that
      skips the maximal run of whitespace finds every match starting at `i`. */
  lemma MatchEndIsRunEnd(s: string, i: nat, j: nat, b: nat)
    requires i + |Document| <= j <= |s|
    requires AllSpace(s, i + |Document|, j)
    requires j == |s| || !IsSpace(s[j])
    requires MatchAt(s, i, b)
    ensures b == j
  {
    MatchBounds(s, i, b);
    SpaceIsNotLetter(s[b]);
  }

  /** The scanning search: tries each start position in turn, as the regular
      expression engine does, and reports whether any match exists. */
  method Search(s: string) returns (found: bool)
    ensures found <==> PatternFound(s)
  {
    var i := 0;
    while i < |s|
      invariant 0 <= i <= |s|
      invariant forall a: nat, b: nat :: a < i ==> !MatchAt(s, a, b)
    {
      if WordAt(s, i, Document) {
        var j := i + |Document|;
        while j < |s| && IsSpace(s[j])
          invariant i + |Document| <= j <= |s|
          invariant AllSpace(s, i + |Document|, j)
        {
          j := j + 1;
        }
        if i + |Document| < j && WordAt(s, j, Comments) {
          assert MatchAt(s, i, j);
          return true;
        }
        forall b: nat | MatchAt(s, i, b)
          ensures false
        {
          MatchEndIsRunEnd(s, i, j, b);
        }
      }
      i := i + 1;
    }
    found := false;
    forall a: nat, b: nat
      ensures !MatchAt(s, a, b)
    {
      MatchBounds(s, a, b);
    }
  }

  /** `page_has_comments`: the raw-text check first, and only when it fails
      the structural fallback, whose answer is `selectorHit`. */
  method PageHasComments(html: string, selectorHit: bool) returns (present: bool)
    ensures present <==> PatternFound(html) || selectorHit
    ensures !PatternFound(html) ==> present == selectorHit
  {
    var regexHit := Search(html);
    if regexHit {
      return true;
    }
    present := selectorHit;
  }

  /** The phrase in any letter case, with any non-empty whitespace gap and any
      surrounding text, is found. */
  lemma PhraseIsFound(pre: string, d: string, gap: string, c: string, post: string)
    requires |d| == |Document| && WordAt(d, 0, Document)
    requires |gap| > 0 && AllSpace(gap, 0, |gap|)
    requires |c| == |Comments| && WordAt(c, 0, Comments)
    ensures PatternFound(pre + d + gap + c + post)
  {
    var s := pre + d + gap + c + post;
    var i := |pre|;
    var j := |pre| + |d| + |gap|;
    forall k | 0 <= k < |Document|
      ensures Lower(s[i + k]) == Document[k]
    {
      assert s[i + k] == d[0 + k];
    }
    forall k | 0 <= k < |Comments|
      ensures Lower(s[j + k]) == Comments[k]
    {
      assert s[j + k] == c[0 + k];
    }
    forall k | i + |Document| <= k < j
      ensures IsSpace(s[k])
    {
      assert s[k] == gap[k - i - |Document|];
    }
    assert MatchAt(s, i, j);
  }

  /** Text with no letter "d" in either case cannot match. */
  lemma NoDocumentNoMatch(s: string)
    requires forall k :: 0 <= k < |s| ==> Lower(s[k]) != Document[0]
    ensures !PatternFound(s)
  {
    forall i: nat, j: nat
      ensures !MatchAt(s, i, j)
    {
      MatchBounds(s, i, j);
    }
  }

  /** Changing the case of any letters leaves the search result unchanged:
      matches sit at the same positions in both texts. */
  lemma CaseDoesNotMatter(s: string, t: string)
    requires |s| == |t|
    requires forall k :: 0 <= k < |s| ==> Lower(s[k]) == Lower(t[k])
    ensures PatternFound(s) <==> PatternFound(t)
  {
    forall i: nat, j: nat
      ensures MatchAt(s, i, j) <==> MatchAt(t, i, j)
    {
      forall k | 0 <= k < |s|
        ensures IsSpace(s[k]) <==> IsSpace(t[k])
      {
        SpaceRespectsFolding(s[k], t[k]);
      }
    }
    if PatternFound(s) {
      var i: nat, j: nat :| MatchAt(s, i, j);
      assert MatchAt(t, i, j);
    }
    if PatternFound(t) {
      var i: nat, j: nat :| MatchAt(t, i, j);
      assert MatchAt(s, i, j);
    }
  }
}
