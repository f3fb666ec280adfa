/**
 * The Google Docs link check of the resume editor. The source tests the input
 * against `/https:\/\/docs\.google\.com\/document\/d\/([a-zA-Z0-9-_]+)/`, a
 * pattern with no anchors: it accepts any string that CONTAINS the document
 * prefix immediately followed by at least one id character. Here the search
 * is written out as a scan over start positions.
 */
module DocsLink {
  import opened Wrappers
  import opened JsText

  const DocsPrefix: string := "https://docs.google.com/document/d/"

  /** The class `[a-zA-Z0-9-_]`; the `-` after the range `0-9` is a literal dash. */
  predicate IsIdChar(c: char)
  {
    ('a' <= c <= 'z') || ('A' <= c <= 'Z') || ('0' <= c <= '9') || c == '-' || c == '_'
  }

  /** `p` occurs in `s` starting at index `i`. */
  predicate OccursAt(s: string, p: string, i: int)
  {
    0 <= i && i + |p| <= |s| && s[i..i + |p|] == p
  }

  /** `p` occurs in `a + p + b` right after `a`. */
  lemma OccursAfter(a: string, p: string, b: string)
    ensures OccursAt(a + p + b, p, |a|)
    ensures |a + p + b| == |a| + |p| + |b|
  {
    assert (a + p + b)[|a|..|a| + |p|] == p;
  }

  /** An occurrence in `s` is still one, shifted, in `pre + s + post`. */
  lemma OccursShifted(pre: string, s: string, post: string, p: string, i: int)
    requires OccursAt(s, p, i)
    ensures OccursAt(pre + s + post, p, |pre| + i)
  {
    assert (pre + s + post)[|pre| + i..|pre| + i + |p|] == s[i..i + |p|];
  }

  /** An occurrence followed by one more character splits `s` around `p` and that character. */
  lemma OccurrenceSplits(s: string, p: string, i: int)
    requires OccursAt(s, p, i) && i + |p| < |s|
    ensures s == s[..i] + p + [s[i + |p|]] + s[i + |p| + 1..]
  {
    assert s == s[..i] + s[i..i + |p|] + [s[i + |p|]] + s[i + |p| + 1..];
  }

  /** The pattern matches `s` at position `i`: the prefix, then one id character. */
  predicate MatchesAt(s: string, i: int)
  {
    OccursAt(s, DocsPrefix, i) && i + |DocsPrefix| < |s| && IsIdChar(s[i + |DocsPrefix|])
  }

  /** The leftmost position at or after `from` where the pattern matches, if any. */
  function FirstMatchFrom(s: string, from: nat): (r: Option<nat>)
    requires from <= |s|
    ensures r.Some? ==> from <= r.value && MatchesAt(s, r.value)
    ensures r.Some? ==> forall j :: from <= j < r.value ==> !MatchesAt(s, j)
    ensures r.None? ==> forall j :: from <= j ==> !MatchesAt(s, j)
    decreases |s| - from
  {
    if from + |DocsPrefix| >= |s| then None
    else if MatchesAt(s, from) then Some(from)
    else FirstMatchFrom(s, from + 1)
  }

  /** `validateGoogleDocsLink(url)`: the pattern matches somewhere in `url`. */
  function ValidateGoogleDocsLink(url: string): (r: bool)
    ensures r <==> exists i :: MatchesAt(url, i)
  {
    FirstMatchFrom(url, 0).Some?
  }

  /** Any text may come before the prefix and after the first id character. */
  lemma AcceptsEmbeddedLink(before: string, c: char, after: string)
    requires IsIdChar(c)
    ensures ValidateGoogleDocsLink(before + DocsPrefix + [c] + after)
  {
    var s := before + DocsPrefix + [c] + after;
    OccursAfter(before, DocsPrefix, [c] + after);
    assert s == before + DocsPrefix + ([c] + after);
    assert s[|before| + |DocsPrefix|] == c;
    assert MatchesAt(s, |before|);
  }

  /** Conversely, every accepted link is such a string. */
  lemma AcceptedLinkDecomposes(url: string) returns (before: string, c: char, after: string)
    requires ValidateGoogleDocsLink(url)
    ensures IsIdChar(c)
    ensures url == before + DocsPrefix + [c] + after
  {
    var i :| MatchesAt(url, i);
    var n := |DocsPrefix|;
    OccurrenceSplits(url, DocsPrefix, i);
    before, c, after := url[..i], url[i + n], url[i + n + 1..];
  }

  /** Adding text on either side never turns an accepted link into a rejected one. */
  lemma AcceptanceSurvivesExtension(pre: string, url: string, post: string)
    requires ValidateGoogleDocsLink(url)
    ensures ValidateGoogleDocsLink(pre + url + post)
  {
    var i :| MatchesAt(url, i);
    var n := |DocsPrefix|;
    OccursShifted(pre, url, post, DocsPrefix, i);
    assert (pre + url + post)[|pre| + i + n] == url[i + n];
    assert MatchesAt(pre + url + post, |pre| + i);
  }

  /** An accepted link contains a non-whitespace character, so it is never blank. */
  lemma AcceptedLinkIsNotBlank(url: string)
    ensures ValidateGoogleDocsLink(url) ==> !IsBlank(url)
  {
    if ValidateGoogleDocsLink(url) {
      var i :| MatchesAt(url, i);
      assert url[i] == url[i..i + |DocsPrefix|][0] == 'h';
    }
  }

  /** Nothing as short as the prefix itself can be accepted: the id needs one more character. */
  lemma ShortInputRejected(url: string)
    requires |url| <= |DocsPrefix|
    ensures !ValidateGoogleDocsLink(url)
  {
  }

  /** A typical document link, prefix plus id, is accepted. */
  lemma SampleLinkAccepted()
    ensures ValidateGoogleDocsLink("https://docs.google.com/document/d/ABC123xyz")
  {
    assert "https://docs.google.com/document/d/ABC123xyz" == "" + DocsPrefix + ['A'] + "BC123xyz";
    AcceptsEmbeddedLink("", 'A', "BC123xyz");
  }

  /** A link to another site, the empty string and the bare prefix are rejected. */
  lemma SampleLinksRejected()
    ensures !ValidateGoogleDocsLink("https://example.com/doc")
    ensures !ValidateGoogleDocsLink("")
    ensures !ValidateGoogleDocsLink(DocsPrefix)
  {
    ShortInputRejected("https://example.com/doc");
    ShortInputRejected("");
    ShortInputRejected(DocsPrefix);
  }
}
