/**
 * lib/seo-utils.ts: keyword checks on headings and descriptions, the content
 * fingerprint, and the shape test for semantic URLs.
 */
module SeoUtils {
  import opened Text
  import opened Numbers
  import opened ContentHash
  import DuplicateContent

  /** `hasKeywordInHeading`: some keyword, lower-cased, occurs in the lower-cased heading. */
  function HasKeywordInHeading(heading: string, keywords: seq<string>): (r: bool)
    ensures r <==> exists i :: 0 <= i < |keywords| && Contains(Lower(heading), Lower(keywords[i]))
  {
    if keywords == [] then false
    else
      var rest := HasKeywordInHeading(heading, keywords[1..]);
      assert forall i :: 1 <= i < |keywords| ==> keywords[i] == keywords[1..][i - 1];
      Contains(Lower(heading), Lower(keywords[0])) || rest
  }

  /** `optimizeHeading`: keep a heading that already has a keyword, otherwise put the first keyword in front. */
  function OptimizeHeading(heading: string, keywords: seq<string>): (r: string)
    ensures keywords == [] || HasKeywordInHeading(heading, keywords) ==> r == heading
    ensures keywords != [] && !HasKeywordInHeading(heading, keywords) ==> r == keywords[0] + " " + heading
    ensures keywords != [] ==> HasKeywordInHeading(r, keywords)
  {
    if keywords == [] || HasKeywordInHeading(heading, keywords) then heading
    else
      PrefixedHasKeyword(keywords[0], heading);
      keywords[0] + " " + heading
  }

  lemma PrefixedHasKeyword(keyword: string, heading: string)
    ensures Contains(Lower(keyword + " " + heading), Lower(keyword))
  {
    LowerAppend(keyword, " " + heading);
    var l := Lower(keyword + " " + heading);
    assert l[..|keyword|] == Lower(keyword);
    assert OccursAt(l, Lower(keyword), 0);
  }

  /** The heading `optimizeHeading` returns is a fixed point: optimising it again changes nothing. */
  lemma OptimizeHeadingIdempotent(heading: string, keywords: seq<string>)
    ensures OptimizeHeading(OptimizeHeading(heading, keywords), keywords) == OptimizeHeading(heading, keywords)
  {
  }

  /** `getKeywordPosition`: the first index of the lower-cased keyword in the lower-cased description, or -1. */
  function GetKeywordPosition(description: string, keyword: string): (r: int)
    ensures r == -1 <==> !Contains(Lower(description), Lower(keyword))
    ensures r != -1 ==> OccursAt(Lower(description), Lower(keyword), r)
    ensures forall j :: 0 <= j && (r == -1 || j < r) ==> !OccursAt(Lower(description), Lower(keyword), j)
  {
    IndexOfSpec(Lower(description), Lower(keyword));
    IndexOf(Lower(description), Lower(keyword))
  }

  /** A keyword has a position in a text exactly when the text, as a heading, contains it. */
  lemma PositionAgreesWithHeadingCheck(text: string, keyword: string)
    ensures GetKeywordPosition(text, keyword) >= 0 <==> HasKeywordInHeading(text, [keyword])
  {
  }

  /** The text `generateContentFingerprint(content)` returns. */
  function FingerprintText(content: string): string {
    Render(StringHash(content))
  }

  /** `generateContentFingerprint`: the hash loop over the raw content, rendered in base 36. */
  method GenerateContentFingerprint(content: string) returns (r: string)
    ensures r == FingerprintText(content)
    ensures |r| >= 1 && forall i :: 0 <= i < |r| ==> IsBase36Char(r[i])
  {
    var hash := Hash31(content);
    r := Render(hash);
  }

  /**
   * The fingerprint is the duplicate checker's content hash without the
   * normalisation: the two agree on text that is already normalised.
   */
  lemma FingerprintOfNormalizedIsContentHash(content: string)
    ensures FingerprintText(DuplicateContent.NormalizeContent(content)) == DuplicateContent.ContentHashText(content)
  {
  }

  /** The fingerprint of empty content is "0": the hash loop never runs. */
  lemma EmptyFingerprintIsZero()
    ensures FingerprintText("") == "0"
  {
    DuplicateContent.BlankContentHashesToZero("");
    FingerprintOfNormalizedIsContentHash("");
    assert DuplicateContent.NormalizeContent("") == "";
  }

  predicate IsPathChar(c: char) {
    IsLowerAscii(c) || IsDigit(c) || c == '-'
  }

  /** `[a-z0-9-]+(\/[a-z0-9-]+)*$`: one or more segments separated by single slashes, to the end. */
  predicate SegmentsMatch(s: string)
    decreases |s|
  {
    var k := FindChar(s, '/');
    && k > 0
    && (forall i :: 0 <= i < k ==> IsPathChar(s[i]))
    && (k == |s| || SegmentsMatch(s[k + 1..]))
  }

  /** `isSemanticUrl`: the pattern `^\/[a-z0-9-]+(\/[a-z0-9-]+)*$`. */
  predicate IsSemanticUrl(url: string) {
    |url| >= 1 && url[0] == '/' && SegmentsMatch(url[1..])
  }

  /** The segment part of the pattern, described by its characters. */
  predicate SegmentShape(s: string) {
    && |s| >= 1 && s[0] != '/' && s[|s| - 1] != '/'
    && (forall i :: 0 <= i < |s| ==> s[i] == '/' || IsPathChar(s[i]))
    && (forall i :: 0 <= i < |s| - 1 ==> !(s[i] == '/' && s[i + 1] == '/'))
  }

  /**
   * A semantic URL described by its characters: it starts with '/', has
   * something after it, does not end with '/', uses only lower-case ASCII
   * letters, digits, '-' and '/', and never has two slashes in a row.
   */
  predicate SemanticShape(url: string) {
    && |url| >= 2 && url[0] == '/' && url[|url| - 1] != '/'
    && (forall i :: 0 <= i < |url| ==> url[i] == '/' || IsPathChar(url[i]))
    && (forall i :: 0 <= i < |url| - 1 ==> !(url[i] == '/' && url[i + 1] == '/'))
  }

  lemma {:induction false} SegmentsMatchIff(s: string)
    ensures SegmentsMatch(s) <==> SegmentShape(s)
    decreases |s|
  {
    var k := FindChar(s, '/');
    if k > 0 && forall i :: 0 <= i < k ==> IsPathChar(s[i]) {
      if k < |s| {
        SegmentsMatchIff(s[k + 1..]);
        ShapeAfterSlash(s, k);
      }
    } else if k > 0 {
      var i :| 0 <= i < k && !IsPathChar(s[i]);
      assert s[i] != '/';
    }
  }

  /** Cutting a segment shape after its first segment and slash leaves a segment shape, and conversely. */
  lemma ShapeAfterSlash(s: string, k: nat)
    requires 0 < k < |s| && s[k] == '/'
    requires forall i :: 0 <= i < k ==> IsPathChar(s[i])
    ensures SegmentShape(s) <==> SegmentShape(s[k + 1..])
  {
    var rest := s[k + 1..];
    assert forall i :: 0 <= i < |rest| ==> rest[i] == s[k + 1 + i];
    if SegmentShape(rest) {
      assert s[|s| - 1] == rest[|rest| - 1];
      forall i | 0 <= i < |s| - 1
        ensures !(s[i] == '/' && s[i + 1] == '/')
      {
        if i > k {
          assert s[i] == rest[i - k - 1] && s[i + 1] == rest[i - k];
        }
      }
    }
    if SegmentShape(s) {
      assert k < |s| - 1;
      assert rest[0] != '/' by {
        assert !(s[k] == '/' && s[k + 1] == '/');
      }
      assert rest[|rest| - 1] == s[|s| - 1];
      forall i | 0 <= i < |rest| - 1
        ensures !(rest[i] == '/' && rest[i + 1] == '/')
      {
        assert rest[i] == s[k + 1 + i] && rest[i + 1] == s[k + 2 + i];
      }
    }
  }

  /** The recogniser accepts exactly the URLs of the character description. */
  lemma IsSemanticUrlIff(url: string)
    ensures IsSemanticUrl(url) <==> SemanticShape(url)
  {
    if |url| >= 1 {
      var s := url[1..];
      SegmentsMatchIff(s);
      assert forall i :: 0 <= i < |s| ==> s[i] == url[i + 1];
      if SemanticShape(url) {
        assert s[0] != '/' by {
          assert !(url[0] == '/' && url[1] == '/');
        }
        assert s[|s| - 1] == url[|url| - 1];
        assert forall i :: 0 <= i < |s| - 1 ==> !(s[i] == '/' && s[i + 1] == '/') by {
          forall i | 0 <= i < |s| - 1
            ensures !(s[i] == '/' && s[i + 1] == '/')
          {
            assert s[i] == url[i + 1] && s[i + 1] == url[i + 2];
          }
        }
      }
      if IsSemanticUrl(url) {
        forall i | 0 <= i < |url| - 1
          ensures !(url[i] == '/' && url[i + 1] == '/')
        {
          if i > 0 {
            assert url[i] == s[i - 1] && url[i + 1] == s[i];
          }
        }
        assert url[|url| - 1] == s[|s| - 1];
      }
    }
  }

  /** A two-segment URL such as `/tools/tax-free` is accepted. */
  lemma SemanticUrlAccepted()
    ensures IsSemanticUrl("/tools/tax-free")
  {
    var url := "/tools/tax-free";
    assert forall i :: 0 <= i < |url| ==> url[i] == '/' || IsPathChar(url[i]);
    assert forall i :: 0 <= i < |url| - 1 ==> !(url[i] == '/' && url[i + 1] == '/');
    IsSemanticUrlIff(url);
  }

  /** A URL holding a character outside `[a-z0-9-/]` is rejected. */
  lemma ForeignCharRejected(url: string, i: nat)
    requires i < |url| && url[i] != '/' && !IsPathChar(url[i])
    ensures !IsSemanticUrl(url)
  {
    IsSemanticUrlIff(url);
  }

  /** The query-string URL from the source's comment is rejected. */
  lemma QueryUrlRejected()
    ensures !IsSemanticUrl("/page?id=123")
  {
    ForeignCharRejected("/page?id=123", 5);
  }

  /** A bare slash and a trailing slash are rejected. */
  lemma SlashEdgesRejected()
    ensures !IsSemanticUrl("/") && !IsSemanticUrl("/guide/")
  {
    IsSemanticUrlIff("/");
    IsSemanticUrlIff("/guide/");
  }

  /** Doubled slashes and upper-case letters are rejected. */
  lemma SemanticUrlRejectsDoubleSlashAndUpper()
    ensures !IsSemanticUrl("/a//b") && !IsSemanticUrl("/Guide")
  {
    IsSemanticUrlIff("/a//b");
    assert "/a//b"[2] == '/' && "/a//b"[3] == '/';
    IsSemanticUrlIff("/Guide");
    assert "/Guide"[1] == 'G';
  }
}
