/**
 * lib/duplicate-content-checker.ts: the content hash used to spot identical
 * posts, the word-set (Jaccard) similarity of two texts, and the weighted
 * duplicate verdict built from them.
 */
module DuplicateContent {
  import opened Text
  import opened Numbers
  import opened ContentHash

  /** `content.toLowerCase().replace(/\s+/g, ' ').trim()`. */
  function NormalizeContent(content: string): (r: string)
    ensures SpaceNormal(r) && NoUpper(r)
  {
    var c := CollapseSpaces(Lower(content));
    NormalizeSpacesNormal(Lower(content));
    ReplaceSpaceRunsKeeps(Lower(content), ' ', (ch: char) => !IsUpperAscii(ch));
    TrimKeeps(c, (ch: char) => !IsUpperAscii(ch));
    Trim(c)
  }

  /** The hash text that `generateContentHash(content)` returns. */
  function ContentHashText(content: string): string {
    Render(StringHash(NormalizeContent(content)))
  }

  /** `generateContentHash`: the hash loop over the normalised text, rendered in base 36. */
  method GenerateContentHash(content: string) returns (r: string)
    ensures r == ContentHashText(content)
    ensures |r| >= 1 && forall i :: 0 <= i < |r| ==> IsBase36Char(r[i])
  {
    var normalized := NormalizeContent(content);
    var hash := Hash31(normalized);
    r := Render(hash);
  }

  /** Normalising twice is normalising once. */
  lemma NormalizeContentIdempotent(content: string)
    ensures NormalizeContent(NormalizeContent(content)) == NormalizeContent(content)
  {
    var n := NormalizeContent(content);
    LowerOfNoUpper(n);
    NormalizeSpacesIdempotent(Lower(content));
  }

  /** Case and whitespace layout do not change the hash: a normalised text hashes like the original. */
  lemma HashIgnoresCaseAndSpacing(content: string)
    ensures ContentHashText(NormalizeContent(content)) == ContentHashText(content)
  {
    NormalizeContentIdempotent(content);
  }

  /** Text that is empty or only whitespace hashes to "0". */
  lemma BlankContentHashesToZero(content: string)
    requires forall i :: 0 <= i < |content| ==> IsSpace(content[i])
    ensures ContentHashText(content) == "0"
  {
    var l := Lower(content);
    assert forall i :: 0 <= i < |l| ==> IsSpace(l[i]) by {
      forall i | 0 <= i < |l|
        ensures IsSpace(l[i])
      {
        assert l[i] == LowerChar(content[i]);
      }
    }
    NormalizeAllSpace(l);
  }

  /** The set of words of `text.toLowerCase().split(/\s+/)`; never empty, since split yields at least one piece. */
  function WordSet(text: string): (r: set<string>)
    ensures r != {}
  {
    var words := SplitOnSpaces(Lower(text));
    var r := set w | w in words;
    assert words[0] in r;
    r
  }

  /** `calculateSimilarity`: |words1 ∩ words2| / |words1 ∪ words2|. */
  function CalculateSimilarity(text1: string, text2: string): (r: real)
    ensures 0.0 <= r <= 1.0
    ensures WordSet(text1) == WordSet(text2) ==> r == 1.0
    ensures WordSet(text1) !! WordSet(text2) ==> r == 0.0
  {
    var a, b := WordSet(text1), WordSet(text2);
    JaccardBound(a, b);
    Ratio(|a * b|, |a + b|)
  }

  /** `n / d` for counts with `n <= d`. */
  function Ratio(n: nat, d: nat): (r: real)
    requires 0 < d && n <= d
    ensures 0.0 <= r <= 1.0
    ensures n == d ==> r == 1.0
    ensures n == 0 ==> r == 0.0
  {
    var q := (n as real) / (d as real);
    QuotientBounds(n, d);
    q
  }

  lemma JaccardBound(a: set<string>, b: set<string>)
    requires a != {}
    ensures 1 <= |a| <= |a + b|
    ensures |a * b| <= |a + b|
    ensures a == b ==> |a * b| == |a + b|
  {
    assert a + b == (a - b) + (b - a) + (a * b);
    assert a == (a - b) + (a * b);
    if a == b {
      assert a * b == a + b;
    }
  }

  /** Similarity does not depend on argument order. */
  lemma SimilaritySymmetric(text1: string, text2: string)
    ensures CalculateSimilarity(text1, text2) == CalculateSimilarity(text2, text1)
  {
    var a, b := WordSet(text1), WordSet(text2);
    assert a * b == b * a;
    assert a + b == b + a;
  }

  /** A text is fully similar to itself. */
  lemma SimilarityReflexive(text: string)
    ensures CalculateSimilarity(text, text) == 1.0
  {
  }

  /** The fields `checkDuplicateContent` compares. */
  datatype ContentCheck = ContentCheck(title: string, description: string, canonicalUrl: string, contentHash: string)

  /** The reasons, in the order the check reports them. */
  datatype Reason = TitleVerySimilar | DescriptionVerySimilar | ContentIdentical | CanonicalUrlSame

  datatype DuplicateReport = DuplicateReport(isDuplicate: bool, similarity: real, reasons: seq<Reason>)

  /** The weighted score: 0.4 of a title similarity above 0.8, 0.3 of a description similarity above 0.8, 0.3 for an equal hash. */
  function Score(titleSim: real, descSim: real, sameHash: bool): real {
    (if titleSim > 0.8 then titleSim * 0.4 else 0.0)
    + (if descSim > 0.8 then descSim * 0.3 else 0.0)
    + (if sameHash then 0.3 else 0.0)
  }

  /** The score stays within [0, 1] for similarities within [0, 1]. */
  lemma ScoreBounds(titleSim: real, descSim: real, sameHash: bool)
    requires 0.0 <= titleSim <= 1.0 && 0.0 <= descSim <= 1.0
    ensures 0.0 <= Score(titleSim, descSim, sameHash) <= 1.0
  {
  }

  /**
   * The threshold 0.7 is crossed exactly when all three signals fire:
   * similar titles, similar descriptions and identical content.
   */
  lemma DuplicateIffAllSignals(titleSim: real, descSim: real, sameHash: bool)
    requires 0.0 <= titleSim <= 1.0 && 0.0 <= descSim <= 1.0
    ensures Score(titleSim, descSim, sameHash) > 0.7 <==> titleSim > 0.8 && descSim > 0.8 && sameHash
  {
  }

  /** The reasons reported, in order, for the given signals. */
  function Reasons(titleSim: real, descSim: real, sameHash: bool, sameCanonical: bool): seq<Reason> {
    (if titleSim > 0.8 then [TitleVerySimilar] else [])
    + (if descSim > 0.8 then [DescriptionVerySimilar] else [])
    + (if sameHash then [ContentIdentical] else [])
    + (if sameCanonical then [CanonicalUrlSame] else [])
  }

  /**
   * The accumulation in `checkDuplicateContent` once both similarities are known:
   * each signal that fires appends its reason and adds its weight.
   */
  method Verdict(titleSimilarity: real, descSimilarity: real, sameHash: bool, sameCanonical: bool) returns (report: DuplicateReport)
    requires 0.0 <= titleSimilarity <= 1.0 && 0.0 <= descSimilarity <= 1.0
    ensures report.similarity == Score(titleSimilarity, descSimilarity, sameHash)
    ensures 0.0 <= report.similarity <= 1.0
    ensures report.isDuplicate <==> titleSimilarity > 0.8 && descSimilarity > 0.8 && sameHash
    ensures report.reasons == Reasons(titleSimilarity, descSimilarity, sameHash, sameCanonical)
  {
    var reasons: seq<Reason> := [];
    var similarity := 0.0;
    if titleSimilarity > 0.8 {
      reasons := reasons + [TitleVerySimilar];
      similarity := similarity + titleSimilarity * 0.4;
    }
    assert reasons == (if titleSimilarity > 0.8 then [TitleVerySimilar] else []);
    if descSimilarity > 0.8 {
      reasons := reasons + [DescriptionVerySimilar];
      similarity := similarity + descSimilarity * 0.3;
    }
    assert reasons == Reasons(titleSimilarity, descSimilarity, false, false);
    if sameHash {
      reasons := reasons + [ContentIdentical];
      similarity := similarity + 0.3;
    }
    assert similarity == Score(titleSimilarity, descSimilarity, sameHash);
    assert reasons == Reasons(titleSimilarity, descSimilarity, sameHash, false);
    if sameCanonical {
      reasons := reasons + [CanonicalUrlSame];
    }
    assert reasons == Reasons(titleSimilarity, descSimilarity, sameHash, sameCanonical);
    ScoreBounds(titleSimilarity, descSimilarity, sameHash);
    DuplicateIffAllSignals(titleSimilarity, descSimilarity, sameHash);
    report := DuplicateReport(similarity > 0.7, similarity, reasons);
  }

  /** `checkDuplicateContent`: title and description similarity, hash and canonical URL comparison, then the verdict. */
  method CheckDuplicateContent(content1: ContentCheck, content2: ContentCheck) returns (report: DuplicateReport)
    ensures var ts := CalculateSimilarity(content1.title, content2.title);
            var ds := CalculateSimilarity(content1.description, content2.description);
            var same := content1.contentHash == content2.contentHash;
            && report.similarity == Score(ts, ds, same)
            && 0.0 <= report.similarity <= 1.0
            && (report.isDuplicate <==> ts > 0.8 && ds > 0.8 && same)
            && report.reasons == Reasons(ts, ds, same, content1.canonicalUrl == content2.canonicalUrl)
  {
    var titleSimilarity := CalculateSimilarity(content1.title, content2.title);
    var descSimilarity := CalculateSimilarity(content1.description, content2.description);
    report := Verdict(titleSimilarity, descSimilarity,
                      content1.contentHash == content2.contentHash, content1.canonicalUrl == content2.canonicalUrl);
  }

  /** Two copies of the same post are always reported as duplicates. */
  lemma SelfIsDuplicate(c: ContentCheck)
    ensures Score(CalculateSimilarity(c.title, c.title), CalculateSimilarity(c.description, c.description), true) > 0.7
  {
    SimilarityReflexive(c.title);
    SimilarityReflexive(c.description);
  }
}
