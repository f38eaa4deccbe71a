/**
 * The meta-tag recogniser that app/head.tsx and
 * components/layout/MetaTags.tsx both apply to the webmaster verification
 * snippets: `html.match(/name=["']([^"']+)["']/)` and the same for
 * `content=`.
 */
module MetaTag {
  import opened Wrappers
  import opened Text

  predicate IsQuote(c: char) {
    c == '"' || c == '\''
  }

  predicate QuoteFree(s: string) {
    forall i :: 0 <= i < |s| ==> !IsQuote(s[i])
  }

  /** The length of the longest quote-free prefix of `s`. */
  function QuoteFreeRun(s: string): (n: nat)
    ensures n <= |s| && QuoteFree(s[..n])
    ensures n < |s| ==> IsQuote(s[n])
  {
    if s == [] || IsQuote(s[0]) then 0
    else
      var n := QuoteFreeRun(s[1..]);
      assert s[..n + 1] == [s[0]] + s[1..][..n];
      n + 1
  }

  /**
   * The pattern `key`, a quote, one or more non-quote characters and a
   * quote matches at index `i`. The greedy `[^"']+` can only stop at a
   * quote, so the value is the whole quote-free run after the first quote.
   */
  predicate MatchesAt(html: string, key: string, i: nat) {
    var start := i + |key| + 1;
    start <= |html| && html[i..i + |key|] == key && IsQuote(html[i + |key|])
    && QuoteFreeRun(html[start..]) >= 1 && start + QuoteFreeRun(html[start..]) < |html|
  }

  /** The captured group of the match at `i`. */
  function CapturedAt(html: string, key: string, i: nat): (v: string)
    requires MatchesAt(html, key, i)
    ensures v != [] && QuoteFree(v)
    ensures i + |key| + 1 + |v| < |html|
    ensures OccursAt(html, key + [html[i + |key|]] + v + [html[i + |key| + 1 + |v|]], i)
    ensures IsQuote(html[i + |key|]) && IsQuote(html[i + |key| + 1 + |v|])
  {
    var start := i + |key| + 1;
    var v := html[start..][..QuoteFreeRun(html[start..])];
    assert html[i..start + |v| + 1] == html[i..i + |key|] + [html[i + |key|]] + v + [html[start + |v|]];
    v
  }

  /** The leftmost match at or after `from`, as the regular-expression search finds it. */
  function FirstMatchFrom(html: string, key: string, from: nat): (r: Option<nat>)
    ensures r.Some? ==> from <= r.value && MatchesAt(html, key, r.value)
    ensures forall j :: from <= j && (r.None? || j < r.value) ==> !MatchesAt(html, key, j)
    decreases |html| - from
  {
    if from + |key| + 1 > |html| then None
    else if MatchesAt(html, key, from) then Some(from)
    else FirstMatchFrom(html, key, from + 1)
  }

  /** `html.match(/<key>["']([^"']+)["']/)?.[1]`. */
  function Attribute(html: string, key: string): (r: Option<string>)
    ensures r.Some? ==> r.value != [] && QuoteFree(r.value)
    ensures r.Some? <==> exists i :: MatchesAt(html, key, i)
  {
    match FirstMatchFrom(html, key, 0)
    case None => None
    case Some(i) => Some(CapturedAt(html, key, i))
  }

  /** Among several matches the leftmost is taken. */
  lemma LeftmostAttribute(html: string, key: string, i: nat)
    requires MatchesAt(html, key, i)
    requires forall j: nat :: j < i ==> !MatchesAt(html, key, j)
    ensures Attribute(html, key) == Some(CapturedAt(html, key, i))
  {
    var r := FirstMatchFrom(html, key, 0);
    assert r.Some?;
  }

  datatype MetaTag = MetaTag(name: string, content: string)

  /** `parseMetaTag`, the part of `createMetaTagScript` before the template: both attributes, or nothing. */
  function ParseMetaTag(html: string): (r: Option<MetaTag>)
    ensures r.Some? <==> Attribute(html, "name=").Some? && Attribute(html, "content=").Some?
    ensures r.Some? ==> r.value.name == Attribute(html, "name=").value && r.value.content == Attribute(html, "content=").value
    ensures r.Some? ==> r.value.name != [] && QuoteFree(r.value.name) && r.value.content != [] && QuoteFree(r.value.content)
  {
    match (Attribute(html, "name="), Attribute(html, "content="))
    case (Some(name), Some(content)) => Some(MetaTag(name, content))
    case _ => None
  }

  /** No match of `key` starts before index `i` when `key`'s first character does not occur there. */
  lemma NoMatchBefore(html: string, key: string, i: nat)
    requires key != [] && i <= |html|
    requires forall j :: 0 <= j < i ==> html[j] != key[0]
    ensures forall j: nat :: j < i ==> !MatchesAt(html, key, j)
  {
    forall j: nat | j < i
      ensures !MatchesAt(html, key, j)
    {
      if j + |key| + 1 <= |html| {
        assert html[j..j + |key|][0] == html[j];
      }
    }
  }

  lemma {:induction false} QuoteFreeRunOf(s: string, n: nat)
    requires n < |s| && QuoteFree(s[..n]) && IsQuote(s[n])
    ensures QuoteFreeRun(s) == n
  {
    if n > 0 {
      assert s[1..][..n - 1] == s[1..n];
      QuoteFreeRunOf(s[1..], n - 1);
    }
  }

  /** `key`, a quote, the non-empty quote-free `v` and a quote at `i` make a match that captures `v`. */
  lemma MatchOf(html: string, key: string, i: nat, v: string)
    requires i + |key| + 1 + |v| < |html| && v != [] && QuoteFree(v)
    requires html[i..i + |key|] == key && IsQuote(html[i + |key|])
    requires html[i + |key| + 1..i + |key| + 1 + |v|] == v && IsQuote(html[i + |key| + 1 + |v|])
    ensures MatchesAt(html, key, i) && CapturedAt(html, key, i) == v
  {
    var start := i + |key| + 1;
    assert html[start..][..|v|] == v;
    QuoteFreeRunOf(html[start..], |v|);
  }

  /** The snippet a search console hands out: `<meta name="…" content="…" />`. */
  function Snippet(name: string, content: string): string {
    SnippetHead + name + SnippetMiddle + content + "\" />"
  }

  const SnippetHead: string := "<meta name=\""
  const SnippetMiddle: string := "\" content=\""

  /**
   * A snippet of the usual shape gives back its name and content, as long
   * as they are non-empty, quote-free and the name does not itself hold
   * `content=`.
   */
  lemma ParsesSnippet(name: string, content: string)
    requires name != [] && QuoteFree(name) && content != [] && QuoteFree(content)
    requires !Contains(name, "content=")
    ensures ParseMetaTag(Snippet(name, content)) == Some(MetaTag(name, content))
  {
    var html := Snippet(name, content);
    SnippetLayout(name, content);
    SnippetName(html, name);
    var m := 12 + |name|;
    MatchOf(html, "content=", m + 2, content);
    ContentNotBefore(html, name, m + 2);
    LeftmostAttribute(html, "content=", m + 2);
  }

  /** Where the pieces of a snippet sit. */
  lemma SnippetLayout(name: string, content: string)
    ensures var html := Snippet(name, content);
            var m := 12 + |name|;
            && |html| == m + 11 + |content| + 4
            && html[..12] == SnippetHead && html[12..m] == name && html[m..m + 2] == "\" "
            && html[6..11] == "name=" && html[11] == '"' && html[m] == '"'
            && html[m + 2..m + 10] == "content=" && html[m + 10] == '"'
            && html[m + 11..m + 11 + |content|] == content && html[m + 11 + |content|] == '"'
  {
    var html := Snippet(name, content);
    var m := 12 + |name|;
    assert |SnippetHead| == 12 && |SnippetMiddle| == 11;
    assert SnippetHead[6..11] == "name=" && SnippetMiddle[2..10] == "content=" && SnippetMiddle[..2] == "\" ";
    assert html[..12] == SnippetHead && html[m..m + 11] == SnippetMiddle;
    assert html[6..11] == SnippetHead[6..11];
    assert html[m + 2..m + 10] == SnippetMiddle[2..10];
    assert html[m..m + 2] == SnippetMiddle[..2];
  }

  lemma SnippetName(html: string, name: string)
    requires name != [] && QuoteFree(name) && 12 + |name| < |html|
    requires html[..12] == SnippetHead && html[12..12 + |name|] == name
    requires html[6..11] == "name=" && html[11] == '"' && html[12 + |name|] == '"'
    ensures Attribute(html, "name=") == Some(name)
  {
    MatchOf(html, "name=", 6, name);
    forall j | 0 <= j < 6
      ensures html[j] != 'n'
    {
      assert html[j] == SnippetHead[j];
    }
    NoMatchBefore(html, "name=", 6);
    LeftmostAttribute(html, "name=", 6);
  }

  lemma ContentNotBefore(html: string, name: string, i: nat)
    requires i == 14 + |name| && i + 8 <= |html|
    requires html[..12] == SnippetHead && html[12..i - 2] == name && html[i - 2..i] == "\" "
    requires !Contains(name, "content=")
    ensures forall j: nat :: j < i ==> !MatchesAt(html, "content=", j)
  {
    var key := "content=";
    assert forall t :: 0 <= t < 8 ==> key[t] != '"';
    forall j: nat | j < i
      ensures !MatchesAt(html, key, j)
    {
      if j < 12 || j >= i - 2 {
        if j < 12 {
          assert html[j] == SnippetHead[j];
        } else {
          assert html[j] == "\" "[j - (i - 2)];
        }
        assert html[j..j + 8][0] == html[j];
      } else if j + 8 <= i - 2 {
        var w, v := html[j..j + 8], name[j - 12..j - 4];
        forall t | 0 <= t < 8
          ensures v[t] == w[t]
        {
          assert v[t] == html[12..i - 2][j - 12 + t];
        }
        assert v == w;
        assert !OccursAt(name, key, j - 12);
      } else {
        var k := i - 2 - j;
        assert html[i - 2] == '"';
        assert html[j..j + 8][k] == '"';
      }
    }
  }

  /** The pattern takes either quote at each end, so mismatched quotes are accepted. */
  lemma MismatchedQuotesAccepted()
    ensures Attribute("name=\"x'", "name=") == Some("x")
  {
    var html := "name=\"x'";
    assert html[0..5] == "name=" && html[6..7] == "x";
    MatchOf(html, "name=", 0, "x");
    LeftmostAttribute(html, "name=", 0);
  }

  /** Without any quote character there is nothing to capture, so no tag. */
  lemma UnquotedRejected(html: string)
    requires QuoteFree(html)
    ensures ParseMetaTag(html) == None
  {
    forall i: nat
      ensures !MatchesAt(html, "name=", i)
    {
      if i + 6 <= |html| {
        assert !IsQuote(html[i + 5]);
      }
    }
  }
}
