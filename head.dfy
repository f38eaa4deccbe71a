/**
 * app/head.tsx: the global `<head>`. The webmaster verification snippets
 * from the site settings become `<meta>` elements only when both their
 * name and content can be read.
 */
module Head {
  import opened Wrappers
  import opened MetaTag

  /** The head-related site settings; a setting that is not configured is "". */
  datatype SiteScripts = SiteScripts(googleWebmaster: string, naverWebmaster: string, customHead: string)

  datatype HeadElement =
    | Charset(charset: string)
    | Meta(tag: MetaTag)
    | InlineScript(html: string)

  /** `setting ? parseMetaTag(setting) : null`. */
  function WebmasterMeta(setting: string): (r: Option<MetaTag>)
    ensures r == ParseMetaTag(setting)
  {
    if setting == "" then None else ParseMetaTag(setting)
  }

  function MetaIfParsed(tag: Option<MetaTag>): seq<HeadElement> {
    if tag.Some? then [Meta(tag.value)] else []
  }

  /** The three elements `Head` always renders first. */
  function FixedElements(siteName: string): seq<HeadElement> {
    [Charset("utf-8"),
     Meta(MetaTag("viewport", "width=device-width, initial-scale=1, viewport-fit=cover")),
     Meta(MetaTag("application-name", siteName))]
  }

  /** The elements that follow the fixed three: the webmaster tags that parse, then the custom script. */
  function ConfiguredElements(scripts: SiteScripts): seq<HeadElement> {
    MetaIfParsed(WebmasterMeta(scripts.googleWebmaster))
    + MetaIfParsed(WebmasterMeta(scripts.naverWebmaster))
    + (if scripts.customHead != "" then [InlineScript(scripts.customHead)] else [])
  }

  /** The elements `Head` renders, in order. */
  function HeadElements(siteName: string, scripts: SiteScripts): (r: seq<HeadElement>)
    ensures |r| >= 3
    ensures r[..3] == [Charset("utf-8"),
                       Meta(MetaTag("viewport", "width=device-width, initial-scale=1, viewport-fit=cover")),
                       Meta(MetaTag("application-name", siteName))]
  {
    var fixed := FixedElements(siteName);
    assert (fixed + ConfiguredElements(scripts))[..3] == fixed;
    fixed + ConfiguredElements(scripts)
  }

  /**
   * After the three fixed elements come one `<meta>` per webmaster
   * snippet that parses, Google's first, then the custom script when it
   * is configured; a snippet that does not parse leaves no trace.
   */
  lemma WebmasterMetaOnlyWhenParsed(siteName: string, scripts: SiteScripts)
    ensures var google, naver := ParseMetaTag(scripts.googleWebmaster), ParseMetaTag(scripts.naverWebmaster);
            HeadElements(siteName, scripts)[3..]
            == (if google.Some? then [Meta(google.value)] else [])
               + (if naver.Some? then [Meta(naver.value)] else [])
               + (if scripts.customHead != "" then [InlineScript(scripts.customHead)] else [])
  {
    var fixed := FixedElements(siteName);
    var rest := ConfiguredElements(scripts);
    var google, naver := ParseMetaTag(scripts.googleWebmaster), ParseMetaTag(scripts.naverWebmaster);
    assert MetaIfParsed(WebmasterMeta(scripts.googleWebmaster)) == (if google.Some? then [Meta(google.value)] else []);
    assert MetaIfParsed(WebmasterMeta(scripts.naverWebmaster)) == (if naver.Some? then [Meta(naver.value)] else []);
    assert |fixed| == 3;
    assert (fixed + rest)[|fixed|..] == rest;
  }

  /** Every emitted webmaster `<meta>` carries a non-empty, quote-free name and content. */
  lemma EmittedMetaWellFormed(siteName: string, scripts: SiteScripts, e: HeadElement)
    requires e in HeadElements(siteName, scripts)[3..] && e.Meta?
    ensures e.tag.name != [] && QuoteFree(e.tag.name) && e.tag.content != [] && QuoteFree(e.tag.content)
  {
    var fixed, rest := FixedElements(siteName), ConfiguredElements(scripts);
    assert HeadElements(siteName, scripts)[3..] == rest by {
      assert |fixed| == 3 && (fixed + rest)[|fixed|..] == rest;
    }
    ConfiguredMetaWellFormed(scripts, e);
  }

  lemma ConfiguredMetaWellFormed(scripts: SiteScripts, e: HeadElement)
    requires e in ConfiguredElements(scripts) && e.Meta?
    ensures e.tag.name != [] && QuoteFree(e.tag.name) && e.tag.content != [] && QuoteFree(e.tag.content)
  {
    var g := MetaIfParsed(WebmasterMeta(scripts.googleWebmaster));
    var n := MetaIfParsed(WebmasterMeta(scripts.naverWebmaster));
    var c := if scripts.customHead != "" then [InlineScript(scripts.customHead)] else [];
    InThreeParts(g, n, c, e);
    if e in g {
      assert e == Meta(ParseMetaTag(scripts.googleWebmaster).value);
    } else {
      assert e in n;
      assert e == Meta(ParseMetaTag(scripts.naverWebmaster).value);
    }
  }

  lemma InThreeParts(g: seq<HeadElement>, n: seq<HeadElement>, c: seq<HeadElement>, e: HeadElement)
    ensures e in g + n + c <==> e in g || e in n || e in c
  {
  }
}
