/**
 * components/layout/MetaTags.tsx: the same webmaster snippets, injected
 * after load by a small script that adds the `<meta>` element unless one
 * with that name is already there.
 */
module MetaTags {
  import opened Wrappers
  import opened Text
  import opened MetaTag

  // The template literal, cut at the two interpolated names and the content.
  const Opening: string := "\n      (function() {\n        if (!document.querySelector('"
  const SelectorOpen: string := "meta[name=\""
  const SelectorClose: string := "\"]"
  const CreateElement: string := "')) {\n          const meta = document.createElement('meta');\n          "
  const SetNameOpen: string := "meta.setAttribute('name', '"
  const CallClose: string := "');"
  const NextLine: string := "\n          "
  const SetContentOpen: string := "meta.setAttribute('content', '"
  const Closing: string := "\n          document.head.appendChild(meta);\n        }\n      })();\n    "

  function Selector(tag: MetaTag): string { SelectorOpen + tag.name + SelectorClose }
  function SetName(tag: MetaTag): string { SetNameOpen + tag.name + CallClose }
  function SetContent(tag: MetaTag): string { SetContentOpen + tag.content + CallClose }

  /** The script template with the name and content filled in. */
  function ScriptText(tag: MetaTag): string {
    Opening + Selector(tag) + CreateElement + SetName(tag) + NextLine + SetContent(tag) + Closing
  }

  /** `createMetaTagScript`: the script for a snippet whose name and content can both be read. */
  function CreateMetaTagScript(html: string): (r: Option<string>)
    ensures r.Some? <==> ParseMetaTag(html).Some?
  {
    match ParseMetaTag(html)
    case None => None
    case Some(tag) => Some(ScriptText(tag))
  }

  lemma OccursInMiddle(a: string, b: string, c: string)
    ensures OccursAt(a + b + c, b, |a|)
  {
    assert (a + b + c)[|a|..|a| + |b|] == b;
  }

  lemma Regroup(a: string, b: string, c: string, d: string, e: string, f: string, g: string)
    ensures a + b + c + d + e + f + g == a + b + (c + d + e + f + g)
    ensures a + b + c + d + e + f + g == a + b + c + d + (e + f + g)
  {
  }

  /** The name goes verbatim into the `querySelector` selector, ... */
  lemma SelectorEmbedsName(tag: MetaTag)
    ensures Selector(tag) == "meta[name=\"" + tag.name + "\"]"
    ensures OccursAt(ScriptText(tag), Selector(tag), |Opening|)
  {
    Regroup(Opening, Selector(tag), CreateElement, SetName(tag), NextLine, SetContent(tag), Closing);
    OccursInMiddle(Opening, Selector(tag), CreateElement + SetName(tag) + NextLine + SetContent(tag) + Closing);
  }

  /** ... into the first `setAttribute` call, ... */
  lemma SetNameEmbedsName(tag: MetaTag)
    ensures SetName(tag) == "meta.setAttribute('name', '" + tag.name + "');"
    ensures OccursAt(ScriptText(tag), SetName(tag), |Opening + Selector(tag) + CreateElement|)
  {
    Regroup(Opening, Selector(tag), CreateElement, SetName(tag), NextLine, SetContent(tag), Closing);
    OccursInMiddle(Opening + Selector(tag) + CreateElement, SetName(tag), NextLine + SetContent(tag) + Closing);
  }

  /** ... and the content into the second. */
  lemma SetContentEmbedsContent(tag: MetaTag)
    ensures SetContent(tag) == "meta.setAttribute('content', '" + tag.content + "');"
    ensures OccursAt(ScriptText(tag), SetContent(tag), |Opening + Selector(tag) + CreateElement + SetName(tag) + NextLine|)
  {
    var before := Opening + Selector(tag) + CreateElement + SetName(tag) + NextLine;
    OccursInMiddle(before, SetContent(tag), Closing);
  }

  /**
   * The script of a snippet that parses embeds its name and content, and
   * neither of them holds a quote character.
   */
  lemma ScriptEmbedsTag(html: string)
    requires ParseMetaTag(html).Some?
    ensures var tag := ParseMetaTag(html).value;
            && CreateMetaTagScript(html) == Some(ScriptText(tag))
            && tag.name != [] && QuoteFree(tag.name) && tag.content != [] && QuoteFree(tag.content)
  {
  }

  datatype ScriptElement = ScriptElement(id: string, html: string)

  function ScriptIfCreated(id: string, setting: string): seq<ScriptElement> {
    if setting == "" then []
    else match CreateMetaTagScript(setting)
      case None => []
      case Some(text) => [ScriptElement(id, text)]
  }

  /** The `<Script>` elements `MetaTags` renders for the two webmaster settings ("" when not configured). */
  function MetaTagScripts(googleWebmaster: string, naverWebmaster: string): seq<ScriptElement> {
    ScriptIfCreated("google-webmaster-meta", googleWebmaster) + ScriptIfCreated("naver-webmaster-meta", naverWebmaster)
  }

  /** A script is rendered for a configured snippet exactly when its name and content can be read. */
  lemma ScriptOnlyWhenParsed(googleWebmaster: string, naverWebmaster: string)
    ensures var r := MetaTagScripts(googleWebmaster, naverWebmaster);
            && (ParseMetaTag(googleWebmaster).Some? ==>
                  ScriptElement("google-webmaster-meta", ScriptText(ParseMetaTag(googleWebmaster).value)) in r)
            && (ParseMetaTag(naverWebmaster).Some? ==>
                  ScriptElement("naver-webmaster-meta", ScriptText(ParseMetaTag(naverWebmaster).value)) in r)
            && |r| == (if ParseMetaTag(googleWebmaster).Some? then 1 else 0) + (if ParseMetaTag(naverWebmaster).Some? then 1 else 0)
  {
    assert ParseMetaTag("") == None;
  }
}
