/**
 * components/admin/AdminPostEditor.tsx: the form the admin edits a post
 * in. The form keeps lists as comma-separated text and the external links
 * as JSON text; `validateForm` lists what is missing before a save, and a
 * save turns the text back into lists.
 */
module PostEditor {
  import opened Wrappers
  import opened Text
  import opened Posts

  /** The editor's `formData` state. */
  datatype FormData = FormData(
    title: string,
    slug: string,
    description: string,
    date: string,
    author: string,
    category: string,
    tags: string,
    metaTitle: string,
    metaDescription: string,
    keywords: string,
    canonicalUrl: string,
    h1: string,
    status: string,
    index: bool,
    sitemap: bool,
    published: Option<bool>,
    ctaText: string,
    ctaUrl: string,
    internalLinks: string,
    externalLinks: string)

  /** A JSON value as far as the editor looks at it: an array of values, or anything else. */
  datatype Json = Array(items: seq<Json>) | NonArray

  /**
   * The form a post opens with. `stringify` stands for
   * `JSON.stringify(_, null, 2)` on the external links.
   */
  function InitialForm(post: Post, stringify: seq<ExternalLink> -> string): (form: FormData)
    ensures form.status == if post.front.status != "" then post.front.status
                           else if Truthy(post.front.published) then "published" else "draft"
    ensures form.index <==> post.front.index != Some(false)
    ensures form.sitemap <==> post.front.sitemap != Some(false)
    ensures form.externalLinks == stringify(post.front.externalLinks.GetOr([]))
  {
    var f := post.front;
    FormData(
      f.title, post.slug, f.description, f.date, f.author, f.category,
      Join(f.tags.GetOr([]), ", "),
      f.metaTitle, f.metaDescription,
      Join(f.keywords.GetOr([]), ", "),
      f.canonicalUrl, f.h1,
      if f.status != "" then f.status else if Truthy(f.published) then "published" else "draft",
      NotFalse(f.index), NotFalse(f.sitemap), f.published,
      if f.cta.Some? then f.cta.value.text else "",
      if f.cta.Some? then f.cta.value.url else "",
      Join(f.internalLinks.GetOr([]), ", "),
      stringify(f.externalLinks.GetOr([])))
  }

  predicate ListItems(xs: seq<string>) {
    forall i :: 0 <= i < |xs| ==> IsListItem(xs[i])
  }

  /**
   * Opening a post and saving it without edits gives back its tags,
   * keywords and internal links, as long as no item holds a comma or
   * begins or ends in whitespace; a missing list comes back empty.
   */
  lemma ListsSurviveTheForm(post: Post, stringify: seq<ExternalLink> -> string)
    requires ListItems(post.front.tags.GetOr([]))
    requires ListItems(post.front.keywords.GetOr([]))
    requires ListItems(post.front.internalLinks.GetOr([]))
    ensures CommaList(InitialForm(post, stringify).tags) == post.front.tags.GetOr([])
    ensures CommaList(InitialForm(post, stringify).keywords) == post.front.keywords.GetOr([])
    ensures CommaList(InitialForm(post, stringify).internalLinks) == post.front.internalLinks.GetOr([])
  {
    CommaListOfJoin(post.front.tags.GetOr([]));
    CommaListOfJoin(post.front.keywords.GetOr([]));
    CommaListOfJoin(post.front.internalLinks.GetOr([]));
  }

  /** The errors `validateForm` can report, in the order it checks them. */
  datatype FormError =
    | MetaTitleMissing
    | MetaDescriptionMissing
    | KeywordsMissing
    | H1Missing
    | CtaMissing
    | InternalLinksTooFew
    | ExternalLinksTooFew
    | ExternalLinksMalformed

  function Message(e: FormError): string {
    match e
    case MetaTitleMissing => "metaTitle이 필요합니다"
    case MetaDescriptionMissing => "metaDescription이 필요합니다"
    case KeywordsMissing => "키워드가 필요합니다"
    case H1Missing => "H1 텍스트가 필요합니다"
    case CtaMissing => "CTA(버튼 또는 링크)가 필요합니다"
    case InternalLinksTooFew => "최소 2개의 내부 링크가 필요합니다"
    case ExternalLinksTooFew => "최소 1개의 외부 링크가 필요합니다"
    case ExternalLinksMalformed => "외부 링크 형식이 올바르지 않습니다"
  }

  /** `split(',').filter(l => l.trim()).length`: the pieces that are not blank. */
  function NonBlankCount(pieces: seq<string>): nat {
    if pieces == [] then 0 else (if Trim(pieces[0]) != "" then 1 else 0) + NonBlankCount(pieces[1..])
  }

  /** The internal links `validateForm` counts are the ones a save sends. */
  lemma {:induction false} CountedLinksAreSaved(pieces: seq<string>)
    requires forall i :: 0 <= i < |pieces| ==> Lacks(pieces[i], ',')
    ensures NonBlankCount(pieces) == |NonEmptyTrimmed(pieces)|
  {
    if pieces != [] {
      CountedLinksAreSaved(pieces[1..]);
    }
  }

  /** `formData.externalLinks || '[]'` handed to `JSON.parse`; `None` when the parse throws. */
  function ParseLinks(text: string, parse: string -> Option<Json>): Option<Json> {
    parse(if text == "" then "[]" else text)
  }

  /** The CTA and link checks run for a form set to "published" that has a category or tags text. */
  predicate IsPublishedArticle(form: FormData) {
    form.status == "published" && (form.category != "" || form.tags != "")
  }

  /** `!internalLinks || <non-blank pieces> < 2`. */
  predicate TooFewInternalLinks(form: FormData) {
    form.internalLinks == "" || NonBlankCount(SplitOnChar(form.internalLinks, ',')) < 2
  }

  /** Whether the form fails check `e`; `parse` stands for `JSON.parse`. */
  predicate FormFails(form: FormData, parse: string -> Option<Json>, e: FormError) {
    match e
    case MetaTitleMissing => form.metaTitle == ""
    case MetaDescriptionMissing => form.metaDescription == ""
    case KeywordsMissing => form.keywords == ""
    case H1Missing => form.h1 == ""
    case CtaMissing => IsPublishedArticle(form) && (form.ctaText == "" || form.ctaUrl == "")
    case InternalLinksTooFew => IsPublishedArticle(form) && TooFewInternalLinks(form)
    case ExternalLinksTooFew => IsPublishedArticle(form) && ExternalLinksError(ParseLinks(form.externalLinks, parse)) == [ExternalLinksTooFew]
    case ExternalLinksMalformed => IsPublishedArticle(form) && ParseLinks(form.externalLinks, parse).None?
  }

  function ErrorIf(failed: bool, e: FormError): seq<FormError> {
    if failed then [e] else []
  }

  /** The `try`/`catch` around `JSON.parse`: a distinct error for a failed parse, another for too few links. */
  function ExternalLinksError(links: Option<Json>): (r: seq<FormError>)
    ensures |r| <= 1
    ensures links.None? <==> r == [ExternalLinksMalformed]
  {
    match links
    case None => [ExternalLinksMalformed]
    case Some(json) => if !json.Array? || |json.items| < 1 then [ExternalLinksTooFew] else []
  }

  /** The checks of the published-article block, in order. */
  function ArticleErrors(form: FormData, parse: string -> Option<Json>): seq<FormError> {
    if !IsPublishedArticle(form) then []
    else
      ErrorIf(form.ctaText == "" || form.ctaUrl == "", CtaMissing)
      + ErrorIf(TooFewInternalLinks(form), InternalLinksTooFew)
      + ExternalLinksError(ParseLinks(form.externalLinks, parse))
  }

  /** The errors of the four SEO fields, in order. */
  function SeoErrors(form: FormData): seq<FormError> {
    ErrorIf(form.metaTitle == "", MetaTitleMissing) + ErrorIf(form.metaDescription == "", MetaDescriptionMissing)
    + ErrorIf(form.keywords == "", KeywordsMissing) + ErrorIf(form.h1 == "", H1Missing)
  }

  /** The checks in order, each failing one contributing its error. */
  function FormErrors(form: FormData, parse: string -> Option<Json>): seq<FormError> {
    SeoErrors(form) + ArticleErrors(form, parse)
  }

  /** `validateForm`: push an error for each failed check; valid exactly when there is none. */
  method ValidateForm(form: FormData, parse: string -> Option<Json>) returns (valid: bool, errors: seq<FormError>)
    ensures errors == FormErrors(form, parse)
    ensures valid <==> errors == []
  {
    errors := [];
    if form.metaTitle == "" {
      errors := errors + [MetaTitleMissing];
    }
    ghost var e0 := errors;
    if form.metaDescription == "" {
      errors := errors + [MetaDescriptionMissing];
    }
    assert errors == e0 + ErrorIf(form.metaDescription == "", MetaDescriptionMissing);
    ghost var e1 := errors;
    if form.keywords == "" {
      errors := errors + [KeywordsMissing];
    }
    assert errors == e1 + ErrorIf(form.keywords == "", KeywordsMissing);
    ghost var e2 := errors;
    if form.h1 == "" {
      errors := errors + [H1Missing];
    }
    assert errors == e2 + ErrorIf(form.h1 == "", H1Missing);
    assert errors == SeoErrors(form);
    if form.status == "published" && (form.category != "" || form.tags != "") {
      errors := PushArticleErrors(form, parse, errors);
    } else {
      assert errors == errors + ArticleErrors(form, parse);
    }
    valid := |errors| == 0;
  }

  /** The pushes of the published-article block of `validateForm`. */
  method PushArticleErrors(form: FormData, parse: string -> Option<Json>, before: seq<FormError>) returns (errors: seq<FormError>)
    requires IsPublishedArticle(form)
    ensures errors == before + ArticleErrors(form, parse)
  {
    ghost var cta := ErrorIf(form.ctaText == "" || form.ctaUrl == "", CtaMissing);
    ghost var internal := ErrorIf(TooFewInternalLinks(form), InternalLinksTooFew);
    errors := before;
    if form.ctaText == "" || form.ctaUrl == "" {
      errors := errors + [CtaMissing];
    }
    assert errors == before + cta;
    if TooFewInternalLinks(form) {
      errors := errors + [InternalLinksTooFew];
    }
    assert errors == before + cta + internal;
    var links := ParseLinks(form.externalLinks, parse);
    match links {
      case None =>
        errors := errors + [ExternalLinksMalformed];
      case Some(json) =>
        if !json.Array? || |json.items| < 1 {
          errors := errors + [ExternalLinksTooFew];
        }
    }
    assert errors == before + cta + internal + ExternalLinksError(links);
    ArticleBlockAssoc(before, cta, internal, ExternalLinksError(links));
  }

  lemma ArticleBlockAssoc(before: seq<FormError>, a: seq<FormError>, b: seq<FormError>, c: seq<FormError>)
    ensures before + a + b + c == before + (a + b + c)
  {
  }

  /** Each error is reported exactly when its check fails. */
  lemma FormErrorsIff(form: FormData, parse: string -> Option<Json>, e: FormError)
    ensures e in FormErrors(form, parse) <==> FormFails(form, parse, e)
  {
    SeoErrorsIff(form, parse, e);
    ArticleErrorsIff(form, parse, e);
  }

  predicate IsSeoError(e: FormError) {
    e.MetaTitleMissing? || e.MetaDescriptionMissing? || e.KeywordsMissing? || e.H1Missing?
  }

  lemma SeoErrorsIff(form: FormData, parse: string -> Option<Json>, e: FormError)
    ensures e in SeoErrors(form) <==> IsSeoError(e) && FormFails(form, parse, e)
  {
    forall failed: bool, x: FormError
      ensures e in ErrorIf(failed, x) <==> failed && e == x
    {
    }
  }

  lemma ArticleErrorsIff(form: FormData, parse: string -> Option<Json>, e: FormError)
    ensures e in ArticleErrors(form, parse) <==> !IsSeoError(e) && FormFails(form, parse, e)
  {
    if IsPublishedArticle(form) {
      var links := ParseLinks(form.externalLinks, parse);
      var ext := ExternalLinksError(links);
      var cta := form.ctaText == "" || form.ctaUrl == "";
      var internal := TooFewInternalLinks(form);
      assert ArticleErrors(form, parse) == ErrorIf(cta, CtaMissing) + ErrorIf(internal, InternalLinksTooFew) + ext;
      InArticleBlock(cta, internal, ext, e);
      ExternalMembership(links, e);
      assert e in ArticleErrors(form, parse) <==>
        (e == CtaMissing && cta) || (e == InternalLinksTooFew && internal)
        || (e == ExternalLinksTooFew && ext == [ExternalLinksTooFew]) || (e == ExternalLinksMalformed && links.None?);
      ArticleFails(form, parse, e);
    } else {
      assert ArticleErrors(form, parse) == [];
    }
  }

  /** On a published article, the article checks that fail are exactly these four. */
  lemma ArticleFails(form: FormData, parse: string -> Option<Json>, e: FormError)
    requires IsPublishedArticle(form)
    ensures !IsSeoError(e) && FormFails(form, parse, e) <==>
      (e == CtaMissing && (form.ctaText == "" || form.ctaUrl == ""))
      || (e == InternalLinksTooFew && TooFewInternalLinks(form))
      || (e == ExternalLinksTooFew && ExternalLinksError(ParseLinks(form.externalLinks, parse)) == [ExternalLinksTooFew])
      || (e == ExternalLinksMalformed && ParseLinks(form.externalLinks, parse).None?)
  {
  }

  /** The external-link part reports the malformed error for a failed parse, the too-few error otherwise. */
  lemma ExternalMembership(links: Option<Json>, e: FormError)
    ensures e in ExternalLinksError(links) <==>
      (e == ExternalLinksTooFew && ExternalLinksError(links) == [ExternalLinksTooFew])
      || (e == ExternalLinksMalformed && links.None?)
  {
  }

  /** Membership in the three parts of the published-article block. */
  lemma InArticleBlock(cta: bool, internal: bool, external: seq<FormError>, e: FormError)
    requires |external| <= 1
    ensures e in ErrorIf(cta, CtaMissing) + ErrorIf(internal, InternalLinksTooFew) + external <==>
      (e == CtaMissing && cta) || (e == InternalLinksTooFew && internal) || e in external
  {
  }

  /** A form not set to "published", or without category and tags, is checked only for its SEO fields. */
  lemma DraftChecksSeoOnly(form: FormData, parse: string -> Option<Json>)
    requires !IsPublishedArticle(form)
    ensures FormErrors(form, parse) == SeoErrors(form)
    ensures forall e :: e in FormErrors(form, parse) ==> e in {MetaTitleMissing, MetaDescriptionMissing, KeywordsMissing, H1Missing}
  {
    assert FormErrors(form, parse) == SeoErrors(form) + [];
  }

  /** External links that do not parse and ones that are too few are never both reported. */
  lemma ExternalLinkErrorsExclusive(form: FormData, parse: string -> Option<Json>)
    ensures !(ExternalLinksTooFew in FormErrors(form, parse) && ExternalLinksMalformed in FormErrors(form, parse))
  {
    FormErrorsIff(form, parse, ExternalLinksTooFew);
    FormErrorsIff(form, parse, ExternalLinksMalformed);
    ExternalFailsExclusive(ParseLinks(form.externalLinks, parse));
  }

  /** The external-link part never holds both errors. */
  lemma ExternalFailsExclusive(links: Option<Json>)
    ensures !(ExternalLinksError(links) == [ExternalLinksTooFew] && links.None?)
  {
  }

  /** An empty links text is read as `[]`, which is too few links, never a malformed one. */
  lemma EmptyLinksTextIsTooFew(form: FormData, parse: string -> Option<Json>)
    requires IsPublishedArticle(form) && form.externalLinks == ""
    requires parse("[]") == Some(Array([]))
    ensures ExternalLinksTooFew in FormErrors(form, parse)
    ensures ExternalLinksMalformed !in FormErrors(form, parse)
  {
    FormErrorsIff(form, parse, ExternalLinksTooFew);
    FormErrorsIff(form, parse, ExternalLinksMalformed);
  }

  /** The body of the `PUT` request: the form spread, with the lists parsed and `published` derived from the status. */
  datatype Payload = Payload(
    form: FormData,
    tags: seq<string>,
    keywords: seq<string>,
    internalLinks: seq<string>,
    externalLinks: Json,
    published: bool)

  /** `handleSubmit` up to the request: `None` when `validateForm` fails and the submit returns early. */
  function Submit(form: FormData, parse: string -> Option<Json>): (r: Option<Payload>)
    ensures r.None? <==> FormErrors(form, parse) != []
  {
    if FormErrors(form, parse) != [] then None
    else
      var links := ParseLinks(form.externalLinks, parse);
      Some(Payload(
        form,
        CommaList(form.tags),
        CommaList(form.keywords),
        CommaList(form.internalLinks),
        if links.Some? then links.value else Array([]),
        form.status == "published"))
  }

  /**
   * What a save sends: the lists are the trimmed non-empty comma pieces,
   * `published` holds exactly for the status "published", and external
   * links that do not parse are sent as an empty array.
   */
  lemma SubmitSpec(form: FormData, parse: string -> Option<Json>)
    requires FormErrors(form, parse) == []
    ensures var p := Submit(form, parse).value;
            && p.form == form
            && (forall i :: 0 <= i < |p.tags| ==> p.tags[i] != "" && Lacks(p.tags[i], ','))
            && p.keywords == CommaList(form.keywords)
            && p.internalLinks == CommaList(form.internalLinks)
            && (p.published <==> form.status == "published")
            && (ParseLinks(form.externalLinks, parse).None? ==> p.externalLinks == Array([]))
            && (ParseLinks(form.externalLinks, parse).Some? ==> p.externalLinks == ParseLinks(form.externalLinks, parse).value)
  {
  }

  /**
   * A valid published article sends at least two internal links and an
   * array of at least one external link.
   */
  lemma PublishedArticleSendsLinks(form: FormData, parse: string -> Option<Json>)
    requires FormErrors(form, parse) == [] && IsPublishedArticle(form)
    ensures |Submit(form, parse).value.internalLinks| >= 2
    ensures Submit(form, parse).value.externalLinks.Array?
    ensures |Submit(form, parse).value.externalLinks.items| >= 1
  {
    FormErrorsIff(form, parse, InternalLinksTooFew);
    FormErrorsIff(form, parse, ExternalLinksTooFew);
    FormErrorsIff(form, parse, ExternalLinksMalformed);
    CountedLinksAreSaved(SplitOnChar(form.internalLinks, ','));
  }

  /**
   * The keyword check looks at the text, the save at its pieces: a
   * keywords text of only commas and spaces passes the check and sends no
   * keyword.
   */
  lemma BlankKeywordsPassed(form: FormData, parse: string -> Option<Json>)
    requires form.keywords == ", "
    ensures KeywordsMissing !in FormErrors(form, parse)
    ensures CommaList(form.keywords) == []
  {
    assert form.keywords[0] == ',';
    KeywordsTextPasses(form, parse);
    CommaListOfCommaSpace();
  }

  /** The keyword check passes for any non-empty keywords text, blank or not. */
  lemma KeywordsTextPasses(form: FormData, parse: string -> Option<Json>)
    requires form.keywords != ""
    ensures KeywordsMissing !in FormErrors(form, parse)
  {
    FormErrorsIff(form, parse, KeywordsMissing);
  }

  /** The text ", " splits into two blank pieces, so it lists nothing. */
  lemma CommaListOfCommaSpace()
    ensures CommaList(", ") == []
  {
    assert FindChar(", ", ',') == 0;
    assert ", "[1..] == " ";
    assert FindChar(" ", ',') == 1;
    assert Trim("") == "";
    assert TrimStart(" ") == "";
  }
}
