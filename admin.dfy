/**
 * lib/admin.ts: the admin side of the blog. Posts are listed whatever
 * their `published` flag, with the flags normalised, and `validatePublish`
 * lists what a post still lacks before it can go out.
 */
module Admin {
  import opened Wrappers
  import opened Posts

  /**
   * The admin normalisation: `published`, `index` and `sitemap` are true
   * unless explicitly false; `status` is kept when set and otherwise
   * derived from `published` being truthy.
   */
  function AdminPostOf(slug: string, parsed: Parsed): Post {
    var data := parsed.data;
    Post(slug, parsed.content, data.(
      published := Some(NotFalse(data.published)),
      status := if data.status != "" then data.status else if Truthy(data.published) then "published" else "draft",
      index := Some(NotFalse(data.index)),
      sitemap := Some(NotFalse(data.sitemap))))
  }

  /** What the normalisation guarantees of each flag; every other field is the frontmatter's. */
  lemma AdminDefaults(slug: string, parsed: Parsed)
    ensures var p := AdminPostOf(slug, parsed);
            && (p.front.published == Some(true) <==> parsed.data.published != Some(false))
            && p.front.published.Some?
            && (p.front.index == Some(true) <==> parsed.data.index != Some(false))
            && (p.front.sitemap == Some(true) <==> parsed.data.sitemap != Some(false))
            && (parsed.data.status != "" ==> p.front.status == parsed.data.status)
            && (parsed.data.status == "" ==> (p.front.status == "published" <==> parsed.data.published == Some(true)))
            && p.front.title == parsed.data.title && p.front.date == parsed.data.date
            && p.front.metaTitle == parsed.data.metaTitle && p.front.tags == parsed.data.tags
  {
  }

  /** Without `published` and `status` a post counts as published yet gets the status "draft". */
  lemma MissingPublishedIsPublishedDraft(slug: string, parsed: Parsed)
    requires parsed.data.published.None? && parsed.data.status == ""
    ensures AdminPostOf(slug, parsed).front.published == Some(true)
    ensures AdminPostOf(slug, parsed).front.status == "draft"
  {
  }

  /** `getPostBySlugForAdmin`: `None` when the file is missing or cannot be read. */
  function GetPostBySlugForAdmin(slug: string, file: Option<Parsed>): (r: Option<Post>)
    ensures r.Some? <==> file.Some?
    ensures r.Some? ==> r.value.slug == slug && r.value.content == file.value.content
    ensures file.Some? ==> r == Some(AdminPostOf(slug, file.value))
  {
    match file
    case None => None
    case Some(parsed) => Some(AdminPostOf(slug, parsed))
  }

  /** `getAllPostsForAdmin` over the directory listing; `None` when the directory is missing or cannot be read. */
  function GetAllPostsForAdmin(listing: Option<seq<PostFile>>): seq<Post> {
    match listing
    case None => []
    case Some(files) => SortByDateDesc(LoadPosts(files, AdminPostOf))
  }

  /** Every readable `.mdx` file appears, normalised, whatever its `published` flag; latest date first. */
  lemma AdminListing(files: seq<PostFile>, p: Post)
    ensures DateDescending(GetAllPostsForAdmin(Some(files)))
    ensures p in GetAllPostsForAdmin(Some(files)) <==> exists i :: 0 <= i < |files| && LoadsAs(files[i], AdminPostOf, p)
  {
    var loaded := LoadPosts(files, AdminPostOf);
    LoadPostsIff(files, AdminPostOf, p);
    assert p in GetAllPostsForAdmin(Some(files)) <==> p in multiset(loaded);
  }

  /** The errors `validatePublish` can report, in the order it checks them. */
  datatype PublishError =
    | MetaTitleRequired
    | MetaDescriptionRequired
    | KeywordRequired
    | H1Required
    | CtaRequired
    | InternalLinksRequired
    | ExternalLinksRequired

  function Message(e: PublishError): string {
    match e
    case MetaTitleRequired => "metaTitle이 필요합니다"
    case MetaDescriptionRequired => "metaDescription이 필요합니다"
    case KeywordRequired => "최소 1개의 키워드가 필요합니다"
    case H1Required => "H1 텍스트가 필요합니다"
    case CtaRequired => "CTA(버튼 또는 링크)가 필요합니다"
    case InternalLinksRequired => "최소 2개의 내부 링크가 필요합니다"
    case ExternalLinksRequired => "최소 1개의 외부 링크가 필요합니다"
  }

  /** The position of each check in `validatePublish`. */
  function Rank(e: PublishError): nat {
    match e
    case MetaTitleRequired => 0
    case MetaDescriptionRequired => 1
    case KeywordRequired => 2
    case H1Required => 3
    case CtaRequired => 4
    case InternalLinksRequired => 5
    case ExternalLinksRequired => 6
  }

  /** Whether the post fails check `e`. The last three apply only to posts with a category or tags; empty tags count. */
  predicate Fails(f: Frontmatter, e: PublishError) {
    match e
    case MetaTitleRequired => f.metaTitle == ""
    case MetaDescriptionRequired => f.metaDescription == ""
    case KeywordRequired => f.keywords.None? || |f.keywords.value| == 0
    case H1Required => f.h1 == ""
    case CtaRequired => IsArticle(f) && (f.cta.None? || f.cta.value.text == "" || f.cta.value.url == "")
    case InternalLinksRequired => IsArticle(f) && (f.internalLinks.None? || |f.internalLinks.value| < 2)
    case ExternalLinksRequired => IsArticle(f) && (f.externalLinks.None? || |f.externalLinks.value| < 1)
  }

  /** `post.category || post.tags`. */
  predicate IsArticle(f: Frontmatter) {
    f.category != "" || f.tags.Some?
  }

  /** The error of check `e`, if the post fails it. */
  function Check(f: Frontmatter, e: PublishError): seq<PublishError> {
    if Fails(f, e) then [e] else []
  }

  /** The checks in order, each failing one contributing its error. */
  function PublishErrors(f: Frontmatter): seq<PublishError> {
    Check(f, MetaTitleRequired) + Check(f, MetaDescriptionRequired) + Check(f, KeywordRequired) + Check(f, H1Required)
    + Check(f, CtaRequired) + Check(f, InternalLinksRequired) + Check(f, ExternalLinksRequired)
  }

  /** `validatePublish`: push an error for each failed check; valid exactly when there is none. */
  method ValidatePublish(post: Post) returns (valid: bool, errors: seq<PublishError>)
    ensures errors == PublishErrors(post.front)
    ensures valid <==> errors == []
  {
    var f := post.front;
    errors := [];
    if f.metaTitle == "" {
      errors := errors + [MetaTitleRequired];
    }
    assert errors == Check(f, MetaTitleRequired);
    ghost var e0 := errors;
    if f.metaDescription == "" {
      errors := errors + [MetaDescriptionRequired];
    }
    assert errors == e0 + Check(f, MetaDescriptionRequired);
    ghost var e1 := errors;
    if f.keywords.None? || |f.keywords.value| == 0 {
      errors := errors + [KeywordRequired];
    }
    assert errors == e1 + Check(f, KeywordRequired);
    ghost var e2 := errors;
    if f.h1 == "" {
      errors := errors + [H1Required];
    }
    assert errors == e2 + Check(f, H1Required);
    if f.category != "" || f.tags.Some? {
      errors := PushArticleErrors(f, errors);
    } else {
      NonArticleChecks(f);
    }
    valid := |errors| == 0;
  }

  /** The pushes of the category-or-tags block of `validatePublish`. */
  method PushArticleErrors(f: Frontmatter, before: seq<PublishError>) returns (errors: seq<PublishError>)
    requires IsArticle(f)
    ensures errors == before + Check(f, CtaRequired) + Check(f, InternalLinksRequired) + Check(f, ExternalLinksRequired)
  {
    errors := before;
    if f.cta.None? || f.cta.value.text == "" || f.cta.value.url == "" {
      errors := errors + [CtaRequired];
    }
    assert errors == before + Check(f, CtaRequired);
    ghost var e4 := errors;
    if f.internalLinks.None? || |f.internalLinks.value| < 2 {
      errors := errors + [InternalLinksRequired];
    }
    assert errors == e4 + Check(f, InternalLinksRequired);
    ghost var e5 := errors;
    if f.externalLinks.None? || |f.externalLinks.value| < 1 {
      errors := errors + [ExternalLinksRequired];
    }
    assert errors == e5 + Check(f, ExternalLinksRequired);
  }

  lemma NonArticleChecks(f: Frontmatter)
    requires !IsArticle(f)
    ensures Check(f, CtaRequired) == [] && Check(f, InternalLinksRequired) == [] && Check(f, ExternalLinksRequired) == []
  {
  }

  predicate InCheckOrder(s: seq<PublishError>) {
    forall i, j :: 0 <= i < j < |s| ==> Rank(s[i]) < Rank(s[j])
  }

  /** Each error is reported exactly when its check fails. */
  lemma PublishErrorsIff(f: Frontmatter, e: PublishError)
    ensures e in PublishErrors(f) <==> Fails(f, e)
  {
    forall x: PublishError
      ensures e in Check(f, x) <==> e == x && Fails(f, x)
    {
    }
  }

  /** The errors come at most once each, in the fixed order of the checks. */
  lemma PublishErrorsOrdered(f: Frontmatter)
    ensures InCheckOrder(PublishErrors(f))
  {
    var s1 := Check(f, MetaTitleRequired);
    var s2 := s1 + Check(f, MetaDescriptionRequired);
    AppendCheck(f, s1, MetaDescriptionRequired);
    var s3 := s2 + Check(f, KeywordRequired);
    AppendCheck(f, s2, KeywordRequired);
    var s4 := s3 + Check(f, H1Required);
    AppendCheck(f, s3, H1Required);
    var s5 := s4 + Check(f, CtaRequired);
    AppendCheck(f, s4, CtaRequired);
    var s6 := s5 + Check(f, InternalLinksRequired);
    AppendCheck(f, s5, InternalLinksRequired);
    AppendCheck(f, s6, ExternalLinksRequired);
  }

  /** Putting a later check after the errors of earlier checks keeps them in check order. */
  lemma AppendCheck(f: Frontmatter, s: seq<PublishError>, e: PublishError)
    requires InCheckOrder(s)
    requires forall x :: x in s ==> Rank(x) < Rank(e)
    ensures InCheckOrder(s + Check(f, e))
    ensures forall x :: x in s + Check(f, e) ==> Rank(x) <= Rank(e)
  {
    var r := s + Check(f, e);
    if Fails(f, e) {
      forall i, j | 0 <= i < j < |r|
        ensures Rank(r[i]) < Rank(r[j])
      {
        assert r[i] == s[i];
        assert s[i] in s;
      }
    }
  }

  /** A post with a category but no CTA, links or keywords fails every check but the title, description and H1 ones. */
  lemma ArticleWithoutLinks(f: Frontmatter)
    requires f.metaTitle != "" && f.metaDescription != "" && f.h1 != ""
    requires f.category != "" && f.keywords.None? && f.cta.None? && f.internalLinks.None? && f.externalLinks.None?
    ensures PublishErrors(f) == [KeywordRequired, CtaRequired, InternalLinksRequired, ExternalLinksRequired]
  {
  }
}
