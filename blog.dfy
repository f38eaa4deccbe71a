/**
 * lib/blog.ts: the public blog. Only published posts are listed, latest
 * first, and paged.
 */
module Blog {
  import opened Wrappers
  import opened Numbers
  import opened Posts

  /** The public normalisation: only `published` is rewritten, to "not explicitly false". */
  function BlogPostOf(slug: string, parsed: Parsed): Post {
    Post(slug, parsed.content, parsed.data.(published := Some(NotFalse(parsed.data.published))))
  }

  predicate IsPublished(p: Post) {
    p.front.published == Some(true)
  }

  function FilterPublished(s: seq<Post>): (r: seq<Post>)
    ensures forall p :: p in r <==> p in s && IsPublished(p)
  {
    if s == [] then [] else (if IsPublished(s[0]) then [s[0]] else []) + FilterPublished(s[1..])
  }

  /** `getAllPosts` over the directory listing; `None` when the directory is missing or cannot be read. */
  function GetAllPosts(listing: Option<seq<PostFile>>): seq<Post> {
    match listing
    case None => []
    case Some(files) => SortByDateDesc(FilterPublished(LoadPosts(files, BlogPostOf)))
  }

  /**
   * A post is listed exactly when it comes from a readable `.mdx` file
   * whose frontmatter does not say `published: false`; the list is latest
   * date first.
   */
  lemma AllPostsSpec(files: seq<PostFile>, p: Post)
    ensures DateDescending(GetAllPosts(Some(files)))
    ensures p in GetAllPosts(Some(files)) <==>
              exists i :: 0 <= i < |files| && LoadsAs(files[i], BlogPostOf, p) && files[i].parsed.value.data.published != Some(false)
  {
    var loaded := LoadPosts(files, BlogPostOf);
    LoadPostsIff(files, BlogPostOf, p);
    var published := FilterPublished(loaded);
    assert p in GetAllPosts(Some(files)) <==> p in multiset(published);
    if p in loaded {
      var i :| 0 <= i < |files| && LoadsAs(files[i], BlogPostOf, p);
      assert IsPublished(p) <==> files[i].parsed.value.data.published != Some(false);
    }
  }

  /** An unreadable file is skipped: the others are listed as if it were not there. */
  lemma UnreadableFileSkipped(before: seq<PostFile>, name: string, after: seq<PostFile>)
    ensures LoadPosts(before + [PostFile(name, None)] + after, BlogPostOf) == LoadPosts(before + after, BlogPostOf)
  {
    LoadPostsSkip(before, PostFile(name, None), after);
  }

  lemma {:induction false} LoadPostsSkip(before: seq<PostFile>, f: PostFile, after: seq<PostFile>)
    requires !(IsMdx(f.fileName) && f.parsed.Some?)
    ensures LoadPosts(before + [f] + after, BlogPostOf) == LoadPosts(before + after, BlogPostOf)
  {
    if before == [] {
      assert before + [f] + after == [f] + after;
      assert ([f] + after)[1..] == after;
      assert before + after == after;
    } else {
      assert (before + [f] + after)[1..] == before[1..] + [f] + after;
      assert (before + after)[1..] == before[1..] + after;
      LoadPostsSkip(before[1..], f, after);
    }
  }

  /** `getPostBySlug`: `None` when the file is missing or cannot be read. */
  function GetPostBySlug(slug: string, file: Option<Parsed>): (r: Option<Post>)
    ensures r.Some? <==> file.Some?
    ensures r.Some? ==> r.value.slug == slug && r.value.content == file.value.content
    ensures r.Some? ==> r.value.front == file.value.data.(published := Some(NotFalse(file.value.data.published)))
    ensures r.Some? ==> (r.value.front.published == Some(true) <==> file.value.data.published != Some(false))
  {
    match file
    case None => None
    case Some(parsed) => Some(BlogPostOf(slug, parsed))
  }

  /** `getTotalPages(postsPerPage)`: `Math.ceil(posts.length / postsPerPage)`. */
  function GetTotalPages(listing: Option<seq<PostFile>>, postsPerPage: int): nat
    requires postsPerPage > 0
  {
    CeilDiv(|GetAllPosts(listing)|, postsPerPage)
  }

  /** No posts, no pages; otherwise the fewest pages that hold every post. */
  lemma TotalPagesSpec(listing: Option<seq<PostFile>>, postsPerPage: int)
    requires postsPerPage > 0
    ensures |GetAllPosts(listing)| == 0 ==> GetTotalPages(listing, postsPerPage) == 0
    ensures GetTotalPages(listing, postsPerPage) * postsPerPage >= |GetAllPosts(listing)|
    ensures GetTotalPages(listing, postsPerPage) > 0 ==>
              (GetTotalPages(listing, postsPerPage) - 1) * postsPerPage < |GetAllPosts(listing)|
  {
  }
}
