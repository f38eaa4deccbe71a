/**
 * The blog posts that lib/blog.ts and lib/admin.ts read from the MDX files
 * of content/blog: the frontmatter, the listing of files, and the order by
 * date, latest first, that both lists are sorted in.
 */
module Posts {
  import opened Wrappers
  import opened Text

  datatype Cta = Cta(text: string, url: string)

  datatype ExternalLink = ExternalLink(url: string, description: string)

  /**
   * The frontmatter of a post. Text fields use "" where the field is
   * absent: every check on them is a truthiness check, except the date
   * comparison of the sort, where a missing `date` compares as "" and so
   * sorts last. `date` is held as its text: YAML reads an unquoted date as
   * a date value rather than a string, and the model assumes every post's
   * `date` has the same kind, so that `<` orders them as their text does.
   * Lists and flags keep absence apart, since an empty list is truthy and
   * `published !== false` differs from `published`.
   */
  datatype Frontmatter = Frontmatter(
    title: string,
    description: string,
    date: string,
    author: string,
    tags: Option<seq<string>>,
    category: string,
    metaTitle: string,
    metaDescription: string,
    keywords: Option<seq<string>>,
    canonicalUrl: string,
    h1: string,
    cta: Option<Cta>,
    internalLinks: Option<seq<string>>,
    externalLinks: Option<seq<ExternalLink>>,
    published: Option<bool>,
    status: string,
    index: Option<bool>,
    sitemap: Option<bool>)

  /** A post: its slug, its body, and the frontmatter fields spread into it, some of them normalised. */
  datatype Post = Post(slug: string, content: string, front: Frontmatter)

  /** A file that gray-matter could read: its frontmatter and body. */
  datatype Parsed = Parsed(data: Frontmatter, content: string)

  /** A directory entry of content/blog; `parsed` is `None` when reading or parsing the file throws. */
  datatype PostFile = PostFile(fileName: string, parsed: Option<Parsed>)

  /** `data.published` as a JavaScript condition: only an explicit `true` is truthy. */
  predicate Truthy(flag: Option<bool>) {
    flag == Some(true)
  }

  /** `value !== false`: true unless the field is explicitly `false`. */
  predicate NotFalse(flag: Option<bool>) {
    flag != Some(false)
  }

  predicate IsMdx(fileName: string) {
    EndsWith(fileName, ".mdx")
  }

  /** `fileName.replace(/\.mdx$/, '')`. */
  function SlugOf(fileName: string): (slug: string)
    ensures IsMdx(fileName) ==> slug + ".mdx" == fileName
    ensures !IsMdx(fileName) ==> slug == fileName
  {
    if IsMdx(fileName) then fileName[..|fileName| - 4] else fileName
  }

  /** The file is an `.mdx` file that could be read, and `norm` makes `p` of it. */
  predicate LoadsAs(f: PostFile, norm: (string, Parsed) -> Post, p: Post) {
    IsMdx(f.fileName) && f.parsed.Some? && p == norm(SlugOf(f.fileName), f.parsed.value)
  }

  /**
   * The `filter(.mdx)`, `map(read and normalise)`, `filter(not null)` chain:
   * unreadable files drop out instead of ending the listing.
   */
  function LoadPosts(files: seq<PostFile>, norm: (string, Parsed) -> Post): seq<Post> {
    if files == [] then []
    else
      var f := files[0];
      var rest := LoadPosts(files[1..], norm);
      if IsMdx(f.fileName) && f.parsed.Some? then [norm(SlugOf(f.fileName), f.parsed.value)] + rest else rest
  }

  /** A post is listed exactly when it is made from a readable `.mdx` file. */
  lemma {:induction false} LoadPostsIff(files: seq<PostFile>, norm: (string, Parsed) -> Post, p: Post)
    ensures p in LoadPosts(files, norm) <==> exists i :: 0 <= i < |files| && LoadsAs(files[i], norm, p)
  {
    if files != [] {
      LoadPostsIff(files[1..], norm, p);
      if exists i :: 0 <= i < |files| && LoadsAs(files[i], norm, p) {
        var i :| 0 <= i < |files| && LoadsAs(files[i], norm, p);
        if i > 0 {
          assert LoadsAs(files[1..][i - 1], norm, p);
        }
      }
      if exists i :: 0 <= i < |files[1..]| && LoadsAs(files[1..][i], norm, p) {
        var i :| 0 <= i < |files[1..]| && LoadsAs(files[1..][i], norm, p);
        assert LoadsAs(files[i + 1], norm, p);
      }
    }
  }

  /** `a.date` comes after `b.date` or equals it: `b` may follow `a`. */
  predicate NotBefore(a: Post, b: Post) {
    !StrLess(a.front.date, b.front.date)
  }

  predicate DateDescending(s: seq<Post>) {
    forall i, j :: 0 <= i < j < |s| ==> NotBefore(s[i], s[j])
  }

  /**
   * `sort((a, b) => a.date < b.date ? 1 : -1)`: latest date first. The
   * comparator never answers 0, so the order of equal dates is left to the
   * engine; this definition is one such order, and what is claimed of it
   * is only that it is sorted and a permutation.
   */
  function SortByDateDesc(s: seq<Post>): (r: seq<Post>)
    ensures multiset(r) == multiset(s)
    ensures DateDescending(r)
  {
    if s == [] then []
    else
      var rest := SortByDateDesc(s[1..]);
      InsertSorted(s[0], rest);
      assert s == [s[0]] + s[1..];
      InsertByDate(s[0], rest)
  }

  function InsertByDate(p: Post, s: seq<Post>): (r: seq<Post>)
    ensures multiset(r) == multiset(s) + multiset{p}
  {
    if s == [] then [p]
    else if StrLess(s[0].front.date, p.front.date) then [p] + s
    else
      assert s == [s[0]] + s[1..];
      [s[0]] + InsertByDate(p, s[1..])
  }

  lemma NotBeforeTransitive(a: Post, b: Post, c: Post)
    requires NotBefore(a, b) && NotBefore(b, c)
    ensures NotBefore(a, c)
  {
    if StrLess(a.front.date, c.front.date) {
      StrLessTotal(a.front.date, b.front.date);
      if a.front.date != b.front.date {
        StrLessTransitive(b.front.date, a.front.date, c.front.date);
      }
    }
  }

  lemma {:induction false} InsertSorted(p: Post, s: seq<Post>)
    requires DateDescending(s)
    ensures DateDescending(InsertByDate(p, s))
  {
    if s == [] {
    } else if StrLess(s[0].front.date, p.front.date) {
      var r := [p] + s;
      StrLessTotal(s[0].front.date, p.front.date);
      forall j | 1 <= j < |r|
        ensures NotBefore(r[0], r[j])
      {
        StrLessIrreflexive(p.front.date);
        if StrLess(p.front.date, s[0].front.date) {
          StrLessTransitive(p.front.date, s[0].front.date, p.front.date);
        }
        assert NotBefore(p, s[0]);
        if j > 1 {
          NotBeforeTransitive(p, s[0], s[j - 1]);
        }
      }
    } else {
      InsertSorted(p, s[1..]);
      var tail := InsertByDate(p, s[1..]);
      var r := [s[0]] + tail;
      forall j | 0 <= j < |tail|
        ensures NotBefore(s[0], tail[j])
      {
        assert tail[j] in multiset(tail);
        assert tail[j] == p || tail[j] in multiset(s[1..]);
        if tail[j] != p {
          var k :| 0 <= k < |s[1..]| && s[1..][k] == tail[j];
          assert NotBefore(s[0], s[k + 1]);
        }
      }
    }
  }
}
