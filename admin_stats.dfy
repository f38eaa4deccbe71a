/**
 * components/admin/AdminStatsOverview.tsx: the ratios the admin dashboard
 * derives from the statistics it loads (the request that loads them is
 * not part of this model), and the edit link next to each popular page.
 */
module AdminStats {
  import opened Wrappers
  import opened Text
  import opened Numbers

  /** `Math.round(part / whole * 100)` when `whole > 0`, else 0: a guarded percentage. */
  function Percent(part: nat, whole: nat): (r: int)
    ensures whole == 0 ==> r == 0
    ensures part <= whole ==> 0 <= r <= 100
    ensures whole > 0 ==> r as real - 0.5 <= part as real / whole as real * 100.0 < r as real + 0.5
  {
    if whole > 0 then
      var q := part as real / whole as real;
      QuotientBounds(part, whole);
      Round(q * 100.0)
    else 0
  }

  /** The share of posts whose SEO fields are complete, in whole percent. */
  function SeoRate(seoComplete: nat, total: nat): (r: int)
    ensures total == 0 ==> r == 0
    ensures seoComplete <= total ==> 0 <= r <= 100
    ensures total > 0 ==> r == Round(seoComplete as real / total as real * 100.0)
  {
    Percent(seoComplete, total)
  }

  /** Views per page, rounded; 0 when no page has been viewed. */
  function AvgViews(totalViews: nat, totalPages: nat): (r: int)
    ensures totalPages == 0 ==> r == 0
    ensures totalPages > 0 ==> r as real - 0.5 <= totalViews as real / totalPages as real < r as real + 0.5
    ensures totalPages > 0 ==> 0 <= r <= totalViews
  {
    if totalPages > 0 then
      var q := totalViews as real / totalPages as real;
      QuotientBounds(totalViews, totalPages);
      RoundMonotone(0.0, q);
      RoundMonotone(q, totalViews as real);
      RoundOfInt(0);
      RoundOfInt(totalViews);
      Round(q)
    else 0
  }

  /** The share of readable posts among those scored, in whole percent; always within 0..100. */
  function ReadabilityRate(good: nat, needsWork: nat): (r: int)
    ensures good + needsWork == 0 ==> r == 0
    ensures 0 <= r <= 100
    ensures good + needsWork > 0 ==> r == Round(good as real / (good + needsWork) as real * 100.0)
  {
    Percent(good, good + needsWork)
  }

  /** `s.replace(pattern, replacement)` with a string pattern: only the first occurrence is replaced. */
  function ReplaceFirst(s: string, pattern: string, replacement: string): (r: string)
  {
    var i := IndexOf(s, pattern);
    if i == -1 then s else s[..i] + replacement + s[i + |pattern|..]
  }

  /** The admin edit link shown for a popular page: only for blog pages. */
  function AdminEditLink(slug: string): (r: Option<string>)
    ensures r.Some? <==> StartsWith(slug, "/blog/")
  {
    if StartsWith(slug, "/blog/") then Some("/admin/posts/" + ReplaceFirst(slug, "/blog/", "")) else None
  }

  /** The link goes to the post's admin page: the slug with its `/blog/` prefix removed. */
  lemma EditLinkTarget(slug: string)
    requires StartsWith(slug, "/blog/")
    ensures AdminEditLink(slug) == Some("/admin/posts/" + slug[6..])
  {
    assert OccursAt(slug, "/blog/", 0);
    IndexOfSpec(slug, "/blog/");
    assert IndexOf(slug, "/blog/") == 0;
    assert slug[..0] + "" + slug[6..] == slug[6..];
  }

  /** A page outside the blog gets no edit link; `/blog/` further along in the slug does not count. */
  lemma NoEditLinkOutsideBlog()
    ensures AdminEditLink("/tools/currency-converter") == None
    ensures AdminEditLink("/guide/blog/") == None
    ensures AdminEditLink("/blog") == None
  {
    assert "/tools/currency-converter"[..6][1] == 't';
    assert "/guide/blog/"[..6][1] == 'g';
  }
}
