/**
 * lib/tools.ts: the accessors the tool pages call on the tools table.
 */
module ToolsLib {
  import opened Wrappers
  import opened Numbers
  import opened Items

  /** `getAllTools()`: every tool of the table is published, so this is the whole table, in order. */
  function GetAllPublishedTools(): (r: seq<Tool>)
    ensures r == Tools
    ensures forall t :: t in r <==> t in Tools && t.published
  {
    AllToolsAreTheTable();
    GetAllTools()
  }

  /** `getToolBySlug(slug) || null`: nothing exactly when no tool has that slug, otherwise that tool. */
  function GetTool(slug: string): (r: Option<Tool>)
    ensures r.None? <==> forall i :: 0 <= i < |Tools| ==> Tools[i].slug != slug
    ensures r.Some? ==> r.value in Tools && r.value.slug == slug
  {
    GetToolBySlug(slug)
  }

  /** `Math.ceil(tools.length / postsPerPage)`. */
  function GetTotalToolPages(postsPerPage: int): nat
    requires postsPerPage > 0
  {
    CeilDiv(|GetAllPublishedTools()|, postsPerPage)
  }

  /**
   * The page count is the ceiling of four tools over `postsPerPage`: by the
   * contract of `CeilDiv`, the fewest pages that hold all four published tools.
   */
  lemma TotalToolPagesSpec(postsPerPage: int)
    requires postsPerPage > 0
    ensures GetTotalToolPages(postsPerPage) == CeilDiv(4, postsPerPage)
  {
    AllToolsAreTheTable();
  }

  /** One page of four or more tools; two pages of three. */
  lemma TotalToolPagesExamples()
    ensures GetTotalToolPages(12) == 1 && GetTotalToolPages(4) == 1
    ensures GetTotalToolPages(3) == 2 && GetTotalToolPages(1) == 4
  {
    AllToolsAreTheTable();
  }
}
