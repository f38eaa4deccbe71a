/**
 * data/items.ts: the table of calculator tools the site publishes, the
 * lookup by slug and the list of published tools.
 */
module Items {
  import opened Wrappers

  /** A tool entry; optional fields the table always fills are plain values here. */
  datatype Tool = Tool(
    slug: string,
    title: string,
    description: string,
    category: string,
    tags: seq<string>,
    metaTitle: string,
    metaDescription: string,
    keywords: seq<string>,
    canonicalUrl: string,
    published: bool,
    componentName: string)

  /** The component names the tool page's component loader can render. */
  const LoadableComponents: set<string> :=
    {"CurrencyConverter", "TaxFreeThresholdCalculator", "DiscountComparison", "DonkiCouponCalculator"}

  const CurrencyConverterTool: Tool :=
    Tool("currency-converter",
      "엔화 원화 실시간 변환기",
      "일본 엔화를 한국 원화로, 또는 원화를 엔화로 실시간 변환하는 계산기입니다. 현재 환율을 반영하여 정확한 금액을 계산합니다.",
      "환율",
      ["환율", "변환", "엔화", "원화"],
      "엔화 원화 실시간 변환기 - DonkiCalc",
      "일본 엔화를 한국 원화로 실시간 변환하는 계산기. 현재 환율을 반영하여 정확한 금액을 즉시 확인하세요.",
      ["엔화 원화 변환", "일본 환율 계산기", "엔화 환율", "원화 변환", "실시간 환율"],
      "/tools/currency-converter",
      true,
      "CurrencyConverter")

  const TaxFreeThresholdTool: Tool :=
    Tool("tax-free-threshold",
      "면세 한도 계산기",
      "현재 구매 금액을 입력하면 면세 한도(5,500엔)까지 남은 금액을 계산합니다. 면세 혜택을 받기 위해 얼마나 더 구매해야 하는지 확인하세요.",
      "면세",
      ["면세", "한도", "계산", "5,500엔"],
      "면세 한도 계산기 - 돈키호테 면세 기준 확인",
      "일본 쇼핑 면세 한도 계산기. 5,500엔 기준으로 면세까지 남은 금액을 즉시 확인하고 효율적인 쇼핑을 계획하세요.",
      ["면세 한도 계산", "5,500엔", "면세 기준", "돈키호테 면세", "일본 면세 계산"],
      "/tools/tax-free-threshold",
      true,
      "TaxFreeThresholdCalculator")

  const DiscountComparisonTool: Tool :=
    Tool("discount-comparison",
      "할인율 비교 계산기",
      "면세 할인, 쿠폰 할인, 중복 할인을 비교하여 최적의 구매 방법을 찾아보세요. 각 할인 옵션의 최종 금액을 한눈에 비교할 수 있습니다.",
      "할인",
      ["할인", "비교", "면세", "쿠폰"],
      "할인율 비교 계산기 - 면세 vs 쿠폰 vs 중복 할인",
      "일본 쇼핑 할인 옵션 비교 계산기. 면세 할인, 쿠폰 할인, 중복 할인을 비교하여 최대 혜택을 받는 구매 방법을 찾으세요.",
      ["할인 비교", "면세 할인", "쿠폰 할인", "중복 할인", "최적 할인"],
      "/tools/discount-comparison",
      true,
      "DiscountComparison")

  const DonkiCouponTool: Tool :=
    Tool("donki-coupon-calculator",
      "돈키호테 쿠폰 할인 계산기",
      "돈키호테 쿠폰 종류를 선택하고 면세 할인과 함께 적용하여 최종 구매 금액을 계산합니다. 다양한 쿠폰 할인율을 비교해보세요.",
      "쿠폰",
      ["쿠폰", "돈키호테", "할인", "계산"],
      "돈키호테 쿠폰 할인 계산기 - 쿠폰 최대 활용법",
      "돈키호테 쿠폰 할인 계산기. 다양한 쿠폰 종류와 면세 할인을 함께 적용하여 최종 구매 금액을 정확히 계산하세요.",
      ["돈키호테 쿠폰", "쿠폰 할인 계산", "돈키호테 할인", "쿠폰 사용법", "면세 쿠폰"],
      "/tools/donki-coupon-calculator",
      true,
      "DonkiCouponCalculator")

  const Tools: seq<Tool> := [CurrencyConverterTool, TaxFreeThresholdTool, DiscountComparisonTool, DonkiCouponTool]

  /** The index of the first tool with that slug, or `|tools|` when there is none. */
  function SlugIndex(tools: seq<Tool>, slug: string): (k: nat)
    ensures k <= |tools|
    ensures k < |tools| ==> tools[k].slug == slug
    ensures forall j :: 0 <= j < k ==> tools[j].slug != slug
  {
    if tools == [] || tools[0].slug == slug then 0 else 1 + SlugIndex(tools[1..], slug)
  }

  /** `tools.find(tool => tool.slug === slug)`: the first tool with that slug. */
  function FindBySlug(tools: seq<Tool>, slug: string): (r: Option<Tool>)
    ensures r.Some? <==> exists i :: 0 <= i < |tools| && tools[i].slug == slug
    ensures r.Some? ==> exists i :: 0 <= i < |tools| && tools[i] == r.value && r.value.slug == slug
                          && forall j :: 0 <= j < i ==> tools[j].slug != slug
  {
    var k := SlugIndex(tools, slug);
    if k < |tools| then Some(tools[k]) else None
  }

  /** `tools.filter(tool => tool.published)`. */
  function Published(tools: seq<Tool>): (r: seq<Tool>)
    ensures forall t :: t in r <==> t in tools && t.published
    ensures |r| <= |tools|
  {
    if tools == [] then []
    else if tools[0].published then [tools[0]] + Published(tools[1..])
    else Published(tools[1..])
  }

  function GetToolBySlug(slug: string): Option<Tool> {
    FindBySlug(Tools, slug)
  }

  function GetAllTools(): seq<Tool> {
    Published(Tools)
  }

  /** Filtering a list whose entries are all published keeps it, order included. */
  lemma {:induction false} PublishedOfAllPublished(tools: seq<Tool>)
    requires forall i :: 0 <= i < |tools| ==> tools[i].published
    ensures Published(tools) == tools
  {
    if tools != [] {
      PublishedOfAllPublished(tools[1..]);
    }
  }

  /** Every tool of the table is published, so the published list is the table in table order. */
  lemma AllToolsAreTheTable()
    ensures GetAllTools() == Tools && |GetAllTools()| == 4
  {
    assert CurrencyConverterTool.published && TaxFreeThresholdTool.published;
    assert DiscountComparisonTool.published && DonkiCouponTool.published;
    PublishedOfAllPublished(Tools);
  }

  /** No two tools of the table share a slug: they differ in length or in their first letter. */
  lemma SlugsDistinct()
    ensures forall i, j :: 0 <= i < j < |Tools| ==> Tools[i].slug != Tools[j].slug
  {
    var c, t, d, k := CurrencyConverterTool, TaxFreeThresholdTool, DiscountComparisonTool, DonkiCouponTool;
    assert |c.slug| == 18 && |t.slug| == 18 && |d.slug| == 19 && |k.slug| == 23;
    assert c.slug[0] == 'c' && t.slug[0] == 't';
  }

  predicate CanonicalFollowsSlug(t: Tool) {
    t.canonicalUrl == "/tools/" + t.slug
  }

  /** The four `/tools/` paths, as strings on their own. */
  lemma CurrencyConverterPath() ensures "/tools/currency-converter" == "/tools/" + "currency-converter" {}
  lemma TaxFreeThresholdPath() ensures "/tools/tax-free-threshold" == "/tools/" + "tax-free-threshold" {}
  lemma DiscountComparisonPath() ensures "/tools/discount-comparison" == "/tools/" + "discount-comparison" {}
  lemma DonkiCouponPath() ensures "/tools/donki-coupon-calculator" == "/tools/" + "donki-coupon-calculator" {}

  /** Every canonical URL is the tool's own `/tools/` path. */
  lemma CanonicalUrlsFollowSlugs()
    ensures forall i :: 0 <= i < |Tools| ==> Tools[i].canonicalUrl == "/tools/" + Tools[i].slug
  {
    CurrencyConverterPath();
    TaxFreeThresholdPath();
    DiscountComparisonPath();
    DonkiCouponPath();
    var c, t, d, k := CurrencyConverterTool, TaxFreeThresholdTool, DiscountComparisonTool, DonkiCouponTool;
    assert c.canonicalUrl == "/tools/currency-converter" && c.slug == "currency-converter";
    assert t.canonicalUrl == "/tools/tax-free-threshold" && t.slug == "tax-free-threshold";
    assert d.canonicalUrl == "/tools/discount-comparison" && d.slug == "discount-comparison";
    assert k.canonicalUrl == "/tools/donki-coupon-calculator" && k.slug == "donki-coupon-calculator";
    assert forall i :: 0 <= i < |Tools| ==> CanonicalFollowsSlug(Tools[i]);
  }

  /** Every component name is one the tool page's loader knows. */
  lemma ComponentNamesLoadable()
    ensures forall i :: 0 <= i < |Tools| ==> Tools[i].componentName in LoadableComponents
  {
  }

  /** With distinct slugs, looking a table entry up by its slug finds that entry. */
  lemma LookupFindsEntry(i: nat)
    requires i < |Tools|
    ensures GetToolBySlug(Tools[i].slug) == Some(Tools[i])
  {
    SlugsDistinct();
  }

  /** A slug not in the table finds nothing. */
  lemma LookupOfUnknownSlug(slug: string)
    requires forall i :: 0 <= i < |Tools| ==> Tools[i].slug != slug
    ensures GetToolBySlug(slug) == None
  {
  }
}
