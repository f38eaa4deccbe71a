# DonkiCalc core, modelled in Dafny

DonkiCalc is a Next.js site for shoppers in Japan. It converts yen to won,
applies the 10% tax-free discount and the 5% store coupon, and shows how far
a basket is from the 5,500-yen tax-free threshold. Around that calculator sit
a blog and tool catalogue, an admin editor and some small server utilities.
This project models the deterministic core of the site and proves what it
promises:

- the calculator store, a state machine over the digit string the keypad edits;
- the money and gauge arithmetic of the calculator widgets and the three
  discount tools, over exact rationals (`real`);
- the two fixed-window rate limiters, as classes whose maps are updated in place;
- the text utilities:
  - `slugify` and `sanitizeSlug`;
  - the 31-multiplier 32-bit content hash and its base-36 rendering;
  - Jaccard word similarity and the duplicate rule;
  - the keyword and heading helpers and the semantic-URL recogniser;
  - the webmaster meta-tag extraction and the script built from it;
  - the FAQ tag stripping;
  - the Open Graph parameter sanitising;
- the validators and small decision rules:
  - publish validation in `lib/admin.ts` and in the post editor;
  - frontmatter defaulting and date ordering;
  - environment-variable validation and the site-URL fallback chain;
  - the tool table and its lookups;
  - page counts and the admin dashboard ratios.

Each source file is one module:

| module | file |
|---|---|
| `CalculatorStore` | `calculator.dfy` |
| `ResultBox` | `result_box.dfy` |
| `Gauge` | `gauge.dfy` |
| `TaxFreeThreshold` | `tax_free_threshold.dfy` |
| `DiscountComparison` | `discount_comparison.dfy` |
| `DonkiCoupon` | `donki_coupon.dfy` |
| `CurrencyConverter`, `RateFallback` | `currency_converter.dfy`, `rate_fallback.dfy` |
| `RateLimiter` | `rate_limiter.dfy` |
| `RateLimit` | `rate_limit.dfy` |
| `DuplicateContent`, `ContentHash` | `duplicate_content.dfy`, `hash.dfy` |
| `SeoUtils` | `seo_utils.dfy` |
| `Generator` | `generator.dfy` |
| `Admin`, `Blog`, `Posts` | `admin.dfy`, `blog.dfy`, `posts.dfy` |
| `PostEditor` | `post_editor.dfy` |
| `EnvValidator` | `env_validator.dfy` |
| `SiteConfig` | `site_config.dfy` |
| `Head`, `MetaTags`, `MetaTag` | `head.dfy`, `meta_tags.dfy`, `meta_tag.dfy` |
| `OgRoute` | `og_route.dfy` |
| `Faq` | `faq.dfy` |
| `Items`, `ToolsLib` | `items.dfy`, `tools.dfy` |
| `AdminStats` | `admin_stats.dfy` |

`Text`, `Numbers`, `Filters` and `Wrappers` hold the shared helpers. They are
ASCII lower-casing, trimming and whitespace collapsing, `indexOf`, splitting,
`parseFloat` on digit strings, `Math.round`, `toFixed`, base-36 rendering,
32-bit wrap-around, character filters and `Option`.

Code that changes state step by step is imperative Dafny:

- the calculator store, the three checkbox cells of the discount comparison,
  the coupon selection, the converter's two fields and both rate-limit stores
  are classes;
- `calculate`, `appendDigit` and the other store actions are methods proved
  against the function that specifies them;
- the hash loop, the cleanup loop over the limiter map, the `push`-based
  validators and `validateRequiredEnv` are loops or push sequences with their
  invariants;
- `updateTopicStatus` updates an array in place.

Clocks, randomness, the request headers, the environment, the file system and
`JSON.parse` / `JSON.stringify` enter as parameters.

## Model

| member | source | states |
|---|---|---|
| CalculatorStore.Calculator.constructor | lib/stores/calculator.ts:49-54 | The store starts at input "0", the default rate 9.05, both discounts off, result 0 and the 5500 threshold, and is valid. |
| CalculatorStore.Calculator.Compute | lib/stores/calculator.ts:111-127 | Parsing the input, converting at the rate and applying each discount that is switched on, one step at a time, yields exactly the rounded expected amount. |
| CalculatorStore.Calculator.Calculate | lib/stores/calculator.ts:110-128 | The result becomes round(value(input) × rate × 0.9 if tax-free × 0.95 if coupon), whether or not the threshold is met; nothing else changes. |
| CalculatorStore.Calculator.AppendDigit | lib/stores/calculator.ts:56-68 | Keeps the input a non-empty digit string of at most 10 characters. A full input changes nothing, not even the result. "0" is replaced by the digit; otherwise the digit is appended. Rate and flags are kept. |
| CalculatorStore.AppendedInputValue | lib/stores/calculator.ts:59-66 | Appending to a valid input keeps it valid. Its value becomes 10·v + d, becomes d on "0", or stays the same at the length cap. |
| CalculatorStore.AppendAfterZero | lib/stores/calculator.ts:62-63 | "0" then "5" gives "5"; "0" then "0" stays "0". |
| CalculatorStore.Calculator.SetInput | lib/stores/calculator.ts:70-79 | The input becomes the first ten digits of the text, with "" and "0" stored as "0"; the store stays valid and rate and flags are kept. |
| CalculatorStore.FirstDigits | lib/stores/calculator.ts:72 | The kept text is a digit string of at most 10 characters. |
| CalculatorStore.SetInputTextValid | lib/stores/calculator.ts:72-77 | Whatever the text, the stored input is valid and has the value of its first ten digits. |
| CalculatorStore.SetInputOfValid | lib/stores/calculator.ts:72-77 | A valid input is stored unchanged. |
| CalculatorStore.SetInputKeepsLeadingZeros | lib/stores/calculator.ts:73-76 | "007" is stored as "007": only "" and "0" are normalised. |
| CalculatorStore.SetInputIgnoresNonDigit | lib/stores/calculator.ts:72 | A non-digit character anywhere in the text has no effect. |
| CalculatorStore.Calculator.Backspace | lib/stores/calculator.ts:81-89 | Removes the last character, or gives "0" for an input of length ≤ 1; the store stays valid. |
| CalculatorStore.BackspacedInputValue | lib/stores/calculator.ts:83-87 | Backspace keeps the input valid and divides its value by 10 (integer division), or yields "0". |
| CalculatorStore.Calculator.Clear | lib/stores/calculator.ts:91-93 | Input "0" and result 0; rate and both flags unchanged. |
| CalculatorStore.Calculator.ToggleTaxFree | lib/stores/calculator.ts:95-98 | Flips the tax-free flag, recomputes the result and keeps everything else. Switching it on never raises the result when the rate is non-negative. |
| CalculatorStore.Calculator.ToggleCoupon | lib/stores/calculator.ts:100-103 | Flips the coupon flag, recomputes the result and keeps everything else. Switching it on never raises the result when the rate is non-negative. |
| CalculatorStore.Calculator.SetRate | lib/stores/calculator.ts:105-108 | Sets the rate and recomputes the result; input and flags unchanged. |
| CalculatorStore.AmountIsProduct | lib/stores/calculator.ts:115-125 | The step-by-step amount equals value × rate × (0.9 or 1) × (0.95 or 1). |
| CalculatorStore.DiscountsNeverRaise | lib/stores/calculator.ts:118-127 | For non-negative value and rate, either discount never increases the rounded result. |
| ResultBox.SavingsAgreeWithStore | components/calculator/result-box.tsx:17-20 | The displayed discount is the base minus the store's discounted amount. |
| ResultBox.DiscountShare | components/calculator/result-box.tsx:18-20 | The discounted share of the base lies in [0, 1), and is 0 exactly when neither discount is on. |
| ResultBox.DiscountIsShareOfBase | components/calculator/result-box.tsx:17-20 | totalDiscount = base × the discounted share. |
| ResultBox.PercentWithoutBase | components/calculator/result-box.tsx:21 | With base ≤ 0 the percent is "0", so there is no division by zero. |
| ResultBox.DiscountNonNegative | components/calculator/result-box.tsx:18-20 | For base ≥ 0 the discount is never negative. |
| ResultBox.FixedPercents | components/calculator/result-box.tsx:18-21 | For base > 0 the percent is "10.0", "5.0", "14.5" or "0.0", independent of amount and rate. |
| ResultBox.ShowsSavingsIff | components/calculator/result-box.tsx:32 | For base > 0 the savings box shows exactly when a discount is on; for base ≤ 0 never. |
| Gauge.MeasureOf | components/calculator/gauge.tsx:13-16 | Progress ≤ 100 and ≥ 0 for non-negative input. Remaining ≥ 0. Achieved ⇔ input ≥ threshold ⇔ remaining = 0, and achieved ⇒ progress 100. Otherwise progress and remaining are the exact ratio and difference. |
| Gauge.ScaledRatio | components/calculator/gauge.tsx:14 | The scaled ratio reaches 100 exactly when the input reaches the threshold. |
| Gauge.UnparseableCountsAsZero | components/calculator/gauge.tsx:13-15 | Input without digits counts as 0: progress 0, remaining = threshold, not achieved. |
| Gauge.BadgeConditions | components/calculator/gauge.tsx:54-109 | The % label shows ⇔ 5·input > threshold. Celebration and perfect badge ⇔ achieved. "Almost there" ⇔ threshold − 1000 < input < threshold. |
| TaxFreeThreshold.ThresholdFacts | components/tools/TaxFreeThresholdCalculator.tsx:8-14 | The threshold is 5500. remaining = max(5500 − current, 0), achieved ⇔ current ≥ 5500, and achieved ⇒ progress 100 and remaining 0. |
| TaxFreeThreshold.NegativeAmountNegativeProgress | components/tools/TaxFreeThresholdCalculator.tsx:13 | Progress is not clamped below: a negative amount gives a negative progress. |
| TaxFreeThreshold.InitialState | components/tools/TaxFreeThresholdCalculator.tsx:7-14 | The initial "0" gives progress 0, remaining 5500, not achieved. |
| RateFallback.EffectiveRate | components/tools/CurrencyConverter.tsx:26 | A missing or zero fetched rate falls back to 9.05; the effective rate is never 0. |
| DiscountComparison.DiscountedRow | components/tools/DiscountComparison.tsx:57-87 | discount = base − amount. The unguarded percent is not finite exactly when base = 0; otherwise percent × base = discount × 100. |
| DiscountComparison.Candidates | components/tools/DiscountComparison.tsx:33-88 | The undiscounted row always comes first, with at most one discounted row after it, and every row has discount = base − amount. |
| DiscountComparison.PushRows | components/tools/DiscountComparison.tsx:47-88 | The pushes build exactly the candidate list. |
| DiscountComparison.SortByAmountDesc | components/tools/DiscountComparison.tsx:90 | The output is a permutation ordered by non-increasing amount, and the stable sort keeps an already ordered pair. |
| DiscountComparison.Calculations | components/tools/DiscountComparison.tsx:29-91 | A permutation of the candidates, sorted by non-increasing amount, of length 1 or 2, containing the undiscounted row, which comes first when base ≥ 0. |
| DiscountComparison.DiscountedAmountsNotAbove | components/tools/DiscountComparison.tsx:33-43 | For base ≥ 0 no row's amount exceeds the base. |
| DiscountComparison.TwoSinglesGiveNoDiscountOnly | components/tools/DiscountComparison.tsx:33-39 | Tax-free and coupon both checked, "both" unchecked: only the undiscounted row. |
| DiscountComparison.BothAmount | components/tools/DiscountComparison.tsx:41-43 | The "both" row has amount base × 0.9 × 0.95. |
| DiscountComparison.FixedPercents | components/tools/DiscountComparison.tsx:58-85 | For base > 0 the percents are exactly 10, 5 and 14.5. |
| DiscountComparison.NegativeBaseReorders | components/tools/DiscountComparison.tsx:90 | With a negative base the discounted row has the larger amount, so the undiscounted row is no longer first. |
| DiscountComparison.Options.constructor | components/tools/DiscountComparison.tsx:17-19 | All three checkboxes start unchecked. |
| DiscountComparison.Options.OnTaxFreeChange | components/tools/DiscountComparison.tsx:135-138 | Sets tax-free and clears "both" when checked, keeping "both ⇒ neither single". |
| DiscountComparison.Options.OnCouponChange | components/tools/DiscountComparison.tsx:147-150 | Sets coupon and clears "both" when checked, keeping the same invariant. |
| DiscountComparison.Options.OnBothChange | components/tools/DiscountComparison.tsx:159-165 | Sets "both" and clears both singles when checked, keeping the same invariant. |
| DonkiCoupon.CouponFactors | components/tools/DonkiCouponCalculator.tsx:15-20 | Four coupons with multipliers 0.95, 0.90, 0.85 and 0.80, each in (0, 1). |
| DonkiCoupon.Calculations | components/tools/DonkiCouponCalculator.tsx:35-57 | The memo returns CouponBreakdown of the parsed yen amount times the rate, under the selected coupon's factor and the tax-free flag. |
| DonkiCoupon.ApplyCoupon | components/tools/DonkiCouponCalculator.tsx:40-56 | Scaling the final amount step by step and recovering the tax-free saving by dividing the 0.9 back out gives exactly CouponBreakdown. |
| DonkiCoupon.CouponBreakdownSpec | components/tools/DonkiCouponCalculator.tsx:40-56 | For a coupon factor in (0, 1): coupon saving + tax-free saving = totalDiscount = base − final. final ≤ base for base ≥ 0. The percent is not finite exactly at base 0, otherwise (1 − factor) × 100. |
| DonkiCoupon.FactorBelowOne | components/tools/DonkiCouponCalculator.tsx:40-44 | The combined price factor lies strictly between 0 and 1. |
| DonkiCoupon.Selection.SelectCoupon | components/tools/DonkiCouponCalculator.tsx:100 | The selected index is one of the table's and stays within 0..3; the tax-free flag is kept. |
| DonkiCoupon.Selection.SetUseTaxFree | components/tools/DonkiCouponCalculator.tsx:25 | Sets the flag, keeps the selection valid and unchanged. |
| CurrencyConverter.Converter.HandleJpyChange | components/tools/CurrencyConverter.tsx:28-35 | Always stores the raw yen text. It rewrites the won field to the rounded conversion only in yen-to-won direction, and leaves it unchanged otherwise. |
| CurrencyConverter.Converter.HandleKrwChange | components/tools/CurrencyConverter.tsx:37-44 | Always stores the raw won text. It rewrites the yen field to the rounded conversion only in won-to-yen direction, and leaves it unchanged otherwise. |
| CurrencyConverter.Converter.SetDirection | components/tools/CurrencyConverter.tsx:71-81 | Switching direction changes neither amount. |
| CurrencyConverter.KrwReadsBack | components/tools/CurrencyConverter.tsx:32 | The won text written back reads as jpy × rate rounded half away from zero. |
| CurrencyConverter.JpyReadsBack | components/tools/CurrencyConverter.tsx:41 | The yen text written back reads as krw / rate rounded half away from zero. |
| RateLimiter.Decide | lib/rate-limiter.ts:38-65 | An unknown or expired record restarts at count 1 with reset now + window: allowed, max − 1 left. A full window is denied with 0 left and the record unchanged. Otherwise the count goes up by exactly 1 and remaining = max − count ≥ 0. |
| RateLimiter.CountStaysBounded | lib/rate-limiter.ts:38-65 | For max ≥ 1 the stored count stays in 1..max. |
| RateLimiter.ResetInstantIsOldWindow | lib/rate-limiter.ts:38 | At now = resetAt the old window still applies: a full record is denied. |
| RateLimiter.AtMostMaxPerWindow | lib/rate-limiter.ts:38-65 | Within one window, at most max − count further calls are allowed. |
| RateLimiter.Store.CheckRateLimit | lib/rate-limiter.ts:28-66 | Returns the decision and writes only the caller's record; every other key is untouched. |
| RateLimiter.Store.CheckRateLimitDefault | lib/rate-limiter.ts:28-32 | The defaults are 100 requests per 60,000 ms. |
| RateLimiter.Store.ResetRateLimit | lib/rate-limiter.ts:71-73 | Deletes exactly that key. |
| RateLimit.GetClientId | lib/rate-limit.ts:17-21 | The untrimmed first comma-separated piece of x-forwarded-for. When that header is empty: x-real-ip, else "unknown". |
| RateLimit.ClientIdUntrimmed | lib/rate-limit.ts:19 | " a,b" gives " a", and ", b" gives the empty id. |
| RateLimit.WithoutExpired | lib/rate-limit.ts:25-29 | Keeps exactly the entries with resetTime ≥ now, unchanged. |
| RateLimit.ClientStore.CleanupExpiredEntries | lib/rate-limit.ts:23-30 | The loop deletes exactly the expired entries and keeps the count bound. |
| RateLimit.CleanupDoesNotChangeDecision | lib/rate-limit.ts:34-55 | Whether or not the random cleanup runs, the decision for the caller is the same. |
| RateLimit.FixedCountBounded | lib/rate-limit.ts:14-55 | With the fixed window of 100 requests, the count stays in 1..100 and remaining in 0..99. |
| RateLimit.ClientStore.CheckRateLimit | lib/rate-limit.ts:32-56 | Optional cleanup, then the fixed-window decision for the client id. Only that id's record is written, and the count bound is kept. |
| RateLimit.SanitizedTextShape | lib/rate-limit.ts:63-68 | The sanitised text has only [a-z0-9-], no "--", and no leading or trailing '-'. |
| RateLimit.SanitizeSlug | lib/rate-limit.ts:58-75 | None for empty input, for an empty result or for one longer than 100 (never truncated); otherwise the sanitised text. |
| RateLimit.SanitizeSlugIdempotent | lib/rate-limit.ts:63-68 | Sanitising a sanitised slug returns it unchanged. |
| ContentHash.SourceStepIsHashStep | lib/duplicate-content-checker.ts:25-26 | ((h << 5) − h) + c, truncated to 32 bits, equals toInt32(31·h + c). |
| ContentHash.Hash31 | lib/duplicate-content-checker.ts:23-27 | The loop computes the recurrence h := toInt32(31·h + code) from 0. |
| ContentHash.Render | lib/duplicate-content-checker.ts:29 | \|h\| in base 36: non-empty, only [0-9a-z]. |
| ContentHash.RenderDeterminesMagnitude | lib/duplicate-content-checker.ts:29 | Equal renderings mean equal magnitudes. |
| DuplicateContent.NormalizeContent | lib/duplicate-content-checker.ts:18-21 | The normalised text has no upper-case letters, single spaces between words and no edge spaces. |
| DuplicateContent.GenerateContentHash | lib/duplicate-content-checker.ts:15-30 | The hash of the normalised text, in base 36. |
| DuplicateContent.HashIgnoresCaseAndSpacing | lib/duplicate-content-checker.ts:18-21 | The hash depends only on the normalised text. |
| DuplicateContent.NormalizeContentIdempotent | lib/duplicate-content-checker.ts:18-21 | Normalising twice equals normalising once. |
| DuplicateContent.BlankContentHashesToZero | lib/duplicate-content-checker.ts:17-29 | Empty or whitespace-only content hashes to "0". |
| DuplicateContent.WordSet | lib/duplicate-content-checker.ts:36-40 | The word set is never empty, so the union never is. |
| DuplicateContent.CalculateSimilarity | lib/duplicate-content-checker.ts:35-46 | The Jaccard index lies in [0, 1]. It is 1 for equal word sets and 0 for disjoint ones. |
| DuplicateContent.SimilaritySymmetric | lib/duplicate-content-checker.ts:42-45 | similarity(a, b) = similarity(b, a). |
| DuplicateContent.SimilarityReflexive | lib/duplicate-content-checker.ts:42-45 | A text is fully similar to itself. |
| DuplicateContent.ScoreBounds | lib/duplicate-content-checker.ts:60-80 | 0.4·ts·[ts > 0.8] + 0.3·ds·[ds > 0.8] + 0.3·[same hash] lies in [0, 1]. |
| DuplicateContent.DuplicateIffAllSignals | lib/duplicate-content-checker.ts:63-88 | Score > 0.7 ⇔ both similarities exceed 0.8 and the hashes match. |
| DuplicateContent.CheckDuplicateContent | lib/duplicate-content-checker.ts:51-92 | Gives the score and the duplicate verdict above. Reasons come in the order title, description, content, canonical; an equal canonical URL adds a reason but no score. |
| DuplicateContent.SelfIsDuplicate | lib/duplicate-content-checker.ts:63-88 | An entry compared with itself is a duplicate. |
| SeoUtils.HasKeywordInHeading | lib/seo-utils.ts:8-11 | True ⇔ some lower-cased keyword occurs in the lower-cased heading; false for no keywords. |
| SeoUtils.OptimizeHeading | lib/seo-utils.ts:16-29 | Unchanged when there are no keywords or one is present. Otherwise keywords[0] + " " + heading, which then contains a keyword. |
| SeoUtils.OptimizeHeadingIdempotent | lib/seo-utils.ts:16-29 | Optimising twice equals optimising once. |
| SeoUtils.GetKeywordPosition | lib/seo-utils.ts:34-38 | The first case-insensitive occurrence, or −1 exactly when there is none. |
| SeoUtils.PositionAgreesWithHeadingCheck | lib/seo-utils.ts:8-38 | A position ≥ 0 ⇔ the single keyword is found by the heading check. |
| SeoUtils.GenerateContentFingerprint | lib/seo-utils.ts:43-52 | The same 32-bit recurrence over the raw text, rendered in base 36. |
| SeoUtils.FingerprintOfNormalizedIsContentHash | lib/seo-utils.ts:43-52 | The fingerprint of normalised text is the content hash of the original. |
| SeoUtils.EmptyFingerprintIsZero | lib/seo-utils.ts:43-52 | The fingerprint of empty content is "0". |
| SeoUtils.IsSemanticUrlIff | lib/seo-utils.ts:57-62 | Accepted ⇔ one or more '/'-prefixed, non-empty [a-z0-9-] segments. |
| SeoUtils.ForeignCharRejected | lib/seo-utils.ts:60-61 | A URL holding any character outside lower-case letters, digits, '-' and '/' is rejected. |
| SeoUtils.QueryUrlRejected | lib/seo-utils.ts:60-61 | The query-string URL "/page?id=123" is rejected. |
| SeoUtils.SlashEdgesRejected | lib/seo-utils.ts:60-61 | "/" and "/guide/" are rejected: a bare slash and a trailing slash do not match. |
| SeoUtils.SemanticUrlRejectsDoubleSlashAndUpper | lib/seo-utils.ts:60-61 | "/a//b" and "/Guide" are rejected. |
| Generator.SlugifyShape | scripts/generator.ts:67-77 | A slug has only [a-z0-9_-], no "--", and no leading or trailing '-'. |
| Generator.NoWordCharsGiveEmptySlug | scripts/generator.ts:73-76 | A title without ASCII letters, digits or '_' slugifies to "". |
| Generator.SlugifyIdempotent | scripts/generator.ts:67-77 | slugify(slugify(t)) = slugify(t). |
| Generator.FilterPending | scripts/generator.ts:31 | Keeps exactly the pending topics. |
| Generator.FilterPendingAppend | scripts/generator.ts:31 | The filter keeps file order. |
| Generator.GetPendingTopics | scripts/generator.ts:24-36 | A missing topic list gives []; otherwise the pending topics. |
| Generator.FindIndex | scripts/generator.ts:50 | The first topic with the id, or −1 when there is none. |
| Generator.WithStatus | scripts/generator.ts:53-59 | Sets the status. completedAt is set only for "completed" and the error only when one is given; the other fields are kept. |
| Generator.UpdateTopicStatus | scripts/generator.ts:50-61 | Only the first matching topic changes, as above; with no match the array is unchanged. |
| Posts.SlugOf | lib/blog.ts:19 | The slug is the file name minus ".mdx". |
| Posts.LoadPostsIff | lib/blog.ts:15-37 | A post is listed ⇔ it comes from a readable ".mdx" file. |
| Posts.SortByDateDesc | lib/blog.ts:38-44 | A permutation ordered by date, latest first. |
| Posts.InsertSorted | lib/admin.ts:70-76 | Inserting into a date-descending list keeps it date-descending. |
| Blog.FilterPublished | lib/blog.ts:37 | Keeps exactly the posts whose flag is not false. |
| Blog.AllPostsSpec | lib/blog.ts:8-53 | Date-descending, and a post is listed ⇔ it is a readable ".mdx" file whose published flag is not exactly false. |
| Blog.UnreadableFileSkipped | lib/blog.ts:30-35 | An unreadable file is skipped and the rest are listed. |
| Blog.GetPostBySlug | lib/blog.ts:55-77 | None exactly when the file is missing or unreadable; otherwise a post with that slug and the file's body, whose frontmatter is the file's with only `published` rewritten to "not exactly false". |
| Blog.TotalPagesSpec | lib/blog.ts:79-82 | 0 pages for no posts; otherwise the least k with k·p ≥ n. |
| Admin.AdminDefaults | lib/admin.ts:19-27 | published, index and sitemap are true unless exactly false. A given status is kept; otherwise it is "published" ⇔ published is truthy. Other fields are the frontmatter's. |
| Admin.MissingPublishedIsPublishedDraft | lib/admin.ts:23-24 | With no published field a post is published yet has status "draft". |
| Admin.GetPostBySlugForAdmin | lib/admin.ts:9-34 | None exactly when the file is missing or unreadable; otherwise the post with that slug and the file's body, normalised by the admin defaults (AdminPostOf, whose guarantees Admin.AdminDefaults states). |
| Admin.AdminListing | lib/admin.ts:37-85 | Every readable ".mdx" file is listed, normalised and whatever its flag, latest date first. |
| Admin.ValidatePublish | lib/admin.ts:161-197 | The pushes give exactly the ordered error list, and valid ⇔ no errors. |
| Admin.PublishErrorsIff | lib/admin.ts:167-190 | Each error appears ⇔ its check fails. The CTA and link checks apply only with a category or tags, and an empty tag list counts. |
| Admin.PublishErrorsOrdered | lib/admin.ts:167-190 | Each error appears at most once, in the fixed order metaTitle, metaDescription, keywords, H1, CTA, internal links, external links. |
| Admin.ArticleWithoutLinks | lib/admin.ts:173-190 | A categorised post without keywords, CTA or links gets exactly those four errors. |
| PostEditor.InitialForm | components/admin/AdminPostEditor.tsx:17-38 | status defaults from published. index and sitemap are true unless exactly false. External links are the stringified list. |
| PostEditor.ListsSurviveTheForm | components/admin/AdminPostEditor.tsx:24-36 | Tags, keywords and internal links joined with ", " split back into the same lists. |
| PostEditor.CountedLinksAreSaved | components/admin/AdminPostEditor.tsx:64-105 | The non-blank pieces counted are the links a save sends. |
| PostEditor.ExternalLinksError | components/admin/AdminPostEditor.tsx:67-74 | At most one external-link error; the malformed one exactly when parsing fails. |
| PostEditor.ValidateForm | components/admin/AdminPostEditor.tsx:51-80 | The pushes give exactly the ordered error list, and the result is true ⇔ no errors. |
| PostEditor.FormErrorsIff | components/admin/AdminPostEditor.tsx:54-74 | Each error appears ⇔ its check fails. |
| PostEditor.DraftChecksSeoOnly | components/admin/AdminPostEditor.tsx:59-60 | A form not published, or without category and tags, is checked only for the four SEO fields. |
| PostEditor.ExternalLinkErrorsExclusive | components/admin/AdminPostEditor.tsx:67-74 | "Too few" and "malformed" external links are never both reported. |
| PostEditor.EmptyLinksTextIsTooFew | components/admin/AdminPostEditor.tsx:68-70 | An empty links text is read as "[]" and reported as too few, never as malformed. |
| PostEditor.Submit | components/admin/AdminPostEditor.tsx:82-89 | An invalid form aborts the submit. |
| PostEditor.SubmitSpec | components/admin/AdminPostEditor.tsx:93-126 | The payload splits, trims and drops empty list items, sets published ⇔ status is "published", and falls back to [] for unparseable external links. |
| PostEditor.PublishedArticleSendsLinks | components/admin/AdminPostEditor.tsx:59-112 | A valid published article sends at least 2 internal links and a non-empty external array. |
| PostEditor.KeywordsTextPasses | components/admin/AdminPostEditor.tsx:55 | The keyword check passes for any non-empty keywords text, even a blank one. |
| PostEditor.PushArticleErrors | components/admin/AdminPostEditor.tsx:59-74 | The published-article block appends exactly the ordered CTA, internal-link and external-link errors. |
| PostEditor.BlankKeywordsPassed | components/admin/AdminPostEditor.tsx:55-101 | A keywords text of ", " passes the check yet saves no keyword. |
| EnvValidator.MissingKeysIff | lib/env-validator.ts:19-23 | A key is reported ⇔ it is required and unset or empty. |
| EnvValidator.MissingKeysAppend | lib/env-validator.ts:19-23 | Missing keys are reported in the order given. |
| EnvValidator.ValidateRequiredEnv | lib/env-validator.ts:16-30 | Throws ⇔ some required key is unset or empty, with a message listing the missing keys in order. |
| EnvValidator.GetEnv | lib/env-validator.ts:35-43 | Returns the value when it is non-empty, else the non-empty default, else throws; a returned value is non-empty. |
| EnvValidator.GetOptionalEnv | lib/env-validator.ts:48-50 | The raw lookup, never failing. |
| EnvValidator.GetEnvAgreesWithOptional | lib/env-validator.ts:35-50 | When the optional lookup is non-empty, getEnv returns it whatever the default. |
| SiteConfig.GetSiteUrl | site.config.ts:2-17 | A non-placeholder NEXT_PUBLIC_SITE_URL wins, then "https://" + VERCEL_URL, then the placeholder. The result is never empty. |
| SiteConfig.PlaceholderOnlyAsLastResort | site.config.ts:6-16 | The placeholder URL results exactly when no usable site URL or Vercel host is set. |
| SiteConfig.AdSenseOf | site.config.ts:45-48 | enabled ⇔ the client id is non-empty. |
| MetaTag.Attribute | app/head.tsx:9-10 | A capture exists ⇔ some `key<q>…<q>` match exists; the capture is non-empty and quote-free. |
| MetaTag.LeftmostAttribute | app/head.tsx:9-10 | The leftmost match is the one captured. |
| MetaTag.ParseMetaTag | app/head.tsx:8-18 | Some ⇔ both a name and a content match exist; both values are non-empty and quote-free. |
| MetaTag.ParsesSnippet | app/head.tsx:8-18 | A standard `<meta name="…" content="…" />` snippet parses to its name and content. |
| MetaTag.MismatchedQuotesAccepted | app/head.tsx:9 | `name="x'` is accepted. |
| MetaTag.UnquotedRejected | app/head.tsx:9-12 | Text without quote characters yields nothing. |
| Head.WebmasterMetaOnlyWhenParsed | app/head.tsx:20-47 | After the three fixed elements, a webmaster meta element appears exactly when its setting parses. |
| Head.EmittedMetaWellFormed | app/head.tsx:40-47 | Every emitted webmaster meta has a non-empty, quote-free name and content. |
| MetaTags.CreateMetaTagScript | components/layout/MetaTags.tsx:8-28 | A script exists ⇔ both matches exist. |
| MetaTags.ScriptEmbedsTag | components/layout/MetaTags.tsx:10-27 | The script is the template filled with the parsed name and content, both non-empty and quote-free. |
| MetaTags.SelectorEmbedsName | components/layout/MetaTags.tsx:20 | The selector embeds the name verbatim, at its place in the script. |
| MetaTags.SetNameEmbedsName | components/layout/MetaTags.tsx:22 | The name call embeds the name verbatim, at its place in the script. |
| MetaTags.SetContentEmbedsContent | components/layout/MetaTags.tsx:23 | The content call embeds the content verbatim, at its place in the script. |
| MetaTags.ScriptOnlyWhenParsed | components/layout/MetaTags.tsx:33-54 | One script per configured tag that parses, and no other. |
| OgRoute.ParamOr | app/api/og/route.tsx:9-10 | An absent or empty parameter gives the fallback. |
| OgRoute.Sanitize | app/api/og/route.tsx:13-14 | At most limit characters, none of them '<' or '>'. |
| OgRoute.OgTitle | app/api/og/route.tsx:9-13 | The title has at most 100 characters and no angle brackets. |
| OgRoute.OgDescription | app/api/og/route.tsx:10-14 | The description has at most 200 characters and no angle brackets. |
| OgRoute.DefaultsWhenMissing | app/api/og/route.tsx:9-10 | Missing parameters give "Growth Engine Starter" and "". |
| OgRoute.CleanParamUnchanged | app/api/og/route.tsx:13-14 | A short parameter without brackets passes unchanged. |
| OgRoute.TruncationBeforeStripping | app/api/og/route.tsx:13-14 | An over-long value with a bracket within the limit ends up shorter than the limit. |
| Faq.StripTagsTagFree | app/faq/page.tsx:44 | After stripping, no '<' is followed by a '>', and any '>' left was in the input. |
| Faq.TextContent | app/faq/page.tsx:44-46 | Single spaces between words, no edge spaces. |
| Faq.FaqOf | app/faq/page.tsx:49-51 | question = title; answer is the text content, or the raw content when that is empty. |
| Faq.Faqs | app/faq/page.tsx:41-53 | One FAQ per post, in the same order. |
| Faq.MarkupOnlyAnswersRaw | app/faq/page.tsx:44-51 | A post of only a tag and whitespace is answered with its raw content. |
| Items.FindBySlug | data/items.ts:59-61 | Found ⇔ some tool has the slug, and then the first such tool. |
| Items.Published | data/items.ts:63-65 | Keeps exactly the published tools. |
| Items.AllToolsAreTheTable | data/items.ts:3-65 | All four tools are published, so the list is the table in table order. |
| Items.SlugsDistinct | data/items.ts:6-45 | Table slugs are pairwise distinct. |
| Items.CanonicalUrlsFollowSlugs | data/items.ts:14-53 | Every canonical URL is "/tools/" + slug. |
| Items.ComponentNamesLoadable | data/items.ts:16-55 | Every component name is one the loader handles. |
| Items.LookupFindsEntry | data/items.ts:59-61 | Looking up a table entry's slug finds that entry. |
| Items.LookupOfUnknownSlug | data/items.ts:59-61 | A slug not in the table finds nothing. |
| ToolsLib.GetAllPublishedTools | lib/tools.ts:4-6 | Holds exactly the published tools of the table; since all four are published, it is the table itself, in table order. |
| ToolsLib.GetTool | lib/tools.ts:8-10 | Null exactly when no tool has the slug, otherwise a table tool with that slug. |
| Numbers.CeilDiv | lib/tools.ts:14 | `Math.ceil(n / p)` for p > 0: k·p ≥ n, and k − 1 pages would not suffice. |
| ToolsLib.TotalToolPagesSpec | lib/tools.ts:12-15 | The page count is ⌈4 / p⌉ for the four published tools, which by the contract of CeilDiv is the least k with k·p ≥ 4. |
| ToolsLib.TotalToolPagesExamples | lib/tools.ts:12-15 | 12 or 4 per page give 1 page, 3 give 2, and 1 gives 4. |
| AdminStats.SeoRate | components/admin/AdminStatsOverview.tsx:84-87 | 0 with no posts; otherwise round(seoComplete / total × 100), within [0, 100] when seoComplete ≤ total. |
| AdminStats.AvgViews | components/admin/AdminStatsOverview.tsx:89-92 | 0 with no pages; otherwise views / pages rounded, between 0 and the total views. |
| AdminStats.ReadabilityRate | components/admin/AdminStatsOverview.tsx:94-101 | 0 when nothing is scored; otherwise the rounded share, always within [0, 100]. |
| AdminStats.AdminEditLink | components/admin/AdminStatsOverview.tsx:197-203 | A link exists ⇔ the slug starts with "/blog/". |
| AdminStats.EditLinkTarget | components/admin/AdminStatsOverview.tsx:199 | The target is "/admin/posts/" + the slug with the prefix removed. |
| AdminStats.NoEditLinkOutsideBlog | components/admin/AdminStatsOverview.tsx:197 | Tool pages, "/guide/blog/" and "/blog" get no link. |

## Left out

- File system, database, network, authentication and the Gemini and `git` calls are not part of this model. These are the `fs` parts of `lib/admin.ts`, `lib/blog.ts` and `scripts/generator.ts`, including `createPostFile`, `updatePostFile` and `deletePostFile`, and the route handlers. The model receives already-loaded listings, parsed frontmatter and topic lists; a file that cannot be read is `None`.
- `Date.now()` and `new Date().toISOString()` are parameters. `checkRateLimit` in lib/rate-limit.ts reads the clock twice (for the cleanup and for the decision); both readings are modelled by the same `now`. A later second reading would only treat more records as expired, which cannot change the caller's decision. The `Math.random() < 0.01` cleanup trigger is a boolean parameter, so both outcomes are covered.
- `JSON.parse` and `JSON.stringify` are function parameters. Nothing is assumed of them except in the one lemma that states what "[]" parses to.
- Money and the admin percentages are exact rational arithmetic (`real`), not IEEE doubles. `Math.round` is floor(x + 1/2) and `toFixed` rounds half away from zero. Binary representation drift and `toLocaleString` formatting are not modelled.
- `parseFloat` is modelled as leading whitespace, an optional sign, integer digits and an optional decimal fraction, or 0 through `|| 0`. Exponents, `Infinity` and hexadecimal forms are not modelled.
- `toLowerCase`, `trim`, `\s` and `\w` are ASCII-only: Text.Trim strips only ASCII whitespace, while JavaScript's `trim` also strips U+00A0, U+FEFF, U+2028, U+2029 and the other Unicode spaces (this touches Generator.Slugify, DuplicateContent.NormalizeContent, Faq.TextContent and PostEditor.SubmitSpec). `charCodeAt` is the character's code point, and `slice` counts characters, not UTF-16 code units.
- Blog.GetTotalPages: requires postsPerPage > 0; the `Infinity` and `NaN` that `Math.ceil` gives for 0 or a negative value are not modelled.
- ToolsLib.GetTotalToolPages: requires postsPerPage > 0, for the same reason.
- Posts.SortByDateDesc: the admin and blog comparators never return 0, so the order among posts with the same date is engine-defined. The model states only that the result is a permutation ordered by date.
- Posts.SortByDateDesc: a post without `date` is modelled with the date "" and therefore sorts last. In JavaScript `undefined < d` and `d < undefined` are both false, so the comparator is inconsistent for such a post and its place is engine-defined.
- Posts.SortByDateDesc, Blog.AllPostsSpec, Admin.AdminListing: the date-descending claim assumes every post's `date` has the same JavaScript type. YAML reads an unquoted `date: 2024-01-15`, the form the generator's prompt asks for (data/prompts.ts:22), as a `Date`, while a date saved from the editor is a quoted string; `a.date < b.date` (lib/blog.ts:39, lib/admin.ts:71) between a `Date` and a string is false both ways, so for a listing that mixes the two the comparator is inconsistent and the order is engine-defined. The model holds `date` as text only.
- RateLimiter.AtMostMaxPerWindow: the bound holds for every id in the model, but in lib/rate-limiter.ts:35-65 it fails for an id naming an `Object.prototype` member, which is never limited there (see RateLimiter.Store.CheckRateLimit).
- RateLimiter.Store.CheckRateLimit: the inherited-key lookup of lib/rate-limiter.ts:14,35 is not modelled. In the source both stores are plain `{}` objects indexed by a client-controlled id, so an id that names an `Object.prototype` member (`toString`, `constructor`, `hasOwnProperty`, `valueOf`, `__proto__`) finds an inherited value without a count or reset time. Every comparison on it is false, so such a client is always allowed with a NaN remaining and is never limited; `__proto__` even writes `count` onto `Object.prototype`. The model's store is a `map` with no inherited keys, so these ids get a fresh window like any other.
- RateLimiter.Store.CheckRateLimitDefault: the same inherited-key gap as RateLimiter.Store.CheckRateLimit, whose defaults it passes.
- RateLimit.ClientStore.CheckRateLimit: the inherited-key lookup of lib/rate-limit.ts:12,40 is not modelled, for the same reason as in RateLimiter.Store.CheckRateLimit: such a client is never limited in the source, and "every other key is untouched" does not hold there for `__proto__`.
- RateLimit.FixedCountBounded: "count in 1..100, remaining in 0..99" holds only for ids that are not `Object.prototype` member names; for those the source answers with a NaN remaining.
- Blog.GetPostBySlug, Admin.GetPostBySlugForAdmin: the source builds a post as `{ slug, content, ...data }` (lib/blog.ts:24-29 and 65-70, lib/admin.ts:19-27 and 53-61), so a frontmatter `slug:` or `content:` key replaces the slug taken from the file name or the body. The editor's save can write such a key. `Frontmatter` has no such fields, so the model always keeps the file-name slug and the body; the same holds for Posts.LoadPostsIff and Admin.AdminListing.
- AdminStats.SeoRate: computed on exact reals, so at a .5 boundary the model can round up where the source's double arithmetic rounds down. For example, 23 of 40 is `23/40*100 = 57.49999999999999` in JavaScript, so the source shows 57 and the model 58 (likewise 29 of 200: 14 against 15).
- AdminStats.ReadabilityRate: the same exact-real rounding difference as AdminStats.SeoRate, at the same kind of .5 boundary.
- CurrencyConverter.JpyReadsBack: requires a non-zero rate, which `RateFallback.EffectiveRate` guarantees at every call.
- CalculatorStore.Calculator.AppendDigit: requires a single ASCII digit, the only values the keypad sends.
- Gauge.MeasureOf: requires a positive threshold; the store's threshold is the constant 5500.
- The rendering of every component, the keypad's vibration, and the JSON-LD and `<Script>` markup beyond the script text are not part of this model. The sitemap, the feed and the admin settings pages are not part of it either.
