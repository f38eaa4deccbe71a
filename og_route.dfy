/**
 * app/api/og/route.tsx: the title and description the Open Graph image
 * is drawn with. Each query parameter falls back to a default when it is
 * absent or empty, is cut to a fixed length and then loses its angle
 * brackets.
 */
module OgRoute {
  import opened Wrappers
  import opened Filters

  const DefaultTitle: string := "Growth Engine Starter"
  const TitleLimit: nat := 100
  const DescriptionLimit: nat := 200

  predicate NotAngle(c: char) {
    c != '<' && c != '>'
  }

  /** `searchParams.get(name) || fallback`: the empty string is falsy like a missing parameter. */
  function ParamOr(param: Option<string>, fallback: string): (r: string)
    ensures param.Some? && param.value != [] ==> r == param.value
    ensures param.None? || param.value == [] ==> r == fallback
  {
    if param.Some? && param.value != [] then param.value else fallback
  }

  /** `s.slice(0, limit)`: the first `limit` characters, or all of `s`. */
  function Slice(s: string, limit: nat): (r: string)
    ensures |r| <= limit && |r| <= |s|
    ensures r == s[..|r|]
    ensures |s| <= limit ==> r == s
  {
    if |s| <= limit then s else s[..limit]
  }

  /** `s.slice(0, limit).replace(/[<>]/g, '')`. */
  function Sanitize(s: string, limit: nat): (r: string)
    ensures |r| <= limit
    ensures All(r, NotAngle)
  {
    Keep(Slice(s, limit), NotAngle)
  }

  /** The title drawn on the image. */
  function OgTitle(title: Option<string>): (r: string)
    ensures |r| <= TitleLimit && All(r, NotAngle)
  {
    Sanitize(ParamOr(title, DefaultTitle), TitleLimit)
  }

  /** The description drawn on the image. */
  function OgDescription(description: Option<string>): (r: string)
    ensures |r| <= DescriptionLimit && All(r, NotAngle)
  {
    Sanitize(ParamOr(description, ""), DescriptionLimit)
  }

  /** A missing or empty title gives the site's default title; a missing description gives none. */
  lemma DefaultsWhenMissing(title: Option<string>, description: Option<string>)
    requires title.None? || title.value == []
    requires description.None? || description.value == []
    ensures OgTitle(title) == "Growth Engine Starter"
    ensures OgDescription(description) == ""
  {
    DefaultTitleClean();
    KeepOfAll(DefaultTitle, NotAngle);
  }

  /** The default title fits the limit and holds no angle bracket. */
  lemma DefaultTitleClean()
    ensures |DefaultTitle| <= TitleLimit && All(DefaultTitle, NotAngle)
  {
  }

  /** A short enough parameter without angle brackets comes through unchanged. */
  lemma CleanParamUnchanged(s: string, limit: nat)
    requires |s| <= limit && All(s, NotAngle)
    ensures Sanitize(s, limit) == s
  {
    KeepOfAll(s, NotAngle);
  }

  /** Dropping an angle bracket makes the result strictly shorter than what was kept. */
  lemma {:induction false} KeepDropsAngle(s: string, i: nat)
    requires i < |s| && !NotAngle(s[i])
    ensures |Keep(s, NotAngle)| < |s|
  {
    if i == 0 {
      assert |Keep(s[1..], NotAngle)| <= |s| - 1;
    } else {
      KeepDropsAngle(s[1..], i - 1);
    }
  }

  /**
   * The cut happens before the brackets are removed: an over-long value
   * with a bracket among its first `limit` characters ends up shorter than
   * `limit`, although stripping first could have left more characters.
   */
  lemma TruncationBeforeStripping(s: string, limit: nat, i: nat)
    requires |s| > limit && i < limit && !NotAngle(s[i])
    ensures |Sanitize(s, limit)| < limit
  {
    KeepDropsAngle(s[..limit], i);
  }
}
