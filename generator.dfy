/**
 * scripts/generator.ts: the slug made from a topic title, the pending-topic
 * filter over the parsed topics file, and the in-place status update. The
 * file reads and writes around them, and the clock reading for
 * `completedAt`, are parameters.
 */
module Generator {
  import opened Wrappers
  import opened Text
  import opened Filters

  /** types/topic.ts `TopicStatus`. */
  datatype TopicStatus = Pending | Processing | Completed | Failed

  /** types/topic.ts `Topic`; the optional fields are `Option`s. */
  datatype Topic = Topic(
    id: string,
    title: string,
    description: Option<string>,
    keywords: Option<seq<string>>,
    status: TopicStatus,
    createdAt: string,
    completedAt: Option<string>,
    error: Option<string>)

  predicate IsWordOrDash(c: char) {
    IsWordChar(c) || c == '-'
  }

  /** The characters a slug is made of: `[a-z0-9_-]`. */
  predicate IsSlugChar(c: char) {
    IsLowerAscii(c) || IsDigit(c) || c == '_' || c == '-'
  }

  predicate NotUpper(c: char) {
    !IsUpperAscii(c)
  }

  predicate DashOrNotWord(c: char) {
    c == '-' || !IsWordChar(c)
  }

  predicate IsDash(c: char) {
    c == '-'
  }

  /**
   * `slugify`: lower-case, trim, whitespace runs to '-', drop everything but
   * `\w` and '-', collapse dash runs (`/\-\-+/g` to '-' leaves single dashes
   * as they are, so every run ends up as one dash), then drop leading and
   * trailing dashes.
   */
  function Slugify(text: string): string {
    var ws := ReplaceSpaceRuns(Trim(Lower(text)), '-');
    DropTrailingDashes(DropLeadingDashes(CollapseDashes(Keep(ws, IsWordOrDash))))
  }

  /** The shape of every slug. */
  predicate IsSlug(s: string) {
    All(s, IsSlugChar) && NoDoubleDash(s) && NoEdgeDash(s)
  }

  /** A property that holds of '-' and of every character of `Lower(text)` holds of every character left after filtering. */
  lemma FilteredKeeps(text: string, Q: char -> bool)
    requires Q('-') && All(Lower(text), Q)
    ensures All(Keep(ReplaceSpaceRuns(Trim(Lower(text)), '-'), IsWordOrDash), Q)
  {
    var t := Trim(Lower(text));
    TrimKeeps(Lower(text), Q);
    ReplaceSpaceRunsKeeps(t, '-', Q);
    KeepKeeps(ReplaceSpaceRuns(t, '-'), IsWordOrDash, Q);
  }

  /** The collapsed text with its leading and trailing dashes dropped, as one slice. */
  lemma DropDashesSlice(c: string) returns (lo: nat, hi: nat)
    ensures lo <= hi <= |c| && DropTrailingDashes(DropLeadingDashes(c)) == c[lo..hi]
  {
    var a := DropLeadingDashes(c);
    var b := DropTrailingDashes(a);
    lo, hi := |c| - |a|, |c| - |a| + |b|;
    assert a == c[lo..];
    assert b == a[..|b|];
  }

  /** Every slug uses only `[a-z0-9_-]`, has no "--" and does not start or end with '-'. */
  lemma SlugifyShape(text: string)
    ensures IsSlug(Slugify(text))
  {
    var f := Keep(ReplaceSpaceRuns(Trim(Lower(text)), '-'), IsWordOrDash);
    FilteredKeeps(text, NotUpper);
    assert All(f, IsSlugChar) by {
      assert All(f, IsWordOrDash);
      forall i | 0 <= i < |f|
        ensures IsSlugChar(f[i])
      {
        assert IsWordOrDash(f[i]) && NotUpper(f[i]);
      }
    }
    var c := CollapseDashes(f);
    CollapseDashesKeeps(f, IsSlugChar);
    CollapseDashesNoDouble(f);
    var lo, hi := DropDashesSlice(c);
    SliceKeeps(c, lo, hi, IsSlugChar);
    var a := DropLeadingDashes(c);
    var r := DropTrailingDashes(a);
    assert r == [] || r[0] == a[0];
  }

  /** A title without ASCII letters, digits or '_' (a Korean title, say) slugifies to the empty string. */
  lemma NoWordCharsGiveEmptySlug(text: string)
    requires forall i :: 0 <= i < |text| ==> !IsWordChar(text[i])
    ensures Slugify(text) == ""
  {
    var l := Lower(text);
    assert All(l, DashOrNotWord) by {
      forall i | 0 <= i < |l|
        ensures DashOrNotWord(l[i])
      {
        assert l[i] == LowerChar(text[i]);
      }
    }
    var f := Keep(ReplaceSpaceRuns(Trim(l), '-'), IsWordOrDash);
    FilteredKeeps(text, DashOrNotWord);
    assert All(f, IsDash) by {
      forall i | 0 <= i < |f|
        ensures IsDash(f[i])
      {
        assert IsWordOrDash(f[i]) && DashOrNotWord(f[i]);
      }
    }
    CollapseDashesKeeps(f, IsDash);
    var c := CollapseDashes(f);
    var a := DropLeadingDashes(c);
    assert a == [];
  }

  /** Lower-casing, trimming and whitespace replacement leave a slug as it is. */
  lemma SpaceStagesOfSlug(s: string)
    requires IsSlug(s)
    ensures ReplaceSpaceRuns(Trim(Lower(s)), '-') == s
  {
    forall i | 0 <= i < |s|
      ensures !IsUpperAscii(s[i]) && !IsSpace(s[i])
    {
      assert IsSlugChar(s[i]);
    }
    assert NoUpper(s);
    LowerOfNoUpper(s);
    assert s == [] || (!IsSpace(s[0]) && !IsSpace(s[|s| - 1]));
    TrimOfUntrimmable(s);
    assert NoSpace(s);
    ReplaceSpaceRunsOfNoSpace(s, '-');
  }

  /** Filtering and the dash rewrites leave a slug as it is. */
  lemma DashStagesOfSlug(s: string)
    requires IsSlug(s)
    ensures DropTrailingDashes(DropLeadingDashes(CollapseDashes(Keep(s, IsWordOrDash)))) == s
  {
    forall i | 0 <= i < |s|
      ensures IsWordOrDash(s[i])
    {
      assert IsSlugChar(s[i]);
    }
    KeepOfAll(s, IsWordOrDash);
    CollapseDashesOfNoDouble(s);
  }

  /** A slug comes back unchanged from `slugify`. */
  lemma SlugifyOfSlug(s: string)
    requires IsSlug(s)
    ensures Slugify(s) == s
  {
    SpaceStagesOfSlug(s);
    DashStagesOfSlug(s);
  }

  /** `slugify` is idempotent. */
  lemma SlugifyIdempotent(text: string)
    ensures Slugify(Slugify(text)) == Slugify(text)
  {
    SlugifyShape(text);
    SlugifyOfSlug(Slugify(text));
  }

  /** `topics.filter(t => t.status === 'pending')`. */
  function FilterPending(topics: seq<Topic>): (r: seq<Topic>)
    ensures |r| <= |topics|
    ensures forall t :: t in r <==> t in topics && t.status == Pending
  {
    if topics == [] then []
    else
      var rest := FilterPending(topics[1..]);
      assert forall t :: t in topics <==> t == topics[0] || t in topics[1..];
      if topics[0].status == Pending then [topics[0]] + rest else rest
  }

  /** The filter keeps file order: filtering a concatenation filters each part. */
  lemma {:induction false} FilterPendingAppend(a: seq<Topic>, b: seq<Topic>)
    ensures FilterPending(a + b) == FilterPending(a) + FilterPending(b)
  {
    if a != [] {
      assert (a + b)[0] == a[0];
      assert (a + b)[1..] == a[1..] + b;
      FilterPendingAppend(a[1..], b);
    } else {
      assert a + b == b;
    }
  }

  /** `getPendingTopics` on the parsed file: `topicsData.topics?.filter(…) || []`. */
  function GetPendingTopics(topics: Option<seq<Topic>>): (r: seq<Topic>)
    ensures topics.None? ==> r == []
    ensures topics.Some? ==> forall t :: t in r <==> t in topics.value && t.status == Pending
  {
    match topics
    case None => []
    case Some(ts) => FilterPending(ts)
  }

  /** `findIndex(t => t.id === topicId)`: the first topic with the id, or -1. */
  function FindIndex(topics: seq<Topic>, topicId: string): (i: int)
    ensures -1 <= i < |topics|
    ensures i >= 0 ==> topics[i].id == topicId
    ensures forall j :: 0 <= j < |topics| && (i == -1 || j < i) ==> topics[j].id != topicId
  {
    if topics == [] then -1
    else if topics[0].id == topicId then 0
    else
      var k := FindIndex(topics[1..], topicId);
      if k == -1 then -1 else k + 1
  }

  /** The fields `updateTopicStatus` writes: the status, `completedAt` for a completion, `error` when one is given. */
  function WithStatus(t: Topic, status: TopicStatus, error: string, nowIso: string): (u: Topic)
    ensures u.status == status
    ensures u.completedAt == (if status == Completed then Some(nowIso) else t.completedAt)
    ensures u.error == (if error != "" then Some(error) else t.error)
    ensures u.id == t.id && u.title == t.title && u.description == t.description
    ensures u.keywords == t.keywords && u.createdAt == t.createdAt
  {
    var u := t.(status := status);
    var u := if status == Completed then u.(completedAt := Some(nowIso)) else u;
    if error != "" then u.(error := Some(error)) else u
  }

  /**
   * `updateTopicStatus(topicId, status, error)` on the parsed topics array:
   * only the first topic with the id changes, and nothing changes without a
   * match. `nowIso` is `new Date().toISOString()`; "" stands for no error.
   */
  method UpdateTopicStatus(topics: array<Topic>, topicId: string, status: TopicStatus, error: string, nowIso: string)
    modifies topics
    ensures var i := FindIndex(old(topics[..]), topicId);
            topics[..] == if i == -1 then old(topics[..]) else old(topics[..])[i := WithStatus(old(topics[i]), status, error, nowIso)]
  {
    var topicIndex := FindIndex(topics[..], topicId);
    if topicIndex != -1 {
      var t := topics[topicIndex];
      t := t.(status := status);
      if status == Completed {
        t := t.(completedAt := Some(nowIso));
      }
      if error != "" {
        t := t.(error := Some(error));
      }
      topics[topicIndex] := t;
    }
  }
}
