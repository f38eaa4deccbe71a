/**
 * app/faq/page.tsx: the question/answer pairs of the FAQ page's
 * structured data, derived from the published posts of category "faq"
 * (the database query that selects them is not part of this model).
 */
module Faq {
  import opened Text

  datatype FaqPost = FaqPost(title: string, content: string)

  datatype FaqItem = FaqItem(question: string, answer: string)

  /** `s.replace(/<[^>]*>/g, '')`: every `<` up to the next `>` is deleted; a `<` with no `>` after it stays. */
  function StripTags(s: string): (r: string)
    ensures |r| <= |s|
    decreases |s|
  {
    if s == [] then []
    else if s[0] == '<' && FindChar(s, '>') < |s| then StripTags(s[FindChar(s, '>') + 1..])
    else [s[0]] + StripTags(s[1..])
  }

  /** No `<` of `s` has a `>` somewhere after it. */
  predicate TagFree(s: string) {
    forall i, j :: 0 <= i < j < |s| ==> !(s[i] == '<' && s[j] == '>')
  }

  /** After stripping, no `<` is followed anywhere by a `>`, so no tag is left. */
  lemma {:induction false} StripTagsTagFree(s: string)
    ensures TagFree(StripTags(s))
    ensures forall k :: 0 <= k < |StripTags(s)| && StripTags(s)[k] == '>' ==> '>' in s
    decreases |s|
  {
    if s != [] {
      if s[0] == '<' && FindChar(s, '>') < |s| {
        StripTagsTagFree(s[FindChar(s, '>') + 1..]);
      } else {
        var rest := s[1..];
        StripTagsTagFree(rest);
        var r := StripTags(s);
        assert r == [s[0]] + StripTags(rest);
        if s[0] == '<' {
          // No `>` anywhere in `s`, hence none in what is kept after it.
          assert forall k :: 0 <= k < |StripTags(rest)| ==> StripTags(rest)[k] != '>';
        }
        forall i, j | 0 <= i < j < |r|
          ensures !(r[i] == '<' && r[j] == '>')
        {
          if i > 0 {
            assert r[i] == StripTags(rest)[i - 1];
          }
          assert r[j] == StripTags(rest)[j - 1];
        }
        forall k | 0 <= k < |r| && r[k] == '>'
          ensures '>' in s
        {
          if k == 0 {
            assert s[0] == '>';
          } else {
            assert StripTags(rest)[k - 1] == '>';
            var j :| 0 <= j < |rest| && rest[j] == '>';
            assert s[j + 1] == '>';
          }
        }
      }
    }
  }

  /** The text extraction: tags removed, whitespace runs to one space, trimmed. */
  function TextContent(content: string): (r: string)
    ensures SpaceNormal(r)
  {
    NormalizeSpacesNormal(StripTags(content));
    Trim(CollapseSpaces(StripTags(content)))
  }

  /** `{ question: post.title, answer: textContent || post.content }`. */
  function FaqOf(post: FaqPost): (item: FaqItem)
    ensures item.question == post.title
    ensures TextContent(post.content) != [] ==> item.answer == TextContent(post.content)
    ensures TextContent(post.content) == [] ==> item.answer == post.content
  {
    var text := TextContent(post.content);
    FaqItem(post.title, if text != [] then text else post.content)
  }

  /** `faqPosts.map(...)`. */
  function Faqs(posts: seq<FaqPost>): (r: seq<FaqItem>)
    ensures |r| == |posts|
    ensures forall i :: 0 <= i < |posts| ==> r[i] == FaqOf(posts[i])
  {
    seq(|posts|, i requires 0 <= i < |posts| => FaqOf(posts[i]))
  }

  /** One FAQ per post, in the same order, asking the post's title. */
  lemma FaqsFollowPosts(posts: seq<FaqPost>, i: nat)
    requires i < |posts|
    ensures |Faqs(posts)| == |posts| && Faqs(posts)[i].question == posts[i].title
  {
  }

  /** A post that is nothing but markup and whitespace is answered with its raw content. */
  lemma {:induction false} MarkupOnlyAnswersRaw(title: string, tag: string, spaces: string)
    requires '>' !in tag && forall k :: 0 <= k < |spaces| ==> IsSpace(spaces[k])
    ensures FaqOf(FaqPost(title, "<" + tag + ">" + spaces)).answer == "<" + tag + ">" + spaces
  {
    var s := "<" + tag + ">" + spaces;
    FindCharFirst("<" + tag, '>', spaces);
    assert s[FindChar(s, '>') + 1..] == spaces;
    StripSpaces(spaces);
    NormalizeAllSpace(spaces);
  }

  /** Text without `<` is not touched by the tag stripping. */
  lemma {:induction false} StripSpaces(s: string)
    requires forall k :: 0 <= k < |s| ==> IsSpace(s[k])
    ensures StripTags(s) == s
  {
    if s != [] {
      StripSpaces(s[1..]);
    }
  }
}
