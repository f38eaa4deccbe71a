/**
 * ASCII character classes and the string operations the TypeScript code
 * reaches for through `String.prototype` and regular expressions:
 * `toLowerCase`, `trim`, `/\s+/g` replacement, `split`, `join`,
 * `includes`, `indexOf`, `startsWith` and `endsWith`.
 *
 * Character classes are ASCII only: `\s` is space, tab, line feed,
 * vertical tab, form feed and carriage return; `toLowerCase` maps only
 * 'A'..'Z'.
 */
module Text {

  predicate IsDigit(c: char) { '0' <= c <= '9' }

  predicate IsLowerAscii(c: char) { 'a' <= c <= 'z' }

  predicate IsUpperAscii(c: char) { 'A' <= c <= 'Z' }

  /** The ASCII part of the regular-expression class `\s`. */
  predicate IsSpace(c: char) {
    c == ' ' || c == '\t' || c == '\n' || c == '\r' || c == '\U{000B}' || c == '\U{000C}'
  }

  /** The regular-expression class `\w`: ASCII letters, digits and '_'. */
  predicate IsWordChar(c: char) {
    IsLowerAscii(c) || IsUpperAscii(c) || IsDigit(c) || c == '_'
  }

  /** No character of `s` is an ASCII upper-case letter. */
  predicate NoUpper(s: string) {
    forall i :: 0 <= i < |s| ==> !IsUpperAscii(s[i])
  }

  /** No character of `s` is whitespace. */
  predicate NoSpace(s: string) {
    forall i :: 0 <= i < |s| ==> !IsSpace(s[i])
  }

  /** `c` does not occur in `s`. */
  predicate Lacks(s: string, c: char) {
    forall i :: 0 <= i < |s| ==> s[i] != c
  }

  function LowerChar(c: char): (r: char)
    ensures !IsUpperAscii(r)
    ensures IsUpperAscii(c) ==> r as int == c as int + 32
    ensures !IsUpperAscii(c) ==> r == c
  {
    if IsUpperAscii(c) then (c as int + 32) as char else c
  }

  /** `toLowerCase`, for ASCII letters. */
  function Lower(s: string): (r: string)
    ensures |r| == |s|
    ensures forall i :: 0 <= i < |s| ==> r[i] == LowerChar(s[i])
    ensures NoUpper(r)
  {
    seq(|s|, i requires 0 <= i < |s| => LowerChar(s[i]))
  }

  lemma LowerAppend(a: string, b: string)
    ensures Lower(a + b) == Lower(a) + Lower(b)
  {
    assert forall i :: 0 <= i < |a + b| ==> Lower(a + b)[i] == (Lower(a) + Lower(b))[i];
  }

  lemma LowerOfNoUpper(s: string)
    requires NoUpper(s)
    ensures Lower(s) == s
  {
  }

  /** `s` with its leading whitespace run removed; always a suffix of `s`. */
  function TrimStart(s: string): (r: string)
    ensures |r| <= |s| && r == s[|s| - |r|..]
    ensures forall i :: 0 <= i < |s| - |r| ==> IsSpace(s[i])
    ensures r == [] || !IsSpace(r[0])
  {
    if s != [] && IsSpace(s[0]) then TrimStart(s[1..]) else s
  }

  /** `s` with its trailing whitespace run removed; always a prefix of `s`. */
  function TrimEnd(s: string): (r: string)
    ensures |r| <= |s| && r == s[..|r|]
    ensures forall i :: |r| <= i < |s| ==> IsSpace(s[i])
    ensures r == [] || !IsSpace(r[|r| - 1])
  {
    if s != [] && IsSpace(s[|s| - 1]) then TrimEnd(s[..|s| - 1]) else s
  }

  /** `String.prototype.trim`. */
  function Trim(s: string): (r: string)
    ensures r == [] || (!IsSpace(r[0]) && !IsSpace(r[|r| - 1]))
    ensures |r| <= |s|
  {
    TrimEnd(TrimStart(s))
  }

  lemma TrimOfUntrimmable(s: string)
    requires s == [] || (!IsSpace(s[0]) && !IsSpace(s[|s| - 1]))
    ensures Trim(s) == s
  {
  }

  /** `s.replace(/\s+/g, ch)`: every maximal whitespace run becomes one `ch`. */
  function ReplaceSpaceRuns(s: string, ch: char): (r: string)
    ensures |r| <= |s|
    decreases |s|
  {
    if s == [] then []
    else if IsSpace(s[0]) then [ch] + ReplaceSpaceRuns(TrimStart(s), ch)
    else [s[0]] + ReplaceSpaceRuns(s[1..], ch)
  }

  /** `s.replace(/\s+/g, ' ')`. */
  function CollapseSpaces(s: string): string {
    ReplaceSpaceRuns(s, ' ')
  }

  /** The shape `s.replace(/\s+/g, ' ').trim()` produces. */
  predicate SpaceNormal(s: string) {
    && (forall i :: 0 <= i < |s| ==> IsSpace(s[i]) ==> s[i] == ' ')
    && (forall i :: 0 <= i < |s| - 1 ==> !(s[i] == ' ' && s[i + 1] == ' '))
    && (s == [] || (s[0] != ' ' && s[|s| - 1] != ' '))
  }

  /** The first character of `ReplaceSpaceRuns(s, ch)` tells whether `s` starts with whitespace. */
  lemma ReplaceSpaceRunsHead(s: string, ch: char)
    requires s != []
    ensures ReplaceSpaceRuns(s, ch) != []
    ensures ReplaceSpaceRuns(s, ch)[0] == if IsSpace(s[0]) then ch else s[0]
  {
  }

  /** After replacing runs by `ch`, no whitespace is left except `ch` itself. */
  lemma {:induction false} ReplaceSpaceRunsShape(s: string, ch: char)
    ensures forall i :: 0 <= i < |ReplaceSpaceRuns(s, ch)| ==>
              ReplaceSpaceRuns(s, ch)[i] == ch || !IsSpace(ReplaceSpaceRuns(s, ch)[i])
    decreases |s|
  {
    if s != [] {
      var rest := if IsSpace(s[0]) then TrimStart(s) else s[1..];
      var r := ReplaceSpaceRuns(s, ch);
      var rr := ReplaceSpaceRuns(rest, ch);
      ReplaceSpaceRunsShape(rest, ch);
      assert r == [if IsSpace(s[0]) then ch else s[0]] + rr;
      forall i | 0 <= i < |r|
        ensures r[i] == ch || !IsSpace(r[i])
      {
        if i > 0 {
          assert r[i] == rr[i - 1];
        }
      }
    }
  }

  /**
   * A property every non-whitespace character of `s` has is kept by
   * `ReplaceSpaceRuns`: each character of the result is `ch` or such a character.
   */
  lemma {:induction false} ReplaceSpaceRunsKeeps(s: string, ch: char, P: char -> bool)
    requires forall i :: 0 <= i < |s| ==> IsSpace(s[i]) || P(s[i])
    ensures forall i :: 0 <= i < |ReplaceSpaceRuns(s, ch)| ==>
              ReplaceSpaceRuns(s, ch)[i] == ch || (P(ReplaceSpaceRuns(s, ch)[i]) && !IsSpace(ReplaceSpaceRuns(s, ch)[i]))
    decreases |s|
  {
    if s != [] {
      var rest := if IsSpace(s[0]) then TrimStart(s) else s[1..];
      SuffixKeeps(s, rest, P);
      ReplaceSpaceRunsKeeps(rest, ch, P);
      var h := if IsSpace(s[0]) then ch else s[0];
      assert ReplaceSpaceRuns(s, ch) == [h] + ReplaceSpaceRuns(rest, ch);
      ConsKeeps(h, ReplaceSpaceRuns(rest, ch), ch, P);
    }
  }

  /** A suffix of text made of whitespace and `P` characters is made of them too. */
  lemma SuffixKeeps(s: string, rest: string, P: char -> bool)
    requires forall i :: 0 <= i < |s| ==> IsSpace(s[i]) || P(s[i])
    requires |rest| <= |s| && rest == s[|s| - |rest|..]
    ensures forall i :: 0 <= i < |rest| ==> IsSpace(rest[i]) || P(rest[i])
  {
    var off := |s| - |rest|;
    forall i | 0 <= i < |rest|
      ensures IsSpace(rest[i]) || P(rest[i])
    {
      assert rest[i] == s[off + i];
    }
  }

  /** Putting `ch` or a non-space `P` character in front keeps the shape `ReplaceSpaceRunsKeeps` states. */
  lemma ConsKeeps(h: char, rr: string, ch: char, P: char -> bool)
    requires h == ch || (P(h) && !IsSpace(h))
    requires forall i :: 0 <= i < |rr| ==> rr[i] == ch || (P(rr[i]) && !IsSpace(rr[i]))
    ensures forall i :: 0 <= i < |[h] + rr| ==> ([h] + rr)[i] == ch || (P(([h] + rr)[i]) && !IsSpace(([h] + rr)[i]))
  {
    var r := [h] + rr;
    forall i | 0 <= i < |r|
      ensures r[i] == ch || (P(r[i]) && !IsSpace(r[i]))
    {
      if i > 0 {
        assert r[i] == rr[i - 1];
      }
    }
  }

  /** `Trim(s)` is a stretch of `s`, starting at `off`. */
  lemma TrimIsSlice(s: string) returns (off: nat)
    ensures off + |Trim(s)| <= |s|
    ensures forall i :: 0 <= i < |Trim(s)| ==> Trim(s)[i] == s[off + i]
  {
    var t := TrimStart(s);
    off := |s| - |t|;
    var r := TrimEnd(t);
    assert r == Trim(s);
    forall i | 0 <= i < |r|
      ensures r[i] == s[off + i]
    {
      assert r[i] == t[i];
    }
  }

  /** A property every character of `s` has is kept by `Trim`, which only removes characters. */
  lemma TrimKeeps(s: string, P: char -> bool)
    requires forall i :: 0 <= i < |s| ==> P(s[i])
    ensures forall i :: 0 <= i < |Trim(s)| ==> P(Trim(s)[i])
  {
    var off := TrimIsSlice(s);
    var r := Trim(s);
    forall i | 0 <= i < |r|
      ensures P(r[i])
    {
      assert r[i] == s[off + i];
    }
  }

  /** Text made only of whitespace collapses to one space and trims to nothing. */
  lemma {:induction false} NormalizeAllSpace(s: string)
    requires forall i :: 0 <= i < |s| ==> IsSpace(s[i])
    ensures Trim(CollapseSpaces(s)) == []
  {
    if s != [] {
      var t := TrimStart(s);
      assert t == [];
      assert CollapseSpaces(s) == [' '];
    }
  }

  /** Text without whitespace has no runs to replace. */
  lemma {:induction false} ReplaceSpaceRunsOfNoSpace(s: string, ch: char)
    requires NoSpace(s)
    ensures ReplaceSpaceRuns(s, ch) == s
    decreases |s|
  {
    if s != [] {
      assert NoSpace(s[1..]) by {
        forall i | 0 <= i < |s[1..]|
          ensures !IsSpace(s[1..][i])
        {
          assert s[1..][i] == s[i + 1];
        }
      }
      ReplaceSpaceRunsOfNoSpace(s[1..], ch);
    }
  }

  /** Whitespace collapsed to single spaces and trimmed is in normal form. */
  lemma NormalizeSpacesNormal(s: string)
    ensures SpaceNormal(Trim(CollapseSpaces(s)))
  {
    var c := CollapseSpaces(s);
    ReplaceSpaceRunsNoDouble(s);
    var off := TrimIsSlice(c);
    SpacesOfSlice(c, off, Trim(c));
  }

  /** A stretch of a string with single spaces only has single spaces only. */
  lemma SpacesOfSlice(c: string, off: nat, r: string)
    requires off + |r| <= |c|
    requires forall i :: 0 <= i < |r| ==> r[i] == c[off + i]
    requires forall i :: 0 <= i < |c| ==> IsSpace(c[i]) ==> c[i] == ' '
    requires forall i :: 0 <= i < |c| - 1 ==> !(c[i] == ' ' && c[i + 1] == ' ')
    ensures forall i :: 0 <= i < |r| ==> IsSpace(r[i]) ==> r[i] == ' '
    ensures forall i :: 0 <= i < |r| - 1 ==> !(r[i] == ' ' && r[i + 1] == ' ')
  {
    forall i | 0 <= i < |r| - 1
      ensures !(r[i] == ' ' && r[i + 1] == ' ')
    {
      assert r[i] == c[off + i] && r[i + 1] == c[off + i + 1];
    }
  }

  /** Two adjacent characters of `CollapseSpaces(s)` are never both spaces. */
  lemma {:induction false} ReplaceSpaceRunsNoDouble(s: string)
    ensures var r := CollapseSpaces(s);
            forall i :: 0 <= i < |r| - 1 ==> !(r[i] == ' ' && r[i + 1] == ' ')
    ensures forall i :: 0 <= i < |CollapseSpaces(s)| ==> IsSpace(CollapseSpaces(s)[i]) ==> CollapseSpaces(s)[i] == ' '
    decreases |s|
  {
    if s != [] {
      var rest := if IsSpace(s[0]) then TrimStart(s) else s[1..];
      var r := CollapseSpaces(s);
      var rr := CollapseSpaces(rest);
      ReplaceSpaceRunsNoDouble(rest);
      assert r == [if IsSpace(s[0]) then ' ' else s[0]] + rr;
      if rest != [] {
        ReplaceSpaceRunsHead(rest, ' ');
        assert IsSpace(s[0]) ==> rr[0] != ' ';
      }
      forall i | 0 <= i < |r|
        ensures IsSpace(r[i]) ==> r[i] == ' '
        ensures i < |r| - 1 ==> !(r[i] == ' ' && r[i + 1] == ' ')
      {
        if i > 0 {
          assert r[i] == rr[i - 1];
        }
        if i < |r| - 1 {
          assert r[i + 1] == rr[i];
        }
      }
    }
  }

  /** Collapsing does nothing to a string whose only whitespace is single spaces. */
  lemma {:induction false} CollapseOfSingleSpaces(s: string)
    requires forall i :: 0 <= i < |s| ==> IsSpace(s[i]) ==> s[i] == ' '
    requires forall i :: 0 <= i < |s| - 1 ==> !(s[i] == ' ' && s[i + 1] == ' ')
    ensures CollapseSpaces(s) == s
    decreases |s|
  {
    if s != [] {
      CollapseOfSingleSpaces(s[1..]);
      if IsSpace(s[0]) {
        assert TrimStart(s) == s[1..];
      }
    }
  }

  /** `s.replace(/\s+/g, ' ').trim()` is idempotent. */
  lemma NormalizeSpacesIdempotent(s: string)
    ensures var n := Trim(CollapseSpaces(s));
            Trim(CollapseSpaces(n)) == n
  {
    var n := Trim(CollapseSpaces(s));
    NormalizeSpacesNormal(s);
    CollapseOfSingleSpaces(n);
    TrimOfUntrimmable(n);
  }

  /** `needle` occurs in `hay` at index `i`. */
  predicate OccursAt(hay: string, needle: string, i: int) {
    0 <= i && i + |needle| <= |hay| && hay[i..i + |needle|] == needle
  }

  /** `hay.includes(needle)`. */
  predicate Contains(hay: string, needle: string) {
    exists i | 0 <= i <= |hay| - |needle| :: OccursAt(hay, needle, i)
  }

  /** The first index at or after `from` where `needle` occurs, or -1. */
  function IndexFrom(hay: string, needle: string, from: nat): (r: int)
    ensures r == -1 || (from <= r && OccursAt(hay, needle, r))
    ensures forall j :: from <= j && (r == -1 || j < r) ==> !OccursAt(hay, needle, j)
    decreases |hay| - from
  {
    if from + |needle| > |hay| then -1
    else if hay[from..from + |needle|] == needle then from
    else IndexFrom(hay, needle, from + 1)
  }

  /** `hay.indexOf(needle)`. */
  function IndexOf(hay: string, needle: string): int {
    IndexFrom(hay, needle, 0)
  }

  lemma IndexOfSpec(hay: string, needle: string)
    ensures IndexOf(hay, needle) == -1 <==> !Contains(hay, needle)
    ensures IndexOf(hay, needle) != -1 ==>
              OccursAt(hay, needle, IndexOf(hay, needle)) &&
              forall j :: 0 <= j < IndexOf(hay, needle) ==> !OccursAt(hay, needle, j)
  {
  }

  predicate StartsWith(s: string, prefix: string) {
    |prefix| <= |s| && s[..|prefix|] == prefix
  }

  predicate EndsWith(s: string, suffix: string) {
    |suffix| <= |s| && s[|s| - |suffix|..] == suffix
  }

  /** Index of the first `c` in `s`, or `|s|` when there is none. */
  function FindChar(s: string, c: char): (k: nat)
    ensures k <= |s|
    ensures k < |s| ==> s[k] == c
    ensures forall i :: 0 <= i < k ==> s[i] != c
  {
    if s == [] || s[0] == c then 0 else 1 + FindChar(s[1..], c)
  }

  /** Index of the first whitespace character of `s`, or `|s|`. */
  function FindSpace(s: string): (k: nat)
    ensures k <= |s|
    ensures k < |s| ==> IsSpace(s[k])
    ensures forall i :: 0 <= i < k ==> !IsSpace(s[i])
  {
    if s == [] || IsSpace(s[0]) then 0 else 1 + FindSpace(s[1..])
  }

  /** `s.split(sep)` for a one-character separator. */
  function SplitOnChar(s: string, sep: char): (r: seq<string>)
    ensures |r| >= 1
    ensures forall i :: 0 <= i < |r| ==> Lacks(r[i], sep)
    decreases |s|
  {
    var k := FindChar(s, sep);
    if k == |s| then [s] else [s[..k]] + SplitOnChar(s[k + 1..], sep)
  }

  /** `s.split(/\s+/)`: the pieces between maximal whitespace runs, empty end pieces included. */
  function SplitOnSpaces(s: string): (r: seq<string>)
    ensures |r| >= 1
    decreases |s|
  {
    var k := FindSpace(s);
    if k == |s| then [s] else [s[..k]] + SplitOnSpaces(TrimStart(s[k..]))
  }

  /** `xs.join(sep)`. */
  function Join(xs: seq<string>, sep: string): string {
    if |xs| == 0 then ""
    else if |xs| == 1 then xs[0]
    else xs[0] + sep + Join(xs[1..], sep)
  }

  /** `a < b` on strings: lexicographic order of the character codes, a proper prefix first. */
  predicate StrLess(a: string, b: string) {
    if a == [] then b != []
    else if b == [] then false
    else if a[0] != b[0] then a[0] < b[0]
    else StrLess(a[1..], b[1..])
  }

  lemma {:induction false} StrLessIrreflexive(a: string)
    ensures !StrLess(a, a)
  {
    if a != [] {
      StrLessIrreflexive(a[1..]);
    }
  }

  lemma {:induction false} StrLessTransitive(a: string, b: string, c: string)
    requires StrLess(a, b) && StrLess(b, c)
    ensures StrLess(a, c)
  {
    if a != [] && b != [] && c != [] && a[0] == b[0] && b[0] == c[0] {
      StrLessTransitive(a[1..], b[1..], c[1..]);
    }
  }

  /** Two different strings are always ordered one way or the other. */
  lemma {:induction false} StrLessTotal(a: string, b: string)
    ensures a == b || StrLess(a, b) || StrLess(b, a)
  {
    if a != [] && b != [] && a[0] == b[0] {
      StrLessTotal(a[1..], b[1..]);
      if a[1..] == b[1..] {
        assert a == [a[0]] + a[1..] && b == [b[0]] + b[1..];
      }
    }
  }

  lemma TrimLacks(s: string, c: char)
    requires Lacks(s, c)
    ensures Lacks(Trim(s), c)
  {
    var off := TrimIsSlice(s);
    var r := Trim(s);
    forall i | 0 <= i < |r|
      ensures r[i] != c
    {
      assert r[i] == s[off + i];
    }
  }

  /** The trimmed, non-empty pieces of `s.split(',')`: `split(',').map(trim).filter(x => x)`. */
  function CommaList(s: string): (r: seq<string>)
    ensures forall i :: 0 <= i < |r| ==> r[i] != [] && Lacks(r[i], ',')
  {
    NonEmptyTrimmed(SplitOnChar(s, ','))
  }

  function NonEmptyTrimmed(pieces: seq<string>): (r: seq<string>)
    requires forall i :: 0 <= i < |pieces| ==> Lacks(pieces[i], ',')
    ensures forall i :: 0 <= i < |r| ==> r[i] != [] && Lacks(r[i], ',')
  {
    if pieces == [] then []
    else
      var t := Trim(pieces[0]);
      TrimLacks(pieces[0], ',');
      if t == [] then NonEmptyTrimmed(pieces[1..]) else [t] + NonEmptyTrimmed(pieces[1..])
  }

  /** A list item the comma list gives back as it is: non-empty, without commas, not starting or ending in whitespace. */
  predicate IsListItem(x: string) {
    x != [] && Lacks(x, ',') && !IsSpace(x[0]) && !IsSpace(x[|x| - 1])
  }

  /** Joining items with ", " and reading the text back as a comma list gives the items back. */
  lemma CommaListOfJoin(xs: seq<string>)
    requires forall i :: 0 <= i < |xs| ==> IsListItem(xs[i])
    ensures CommaList(Join(xs, ", ")) == xs
  {
    if xs == [] {
      assert FindChar("", ',') == 0;
    } else {
      CommaListOfLeadJoin(xs, "");
      assert "" + Join(xs, ", ") == Join(xs, ", ");
    }
  }

  lemma {:induction false} CommaListOfLeadJoin(xs: seq<string>, lead: string)
    requires |xs| >= 1 && (lead == "" || lead == " ")
    requires forall i :: 0 <= i < |xs| ==> IsListItem(xs[i])
    ensures NonEmptyTrimmed(SplitOnChar(lead + Join(xs, ", "), ',')) == xs
    decreases |xs|
  {
    var x := xs[0];
    assert IsListItem(x);
    if |xs| == 1 {
      assert Join(xs, ", ") == x;
      CommaListOfOne(x, lead);
      assert xs == [x];
    } else {
      var rest := xs[1..];
      assert xs == [x] + rest;
      assert forall i :: 0 <= i < |rest| ==> IsListItem(rest[i]);
      var j := Join(rest, ", ");
      assert Join(xs, ", ") == x + ", " + j;
      CommaListOfLeadJoin(rest, " ");
      CommaListStep(x, lead, j, rest);
    }
  }

  lemma CommaListOfOne(x: string, lead: string)
    requires lead == "" || lead == " "
    requires IsListItem(x)
    ensures NonEmptyTrimmed(SplitOnChar(lead + x, ',')) == [x]
  {
    var first := lead + x;
    TrimAfterLead(lead, x);
    LeadLacksComma(lead, x);
    SplitOfLacking(first, ',');
    TrimmedHead(first, []);
    assert [first] + [] == [first];
    assert NonEmptyTrimmed([]) == [];
  }

  lemma CommaListStep(x: string, lead: string, j: string, rest: seq<string>)
    requires lead == "" || lead == " "
    requires IsListItem(x)
    requires NonEmptyTrimmed(SplitOnChar(" " + j, ',')) == rest
    ensures NonEmptyTrimmed(SplitOnChar(lead + (x + ", " + j), ',')) == [x] + rest
  {
    var first := lead + x;
    var tailText := " " + j;
    TrimAfterLead(lead, x);
    LeadLacksComma(lead, x);
    Regroup(lead, x, j);
    SplitAtFirst(first, ',', tailText);
    var pieces := SplitOnChar(tailText, ',');
    TrimmedHead(first, pieces);
  }

  /** A list item after an optional space holds no comma. */
  lemma LeadLacksComma(lead: string, x: string)
    requires lead == "" || lead == " "
    requires Lacks(x, ',')
    ensures Lacks(lead + x, ',')
  {
    var s := lead + x;
    forall i | 0 <= i < |s|
      ensures s[i] != ','
    {
      if i >= |lead| {
        assert s[i] == x[i - |lead|];
      }
    }
  }

  lemma Regroup(lead: string, x: string, j: string)
    ensures lead + (x + ", " + j) == (lead + x) + [','] + (" " + j)
  {
  }

  lemma SplitAtFirst(a: string, c: char, b: string)
    requires Lacks(a, c)
    ensures SplitOnChar(a + [c] + b, c) == [a] + SplitOnChar(b, c)
  {
    var s := a + [c] + b;
    FindCharFirst(a, c, b);
    assert s[..|a|] == a;
    assert s[|a| + 1..] == b;
  }

  /** A first piece that trims to something non-empty is kept, trimmed. */
  lemma TrimmedHead(p: string, q: seq<string>)
    requires Lacks(p, ',') && Trim(p) != []
    requires forall i :: 0 <= i < |q| ==> Lacks(q[i], ',')
    ensures NonEmptyTrimmed([p] + q) == [Trim(p)] + NonEmptyTrimmed(q)
  {
    var s := [p] + q;
    assert s[0] == p && s[1..] == q;
    forall i | 0 <= i < |s|
      ensures Lacks(s[i], ',')
    {
      if i > 0 {
        assert s[i] == q[i - 1];
      }
    }
  }

  lemma SplitOfLacking(s: string, c: char)
    requires Lacks(s, c)
    ensures SplitOnChar(s, c) == [s]
  {
    assert FindChar(s, c) == |s|;
  }

  lemma {:induction false} FindCharFirst(a: string, c: char, b: string)
    requires Lacks(a, c)
    ensures FindChar(a + [c] + b, c) == |a|
  {
    if a != [] {
      assert (a + [c] + b)[1..] == a[1..] + [c] + b;
      FindCharFirst(a[1..], c, b);
    }
  }

  lemma TrimAfterLead(lead: string, x: string)
    requires lead == "" || lead == " "
    requires x != [] && !IsSpace(x[0]) && !IsSpace(x[|x| - 1])
    ensures Trim(lead + x) == x
  {
    if lead == " " {
      assert (lead + x)[1..] == x;
    } else {
      assert lead + x == x;
    }
  }
}
