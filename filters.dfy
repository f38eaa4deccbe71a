/**
 * Character-class deletion `replace(/[^…]/g, '')`, used by the calculator's
 * digit filter and by the two slug functions (scripts/generator.ts
 * `slugify`, lib/rate-limit.ts `sanitizeSlug`), and the dash rewrites the
 * slug functions chain after it: `replace(/-+/g, '-')` and the removal of
 * dashes at either end.
 */
module Filters {

  /** Every character of `s` has property `P`. */
  predicate All(s: string, P: char -> bool) {
    forall i :: 0 <= i < |s| ==> P(s[i])
  }

  /** No two adjacent dashes. */
  predicate NoDoubleDash(s: string) {
    forall i :: 0 <= i < |s| - 1 ==> !(s[i] == '-' && s[i + 1] == '-')
  }

  /** Neither the first nor the last character is a dash. */
  predicate NoEdgeDash(s: string) {
    s == [] || (s[0] != '-' && s[|s| - 1] != '-')
  }

  /** `s.replace(/[^…]/g, '')`: the characters of `s` with property `P`, in order. */
  function Keep(s: string, P: char -> bool): (r: string)
    ensures All(r, P) && |r| <= |s|
  {
    if s == [] then []
    else
      var rest := Keep(s[1..], P);
      if P(s[0]) then [s[0]] + rest else rest
  }

  /** Filtering only drops characters, so any property all characters of `s` have survives. */
  lemma {:induction false} KeepKeeps(s: string, P: char -> bool, Q: char -> bool)
    requires All(s, Q)
    ensures All(Keep(s, P), Q)
  {
    if s != [] {
      assert All(s[1..], Q) by {
        forall i | 0 <= i < |s[1..]|
          ensures Q(s[1..][i])
        {
          assert s[1..][i] == s[i + 1];
        }
      }
      KeepKeeps(s[1..], P, Q);
    }
  }

  /** Filtering a string whose characters all pass changes nothing. */
  lemma {:induction false} KeepOfAll(s: string, P: char -> bool)
    requires All(s, P)
    ensures Keep(s, P) == s
  {
    if s != [] {
      assert All(s[1..], P) by {
        forall i | 0 <= i < |s[1..]|
          ensures P(s[1..][i])
        {
          assert s[1..][i] == s[i + 1];
        }
      }
      KeepOfAll(s[1..], P);
    }
  }

  /** Filtering distributes over concatenation. */
  lemma {:induction false} KeepAppend(a: string, b: string, P: char -> bool)
    ensures Keep(a + b, P) == Keep(a, P) + Keep(b, P)
  {
    if a == [] {
      assert a + b == b;
    } else {
      assert (a + b)[0] == a[0];
      assert (a + b)[1..] == a[1..] + b;
      KeepAppend(a[1..], b, P);
    }
  }

  /** A character the filter rejects can be taken out before filtering. */
  lemma KeepSkips(a: string, c: char, b: string, P: char -> bool)
    requires !P(c)
    ensures Keep(a + [c] + b, P) == Keep(a + b, P)
  {
    assert [c][1..] == [];
    assert Keep([c], P) == [];
    KeepAppend(a, [c], P);
    KeepAppend(a + [c], b, P);
    KeepAppend(a, b, P);
  }

  /** `s.replace(/^-+/, '')`: the leading dashes removed. */
  function DropLeadingDashes(s: string): (r: string)
    ensures |r| <= |s| && r == s[|s| - |r|..]
    ensures forall i :: 0 <= i < |s| - |r| ==> s[i] == '-'
    ensures r == [] || r[0] != '-'
  {
    if s != [] && s[0] == '-' then DropLeadingDashes(s[1..]) else s
  }

  /** `s.replace(/-+$/, '')`: the trailing dashes removed. */
  function DropTrailingDashes(s: string): (r: string)
    ensures |r| <= |s| && r == s[..|r|]
    ensures forall i :: |r| <= i < |s| ==> s[i] == '-'
    ensures r == [] || r[|r| - 1] != '-'
  {
    if s != [] && s[|s| - 1] == '-' then DropTrailingDashes(s[..|s| - 1]) else s
  }

  /** `s.replace(/-+/g, '-')`: every maximal run of dashes becomes one dash. */
  function CollapseDashes(s: string): (r: string)
    ensures |r| <= |s|
    decreases |s|
  {
    if s == [] then []
    else if s[0] == '-' then ['-'] + CollapseDashes(DropLeadingDashes(s))
    else [s[0]] + CollapseDashes(s[1..])
  }

  lemma CollapseDashesHead(s: string)
    requires s != []
    ensures CollapseDashes(s) != [] && CollapseDashes(s)[0] == s[0]
  {
  }

  /** After collapsing, no two dashes are adjacent. */
  lemma {:induction false} CollapseDashesNoDouble(s: string)
    ensures NoDoubleDash(CollapseDashes(s))
    decreases |s|
  {
    if s != [] {
      var rest := if s[0] == '-' then DropLeadingDashes(s) else s[1..];
      var r := CollapseDashes(s);
      var rr := CollapseDashes(rest);
      CollapseDashesNoDouble(rest);
      assert r == [s[0]] + rr;
      if rest != [] {
        CollapseDashesHead(rest);
      }
      forall i | 0 <= i < |r| - 1
        ensures !(r[i] == '-' && r[i + 1] == '-')
      {
        assert r[i + 1] == rr[i];
        if i > 0 {
          assert r[i] == rr[i - 1];
        }
      }
    }
  }

  /** Collapsing only shortens runs of dashes, so any property of all characters of `s` survives. */
  lemma {:induction false} CollapseDashesKeeps(s: string, Q: char -> bool)
    requires All(s, Q)
    ensures All(CollapseDashes(s), Q)
    decreases |s|
  {
    if s != [] {
      var rest := if s[0] == '-' then DropLeadingDashes(s) else s[1..];
      assert forall i :: 0 <= i < |rest| ==> rest[i] == s[|s| - |rest| + i];
      CollapseDashesKeeps(rest, Q);
      var r := CollapseDashes(s);
      var rr := CollapseDashes(rest);
      assert r == [s[0]] + rr;
      forall i | 0 <= i < |r|
        ensures Q(r[i])
      {
        if i > 0 {
          assert r[i] == rr[i - 1];
        }
      }
    }
  }

  /** Collapsing a string without adjacent dashes changes nothing. */
  lemma {:induction false} CollapseDashesOfNoDouble(s: string)
    requires NoDoubleDash(s)
    ensures CollapseDashes(s) == s
    decreases |s|
  {
    if s != [] {
      assert NoDoubleDash(s[1..]) by {
        forall i | 0 <= i < |s[1..]| - 1
          ensures !(s[1..][i] == '-' && s[1..][i + 1] == '-')
        {
          assert s[1..][i] == s[i + 1] && s[1..][i + 1] == s[i + 2];
        }
      }
      CollapseDashesOfNoDouble(s[1..]);
      if s[0] == '-' {
        assert DropLeadingDashes(s[1..]) == s[1..];
      }
    }
  }

  /** A slice keeps every property of all characters and the absence of adjacent dashes. */
  lemma SliceKeeps(s: string, lo: nat, hi: nat, Q: char -> bool)
    requires lo <= hi <= |s|
    ensures All(s, Q) ==> All(s[lo..hi], Q)
    ensures NoDoubleDash(s) ==> NoDoubleDash(s[lo..hi])
  {
    var t := s[lo..hi];
    assert forall i :: 0 <= i < |t| ==> t[i] == s[lo + i];
    if NoDoubleDash(s) {
      forall i | 0 <= i < |t| - 1
        ensures !(t[i] == '-' && t[i + 1] == '-')
      {
        assert t[i] == s[lo + i] && t[i + 1] == s[lo + i + 1];
      }
    }
  }
}
