/**
 * The 31-multiplier string hash written out in lib/duplicate-content-checker.ts
 * and lib/seo-utils.ts:
 *
 *   hash = ((hash << 5) - hash) + char;  hash = hash & hash;
 *
 * and its rendering `Math.abs(hash).toString(36)`.
 */
module ContentHash {
  import opened Numbers

  /** `h << 5`: the shift converts its operand and result to 32 bits. */
  function ShiftLeft5(h: int): int {
    ToInt32(ToInt32(h) * 32)
  }

  /** One step of the recurrence h := ToInt32(31 * h + code(c)). */
  function HashStep(h: int, c: char): (r: int)
    ensures IsInt32(r)
  {
    ToInt32(31 * h + c as int)
  }

  /** The hash of `s`: the recurrence folded over its characters from the left, starting at 0. */
  function StringHash(s: string): (h: int)
    ensures IsInt32(h)
  {
    if s == [] then 0 else HashStep(StringHash(s[..|s| - 1]), s[|s| - 1])
  }

  /** The shift-and-subtract of the source and `& hash` compute exactly one step of the recurrence. */
  lemma SourceStepIsHashStep(h: int, code: int)
    requires IsInt32(h)
    ensures ToInt32(ShiftLeft5(h) - h + code) == ToInt32(31 * h + code)
  {
    var sh := ShiftLeft5(h);
    assert (h * 32 - sh) % TwoTo32 == 0;
    assert (sh - h + code) - (31 * h + code) == sh - h * 32;
    assert ((sh - h + code) - (31 * h + code)) % TwoTo32 == 0 by {
      NegatedMultiple(h * 32 - sh);
    }
    ToInt32Congruent(sh - h + code, 31 * h + code);
  }

  lemma NegatedMultiple(x: int)
    requires x % TwoTo32 == 0
    ensures (-x) % TwoTo32 == 0
  {
    var k := x / TwoTo32;
    assert x == k * TwoTo32;
    assert -x == (-k) * TwoTo32;
  }

  /** The source's `for` loop over the character codes of `s`. */
  method Hash31(s: string) returns (hash: int)
    ensures hash == StringHash(s)
  {
    hash := 0;
    for i := 0 to |s|
      invariant hash == StringHash(s[..i])
    {
      var code := s[i] as int;
      SourceStepIsHashStep(hash, code);
      assert s[..i + 1][..i] == s[..i];
      hash := ShiftLeft5(hash) - hash + code;
      hash := ToInt32(hash);
    }
    assert s[..|s|] == s;
  }

  /** `Math.abs(hash).toString(36)`. */
  function Render(hash: int): (r: string)
    ensures |r| >= 1
    ensures forall i :: 0 <= i < |r| ==> IsBase36Char(r[i])
  {
    NatToBase36(if hash < 0 then -hash else hash)
  }

  /** The empty text hashes to 0, which renders as "0". */
  lemma EmptyRendersZero()
    ensures Render(StringHash("")) == "0"
  {
  }

  /** Text with equal hashes renders equally, and equal renderings mean equal magnitudes. */
  lemma RenderDeterminesMagnitude(g: int, h: int)
    requires Render(g) == Render(h)
    ensures (if g < 0 then -g else g) == (if h < 0 then -h else h)
  {
    Base36Injective(if g < 0 then -g else g, if h < 0 then -h else h);
  }
}
