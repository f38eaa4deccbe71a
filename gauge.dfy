/**
 * components/calculator/gauge.tsx: how far the typed JPY amount is from
 * the 5500 yen tax-free threshold, and which badges the gauge shows.
 */
module Gauge {
  import opened Text
  import opened Numbers

  /** What the gauge's `useMemo` derives: percentage towards the threshold, yen still missing, and whether it is met. */
  datatype Measure = Measure(progress: real, remaining: real, isAchieved: bool)

  function Min(a: real, b: real): (m: real)
    ensures m <= a && m <= b && (m == a || m == b)
  {
    if a <= b then a else b
  }

  function Max(a: real, b: real): (m: real)
    ensures m >= a && m >= b && (m == a || m == b)
  {
    if a >= b then a else b
  }

  /**
   * `progress = min(value / threshold * 100, 100)`,
   * `remaining = max(threshold - value, 0)`, `isAchieved = value >= threshold`.
   * The store keeps its threshold at 5500, so it is always positive.
   */
  function MeasureOf(value: real, threshold: real): (m: Measure)
    requires threshold > 0.0
    ensures m.progress <= 100.0 && m.remaining >= 0.0
    ensures m.isAchieved <==> value >= threshold
    ensures m.isAchieved <==> m.remaining == 0.0
    ensures m.isAchieved ==> m.progress == 100.0
    ensures !m.isAchieved ==> m.progress * threshold == value * 100.0 && m.remaining + value == threshold
    ensures value >= 0.0 ==> m.progress >= 0.0
  {
    ScaledRatio(value, threshold);
    Measure(Min(value / threshold * 100.0, 100.0), Max(threshold - value, 0.0), value >= threshold)
  }

  /** The percentage `value / threshold * 100` sits on the same side of 100 and of 0 as `value` does of `threshold` and of 0. */
  lemma ScaledRatio(value: real, threshold: real)
    requires threshold > 0.0
    ensures (value / threshold * 100.0) * threshold == value * 100.0
    ensures value / threshold * 100.0 >= 100.0 <==> value >= threshold
    ensures value >= 0.0 ==> value / threshold * 100.0 >= 0.0
  {
    var q := value / threshold;
    assert q * threshold == value;
    if value >= threshold {
      assert q >= 1.0;
    }
    if q >= 1.0 {
      assert q * threshold >= threshold;
    }
  }

  /** The gauge for the store's `input` text. */
  function GaugeOf(input: string, threshold: real): Measure
    requires threshold > 0.0
  {
    MeasureOf(ParseFloatOrZero(input), threshold)
  }

  /** Text that holds no digit counts as 0 yen: no progress, the whole threshold remaining. */
  lemma UnparseableCountsAsZero(input: string, threshold: real)
    requires threshold > 0.0
    requires forall i :: 0 <= i < |input| ==> !IsDigit(input[i])
    ensures GaugeOf(input, threshold) == Measure(0.0, threshold, false)
  {
    ParseWithoutDigitsIsZero(input);
  }

  /** The percentage label inside the bar (`progress > 20`). */
  predicate ShowsPercentLabel(m: Measure) {
    m.progress > 20.0
  }

  /** The celebration overlay (`isAchieved && progress >= 100`). */
  predicate ShowsCelebration(m: Measure) {
    m.isAchieved && m.progress >= 100.0
  }

  /** The "perfect timing" badge, drawn inside the achieved message (`remaining === 0`). */
  predicate ShowsPerfectBadge(m: Measure) {
    m.isAchieved && m.remaining == 0.0
  }

  /** The "almost there" badge, drawn inside the not-achieved message (`remaining < 1000`). */
  predicate ShowsAlmostBadge(m: Measure) {
    !m.isAchieved && m.remaining < 1000.0
  }

  /**
   * The badges in terms of the amount: the label from a fifth of the
   * threshold on, the celebration and the perfect badge exactly when the
   * threshold is met, and the almost badge in the last 1000 yen below it.
   */
  lemma BadgeConditions(value: real, threshold: real)
    requires threshold > 0.0
    ensures ShowsPercentLabel(MeasureOf(value, threshold)) <==> value * 5.0 > threshold
    ensures ShowsCelebration(MeasureOf(value, threshold)) <==> value >= threshold
    ensures ShowsPerfectBadge(MeasureOf(value, threshold)) <==> value >= threshold
    ensures ShowsAlmostBadge(MeasureOf(value, threshold)) <==> threshold - 1000.0 < value < threshold
  {
    var m := MeasureOf(value, threshold);
    if !m.isAchieved {
      LabelPoint(m.progress, value, threshold);
    }
  }

  /** A percentage `p` of `threshold` passes 20 exactly when its amount passes a fifth of the threshold. */
  lemma LabelPoint(p: real, value: real, threshold: real)
    requires threshold > 0.0 && p * threshold == value * 100.0
    ensures p > 20.0 <==> value * 5.0 > threshold
  {
    var pt := p * threshold;
    ScaleComparison(p, 20.0, threshold);
    assert p > 20.0 <==> pt > 20.0 * threshold;
  }

  /** Multiplying by a positive factor keeps a strict comparison. */
  lemma ScaleComparison(a: real, b: real, t: real)
    requires t > 0.0
    ensures a > b <==> a * t > b * t
  {
    if a > b {
      assert a * t - b * t == (a - b) * t;
    }
    if a <= b {
      assert b * t - a * t == (b - a) * t;
    }
  }
}
