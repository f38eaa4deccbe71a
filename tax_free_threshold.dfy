/**
 * components/tools/TaxFreeThresholdCalculator.tsx: the stand-alone
 * threshold tool. A free-form amount (a number field, so it may be
 * negative) measured against the fixed 5500 yen threshold with the same
 * formulas as the calculator gauge.
 */
module TaxFreeThreshold {
  import opened Numbers
  import opened Gauge
  import CalculatorStore

  const Threshold: real := CalculatorStore.TaxFreeThreshold as real

  /** The tool's `useMemo` for the typed `currentAmount`. */
  function ThresholdOf(currentAmount: string): Measure {
    MeasureOf(ParseFloatOrZero(currentAmount), Threshold)
  }

  /** Remaining and achievement against 5500 yen; once achieved the bar is full and nothing remains. */
  lemma ThresholdFacts(current: real)
    ensures Threshold == 5500.0
    ensures MeasureOf(current, Threshold).remaining == if current >= 5500.0 then 0.0 else 5500.0 - current
    ensures MeasureOf(current, Threshold).isAchieved <==> current >= 5500.0
    ensures MeasureOf(current, Threshold).isAchieved ==>
              MeasureOf(current, Threshold).progress == 100.0 && MeasureOf(current, Threshold).remaining == 0.0
  {
  }

  /** The bar is capped at 100 but not clamped below: a negative amount gives a negative progress. */
  lemma NegativeAmountNegativeProgress(current: real)
    requires current < 0.0
    ensures MeasureOf(current, Threshold).progress < 0.0
  {
    var m := MeasureOf(current, Threshold);
    assert m.progress * 5500.0 == current * 100.0;
  }

  /** The initial text "0" is no progress with the whole threshold to go. */
  lemma InitialState()
    ensures ThresholdOf("0") == Measure(0.0, 5500.0, false)
  {
    ParseOfDigitString("0");
  }
}
