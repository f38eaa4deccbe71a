/**
 * The exchange rate the tool components compute with:
 * `rateData?.rate || DEFAULT_RATE`, where the rate is fetched from the
 * rates endpoint (the fetch itself is not part of this model).
 */
module RateFallback {
  import opened Wrappers
  import CalculatorStore

  /** The fetched rate when there is one and it is not 0; otherwise the default 9.05. Never 0. */
  function EffectiveRate(fetched: Option<real>): (r: real)
    ensures r != 0.0
    ensures fetched.Some? && fetched.value != 0.0 ==> r == fetched.value
    ensures fetched.None? || fetched.value == 0.0 ==> r == 9.05
  {
    if fetched.Some? && fetched.value != 0.0 then fetched.value else CalculatorStore.DefaultRate
  }
}
