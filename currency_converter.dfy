/**
 * components/tools/CurrencyConverter.tsx: the two-field JPY/KRW
 * converter. The field of the active direction is typed into; its
 * converted value, rounded with `toFixed(0)`, is written into the other.
 */
module CurrencyConverter {
  import opened Wrappers
  import opened Numbers
  import opened RateFallback

  datatype Direction = JpyToKrw | KrwToJpy

  /** The exact KRW value of a JPY text. */
  function KrwValue(jpyText: string, rate: real): real {
    ParseFloatOrZero(jpyText) * rate
  }

  /** The KRW text for a JPY text: `(numValue * rate).toFixed(0)`. */
  function KrwFor(jpyText: string, rate: real): string {
    ToFixed0(KrwValue(jpyText, rate))
  }

  /** The JPY text for a KRW text: `(numValue / rate).toFixed(0)`; the effective rate is never 0. */
  function JpyFor(krwText: string, rate: real): string
    requires rate != 0.0
  {
    ToFixed0(ParseFloatOrZero(krwText) / rate)
  }

  /** Read back, a converted KRW field is the exact product rounded half away from zero. */
  lemma KrwReadsBack(jpyText: string, rate: real)
    ensures ParseFloatOrZero(KrwFor(jpyText, rate)) == RoundHalfAway(KrwValue(jpyText, rate)) as real
  {
    ToFixed0ReadsBack(KrwValue(jpyText, rate));
  }

  /** Read back, a converted JPY field is the exact quotient rounded half away from zero. */
  lemma JpyReadsBack(krwText: string, rate: real)
    requires rate != 0.0
    ensures ParseFloatOrZero(JpyFor(krwText, rate)) == RoundHalfAway(ParseFloatOrZero(krwText) / rate) as real
  {
    ToFixed0ReadsBack(ParseFloatOrZero(krwText) / rate);
  }

  /** The component's three state cells. */
  class Converter {
    var jpyAmount: string
    var krwAmount: string
    var direction: Direction

    constructor ()
      ensures jpyAmount == "0" && krwAmount == "0" && direction == JpyToKrw
    {
      jpyAmount := "0";
      krwAmount := "0";
      direction := JpyToKrw;
    }

    /** `handleJpyChange(value)`: keep the raw text; rewrite KRW only in the JPY-to-KRW direction. */
    method HandleJpyChange(value: string, fetchedRate: Option<real>)
      modifies this
      ensures jpyAmount == value && direction == old(direction)
      ensures krwAmount == if direction == JpyToKrw then KrwFor(value, EffectiveRate(fetchedRate)) else old(krwAmount)
    {
      var currentRate := EffectiveRate(fetchedRate);
      jpyAmount := value;
      if direction == JpyToKrw {
        var converted := KrwFor(value, currentRate);
        krwAmount := converted;
      }
    }

    /** `handleKrwChange(value)`: keep the raw text; rewrite JPY only in the KRW-to-JPY direction. */
    method HandleKrwChange(value: string, fetchedRate: Option<real>)
      modifies this
      ensures krwAmount == value && direction == old(direction)
      ensures jpyAmount == if direction == KrwToJpy then JpyFor(value, EffectiveRate(fetchedRate)) else old(jpyAmount)
    {
      var currentRate := EffectiveRate(fetchedRate);
      krwAmount := value;
      if direction == KrwToJpy {
        var converted := JpyFor(value, currentRate);
        jpyAmount := converted;
      }
    }

    /** The direction buttons: neither amount changes. */
    method SetDirection(d: Direction)
      modifies this
      ensures direction == d
      ensures jpyAmount == old(jpyAmount) && krwAmount == old(krwAmount)
    {
      direction := d;
    }
  }
}
