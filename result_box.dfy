/**
 * components/calculator/result-box.tsx: the savings box under the
 * calculator display, derived from the store's `input`, `rate` and
 * discount switches.
 */
module ResultBox {
  import opened Numbers
  import CalculatorStore

  /** `totalDiscount` in KRW and `discountPercent` as the text drawn in the badge. */
  datatype Savings = Savings(totalDiscount: real, discountPercent: string)

  /** The KRW amount before any discount. */
  function BaseAmount(input: string, rate: real): real {
    ParseFloatOrZero(input) * rate
  }

  /** The final amount after the switched-on discounts, and what they took off the base. */
  function Discount(baseAmount: real, isTaxFree: bool, isCoupon: bool): real {
    var taxFreeAmount := if isTaxFree then baseAmount * 0.9 else baseAmount;
    var finalAmount := if isCoupon then taxFreeAmount * 0.95 else taxFreeAmount;
    baseAmount - finalAmount
  }

  /** The `useMemo`: the discount, and its percentage of base with one decimal, or "0" without a positive base. */
  function SavingsOf(input: string, rate: real, isTaxFree: bool, isCoupon: bool): Savings {
    var baseAmount := BaseAmount(input, rate);
    var discount := Discount(baseAmount, isTaxFree, isCoupon);
    var percent := if baseAmount > 0.0 then ToFixed1(discount / baseAmount * 100.0) else "0";
    Savings(discount, percent)
  }

  /** The savings box is drawn when a discount is on and something was saved. */
  predicate ShowsSavings(isTaxFree: bool, isCoupon: bool, s: Savings) {
    (isTaxFree || isCoupon) && s.totalDiscount > 0.0
  }

  /** The box applies the discounts exactly as the store does: the discount is base minus the store's unrounded amount. */
  lemma SavingsAgreeWithStore(value: real, rate: real, isTaxFree: bool, isCoupon: bool)
    ensures Discount(value * rate, isTaxFree, isCoupon)
         == value * rate - CalculatorStore.Amount(value, rate, isTaxFree, isCoupon)
  {
  }

  /** The fraction of the base that the switched-on discounts take away. */
  function DiscountShare(isTaxFree: bool, isCoupon: bool): (f: real)
    ensures 0.0 <= f < 1.0
    ensures !isTaxFree && !isCoupon <==> f == 0.0
  {
    1.0 - (if isTaxFree then 0.9 else 1.0) * (if isCoupon then 0.95 else 1.0)
  }

  /** The discount is the base times the share of the switched-on discounts. */
  lemma DiscountIsShareOfBase(input: string, rate: real, isTaxFree: bool, isCoupon: bool)
    ensures SavingsOf(input, rate, isTaxFree, isCoupon).totalDiscount
         == BaseAmount(input, rate) * DiscountShare(isTaxFree, isCoupon)
  {
  }

  /** Without a positive base the percentage is "0": no division by zero happens. */
  lemma PercentWithoutBase(input: string, rate: real, isTaxFree: bool, isCoupon: bool)
    requires BaseAmount(input, rate) <= 0.0
    ensures SavingsOf(input, rate, isTaxFree, isCoupon).discountPercent == "0"
  {
  }

  /** A non-negative base never gives a negative discount. */
  lemma DiscountNonNegative(input: string, rate: real, isTaxFree: bool, isCoupon: bool)
    requires BaseAmount(input, rate) >= 0.0
    ensures SavingsOf(input, rate, isTaxFree, isCoupon).totalDiscount >= 0.0
  {
    DiscountIsShareOfBase(input, rate, isTaxFree, isCoupon);
    NonNegativeProduct(BaseAmount(input, rate), DiscountShare(isTaxFree, isCoupon));
  }

  /** For a positive base the percentage depends only on the switches: 10.0, 5.0, 14.5, or 0.0. */
  lemma FixedPercents(input: string, rate: real, isTaxFree: bool, isCoupon: bool)
    requires BaseAmount(input, rate) > 0.0
    ensures SavingsOf(input, rate, isTaxFree, isCoupon).discountPercent
         == if isTaxFree && isCoupon then "14.5"
            else if isTaxFree then "10.0"
            else if isCoupon then "5.0"
            else "0.0"
  {
    var b := BaseAmount(input, rate);
    var f := DiscountShare(isTaxFree, isCoupon);
    DiscountIsShareOfBase(input, rate, isTaxFree, isCoupon);
    ShareOfBase(b, f);
    ToFixed1Examples();
  }

  lemma ShareOfBase(b: real, f: real)
    requires b > 0.0
    ensures (b * f) / b * 100.0 == f * 100.0
  {
    assert (b * f) / b == f;
  }

  /** With a positive base the box shows exactly when a discount is on; without one it never shows. */
  lemma ShowsSavingsIff(input: string, rate: real, isTaxFree: bool, isCoupon: bool)
    ensures BaseAmount(input, rate) > 0.0 ==>
              (ShowsSavings(isTaxFree, isCoupon, SavingsOf(input, rate, isTaxFree, isCoupon)) <==> isTaxFree || isCoupon)
    ensures BaseAmount(input, rate) <= 0.0 ==>
              !ShowsSavings(isTaxFree, isCoupon, SavingsOf(input, rate, isTaxFree, isCoupon))
  {
    var b := BaseAmount(input, rate);
    var f := DiscountShare(isTaxFree, isCoupon);
    DiscountIsShareOfBase(input, rate, isTaxFree, isCoupon);
    if b > 0.0 && f > 0.0 {
      assert b * f > 0.0;
    }
    if b <= 0.0 {
      NonNegativeProduct(-b, f);
      assert b * f == -((-b) * f);
    }
  }
}
