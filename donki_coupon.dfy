/**
 * components/tools/DonkiCouponCalculator.tsx: the coupon calculator. One of
 * four store coupons, optionally stacked with the 10 % tax-free discount,
 * and the breakdown of what each one saves.
 */
module DonkiCoupon {
  import opened Numbers
  import CalculatorStore

  /** A coupon: the factor it multiplies the price by, with its label and description. */
  datatype CouponType = CouponType(name: string, discount: real, description: string)

  /** `COUPON_TYPES`: 5, 10, 15 and 20 % coupons. */
  const CouponTypes: seq<CouponType> := [
    CouponType("5% 할인 쿠폰", 0.95, "일반 쿠폰"),
    CouponType("10% 할인 쿠폰", 0.90, "프리미엄 쿠폰"),
    CouponType("15% 할인 쿠폰", 0.85, "VIP 쿠폰"),
    CouponType("20% 할인 쿠폰", 0.80, "특별 쿠폰")
  ]

  /** The coupon factors are exactly 0.95, 0.90, 0.85 and 0.80, each a real discount. */
  lemma CouponFactors()
    ensures |CouponTypes| == 4
    ensures CouponTypes[0].discount == 0.95 && CouponTypes[1].discount == 0.90
    ensures CouponTypes[2].discount == 0.85 && CouponTypes[3].discount == 0.80
    ensures forall i :: 0 <= i < |CouponTypes| ==> 0.0 < CouponTypes[i].discount < 1.0
  {
  }

  /** What the `calculations` memo returns; the percentage is a quotient that is not finite at base 0. */
  datatype Breakdown = Breakdown(
    baseAmount: real,
    couponDiscount: real,
    taxFreeDiscount: real,
    finalAmount: real,
    totalDiscount: real,
    totalDiscountPercent: Quotient)

  /** `baseKrw`: the typed yen amount (0 when it does not parse) times the rate. */
  function BaseKrw(jpyAmount: string, currentRate: real): real {
    ParseFloatOrZero(jpyAmount) * currentRate
  }

  /** The factor the price ends up multiplied by: the coupon's, times 0.9 with tax-free. */
  function PriceFactor(couponDiscount: real, useTaxFree: bool): real {
    couponDiscount * (if useTaxFree then CalculatorStore.TaxFreeDiscount else 1.0)
  }

  /**
   * What the `calculations` memo stands for, in closed form: the coupon
   * applies first and tax-free on top, each saving is measured on the
   * price it applies to, and the percentage is the total over the base.
   */
  function CouponBreakdown(baseKrw: real, discount: real, useTaxFree: bool): Breakdown {
    var f := PriceFactor(discount, useTaxFree);
    Breakdown(baseKrw,
      baseKrw * (1.0 - discount),
      if useTaxFree then baseKrw * discount * 0.1 else 0.0,
      baseKrw * f,
      baseKrw - baseKrw * f,
      PercentOf(baseKrw - baseKrw * f, baseKrw))
  }

  /**
   * The breakdown adds up: the two savings make the total, which is what
   * separates the base from the final price; with a real coupon the final
   * price is at most the base, and the percentage depends on the options
   * only (it is unguarded, so there is none at base 0).
   */
  lemma CouponBreakdownSpec(baseKrw: real, discount: real, useTaxFree: bool)
    requires 0.0 < discount < 1.0
    ensures var b := CouponBreakdown(baseKrw, discount, useTaxFree);
      && b.couponDiscount + b.taxFreeDiscount == b.totalDiscount == b.baseAmount - b.finalAmount
      && (b.baseAmount >= 0.0 ==> b.finalAmount <= b.baseAmount)
      && (b.baseAmount == 0.0 <==> b.totalDiscountPercent.NotFinite?)
      && (b.baseAmount != 0.0 ==> b.totalDiscountPercent == Finite((1.0 - PriceFactor(discount, useTaxFree)) * 100.0))
  {
    var f := PriceFactor(discount, useTaxFree);
    FactorBelowOne(discount, useTaxFree);
    if baseKrw >= 0.0 {
      CalculatorStore.ScaleDown(baseKrw, f);
    }
    if baseKrw != 0.0 {
      assert baseKrw - baseKrw * f == baseKrw * (1.0 - f);
      DivideProduct(baseKrw, 1.0 - f);
    }
  }

  /** The `calculations` memo: the breakdown of the typed amount under the selected coupon. */
  method Calculations(jpyAmount: string, currentRate: real, selectedCoupon: nat, useTaxFree: bool)
    returns (b: Breakdown)
    requires selectedCoupon < |CouponTypes|
    ensures b == CouponBreakdown(BaseKrw(jpyAmount, currentRate), CouponTypes[selectedCoupon].discount, useTaxFree)
  {
    var baseKrw := BaseKrw(jpyAmount, currentRate);
    var coupon := CouponTypes[selectedCoupon];
    b := ApplyCoupon(baseKrw, coupon.discount, useTaxFree);
  }

  /**
   * The body of the memo once the base amount and the coupon's factor are
   * known: the final amount is scaled step by step, and the tax-free saving
   * is recovered from it by undoing the 0.9.
   */
  method ApplyCoupon(baseKrw: real, discount: real, useTaxFree: bool) returns (b: Breakdown)
    ensures b == CouponBreakdown(baseKrw, discount, useTaxFree)
  {
    var tax := CalculatorStore.TaxFreeDiscount;
    var finalAmount := baseKrw * discount;
    ghost var afterCoupon := finalAmount;
    if useTaxFree {
      finalAmount := finalAmount * tax;
    }
    assert finalAmount == baseKrw * PriceFactor(discount, useTaxFree);
    var totalDiscount := baseKrw - finalAmount;
    var totalDiscountPercent := PercentOf(totalDiscount, baseKrw);
    var taxFreeDiscount := if useTaxFree then finalAmount / tax * (1.0 - tax) else 0.0;
    if useTaxFree {
      assert finalAmount / tax == afterCoupon;
    }
    b := Breakdown(baseKrw, baseKrw * (1.0 - discount), taxFreeDiscount, finalAmount, totalDiscount, totalDiscountPercent);
  }

  lemma FactorBelowOne(d: real, useTaxFree: bool)
    requires 0.0 < d < 1.0
    ensures 0.0 < PriceFactor(d, useTaxFree) < 1.0
  {
  }

  /** The coupon buttons and the tax-free checkbox. */
  class Selection {
    var selectedCoupon: nat
    var useTaxFree: bool

    /** The selected index always names a coupon. */
    predicate Valid()
      reads this
    {
      selectedCoupon < |CouponTypes|
    }

    constructor ()
      ensures selectedCoupon == 0 && !useTaxFree
      ensures Valid()
    {
      selectedCoupon := 0;
      useTaxFree := false;
    }

    /** `setSelectedCoupon(index)` from the button of coupon `index`. */
    method SelectCoupon(index: nat)
      requires index < |CouponTypes|
      modifies this
      ensures Valid()
      ensures selectedCoupon == index && useTaxFree == old(useTaxFree)
    {
      selectedCoupon := index;
    }

    /** `setUseTaxFree(checked)`. */
    method SetUseTaxFree(checked: bool)
      requires Valid()
      modifies this
      ensures Valid()
      ensures useTaxFree == checked && selectedCoupon == old(selectedCoupon)
    {
      useTaxFree := checked;
    }
  }
}
