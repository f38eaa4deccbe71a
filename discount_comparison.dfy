/**
 * components/tools/DiscountComparison.tsx: the discount comparison tool.
 * Next to the undiscounted price it lists the one discount option the
 * checkboxes select (tax-free only, coupon only, or both stacked), sorted
 * by amount, most expensive first.
 */
module DiscountComparison {
  import opened Numbers
  import CalculatorStore

  /** `baseKrw`: the typed yen amount (0 when it does not parse) times the rate. */
  function BaseKrw(jpyAmount: string, currentRate: real): real {
    ParseFloatOrZero(jpyAmount) * currentRate
  }

  /** The rows the tool can list, each with its own label and colour. */
  datatype DiscountOption = NoDiscount | TaxFreeOnly | CouponOnly | BothDiscounts

  /** One row: the KRW amount to pay, what it saves against the undiscounted price, and that saving in percent. */
  datatype Row = Row(option: DiscountOption, amount: real, discount: real, discountPercent: Quotient)

  function Label(option: DiscountOption): string {
    match option
    case NoDiscount => "할인 없음"
    case TaxFreeOnly => "면세만 적용"
    case CouponOnly => "쿠폰만 적용"
    case BothDiscounts => "면세 + 쿠폰"
  }

  /** The undiscounted row: it saves nothing, 0 percent. */
  function NoDiscountRow(baseKrw: real): Row {
    Row(NoDiscount, baseKrw, 0.0, Finite(0.0))
  }

  /** A discounted row: the saving is base minus amount, and its percentage of base is unguarded (not finite at base 0). */
  function DiscountedRow(option: DiscountOption, baseKrw: real, amount: real): (r: Row)
    ensures r.option == option && r.amount == amount
    ensures r.discount == baseKrw - r.amount
    ensures baseKrw == 0.0 <==> r.discountPercent.NotFinite?
    ensures baseKrw != 0.0 ==> r.discountPercent.value * baseKrw == r.discount * 100.0
  {
    var discount := baseKrw - amount;
    Row(option, amount, discount, PercentOf(discount, baseKrw))
  }

  /** The selected discounted row, if any: tax-free or coupon alone only when the other two boxes are clear, both when "both" is checked. */
  function Candidates(baseKrw: real, useTaxFree: bool, useCoupon: bool, useBoth: bool): (rows: seq<Row>)
    ensures 1 <= |rows| <= 2 && rows[0] == NoDiscountRow(baseKrw)
    ensures forall i :: 1 <= i < |rows| ==> rows[i].option != NoDiscount
    ensures forall i :: 0 <= i < |rows| ==> rows[i].discount == baseKrw - rows[i].amount
  {
    var tax := CalculatorStore.TaxFreeDiscount;
    var coupon := CalculatorStore.CouponDiscount;
    [NoDiscountRow(baseKrw)]
    + (if useTaxFree && !useCoupon && !useBoth then [DiscountedRow(TaxFreeOnly, baseKrw, baseKrw * tax)] else [])
    + (if useCoupon && !useTaxFree && !useBoth then [DiscountedRow(CouponOnly, baseKrw, baseKrw * coupon)] else [])
    + (if useBoth then [DiscountedRow(BothDiscounts, baseKrw, baseKrw * tax * coupon)] else [])
  }

  predicate SortedByAmountDesc(rows: seq<Row>) {
    forall i, j :: 0 <= i < j < |rows| ==> rows[i].amount >= rows[j].amount
  }

  /**
   * The `calculations` memo: push the undiscounted row and the selected
   * option, then sort with `b.amount - a.amount`.
   */
  method Calculations(jpyAmount: string, currentRate: real, useTaxFree: bool, useCoupon: bool, useBoth: bool)
    returns (results: seq<Row>)
    ensures multiset(results) == multiset(Candidates(BaseKrw(jpyAmount, currentRate), useTaxFree, useCoupon, useBoth))
    ensures SortedByAmountDesc(results)
    ensures 1 <= |results| <= 2
    ensures NoDiscountRow(BaseKrw(jpyAmount, currentRate)) in results
    ensures BaseKrw(jpyAmount, currentRate) >= 0.0 ==> results[0] == NoDiscountRow(BaseKrw(jpyAmount, currentRate))
  {
    var baseKrw := BaseKrw(jpyAmount, currentRate);
    var rows := PushRows(baseKrw, useTaxFree, useCoupon, useBoth);
    results := SortByAmountDesc(rows);
    assert rows[0] in multiset(results);
    if baseKrw >= 0.0 && |rows| == 2 {
      DiscountedAmountNotAbove(baseKrw, useTaxFree, useCoupon, useBoth);
    }
  }

  /** The pushes of `calculations`, in push order. */
  method PushRows(baseKrw: real, useTaxFree: bool, useCoupon: bool, useBoth: bool) returns (results: seq<Row>)
    ensures results == Candidates(baseKrw, useTaxFree, useCoupon, useBoth)
  {
    var tax := CalculatorStore.TaxFreeDiscount;
    var coupon := CalculatorStore.CouponDiscount;
    var noDiscount := baseKrw;
    results := [NoDiscountRow(noDiscount)];
    if useTaxFree && !useCoupon && !useBoth {
      results := results + [DiscountedRow(TaxFreeOnly, noDiscount, baseKrw * tax)];
    }
    if useCoupon && !useTaxFree && !useBoth {
      results := results + [DiscountedRow(CouponOnly, noDiscount, baseKrw * coupon)];
    }
    if useBoth {
      results := results + [DiscountedRow(BothDiscounts, noDiscount, baseKrw * tax * coupon)];
    }
  }

  /**
   * `sort((a, b) => b.amount - a.amount)` on the one or two rows built: the
   * sort is stable, so it swaps them exactly when the second costs more.
   */
  method SortByAmountDesc(rows: seq<Row>) returns (sorted: seq<Row>)
    requires 1 <= |rows| <= 2
    ensures multiset(sorted) == multiset(rows) && |sorted| == |rows|
    ensures SortedByAmountDesc(sorted)
    ensures |rows| == 2 && rows[1].amount <= rows[0].amount ==> sorted == rows
    ensures |rows| == 1 ==> sorted == rows
  {
    if |rows| == 2 && rows[1].amount > rows[0].amount {
      var first, second := rows[0], rows[1];
      assert rows == [first, second];
      sorted := [second, first];
      assert multiset(sorted) == multiset([first, second]);
      ShortSorted(sorted);
    } else {
      sorted := rows;
      ShortSorted(sorted);
    }
  }

  /** One row is sorted; two rows are when the first costs at least the second. */
  lemma ShortSorted(rows: seq<Row>)
    requires 1 <= |rows| <= 2
    ensures SortedByAmountDesc(rows) <==> |rows| == 1 || rows[0].amount >= rows[1].amount
  {
  }

  /** For a non-negative base the discounted row, if any, costs at most the base. */
  lemma DiscountedAmountNotAbove(baseKrw: real, useTaxFree: bool, useCoupon: bool, useBoth: bool)
    requires baseKrw >= 0.0 && |Candidates(baseKrw, useTaxFree, useCoupon, useBoth)| == 2
    ensures Candidates(baseKrw, useTaxFree, useCoupon, useBoth)[1].amount <= baseKrw
  {
    var rows := Candidates(baseKrw, useTaxFree, useCoupon, useBoth);
    DiscountedAmountsNotAbove(baseKrw, useTaxFree, useCoupon, useBoth);
    assert rows[1] in rows;
  }

  /** For a non-negative base every discounted amount is at most the base. */
  lemma DiscountedAmountsNotAbove(baseKrw: real, useTaxFree: bool, useCoupon: bool, useBoth: bool)
    ensures baseKrw >= 0.0 ==>
              forall r :: r in Candidates(baseKrw, useTaxFree, useCoupon, useBoth) ==> r.amount <= baseKrw
  {
    var tax := CalculatorStore.TaxFreeDiscount;
    var coupon := CalculatorStore.CouponDiscount;
    if baseKrw >= 0.0 {
      CalculatorStore.ScaleDown(baseKrw, tax);
      CalculatorStore.ScaleDown(baseKrw, coupon);
      NonNegativeProduct(baseKrw, tax);
      CalculatorStore.ScaleDown(baseKrw * tax, coupon);
    }
  }

  /** With tax-free and coupon both checked but not "both", neither single option applies: only the undiscounted row. */
  lemma TwoSinglesGiveNoDiscountOnly(baseKrw: real)
    ensures Candidates(baseKrw, true, true, false) == [NoDiscountRow(baseKrw)]
  {
  }

  /** The stacked row costs base × 0.9 × 0.95. */
  lemma BothAmount(baseKrw: real, useTaxFree: bool, useCoupon: bool)
    ensures Candidates(baseKrw, useTaxFree, useCoupon, true)[|Candidates(baseKrw, useTaxFree, useCoupon, true)| - 1]
         == DiscountedRow(BothDiscounts, baseKrw, baseKrw * 0.9 * 0.95)
  {
  }

  /** For a positive base the percentages are fixed: 10 for tax-free, 5 for the coupon, 14.5 for both. */
  lemma FixedPercents(baseKrw: real)
    requires baseKrw > 0.0
    ensures DiscountedRow(TaxFreeOnly, baseKrw, baseKrw * 0.9).discountPercent == Finite(10.0)
    ensures DiscountedRow(CouponOnly, baseKrw, baseKrw * 0.95).discountPercent == Finite(5.0)
    ensures DiscountedRow(BothDiscounts, baseKrw, baseKrw * 0.9 * 0.95).discountPercent == Finite(14.5)
  {
    ShareOf(baseKrw, 0.9);
    ShareOf(baseKrw, 0.95);
    ShareOf(baseKrw, 0.9 * 0.95);
    assert baseKrw * 0.9 * 0.95 == baseKrw * (0.9 * 0.95);
  }

  lemma ShareOf(b: real, f: real)
    requires b > 0.0
    ensures PercentOf(b - b * f, b) == Finite((1.0 - f) * 100.0)
  {
    var g := 1.0 - f;
    assert b - b * f == b * g;
    DivideProduct(b, g);
  }

  /** With a negative base (a negative amount typed) the discounted row costs more, so it is listed first. */
  lemma NegativeBaseReorders(baseKrw: real)
    requires baseKrw < 0.0
    ensures Candidates(baseKrw, true, false, false)[1].amount > Candidates(baseKrw, true, false, false)[0].amount
  {
  }

  /** The checkbox state cells of the component. */
  class Options {
    var useTaxFree: bool
    var useCoupon: bool
    var useBoth: bool

    /** "Both" excludes the two single options. */
    predicate Valid()
      reads this
    {
      useBoth ==> !useTaxFree && !useCoupon
    }

    constructor ()
      ensures !useTaxFree && !useCoupon && !useBoth
      ensures Valid()
    {
      useTaxFree := false;
      useCoupon := false;
      useBoth := false;
    }

    /** The tax-free checkbox: checking it clears "both". */
    method OnTaxFreeChange(checked: bool)
      requires Valid()
      modifies this
      ensures Valid()
      ensures useTaxFree == checked && useCoupon == old(useCoupon)
      ensures useBoth == (if checked then false else old(useBoth))
    {
      useTaxFree := checked;
      if checked {
        useBoth := false;
      }
    }

    /** The coupon checkbox: checking it clears "both". */
    method OnCouponChange(checked: bool)
      requires Valid()
      modifies this
      ensures Valid()
      ensures useCoupon == checked && useTaxFree == old(useTaxFree)
      ensures useBoth == (if checked then false else old(useBoth))
    {
      useCoupon := checked;
      if checked {
        useBoth := false;
      }
    }

    /** The "both" checkbox: checking it clears the two single options. */
    method OnBothChange(checked: bool)
      requires Valid()
      modifies this
      ensures Valid()
      ensures useBoth == checked
      ensures useTaxFree == (if checked then false else old(useTaxFree))
      ensures useCoupon == (if checked then false else old(useCoupon))
    {
      useBoth := checked;
      if checked {
        useTaxFree := false;
        useCoupon := false;
      }
    }
  }
}
