/**
 * lib/stores/calculator.ts: the JPY-to-KRW calculator store. The keypad
 * edits a digit string `input`; after every edit `calculate` recomputes
 * `result`, the KRW amount rounded with `Math.round`, with a 10 % tax-free
 * and a 5 % coupon discount when they are switched on. The constants are
 * those of lib/constants.ts. Amounts are exact rationals.
 */
module CalculatorStore {
  import opened Text
  import opened Numbers
  import opened Filters

  const TaxFreeDiscount: real := 0.9
  const CouponDiscount: real := 0.95
  const TaxFreeThreshold: int := 5500
  const MaxInputLength: nat := 10
  const DefaultRate: real := 9.05

  /** The shape the keypad keeps `input` in: one to ten ASCII digits. */
  predicate ValidInput(s: string) {
    1 <= |s| <= MaxInputLength && IsDigitString(s)
  }

  /** The KRW amount before rounding: the JPY value times the rate, then the optional discounts in turn. */
  function Amount(value: real, rate: real, isTaxFree: bool, isCoupon: bool): real {
    var base := value * rate;
    var afterTaxFree := if isTaxFree then base * TaxFreeDiscount else base;
    if isCoupon then afterTaxFree * CouponDiscount else afterTaxFree
  }

  /** The value `calculate` stores in `result`. */
  function ExpectedResult(input: string, rate: real, isTaxFree: bool, isCoupon: bool): int {
    Round(Amount(ParseFloatOrZero(input), rate, isTaxFree, isCoupon))
  }

  /** The amount is the product of value, rate and the factors of the switched-on discounts, whatever the order. */
  lemma AmountIsProduct(value: real, rate: real, isTaxFree: bool, isCoupon: bool)
    ensures Amount(value, rate, isTaxFree, isCoupon)
         == value * rate * (if isTaxFree then 0.9 else 1.0) * (if isCoupon then 0.95 else 1.0)
  {
  }

  /**
   * For a non-negative rate, switching a discount on never raises the
   * result. The tax-free factor applies whatever the amount: the 5500 yen
   * threshold plays no part in the calculation.
   */
  lemma DiscountsNeverRaise(value: real, rate: real, isTaxFree: bool, isCoupon: bool)
    requires value >= 0.0 && rate >= 0.0
    ensures Round(Amount(value, rate, true, isCoupon)) <= Round(Amount(value, rate, false, isCoupon))
    ensures Round(Amount(value, rate, isTaxFree, true)) <= Round(Amount(value, rate, isTaxFree, false))
  {
    var base := value * rate;
    NonNegativeProduct(value, rate);
    var c := if isCoupon then CouponDiscount else 1.0;
    NonNegativeProduct(base, c);
    ScaleDown(base * c, TaxFreeDiscount);
    assert (base * TaxFreeDiscount) * c == (base * c) * TaxFreeDiscount;
    assert Amount(value, rate, true, isCoupon) <= Amount(value, rate, false, isCoupon);
    var t := if isTaxFree then base * TaxFreeDiscount else base;
    NonNegativeProduct(base, TaxFreeDiscount);
    ScaleDown(t, CouponDiscount);
    assert Amount(value, rate, isTaxFree, true) <= Amount(value, rate, isTaxFree, false);
    RoundMonotone(Amount(value, rate, true, isCoupon), Amount(value, rate, false, isCoupon));
    RoundMonotone(Amount(value, rate, isTaxFree, true), Amount(value, rate, isTaxFree, false));
  }

  lemma ScaleDown(x: real, f: real)
    requires x >= 0.0 && 0.0 <= f <= 1.0
    ensures x * f <= x
  {
    assert x - x * f == x * (1.0 - f);
    NonNegativeProduct(x, 1.0 - f);
  }

  /** The input after `appendDigit(digit)`: unchanged at ten digits, the digit alone after "0", else the digit appended. */
  function AppendedInput(input: string, digit: char): string {
    if |input| >= MaxInputLength then input
    else if input == "0" then [digit]
    else input + [digit]
  }

  /** Appending keeps the input shape; the digit becomes the new last place of the number. */
  lemma AppendedInputValue(input: string, digit: char)
    requires ValidInput(input) && IsDigit(digit)
    ensures ValidInput(AppendedInput(input, digit))
    ensures |input| < MaxInputLength && input != "0" ==>
              DigitsValue(AppendedInput(input, digit)) == 10 * DigitsValue(input) + DigitOf(digit)
    ensures input == "0" ==> DigitsValue(AppendedInput(input, digit)) == DigitOf(digit)
    ensures |input| >= MaxInputLength ==> AppendedInput(input, digit) == input
  {
    var r := AppendedInput(input, digit);
    if |input| < MaxInputLength && input != "0" {
      assert r[..|r| - 1] == input;
    }
    if input == "0" {
      assert [digit][..0] == [];
    }
  }

  /** "0" then "5" gives "5"; "0" then "0" stays "0". */
  lemma AppendAfterZero()
    ensures AppendedInput("0", '5') == "5"
    ensures AppendedInput("0", '0') == "0"
  {
  }

  /** The digits of `value`, at most the first ten: `value.replace(/[^0-9]/g, '').slice(0, 10)`. */
  function FirstDigits(value: string): (r: string)
    ensures IsDigitString(r) && |r| <= MaxInputLength
  {
    var digits := Keep(value, IsDigit);
    if |digits| > MaxInputLength then digits[..MaxInputLength] else digits
  }

  /** The input after `setInput(value)`: the first ten digits, with "" and "0" stored as "0". */
  function SetInputText(value: string): string {
    var numeric := FirstDigits(value);
    if numeric == "" || numeric == "0" then "0" else numeric
  }

  /** `setInput` always leaves a valid input of the same value as the digits it kept. */
  lemma SetInputTextValid(value: string)
    ensures ValidInput(SetInputText(value))
    ensures DigitsValue(SetInputText(value)) == DigitsValue(FirstDigits(value))
  {
  }

  /** A valid input comes back unchanged from `setInput`; leading zeros such as "007" are kept. */
  lemma SetInputOfValid(s: string)
    requires ValidInput(s)
    ensures SetInputText(s) == s
  {
    KeepOfAll(s, IsDigit);
  }

  lemma SetInputKeepsLeadingZeros()
    ensures SetInputText("007") == "007"
  {
    SetInputOfValid("007");
  }

  /** Characters other than digits never matter to `setInput`. */
  lemma SetInputIgnoresNonDigit(a: string, c: char, b: string)
    requires !IsDigit(c)
    ensures SetInputText(a + [c] + b) == SetInputText(a + b)
  {
    KeepSkips(a, c, b, IsDigit);
  }

  /** The input after `backspace`: "0" for one character or fewer, else the last character removed. */
  function BackspacedInput(input: string): string {
    if |input| <= 1 then "0" else input[..|input| - 1]
  }

  /** Backspace keeps the input shape and drops the last decimal place of the number. */
  lemma BackspacedInputValue(input: string)
    requires ValidInput(input)
    ensures ValidInput(BackspacedInput(input))
    ensures |input| >= 2 ==> DigitsValue(BackspacedInput(input)) == DigitsValue(input) / 10
    ensures |input| <= 1 ==> BackspacedInput(input) == "0"
  {
    if |input| >= 2 {
      var p := input[..|input| - 1];
      var d := DigitOf(input[|input| - 1]);
      assert DigitsValue(input) == 10 * DigitsValue(p) + d;
      assert (10 * DigitsValue(p) + d) / 10 == DigitsValue(p);
    }
  }

  /** The store. `Valid` holds in every state the actions can reach. */
  class Calculator {
    var input: string
    var rate: real
    var isTaxFree: bool
    var isCoupon: bool
    var result: int
    var taxFreeThreshold: int

    /** The input is one to ten digits, the threshold is 5500, and `result` agrees with the other fields. */
    predicate Valid()
      reads this
    {
      && ValidInput(input)
      && taxFreeThreshold == TaxFreeThreshold
      && result == ExpectedResult(input, rate, isTaxFree, isCoupon)
    }

    /** The initial state: input "0", rate 9.05, both discounts off, result 0, threshold 5500. */
    constructor ()
      ensures input == "0" && rate == DefaultRate && !isTaxFree && !isCoupon
      ensures result == 0 && taxFreeThreshold == TaxFreeThreshold
      ensures Valid()
    {
      input := "0";
      rate := DefaultRate;
      isTaxFree := false;
      isCoupon := false;
      result := 0;
      taxFreeThreshold := TaxFreeThreshold;
    }

    /** The body of `calculate`: parse, convert, apply each discount that is on, round. */
    static method Compute(input: string, rate: real, isTaxFree: bool, isCoupon: bool) returns (r: int)
      ensures r == ExpectedResult(input, rate, isTaxFree, isCoupon)
    {
      var inputValue := ParseFloatOrZero(input);
      var baseAmount := inputValue * rate;
      if isTaxFree {
        baseAmount := baseAmount * TaxFreeDiscount;
      }
      if isCoupon {
        baseAmount := baseAmount * CouponDiscount;
      }
      r := Round(baseAmount);
    }

    /** `calculate`: recomputes `result` from the other fields and changes nothing else. */
    method Calculate()
      modifies this
      ensures result == ExpectedResult(input, rate, isTaxFree, isCoupon)
      ensures input == old(input) && rate == old(rate)
      ensures isTaxFree == old(isTaxFree) && isCoupon == old(isCoupon)
      ensures taxFreeThreshold == old(taxFreeThreshold)
    {
      result := Compute(input, rate, isTaxFree, isCoupon);
    }

    /** `appendDigit(digit)`; the keypad only sends single digits. At ten digits nothing changes, not even `result`. */
    method AppendDigit(digit: char)
      requires Valid() && IsDigit(digit)
      modifies this
      ensures Valid()
      ensures input == AppendedInput(old(input), digit)
      ensures |old(input)| >= MaxInputLength ==> result == old(result)
      ensures rate == old(rate) && isTaxFree == old(isTaxFree) && isCoupon == old(isCoupon)
    {
      AppendedInputValue(input, digit);
      if |input| >= MaxInputLength {
        return;
      }
      if input == "0" {
        input := [digit];
      } else {
        input := input + [digit];
      }
      Calculate();
    }

    /** `setInput(value)`: keeps the first ten digits of `value`. */
    method SetInput(value: string)
      requires Valid()
      modifies this
      ensures Valid()
      ensures input == SetInputText(value)
      ensures rate == old(rate) && isTaxFree == old(isTaxFree) && isCoupon == old(isCoupon)
    {
      SetInputTextValid(value);
      var numericValue := FirstDigits(value);
      if numericValue == "" || numericValue == "0" {
        input := "0";
      } else {
        input := numericValue;
      }
      Calculate();
    }

    /** `backspace`. */
    method Backspace()
      requires Valid()
      modifies this
      ensures Valid()
      ensures input == BackspacedInput(old(input))
      ensures rate == old(rate) && isTaxFree == old(isTaxFree) && isCoupon == old(isCoupon)
    {
      BackspacedInputValue(input);
      if |input| <= 1 {
        input := "0";
      } else {
        input := input[..|input| - 1];
      }
      Calculate();
    }

    /** `clear`: input "0" and result 0 without calling `calculate`; rate and discounts stay. */
    method Clear()
      requires Valid()
      modifies this
      ensures Valid()
      ensures input == "0" && result == 0
      ensures rate == old(rate) && isTaxFree == old(isTaxFree) && isCoupon == old(isCoupon)
    {
      input := "0";
      result := 0;
      ParseOfDigitString(input);
    }

    /** `toggleTaxFree`; toggling twice restores every field, since `result` is a function of the others. */
    method ToggleTaxFree()
      requires Valid()
      modifies this
      ensures Valid()
      ensures isTaxFree == !old(isTaxFree)
      ensures input == old(input) && rate == old(rate) && isCoupon == old(isCoupon)
      ensures rate >= 0.0 && isTaxFree ==> result <= old(result)
    {
      isTaxFree := !isTaxFree;
      Calculate();
      if rate >= 0.0 {
        ParseOfDigitString(input);
        DiscountsNeverRaise(ParseFloatOrZero(input), rate, isTaxFree, isCoupon);
      }
    }

    /** `toggleCoupon`. */
    method ToggleCoupon()
      requires Valid()
      modifies this
      ensures Valid()
      ensures isCoupon == !old(isCoupon)
      ensures input == old(input) && rate == old(rate) && isTaxFree == old(isTaxFree)
      ensures rate >= 0.0 && isCoupon ==> result <= old(result)
    {
      isCoupon := !isCoupon;
      Calculate();
      if rate >= 0.0 {
        ParseOfDigitString(input);
        DiscountsNeverRaise(ParseFloatOrZero(input), rate, isTaxFree, isCoupon);
      }
    }

    /** `setRate(rate)`. */
    method SetRate(newRate: real)
      requires Valid()
      modifies this
      ensures Valid()
      ensures rate == newRate
      ensures input == old(input) && isTaxFree == old(isTaxFree) && isCoupon == old(isCoupon)
    {
      rate := newRate;
      Calculate();
    }
  }
}
