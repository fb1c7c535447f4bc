/**
  Input validation: product codes in `range(0, 40)`, quantities in
  `range(1, 50)`, shipping methods from a fixed pair, and the way the add
  flow turns a line of user input into a code or a quantity.
 */
module Validators {
  import opened Wrappers
  import opened Text

  /** Python's `range(lo, hi)`, as the sequence of its values. */
  function Range(lo: int, hi: int): (r: seq<int>)
    ensures |r| == if lo <= hi then hi - lo else 0
    ensures forall i :: 0 <= i < |r| ==> r[i] == lo + i
    decreases hi - lo
  {
    if lo >= hi then [] else [lo] + Range(lo + 1, hi)
  }

  /** `x in range(lo, hi)` holds exactly for `lo <= x < hi`. */
  lemma InRange(x: int, lo: int, hi: int)
    ensures x in Range(lo, hi) <==> lo <= x < hi
  {
    if lo <= x < hi {
      assert Range(lo, hi)[x - lo] == x;
    }
  }

  /** `is_valid_code`: the code lies in `range(0, 40)`. */
  function IsValidCode(code: int): (ok: bool)
    ensures ok <==> 0 <= code <= 39
  {
    InRange(code, 0, 40);
    code in Range(0, 40)
  }

  /** `is_valid_quantity`: the quantity lies in `range(1, 50)`. */
  function IsValidQuantity(quantity: int): (ok: bool)
    ensures ok <==> 1 <= quantity <= 49
  {
    InRange(quantity, 1, 50);
    quantity in Range(1, 50)
  }

  const PickUp: string := "Pick-up"
  const Delivery: string := "Delivery"

  /** The shipping methods the add flow accepts, compared exactly (no case folding, no trimming). */
  const ShippingMethods: seq<string> := [PickUp, Delivery]

  function IsValidShippingMethod(shippingMethod: string): (ok: bool)
    ensures ok <==> shippingMethod == "Pick-up" || shippingMethod == "Delivery"
  {
    shippingMethod in ShippingMethods
  }

  /** Python truthiness of an integer: every value but zero. */
  predicate Truthy(n: int) {
    n != 0
  }

  /**
    The code the add flow accepts from a line of input: the line must be
    all digits, and `product_code and is_valid_code(product_code)` then also
    turns away code 0, which is falsy although `is_valid_code(0)` holds.
   */
  function AcceptedCode(input: string): (r: Option<int>)
    ensures r.Some? <==> IsDigits(input) && 1 <= DigitsValue(input) <= 39
    ensures r.Some? ==> r.value == DigitsValue(input) && IsValidCode(r.value)
  {
    var productCode: Option<int> := if IsDigits(input) then Some(DigitsValue(input)) else None;
    if productCode.Some? && Truthy(productCode.value) && IsValidCode(productCode.value) then productCode else None
  }

  /** The quantity the add flow accepts: `quantity.isdigit() and is_valid_quantity(int(quantity))`. */
  function AcceptedQuantity(input: string): (r: Option<int>)
    ensures r.Some? <==> IsDigits(input) && 1 <= DigitsValue(input) <= 49
    ensures r.Some? ==> r.value == DigitsValue(input)
  {
    if IsDigits(input) && IsValidQuantity(DigitsValue(input)) then Some(DigitsValue(input)) else None
  }

  /** Code 0 passes `is_valid_code` but the add flow still turns it away. */
  lemma CodeZeroRejected()
    ensures IsValidCode(0)
    ensures AcceptedCode("0") == None
  {
    assert DigitsValue("0") == DigitsValue("0"[..0]) * 10 + 0;
  }
}
