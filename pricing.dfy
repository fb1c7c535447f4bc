/**
  The pricing rule of `total_cost` and `search_record`: a line costs unit
  price times quantity; delivery adds 10%, and delivery of a "High" value
  item adds a further $2 per unit; pick-up adds nothing. Amounts are exact
  reals, so the rule holds without floating-point rounding.
 */
module Pricing {
  import opened Codec
  import opened Catalog
  import opened Validators

  /** The cost of one record line. */
  function LineCost(unitPrice: real, quantity: int, value: string, shippingMethod: string): real {
    var productCost := unitPrice * quantity as real;
    if shippingMethod == Delivery then
      var withDelivery := productCost * 1.10;
      if value == High then withDelivery + 2.0 * quantity as real else withDelivery
    else productCost
  }

  function RecordCost(r: Record): real {
    LineCost(r.price, r.quantity, r.value, r.shippingMethod)
  }

  /** Pick-up, and any method other than "Delivery", costs exactly price times quantity. */
  lemma PickUpCost(unitPrice: real, quantity: int, value: string, shippingMethod: string)
    requires shippingMethod != Delivery
    ensures LineCost(unitPrice, quantity, value, shippingMethod) == unitPrice * quantity as real
  {
  }

  /** Delivery of a "Low" (or any non-"High") item costs price times quantity plus 10%. */
  lemma DeliveryLowCost(unitPrice: real, quantity: int, value: string)
    requires value != High
    ensures LineCost(unitPrice, quantity, value, Delivery) == unitPrice * quantity as real * 1.10
  {
  }

  /** Delivery of a "High" item costs price times quantity plus 10%, plus $2 per unit. */
  lemma DeliveryHighCost(unitPrice: real, quantity: int)
    ensures LineCost(unitPrice, quantity, High, Delivery) == unitPrice * quantity as real * 1.10 + 2.0 * quantity as real
  {
  }

  /** Surcharges only ever add: a line never costs less than price times quantity, and never less than zero. */
  lemma LineCostAtLeastBase(unitPrice: real, quantity: int, value: string, shippingMethod: string)
    requires unitPrice >= 0.0 && quantity >= 0
    ensures LineCost(unitPrice, quantity, value, shippingMethod) >= unitPrice * quantity as real >= 0.0
  {
    assert unitPrice * quantity as real >= 0.0;
  }

  /** The sum of the line costs, in list order; 0 for no records. */
  function Total(records: seq<Record>): real {
    if records == [] then 0.0
    else Total(records[..|records| - 1]) + RecordCost(records[|records| - 1])
  }

  /** The total is additive over concatenation. */
  lemma {:induction false} TotalAppend(a: seq<Record>, b: seq<Record>)
    ensures Total(a + b) == Total(a) + Total(b)
    decreases |b|
  {
    if b != [] {
      var b' := b[..|b| - 1];
      assert (a + b)[..|a + b| - 1] == a + b';
      TotalAppend(a, b');
    } else {
      assert a + b == a;
    }
  }

  /** With non-negative prices and quantities the total is never negative. */
  lemma {:induction false} TotalNonNegative(records: seq<Record>)
    requires forall i :: 0 <= i < |records| ==> records[i].price >= 0.0 && records[i].quantity >= 0
    ensures Total(records) >= 0.0
  {
    if records != [] {
      var last := records[|records| - 1];
      TotalNonNegative(records[..|records| - 1]);
      LineCostAtLeastBase(last.price, last.quantity, last.value, last.shippingMethod);
    }
  }

  /** `total_cost`: decode each stored record and accumulate its line cost; the printed total is that sum. */
  method TotalCost(recordList: seq<string>) returns (total: real)
    requires Decodable(recordList)
    ensures total == Total(DecodeAll(recordList))
  {
    total := 0.0;
    for i := 0 to |recordList|
      invariant total == Total(DecodeAll(recordList[..i]))
    {
      var record := SplitRecord(recordList[i]).value;
      var productCost := LineCost(record.price, record.quantity, record.value, record.shippingMethod);
      DecodeAllPrefix(recordList, i);
      TotalAppend(DecodeAll(recordList[..i]), [record]);
      total := total + productCost;
    }
    assert recordList[..|recordList|] == recordList;
  }

  /** Knife Block Set (code 4, $99.95, High), two units: delivery $223.89, pick-up $199.90. */
  lemma KnifeBlockExample()
    ensures Tier(CatalogProduct(4).price) == High
    ensures LineCost(CatalogProduct(4).price, 2, High, Delivery) == 223.89
    ensures LineCost(CatalogProduct(4).price, 2, High, PickUp) == 199.90
  {
  }

  /** Salad Server Set (code 0, $18.70, Low), three units delivered: $61.71, no per-unit surcharge. */
  lemma SaladServerExample()
    ensures Tier(CatalogProduct(0).price) == Low
    ensures LineCost(CatalogProduct(0).price, 3, Low, Delivery) == 61.71
  {
  }
}
