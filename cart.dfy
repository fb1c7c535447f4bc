/**
  The shopping record list and the add flow that appends to it. One call of
  `AddRecord` is one round of `add_record` with the lines the user typed at
  its three prompts: "END" finishes with the total; otherwise the code must
  be accepted, the product is looked up in the catalog and given its tier,
  the quantity and shipping method must be accepted, and the encoded record
  is appended.
 */
module Cart {
  import opened Wrappers
  import opened Text
  import opened Numbers
  import opened Codec
  import opened Catalog
  import opened Validators
  import opened Pricing

  const EndCommand: string := "END"

  /** A record as the add flow writes it: a catalog product with code 1 to 39, its own name, price and tier, an accepted quantity and shipping method. */
  predicate WellFormed(r: Record) {
    && 1 <= r.code < |Items|
    && r.name == Items[r.code].name
    && r.price == CatalogProduct(r.code).price
    && r.value == Tier(r.price)
    && 1 <= r.quantity <= 49
    && IsValidShippingMethod(r.shippingMethod)
  }

  /** The record the add flow builds for a catalog item under `code` and the quantity and shipping lines it accepted. */
  function NewRecord(code: int, item: Item, quantityInput: string, shippingMethod: string): Record
    requires IsDigits(quantityInput)
  {
    var price := item.cents as real / 100.0;
    Record(code, item.name, Tier(price), price, DigitsValue(quantityInput), shippingMethod)
  }

  /** An amount of whole cents over one hundred is a whole number of cents. */
  lemma CentsPriceIsCents(cents: nat)
    ensures IsCents(cents as real / 100.0)
  {
    assert (cents as real / 100.0) * 100.0 == cents as real;
  }

  /** The six fields the add flow renders: `str` of code and price, which `int` and `float` read back, and the quantity exactly as typed. */
  function NewFields(code: int, item: Item, quantityInput: string, shippingMethod: string): (fields: seq<string>)
    ensures |fields| == 6
    ensures ParseInt(fields[0]) == Some(code) && IsNumeral(fields[0])
    ensures fields[1] == item.name && fields[2] == Tier(item.cents as real / 100.0)
    ensures ParseFloat(fields[3]) == Some(item.cents as real / 100.0) && IsNumeral(fields[3])
    ensures fields[4] == quantityInput && fields[5] == shippingMethod
  {
    var price := item.cents as real / 100.0;
    CentsPriceIsCents(item.cents);
    var codeText, priceText := IntText(code), FloatText(price);
    var fields := [codeText, item.name, Tier(price), priceText, quantityInput, shippingMethod];
    assert fields[0] == codeText && fields[3] == priceText;
    fields
  }

  /** Digits read back with `int` give their value. */
  lemma DigitsParse(s: string)
    requires IsDigits(s)
    ensures ParseInt(s) == Some(DigitsValue(s)) && IsNumeral(s)
  {
  }

  /** Neither tier name holds the separator. */
  lemma TierFree(price: real)
    ensures Free(Tier(price), Separator)
  {
    assert forall i :: 0 <= i < |High| ==> High[i] != Separator;
    assert forall i :: 0 <= i < |Low| ==> Low[i] != Separator;
  }

  /** Neither shipping method holds the separator. */
  lemma ShippingFree(shippingMethod: string)
    requires IsValidShippingMethod(shippingMethod)
    ensures Free(shippingMethod, Separator)
  {
    assert forall i :: 0 <= i < |PickUp| ==> PickUp[i] != Separator;
    assert forall i :: 0 <= i < |Delivery| ==> Delivery[i] != Separator;
  }

  /** The fields of a new record hold no separator. */
  lemma NewFieldsFree(code: int, item: Item, quantityInput: string, shippingMethod: string)
    requires IsDigits(quantityInput) && IsValidShippingMethod(shippingMethod)
    ensures AllFree(NewFields(code, item, quantityInput, shippingMethod))
  {
    var fields := NewFields(code, item, quantityInput, shippingMethod);
    NumeralFree(fields[0]);
    FieldFree(item.name);
    TierFree(item.cents as real / 100.0);
    NumeralFree(fields[3]);
    DigitsParse(quantityInput);
    NumeralFree(quantityInput);
    ShippingFree(shippingMethod);
    SixFree(fields[0], fields[1], fields[2], fields[3], fields[4], fields[5]);
    assert fields == [fields[0], fields[1], fields[2], fields[3], fields[4], fields[5]];
  }

  /** The text appended for accepted inputs decodes to the new record. */
  lemma NewRecordDecodes(code: int, item: Item, quantityInput: string, shippingMethod: string)
    requires IsDigits(quantityInput) && IsValidShippingMethod(shippingMethod)
    ensures SplitRecord(CreateRecordString(NewFields(code, item, quantityInput, shippingMethod))) ==
      Some(NewRecord(code, item, quantityInput, shippingMethod))
  {
    var fields := NewFields(code, item, quantityInput, shippingMethod);
    NewFieldsFree(code, item, quantityInput, shippingMethod);
    DecodeJoinedFields(fields);
    DigitsParse(quantityInput);
  }

  /** A new record for a catalog code from 1 to 39 and accepted quantity and method is well formed. */
  lemma NewRecordWellFormed(code: int, quantityInput: string, shippingMethod: string)
    requires 1 <= code < |Items|
    requires IsDigits(quantityInput) && 1 <= DigitsValue(quantityInput) <= 49
    requires IsValidShippingMethod(shippingMethod)
    ensures WellFormed(NewRecord(code, Items[code], quantityInput, shippingMethod))
  {
  }

  /** Every stored line decodes to a well-formed record. */
  ghost predicate ValidStore(store: seq<string>) {
    Decodable(store) && forall i :: 0 <= i < |store| ==> WellFormed(SplitRecord(store[i]).value)
  }

  /** Appending a line that decodes to a well-formed record keeps a store valid. */
  lemma AppendKeepsValid(store: seq<string>, text: string)
    requires ValidStore(store)
    requires SplitRecord(text).Some? && WellFormed(SplitRecord(text).value)
    ensures ValidStore(store + [text])
  {
    var store' := store + [text];
    assert forall i :: 0 <= i < |store| ==> store'[i] == store[i];
    assert store'[|store|] == text;
  }

  /** What one round of the add flow ends in. */
  datatype AddOutcome =
    | Finished(total: real)
    | RejectedCode
    | RejectedQuantity
    | RejectedShipping
    | Added(record: Record)

  /** The session's `shopping_record_list`. */
  class ShoppingCart {
    var records: seq<string>

    ghost predicate Valid()
      reads this
    {
      ValidStore(records)
    }

    constructor ()
      ensures records == [] && Valid()
    {
      records := [];
    }

    /**
      One round of `add_record`. "END" leaves the list alone and reports
      `total_cost` of it; a code line that is not digits for 1 to 39 (0 is
      falsy and is turned away), a quantity line that is not digits for 1 to
      49, or a shipping line other than "Pick-up" or "Delivery" is rejected
      and changes nothing; otherwise the encoded record is appended.
     */
    method AddRecord(codeInput: string, quantityInput: string, shippingInput: string) returns (outcome: AddOutcome)
      requires Valid()
      modifies this
      ensures Valid()
      ensures codeInput == EndCommand ==>
        outcome == Finished(Total(DecodeAll(records))) && records == old(records)
      ensures codeInput != EndCommand && AcceptedCode(codeInput).None? ==>
        outcome == RejectedCode && records == old(records)
      ensures codeInput != EndCommand && AcceptedCode(codeInput).Some? && AcceptedQuantity(quantityInput).None? ==>
        outcome == RejectedQuantity && records == old(records)
      ensures (codeInput != EndCommand && AcceptedCode(codeInput).Some? && AcceptedQuantity(quantityInput).Some? &&
               !IsValidShippingMethod(shippingInput)) ==>
        outcome == RejectedShipping && records == old(records)
      ensures (codeInput != EndCommand && AcceptedCode(codeInput).Some? && AcceptedQuantity(quantityInput).Some? &&
               IsValidShippingMethod(shippingInput)) ==>
        var code := AcceptedCode(codeInput).value;
        var item := Items[code];
        outcome == Added(NewRecord(code, item, quantityInput, shippingInput)) &&
        records == old(records) + [CreateRecordString(NewFields(code, item, quantityInput, shippingInput))]
    {
      if codeInput == EndCommand {
        var total := TotalCost(records);
        return Finished(total);
      }
      var productCode := AcceptedCode(codeInput);
      if productCode.None? {
        return RejectedCode;
      }
      var code := productCode.value;
      var productName, unitPrice, value := FindProduct(code);
      var quantity := AcceptedQuantity(quantityInput);
      if quantity.None? {
        return RejectedQuantity;
      }
      if !IsValidShippingMethod(shippingInput) {
        return RejectedShipping;
      }
      CatalogShape();
      var item := Items[code];
      assert productName == item.name && unitPrice == item.cents as real / 100.0 && value == Tier(unitPrice);
      CentsPriceIsCents(item.cents);
      var fields := [IntText(code), productName, value, FloatText(unitPrice), quantityInput, shippingInput];
      assert fields == NewFields(code, item, quantityInput, shippingInput);
      var text := CreateRecordString(fields);
      NewRecordDecodes(code, item, quantityInput, shippingInput);
      NewRecordWellFormed(code, quantityInput, shippingInput);
      AppendKeepsValid(records, text);
      records := records + [text];
      outcome := Added(NewRecord(code, item, quantityInput, shippingInput));
    }
  }
}
