/**
  The fixed product catalog `price_list`, the lookup the add flow runs over
  it, and the value tier derived from a unit price.
 */
module Catalog {
  import opened Wrappers
  import opened Numbers
  import opened Codec

  /** One catalog entry: its name, which cannot hold the separator, and its price in whole cents. Its code is its index. */
  datatype Item = Item(name: seq<FieldChar>, cents: nat)

  /** The catalog in source order (codes 0 to 39), declared in blocks of five entries. */
  const Items: seq<Item> :=
    Items0to4 + Items5to9 + Items10to14 + Items15to19 +
    Items20to24 + Items25to29 + Items30to34 + Items35to39

  const Items0to4: seq<Item> := [
    Item("Salad Server Set", 1870),
    Item("Party Serviette Holder", 1195),
    Item("Tea Set", 3995),
    Item("Mixing Bowl Set", 4995),
    Item("Knife Block Set", 9995)
  ]

  const Items5to9: seq<Item> := [
    Item("Coffee Capsule Holder", 2995),
    Item("Plastic Sensor Soap Pump", 7995),
    Item("Storage Bucket", 2495),
    Item("Oven Glove", 995),
    Item("Apron", 2995)
  ]

  const Items10to14: seq<Item> := [
    Item("Biscuit Barrel", 1995),
    Item("Chopping Board", 1295),
    Item("Carioca Cups", 5495),
    Item("Soup Bowls", 4300),
    Item("Elevate Wood Turner", 1995)
  ]

  const Items15to19: seq<Item> := [
    Item("Pasta Machine", 11495),
    Item("Teapot", 2995),
    Item("Cake Pop Scoop", 995),
    Item("Cookbook Stand", 3495),
    Item("Chocolate Station", 3495)
  ]

  const Items20to24: seq<Item> := [
    Item("Coffee Maker", 2900),
    Item("Pepper Mill", 8494),
    Item("Salt Mill", 8495),
    Item("Glass Storage Jar", 495),
    Item("Measuring Jug", 1995)
  ]

  const Items25to29: seq<Item> := [
    Item("Kitchen Scale", 3995),
    Item("Tenderiser", 3495),
    Item("Pizza Docker", 1995),
    Item("Knife Sharpener", 7995),
    Item("Steel Cork Opener", 3695)
  ]

  const Items30to34: seq<Item> := [
    Item("Steel Garlic Press", 3495),
    Item("Steel Can Opener", 3695),
    Item("Stainless Steel Crank Flour Sifter", 3395),
    Item("Mineral Stone Mortar and Pestle", 7495),
    Item("Citrus Catcher", 1995)
  ]

  const Items35to39: seq<Item> := [
    Item("Cherry & Olive Pitter", 2795),
    Item("Multi Grater-Detachable", 2695),
    Item("Stainless Steel Colander", 4495),
    Item("Steel Pizza Pan", 1295),
    Item("Pop Container", 2295)
  ]

  /** A catalog entry as `price_list` writes it: `code/name/price` with two decimals, e.g. "0/Salad Server Set/18.70". */
  function EntryText(code: nat, item: Item): string {
    CreateRecordString([IntText(code), item.name, TwoDecimalText(item.cents)])
  }

  /** `price_list`: the entries' texts, in catalog order. */
  const PriceList: seq<string> := seq(|Items|, i requires 0 <= i < |Items| => EntryText(i, Items[i]))

  /** The product `split_product` yields for the entry at index `i`. */
  function CatalogProduct(i: int): Product
    requires 0 <= i < |Items|
  {
    Product(i, Items[i].name, Items[i].cents as real / 100.0)
  }

  /** Forty entries, each with a positive price. */
  lemma CatalogShape()
    ensures |Items| == 40 && |PriceList| == 40
    ensures forall i :: 0 <= i < |Items| ==> Items[i].cents > 0
  {
  }

  /** An entry written by `EntryText` decodes to its own code, name and price. */
  lemma EntryDecodes(code: nat, item: Item)
    ensures SplitProduct(EntryText(code, item)) == Some(Product(code, item.name, item.cents as real / 100.0))
  {
    FieldFree(item.name);
    DecodeProductText(code, item.name, TwoDecimalText(item.cents), item.cents as real / 100.0);
  }

  /** Every `price_list` entry decodes to the product at its index: its code equals that index. */
  lemma PriceListDecodes(i: int)
    requires 0 <= i < |PriceList|
    ensures SplitProduct(PriceList[i]) == Some(CatalogProduct(i))
  {
    var item := Items[i];
    PriceListAt(i);
    assert PriceList[i] == EntryText(i, item);
    assert CatalogProduct(i) == Product(i, item.name, item.cents as real / 100.0);
    EntryDecodes(i, item);
  }

  lemma PriceListAt(i: int)
    requires 0 <= i < |PriceList|
    ensures PriceList[i] == EntryText(i, Items[i])
  {
  }

  /** The entry decodes and carries the wanted code: `product_data and product_data[0] == product_code`. */
  predicate HasCode(entry: string, code: int) {
    SplitProduct(entry).Some? && SplitProduct(entry).value.code == code
  }

  /** The linear scan of the add flow: the first entry that decodes with the wanted code; entries that fail to decode are skipped. */
  function Lookup(entries: seq<string>, code: int): (r: Option<Product>)
    ensures r.Some? ==> r.value.code == code && exists i :: 0 <= i < |entries| && SplitProduct(entries[i]) == r
    ensures r.None? <==> forall i :: 0 <= i < |entries| ==> !HasCode(entries[i], code)
  {
    if entries == [] then None
    else if HasCode(entries[0], code) then
      SplitProduct(entries[0])
    else
      var r := Lookup(entries[1..], code);
      assert forall i :: 1 <= i < |entries| ==> entries[i] == entries[1..][i - 1];
      r
  }

  /** Lookup returns the first matching entry, whatever follows it. */
  lemma {:induction false} LookupFirst(entries: seq<string>, code: int, i: int)
    requires 0 <= i < |entries| && HasCode(entries[i], code)
    requires forall j :: 0 <= j < i ==> !HasCode(entries[j], code)
    ensures Lookup(entries, code) == SplitProduct(entries[i])
  {
    if i > 0 {
      assert entries[1..][i - 1] == entries[i];
      LookupFirst(entries[1..], code, i - 1);
    }
  }

  /** Over the catalog, lookup finds exactly the codes 0 to 39, each at its own index. */
  lemma CatalogLookup(code: int)
    ensures Lookup(PriceList, code) == if 0 <= code < |Items| then Some(CatalogProduct(code)) else None
  {
    CatalogShape();
    forall j | 0 <= j < |PriceList| ensures SplitProduct(PriceList[j]) == Some(CatalogProduct(j)) && CatalogProduct(j).code == j {
      PriceListDecodes(j);
    }
    if 0 <= code < |Items| {
      LookupFirst(PriceList, code, code);
    }
  }

  const High: string := "High"
  const Low: string := "Low"

  /** The value tier: "High" from a unit price of 30.00 up, "Low" below. */
  function Tier(unitPrice: real): (value: string)
    ensures value == High <==> unitPrice >= 30.0
    ensures value == High || value == Low
  {
    if unitPrice >= 30.00 then High else Low
  }

  /** The tier of a catalog product is "High" exactly when its price is at least 3000 cents. */
  lemma CatalogTier(i: int)
    requires 0 <= i < |Items|
    ensures Tier(CatalogProduct(i).price) == High <==> Items[i].cents >= 3000
  {
  }

  /**
    The catalog scan of `add_record`: walk `price_list` in order, stop at the
    first entry that decodes with the wanted code and take its name, price and
    tier; with no such entry the defaults `""`, `0.0` and `""` remain.
   */
  method FindProduct(code: int) returns (name: string, unitPrice: real, value: string)
    ensures 0 <= code < |Items| ==>
      name == CatalogProduct(code).name && unitPrice == CatalogProduct(code).price && value == Tier(unitPrice)
    ensures !(0 <= code < |Items|) ==> name == "" && unitPrice == 0.0 && value == ""
  {
    name, unitPrice, value := "", 0.0, "";
    var i := 0;
    while i < |PriceList|
      invariant 0 <= i <= |PriceList|
      invariant Lookup(PriceList[i..], code) == Lookup(PriceList, code)
      invariant name == "" && unitPrice == 0.0 && value == ""
    {
      var productData := SplitProduct(PriceList[i]);
      if productData.Some? && productData.value.code == code {
        name, unitPrice := productData.value.name, productData.value.price;
        value := Tier(unitPrice);
        break;
      }
      assert PriceList[i..][1..] == PriceList[i + 1..];
      i := i + 1;
    }
    assert match Lookup(PriceList, code)
      case Some(p) => name == p.name && unitPrice == p.price && value == Tier(p.price)
      case None => name == "" && unitPrice == 0.0 && value == "";
    CatalogLookup(code);
  }
}
