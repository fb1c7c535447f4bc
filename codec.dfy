/**
  The slash-delimited record format. A catalog entry is `code/name/price`;
  a cart record is `code/name/value/price/quantity/shipping_method`. Both are
  written by `create_record_string` and read back by `split_product` and
  `split_record`, which report failure (`None`) on a missing field or a bad
  number and ignore any fields past the ones they read.
 */
module Codec {
  import opened Wrappers
  import opened Text
  import opened Numbers

  const Separator: char := '/'

  /** A character that may appear inside a field: anything but the separator. */
  type FieldChar = c: char | c != '/' witness 'a'

  /** A decoded catalog entry: `(code, name, price)`. */
  datatype Product = Product(code: int, name: string, price: real)

  /** A decoded cart record: `(code, name, value, price, quantity, shipping_method)`. */
  datatype Record = Record(code: int, name: string, value: string, price: real, quantity: int, shippingMethod: string)

  predicate AllFree(fields: seq<string>) {
    forall i :: 0 <= i < |fields| ==> Free(fields[i], Separator)
  }

  /** `create_record_string`: the already rendered fields joined by `/`; splitting gives them back when none holds a `/`. */
  function CreateRecordString(fields: seq<string>): (s: string)
    ensures |fields| >= 1 && AllFree(fields) ==> Split(s, Separator) == fields
  {
    var s := Join(fields, Separator);
    if |fields| >= 1 && AllFree(fields) then
      SplitJoin(fields, Separator);
      s
    else s
  }

  /** `split_product`: fields 0 and 2 must parse as an integer and a float; fields past the third are ignored. */
  function SplitProduct(s: string): Option<Product> {
    var parts := Split(s, Separator);
    if |parts| < 3 then None
    else
      match (ParseInt(parts[0]), ParseFloat(parts[2]))
      case (Some(code), Some(price)) => Some(Product(code, parts[1], price))
      case _ => None
  }

  /** `split_record`: fields 0, 3 and 4 must parse as integer, float and integer; fields past the sixth are ignored. */
  function SplitRecord(s: string): Option<Record> {
    var parts := Split(s, Separator);
    if |parts| < 6 then None
    else
      match (ParseInt(parts[0]), ParseFloat(parts[3]), ParseInt(parts[4]))
      case (Some(code), Some(price), Some(quantity)) =>
        Some(Record(code, parts[1], parts[2], price, quantity, parts[5]))
      case _ => None
  }

  /** The six fields rendered the way `create_record_string` renders them with `str`. */
  function RecordFields(r: Record): seq<string>
    requires IsCents(r.price)
  {
    [IntText(r.code), r.name, r.value, FloatText(r.price), IntText(r.quantity), r.shippingMethod]
  }

  /** Text fields safe to store: none holds the separator. */
  predicate TextFieldsFree(r: Record) {
    Free(r.name, Separator) && Free(r.value, Separator) && Free(r.shippingMethod, Separator)
  }

  /** Numerals never hold the separator. */
  lemma NumeralFree(s: string)
    requires IsNumeral(s)
    ensures Free(s, Separator)
  {
    assert forall i :: 0 <= i < |s| ==> s[i] != Separator;
  }

  /** A string of field characters never holds the separator. */
  lemma FieldFree(s: seq<FieldChar>)
    ensures Free(s, Separator)
  {
  }

  /** Six separator-free fields. */
  lemma SixFree(a: string, b: string, c: string, d: string, e: string, f: string)
    requires Free(a, Separator) && Free(b, Separator) && Free(c, Separator)
    requires Free(d, Separator) && Free(e, Separator) && Free(f, Separator)
    ensures AllFree([a, b, c, d, e, f])
  {
  }

  /** The text fields of a decoded record hold no separator, so the record can be stored again unchanged. */
  lemma DecodedFieldsFree(s: string)
    requires SplitRecord(s).Some?
    ensures TextFieldsFree(SplitRecord(s).value)
  {
    var parts := Split(s, Separator);
    SplitPiecesFree(s, Separator);
    assert Free(parts[1], Separator) && Free(parts[2], Separator) && Free(parts[5], Separator);
  }

  /** Splitting at a separator splits the two sides independently. */
  lemma {:induction false} SplitAtSeparator(a: string, b: string)
    ensures Split(a + [Separator] + b, Separator) == Split(a, Separator) + Split(b, Separator)
  {
    var s := a + [Separator] + b;
    if a == [] {
      assert s == [Separator] + b && s[1..] == b;
    } else {
      assert s[0] == a[0] && s[1..] == a[1..] + [Separator] + b;
      SplitAtSeparator(a[1..], b);
      if a[0] != Separator {
        var r := Split(a[1..], Separator);
        assert (r + Split(b, Separator))[1..] == r[1..] + Split(b, Separator);
      }
    }
  }

  /** Decoding joined fields: it succeeds exactly when fields 0, 3 and 4 are numbers, and only the first six fields matter. */
  lemma DecodeJoinedFields(fields: seq<string>)
    requires |fields| >= 6 && AllFree(fields)
    ensures SplitRecord(CreateRecordString(fields)) ==
      if ParseInt(fields[0]).Some? && ParseFloat(fields[3]).Some? && ParseInt(fields[4]).Some? then
        Some(Record(ParseInt(fields[0]).value, fields[1], fields[2], ParseFloat(fields[3]).value,
                    ParseInt(fields[4]).value, fields[5]))
      else None
  {
  }

  /** Round trip: a record whose text fields hold no `/` decodes to itself. */
  lemma RecordRoundTrip(r: Record)
    requires IsCents(r.price) && TextFieldsFree(r)
    ensures SplitRecord(CreateRecordString(RecordFields(r))) == Some(r)
  {
    var code, price, quantity := IntText(r.code), FloatText(r.price), IntText(r.quantity);
    NumeralFree(code);
    NumeralFree(price);
    NumeralFree(quantity);
    var fields := [code, r.name, r.value, price, quantity, r.shippingMethod];
    assert fields == RecordFields(r);
    SixFree(code, r.name, r.value, price, quantity, r.shippingMethod);
    DecodeJoinedFields(fields);
    assert ParseInt(fields[0]) == Some(r.code) && ParseFloat(fields[3]) == Some(r.price) && ParseInt(fields[4]) == Some(r.quantity);
  }

  /** A string with fewer than five separators has fewer than six fields and never decodes. */
  lemma TooFewFields(s: string)
    requires Count(s, Separator) < 5
    ensures SplitRecord(s) == None
  {
    SplitLength(s, Separator);
  }

  /** Anything appended after a sixth field is ignored. */
  lemma ExtraFieldsIgnored(s: string, extra: string)
    requires Count(s, Separator) >= 5
    ensures SplitRecord(s + [Separator] + extra) == SplitRecord(s)
  {
    SplitLength(s, Separator);
    SplitAtSeparator(s, extra);
    var p := Split(s, Separator);
    var q := Split(s + [Separator] + extra, Separator);
    assert q[0] == p[0] && q[1] == p[1] && q[2] == p[2] && q[3] == p[3] && q[4] == p[4] && q[5] == p[5];
  }

  /** Decoding a catalog entry written as `code/name/price` with a `/`-free name. */
  lemma DecodeProductText(code: int, name: string, priceText: string, price: real)
    requires Free(name, Separator) && IsNumeral(priceText)
    requires ParseFloat(priceText) == Some(price)
    ensures SplitProduct(CreateRecordString([IntText(code), name, priceText])) == Some(Product(code, name, price))
  {
    var fields := [IntText(code), name, priceText];
    NumeralFree(IntText(code));
    NumeralFree(priceText);
    assert AllFree(fields);
  }

  /** Every stored record decodes; `total_cost` and `search_record` unpack each one and would fail otherwise. */
  predicate Decodable(store: seq<string>) {
    forall i :: 0 <= i < |store| ==> SplitRecord(store[i]).Some?
  }

  /** Every prefix of a decodable store is decodable. */
  lemma DecodablePrefix(store: seq<string>, n: nat)
    requires Decodable(store) && n <= |store|
    ensures Decodable(store[..n])
  {
    forall i | 0 <= i < n ensures SplitRecord(store[..n][i]).Some? {
      assert store[..n][i] == store[i];
    }
  }

  /** The records a store decodes to, in store order. */
  function DecodeAll(store: seq<string>): (records: seq<Record>)
    requires Decodable(store)
    ensures |records| == |store|
  {
    if store == [] then []
    else
      DecodablePrefix(store, |store| - 1);
      DecodeAll(store[..|store| - 1]) + [SplitRecord(store[|store| - 1]).value]
  }

  /** Each decoded record is what its own line decodes to. */
  lemma {:induction false} DecodeAllAt(store: seq<string>, i: int)
    requires Decodable(store) && 0 <= i < |store|
    ensures SplitRecord(store[i]) == Some(DecodeAll(store)[i])
  {
    var prefix := store[..|store| - 1];
    DecodablePrefix(store, |prefix|);
    assert DecodeAll(store) == DecodeAll(prefix) + [SplitRecord(store[|prefix|]).value];
    if i < |prefix| {
      DecodeAllAt(prefix, i);
      assert prefix[i] == store[i];
    }
  }

  /** Decoding one more record of a store appends that record. */
  lemma DecodeAllPrefix(store: seq<string>, i: int)
    requires Decodable(store) && 0 <= i < |store|
    ensures Decodable(store[..i]) && Decodable(store[..i + 1])
    ensures DecodeAll(store[..i + 1]) == DecodeAll(store[..i]) + [SplitRecord(store[i]).value]
  {
    DecodablePrefix(store, i);
    DecodablePrefix(store, i + 1);
    assert store[..i + 1][..i] == store[..i];
  }
}
