/**
  `search_record`: a keyword search over the stored records. The keyword is
  stripped and must not be blank; a record matches when the lower-cased
  keyword occurs in its lower-cased name. Matches are grouped by code in a
  dict that remembers the order in which codes were first met: a code's row
  takes name, value and unit price from its first matching record and sums
  quantity and line cost over all of them. The total shown afterwards is the
  cost of the first row alone.
 */
module Search {
  import opened Text
  import opened Codec
  import opened Pricing

  /** One aggregated row: the dict entry `search_results[code]` together with its key. */
  datatype Row = Row(code: int, name: string, value: string, unitPrice: real, quantity: int, totalCost: real)

  /** The dict `search_results`: its entries, and its keys in insertion order. */
  datatype Groups = Groups(order: seq<int>, rows: map<int, Row>)

  /** The keys in insertion order are exactly the dict's keys, each once, and each row carries its key. */
  ghost predicate Consistent(g: Groups) {
    && (forall i :: 0 <= i < |g.order| ==> g.order[i] in g.rows && g.rows[g.order[i]].code == g.order[i])
    && (forall code :: code in g.rows ==> code in g.order)
    && (forall i, j :: 0 <= i < j < |g.order| ==> g.order[i] != g.order[j])
  }

  /** `user_input.lower() in product_name.lower()`. */
  predicate Matches(keyword: string, r: Record) {
    IsSubstring(Lower(keyword), Lower(r.name))
  }

  /** One matching record folded into the dict: a code met for the first time gets a seeded row at the end; then its quantity and line cost are added. */
  function AddMatch(g: Groups, r: Record): Groups {
    var isNew := r.code !in g.rows;
    var seeded := if isNew then Row(r.code, r.name, r.value, r.price, 0, 0.0) else g.rows[r.code];
    Groups(if isNew then g.order + [r.code] else g.order,
           g.rows[r.code := seeded.(quantity := seeded.quantity + r.quantity, totalCost := seeded.totalCost + RecordCost(r))])
  }

  /** The dict after the loop has seen `records` in order. */
  function Aggregate(records: seq<Record>, keyword: string): (g: Groups)
    ensures Consistent(g)
  {
    if records == [] then Groups([], map[])
    else
      var g := Aggregate(records[..|records| - 1], keyword);
      var last := records[|records| - 1];
      if Matches(keyword, last) then AddMatch(g, last) else g
  }

  /** Folding in one more record. */
  lemma AggregateSnoc(records: seq<Record>, r: Record, keyword: string)
    ensures Aggregate(records + [r], keyword) ==
      if Matches(keyword, r) then AddMatch(Aggregate(records, keyword), r) else Aggregate(records, keyword)
  {
    assert (records + [r])[..|records|] == records;
  }

  // ----- An independent description of the result: filter, then sum per code -----

  predicate MatchesCode(keyword: string, r: Record, code: int) {
    Matches(keyword, r) && r.code == code
  }

  /** Position of the first record that matches and has `code`, or `|records|` when there is none. */
  function FirstIndex(records: seq<Record>, keyword: string, code: int): (k: nat)
    ensures k <= |records|
    ensures k < |records| ==> MatchesCode(keyword, records[k], code)
    ensures forall i :: 0 <= i < k ==> !MatchesCode(keyword, records[i], code)
  {
    if records == [] then 0
    else
      var prefix := records[..|records| - 1];
      var k := FirstIndex(prefix, keyword, code);
      assert forall i :: 0 <= i < |prefix| ==> prefix[i] == records[i];
      if k < |prefix| then k
      else if MatchesCode(keyword, records[|records| - 1], code) then |prefix|
      else |records|
  }

  /** The matching records with `code`, in store order. */
  function Selected(records: seq<Record>, keyword: string, code: int): (s: seq<Record>)
    ensures forall i :: 0 <= i < |s| ==> MatchesCode(keyword, s[i], code)
  {
    if records == [] then []
    else
      var last := records[|records| - 1];
      Selected(records[..|records| - 1], keyword, code) + (if MatchesCode(keyword, last, code) then [last] else [])
  }

  function SumQuantity(records: seq<Record>): int {
    if records == [] then 0 else SumQuantity(records[..|records| - 1]) + records[|records| - 1].quantity
  }

  /** The row a code should get: fields of its first match, quantity and cost summed over all its matches. */
  function ExpectedRow(records: seq<Record>, keyword: string, code: int): Row
    requires FirstIndex(records, keyword, code) < |records|
  {
    var first := records[FirstIndex(records, keyword, code)];
    var selected := Selected(records, keyword, code);
    Row(code, first.name, first.value, first.price, SumQuantity(selected), Total(selected))
  }

  /** Exactly the codes of matching records are keys. */
  ghost predicate KeysDescribed(g: Groups, records: seq<Record>, keyword: string) {
    forall code :: code in g.rows <==> FirstIndex(records, keyword, code) < |records|
  }

  /** Each key holds its expected row. */
  ghost predicate RowsDescribed(g: Groups, records: seq<Record>, keyword: string)
    requires KeysDescribed(g, records, keyword)
  {
    forall code :: code in g.rows ==> g.rows[code] == ExpectedRow(records, keyword, code)
  }

  /** Keys are in the order of their first matches. */
  ghost predicate OrderDescribed(g: Groups, records: seq<Record>, keyword: string) {
    forall i, j :: 0 <= i < j < |g.order| ==>
      FirstIndex(records, keyword, g.order[i]) < FirstIndex(records, keyword, g.order[j])
  }

  /** `g` is the grouping of `records`: one row per matching code, the expected row for it, codes in first-encounter order. */
  ghost predicate Describes(g: Groups, records: seq<Record>, keyword: string) {
    KeysDescribed(g, records, keyword) && RowsDescribed(g, records, keyword) && OrderDescribed(g, records, keyword)
  }

  /** The first match of a code after one more record is seen. */
  lemma FirstIndexSnoc(prefix: seq<Record>, r: Record, keyword: string, code: int)
    ensures FirstIndex(prefix + [r], keyword, code) ==
      if FirstIndex(prefix, keyword, code) < |prefix| then FirstIndex(prefix, keyword, code)
      else if MatchesCode(keyword, r, code) then |prefix|
      else |prefix| + 1
  {
    assert (prefix + [r])[..|prefix|] == prefix;
  }

  /** The selection of a code after one more record is seen. */
  lemma SelectedSnoc(prefix: seq<Record>, r: Record, keyword: string, code: int)
    ensures Selected(prefix + [r], keyword, code) ==
      Selected(prefix, keyword, code) + if MatchesCode(keyword, r, code) then [r] else []
  {
    assert (prefix + [r])[..|prefix|] == prefix;
  }

  lemma TotalSnoc(records: seq<Record>, r: Record)
    ensures Total(records + [r]) == Total(records) + RecordCost(r)
  {
    assert (records + [r])[..|records|] == records;
  }

  lemma SumQuantitySnoc(records: seq<Record>, r: Record)
    ensures SumQuantity(records + [r]) == SumQuantity(records) + r.quantity
  {
    assert (records + [r])[..|records|] == records;
  }

  /** A record that does not match `code` leaves the code's expected row as it was. */
  lemma ExpectedRowSkip(prefix: seq<Record>, r: Record, keyword: string, code: int)
    requires FirstIndex(prefix + [r], keyword, code) < |prefix| + 1
    requires !MatchesCode(keyword, r, code)
    ensures FirstIndex(prefix, keyword, code) < |prefix|
    ensures ExpectedRow(prefix + [r], keyword, code) == ExpectedRow(prefix, keyword, code)
  {
    var k := FirstIndex(prefix, keyword, code);
    FirstIndexSnoc(prefix, r, keyword, code);
    assert k < |prefix|;
    SelectedSnoc(prefix, r, keyword, code);
    var sel := Selected(prefix, keyword, code);
    assert Selected(prefix + [r], keyword, code) == sel by {
      assert sel + [] == sel;
    }
    assert (prefix + [r])[k] == prefix[k];
  }

  /** A further match of a code already met adds its quantity and line cost to the code's row. */
  lemma ExpectedRowGrow(prefix: seq<Record>, r: Record, keyword: string, code: int)
    requires MatchesCode(keyword, r, code)
    requires FirstIndex(prefix, keyword, code) < |prefix|
    ensures FirstIndex(prefix + [r], keyword, code) < |prefix| + 1
    ensures var row := ExpectedRow(prefix, keyword, code);
      ExpectedRow(prefix + [r], keyword, code) ==
        row.(quantity := row.quantity + r.quantity, totalCost := row.totalCost + RecordCost(r))
  {
    var k := FirstIndex(prefix, keyword, code);
    FirstIndexSnoc(prefix, r, keyword, code);
    SelectedSnoc(prefix, r, keyword, code);
    var sel := Selected(prefix, keyword, code);
    assert Selected(prefix + [r], keyword, code) == sel + [r];
    SumQuantitySnoc(sel, r);
    TotalSnoc(sel, r);
    assert FirstIndex(prefix + [r], keyword, code) == k;
    assert (prefix + [r])[k] == prefix[k];
  }

  /** The first match of a code makes a row from that record alone. */
  lemma ExpectedRowFirst(prefix: seq<Record>, r: Record, keyword: string, code: int)
    requires MatchesCode(keyword, r, code)
    requires FirstIndex(prefix, keyword, code) == |prefix|
    ensures FirstIndex(prefix + [r], keyword, code) == |prefix|
    ensures ExpectedRow(prefix + [r], keyword, code) == Row(code, r.name, r.value, r.price, r.quantity, RecordCost(r))
  {
    FirstIndexSnoc(prefix, r, keyword, code);
    SelectedSnoc(prefix, r, keyword, code);
    SelectedEmpty(prefix, keyword, code);
    SumQuantitySnoc([], r);
    TotalSnoc([], r);
    assert [] + [r] == [r];
  }

  /** No matching record with `code` means nothing is selected for it. */
  lemma {:induction false} SelectedEmpty(records: seq<Record>, keyword: string, code: int)
    requires FirstIndex(records, keyword, code) == |records|
    ensures Selected(records, keyword, code) == []
  {
    if records != [] {
      var prefix := records[..|records| - 1];
      assert FirstIndex(prefix, keyword, code) == |prefix|;
      SelectedEmpty(prefix, keyword, code);
    }
  }

  lemma KeysSnoc(prefix: seq<Record>, r: Record, keyword: string)
    requires KeysDescribed(Aggregate(prefix, keyword), prefix, keyword)
    ensures KeysDescribed(Aggregate(prefix + [r], keyword), prefix + [r], keyword)
  {
    AggregateSnoc(prefix, r, keyword);
    forall code ensures code in Aggregate(prefix + [r], keyword).rows <==> FirstIndex(prefix + [r], keyword, code) < |prefix| + 1 {
      FirstIndexSnoc(prefix, r, keyword, code);
    }
  }

  /** The row of one code after one more record is folded into `g`, giving `g'`. */
  lemma RowSnoc(g: Groups, g': Groups, prefix: seq<Record>, r: Record, keyword: string, code: int)
    requires g' == if Matches(keyword, r) then AddMatch(g, r) else g
    requires code in g.rows <==> FirstIndex(prefix, keyword, code) < |prefix|
    requires code in g.rows ==> g.rows[code] == ExpectedRow(prefix, keyword, code)
    requires code in g'.rows
    requires FirstIndex(prefix + [r], keyword, code) < |prefix| + 1
    ensures g'.rows[code] == ExpectedRow(prefix + [r], keyword, code)
  {
    if !MatchesCode(keyword, r, code) {
      ExpectedRowSkip(prefix, r, keyword, code);
      assert g'.rows[code] == g.rows[code];
    } else if code in g.rows {
      GrownRow(g, prefix, r, keyword);
    } else {
      SeededRow(g, prefix, r, keyword);
    }
  }

  /** A further match of a code that is already a key adds to that key's row. */
  lemma GrownRow(g: Groups, prefix: seq<Record>, r: Record, keyword: string)
    requires Matches(keyword, r)
    requires r.code in g.rows && FirstIndex(prefix, keyword, r.code) < |prefix|
    requires g.rows[r.code] == ExpectedRow(prefix, keyword, r.code)
    ensures FirstIndex(prefix + [r], keyword, r.code) < |prefix| + 1
    ensures AddMatch(g, r).rows[r.code] == ExpectedRow(prefix + [r], keyword, r.code)
  {
    ExpectedRowGrow(prefix, r, keyword, r.code);
  }

  /** The first match of a code makes a new key whose row is built from that record alone. */
  lemma SeededRow(g: Groups, prefix: seq<Record>, r: Record, keyword: string)
    requires Matches(keyword, r)
    requires r.code !in g.rows && FirstIndex(prefix, keyword, r.code) == |prefix|
    ensures FirstIndex(prefix + [r], keyword, r.code) < |prefix| + 1
    ensures AddMatch(g, r).rows[r.code] == ExpectedRow(prefix + [r], keyword, r.code)
  {
    ExpectedRowFirst(prefix, r, keyword, r.code);
  }

  lemma RowsSnoc(prefix: seq<Record>, r: Record, keyword: string)
    requires KeysDescribed(Aggregate(prefix, keyword), prefix, keyword)
    requires RowsDescribed(Aggregate(prefix, keyword), prefix, keyword)
    requires KeysDescribed(Aggregate(prefix + [r], keyword), prefix + [r], keyword)
    ensures RowsDescribed(Aggregate(prefix + [r], keyword), prefix + [r], keyword)
  {
    AggregateSnoc(prefix, r, keyword);
    var g, g' := Aggregate(prefix, keyword), Aggregate(prefix + [r], keyword);
    forall code | code in g'.rows ensures g'.rows[code] == ExpectedRow(prefix + [r], keyword, code) {
      RowSnoc(g, g', prefix, r, keyword, code);
    }
  }

  /** The order of two keys after one more record is folded into `g`, giving `g'`. */
  lemma PairSnoc(g: Groups, g': Groups, prefix: seq<Record>, r: Record, keyword: string, i: int, j: int)
    requires g' == if Matches(keyword, r) then AddMatch(g, r) else g
    requires forall code :: code in g.rows <==> FirstIndex(prefix, keyword, code) < |prefix|
    requires forall i, j :: 0 <= i < j < |g.order| ==>
      FirstIndex(prefix, keyword, g.order[i]) < FirstIndex(prefix, keyword, g.order[j])
    requires Consistent(g)
    requires 0 <= i < j < |g'.order|
    ensures FirstIndex(prefix + [r], keyword, g'.order[i]) < FirstIndex(prefix + [r], keyword, g'.order[j])
  {
    var grew := Matches(keyword, r) && r.code !in g.rows;
    assert g'.order == if grew then g.order + [r.code] else g.order;
    var a := g.order[i];
    assert g'.order[i] == a && a in g.rows;
    if j < |g.order| {
      var b := g.order[j];
      assert g'.order[j] == b && b in g.rows;
      FirstsKept(prefix, r, keyword, a, b);
    } else {
      assert g'.order[j] == r.code && r.code !in g.rows;
      FirstsExtended(prefix, r, keyword, a);
    }
  }

  /** Two codes first met in the same order before one more record stay in that order. */
  lemma FirstsKept(prefix: seq<Record>, r: Record, keyword: string, a: int, b: int)
    requires FirstIndex(prefix, keyword, a) < FirstIndex(prefix, keyword, b) < |prefix|
    ensures FirstIndex(prefix + [r], keyword, a) < FirstIndex(prefix + [r], keyword, b)
  {
    FirstIndexSnoc(prefix, r, keyword, a);
    FirstIndexSnoc(prefix, r, keyword, b);
  }

  /** A code met before comes ahead of a code first met in the new record. */
  lemma FirstsExtended(prefix: seq<Record>, r: Record, keyword: string, a: int)
    requires FirstIndex(prefix, keyword, a) < |prefix| && FirstIndex(prefix, keyword, r.code) == |prefix|
    ensures FirstIndex(prefix + [r], keyword, a) < FirstIndex(prefix + [r], keyword, r.code)
  {
    FirstIndexSnoc(prefix, r, keyword, a);
    FirstIndexSnoc(prefix, r, keyword, r.code);
  }

  lemma OrderSnoc(prefix: seq<Record>, r: Record, keyword: string)
    requires KeysDescribed(Aggregate(prefix, keyword), prefix, keyword)
    requires OrderDescribed(Aggregate(prefix, keyword), prefix, keyword)
    ensures OrderDescribed(Aggregate(prefix + [r], keyword), prefix + [r], keyword)
  {
    AggregateSnoc(prefix, r, keyword);
    var g, g' := Aggregate(prefix, keyword), Aggregate(prefix + [r], keyword);
    forall i, j | 0 <= i < j < |g'.order|
      ensures FirstIndex(prefix + [r], keyword, g'.order[i]) < FirstIndex(prefix + [r], keyword, g'.order[j])
    {
      PairSnoc(g, g', prefix, r, keyword, i, j);
    }
  }

  /** The dict the loop builds is the grouping the reference definitions describe. */
  lemma {:induction false} AggregateDescribes(records: seq<Record>, keyword: string)
    ensures Describes(Aggregate(records, keyword), records, keyword)
  {
    if records != [] {
      var n := |records| - 1;
      var prefix, r := records[..n], records[n];
      assert records == prefix + [r];
      AggregateDescribes(prefix, keyword);
      KeysSnoc(prefix, r, keyword);
      RowsSnoc(prefix, r, keyword);
      OrderSnoc(prefix, r, keyword);
    }
  }

  /** Exactly the codes of matching records get a row. */
  lemma RowCodes(records: seq<Record>, keyword: string, code: int)
    ensures code in Aggregate(records, keyword).rows <==>
      exists i :: 0 <= i < |records| && MatchesCode(keyword, records[i], code)
  {
    AggregateDescribes(records, keyword);
  }

  /** Each row is the expected row: name, value and price of the first match; quantity and cost summed over the matches with its code. */
  lemma RowContents(records: seq<Record>, keyword: string, code: int)
    requires code in Aggregate(records, keyword).rows
    ensures FirstIndex(records, keyword, code) < |records|
    ensures Aggregate(records, keyword).rows[code] == ExpectedRow(records, keyword, code)
  {
    AggregateDescribes(records, keyword);
  }

  /** Rows come in the order their codes were first met among the matches. */
  lemma RowOrder(records: seq<Record>, keyword: string, i: int, j: int)
    requires 0 <= i < j < |Aggregate(records, keyword).order|
    ensures FirstIndex(records, keyword, Aggregate(records, keyword).order[i]) <
            FirstIndex(records, keyword, Aggregate(records, keyword).order[j])
  {
    AggregateDescribes(records, keyword);
  }

  /** No rows exactly when no record matches. */
  lemma NoRowsIffNoMatch(records: seq<Record>, keyword: string)
    ensures Aggregate(records, keyword).order == [] <==> forall i :: 0 <= i < |records| ==> !Matches(keyword, records[i])
  {
    var g := Aggregate(records, keyword);
    AggregateDescribes(records, keyword);
    if g.order != [] {
      var k := FirstIndex(records, keyword, g.order[0]);
      assert k < |records| && Matches(keyword, records[k]);
    }
    if exists i :: 0 <= i < |records| && Matches(keyword, records[i]) {
      var i :| 0 <= i < |records| && Matches(keyword, records[i]);
      var code := records[i].code;
      assert FirstIndex(records, keyword, code) <= i;
      assert code in g.order;
    }
  }

  /** The rows in the dict's insertion order, as `search_results.items()` yields them. */
  function RowsInOrder(g: Groups): (rows: seq<Row>)
    requires Consistent(g)
    ensures |rows| == |g.order|
    ensures forall i :: 0 <= i < |rows| ==> rows[i] == g.rows[g.order[i]]
    ensures forall i :: 0 <= i < |rows| ==> rows[i].code == g.order[i]
    ensures forall i, j :: 0 <= i < j < |rows| ==> rows[i].code != rows[j].code
    ensures forall code :: code in g.rows <==> exists i :: 0 <= i < |rows| && rows[i].code == code
  {
    seq(|g.order|, i requires 0 <= i < |g.order| => g.rows[g.order[i]])
  }

  /** The dict updates for one matching record: seed a row for a new code, then add the quantity and the line cost. */
  method Accumulate(order: seq<int>, results: map<int, Row>, record: Record) returns (order': seq<int>, results': map<int, Row>)
    ensures Groups(order', results') == AddMatch(Groups(order, results), record)
  {
    order', results' := order, results;
    if record.code !in results' {
      results' := results'[record.code := Row(record.code, record.name, record.value, record.price, 0, 0.0)];
      order' := order' + [record.code];
    }
    var row := results'[record.code];
    results' := results'[record.code := row.(quantity := row.quantity + record.quantity)];
    var productCost := LineCost(record.price, record.quantity, record.value, record.shippingMethod);
    row := results'[record.code];
    results' := results'[record.code := row.(totalCost := row.totalCost + productCost)];
  }

  /** What a search produces: a blank keyword is refused; otherwise no rows, or the rows and the total shown with them. */
  datatype SearchOutcome = EmptyKeyword | NoRecords | Found(rows: seq<Row>, reportedTotal: real)

  /**
    `search_record` on the stored records and one line of keyword input: the
    stripped keyword must not be blank; the loop fills the dict; with no match
    the outcome is "no records", else the rows in insertion order and, as the
    total, the first row's cost.
   */
  method SearchRecord(store: seq<string>, keywordInput: string) returns (outcome: SearchOutcome)
    requires Decodable(store)
    ensures outcome == EmptyKeyword <==> Strip(keywordInput) == []
    ensures Strip(keywordInput) != [] ==>
      var g := Aggregate(DecodeAll(store), Strip(keywordInput));
      if g.order == [] then outcome == NoRecords
      else outcome == Found(RowsInOrder(g), g.rows[g.order[0]].totalCost)
  {
    var keyword := Strip(keywordInput);
    if keyword == [] {
      return EmptyKeyword;
    }
    var order: seq<int> := [];
    var results: map<int, Row> := map[];
    for i := 0 to |store|
      invariant Groups(order, results) == Aggregate(DecodeAll(store[..i]), keyword)
    {
      DecodeAllPrefix(store, i);
      var record := SplitRecord(store[i]).value;
      AggregateSnoc(DecodeAll(store[..i]), record, keyword);
      if IsSubstring(Lower(keyword), Lower(record.name)) {
        order, results := Accumulate(order, results, record);
      }
    }
    assert store[..|store|] == store;
    if order == [] {
      return NoRecords;
    }
    var formattedResults := RowsInOrder(Groups(order, results));
    outcome := Found(formattedResults, formattedResults[0].totalCost);
  }

  /** Two matching records of one product merge into one row: quantities and costs add up, and the shown total is their sum. */
  lemma SameProductMerges(a: Record, b: Record, keyword: string)
    requires a.code == b.code && Matches(keyword, a) && Matches(keyword, b)
    ensures Aggregate([a, b], keyword).order == [a.code]
    ensures Aggregate([a, b], keyword).rows[a.code] ==
      Row(a.code, a.name, a.value, a.price, a.quantity + b.quantity, RecordCost(a) + RecordCost(b))
    ensures var g := Aggregate([a, b], keyword); g.rows[g.order[0]].totalCost == Total([a, b])
  {
    AggregateSnoc([], a, keyword);
    AggregateSnoc([a], b, keyword);
    assert [a] + [b] == [a, b];
    assert [] + [a] == [a];
    TotalSnoc([], a);
    TotalSnoc([a], b);
  }

  /** With two different matching products the shown total is the first row's cost only, not the sum over both rows. */
  lemma ReportedTotalIsFirstRow(a: Record, b: Record, keyword: string)
    requires a.code != b.code && Matches(keyword, a) && Matches(keyword, b)
    ensures var g := Aggregate([a, b], keyword);
      g.order == [a.code, b.code] &&
      g.rows[g.order[0]].totalCost == RecordCost(a) &&
      g.rows[g.order[0]].totalCost + g.rows[g.order[1]].totalCost == Total([a, b])
  {
    AggregateSnoc([], a, keyword);
    AggregateSnoc([a], b, keyword);
    assert [a] + [b] == [a, b];
    assert [] + [a] == [a];
    TotalSnoc([], a);
    TotalSnoc([a], b);
  }

  /** A keyword equal to a record's name always matches it. */
  lemma NameMatchesItself(r: Record)
    ensures Matches(r.name, r)
  {
    assert OccursAt(Lower(r.name), Lower(r.name), 0);
  }
}
