# Shopping cart: a verified model

`shopping_cart.py` keeps a shopping record list for one session. Products come
from a fixed catalog of forty `code/name/price` entries. A purchase is stored
as one slash-delimited line `code/name/value/price/quantity/shipping_method`.
The add flow validates a product code, looks the product up in the catalog,
gives it a value tier ("High" from $30.00 up, "Low" below), validates a
quantity and a shipping method, and appends the encoded line. Typing "END"
prints the total cost. The search flow strips a keyword, matches it
case-insensitively against product names, and groups the matches by product
code: quantities and line costs are summed per code. A line costs unit price
times quantity. Delivery adds 10%, and delivery of a "High" item adds a further
$2 per unit.

The Dafny modules follow that structure:

- `Text`: `str.split`, `"/".join`, ASCII `lower`, `strip` and `in` on strings.
- `Numbers`: `int()`, `float()` and `str()` on the values the program stores.
- `Codec`: `create_record_string`, `split_product` and `split_record`.
- `Validators`: `is_valid_code`, `is_valid_quantity`, the shipping methods, and
  how the add flow turns an input line into a code or a quantity.
- `Catalog`: `price_list`, the lookup loop with its `break`, and the value tier.
- `Pricing`: the line-cost rule and `total_cost`.
- `Search`: `search_record`. The dict it builds is modelled as keys in
  insertion order plus a map of rows. `Aggregate` is the fold the loop
  performs. `FirstIndex`, `Selected` and `ExpectedRow` give an independent
  filter-then-sum description, and `AggregateDescribes` proves the two agree.
- `Cart`: the class `ShoppingCart`, whose field `records` is the
  `shopping_record_list` that `AddRecord` appends to.

Two behaviours of the code are kept as written:

- The add flow's guard `product_code and is_valid_code(product_code)` turns
  away code 0. Zero is falsy, although `is_valid_code(0)` holds
  (`Validators.CodeZeroRejected`).
- The search total printed after the rows is the cost of the first row only,
  not the sum over all rows (`Search.ReportedTotalIsFirstRow`).

Amounts are exact `real` values, so the pricing rule holds without
floating-point rounding. Catalog prices are held as whole cents, and the
catalog text is produced from them in the catalog's own `D.CC` format.

## Model

| member | source | states |
|---|---|---|
| Text.SplitLength | shopping_cart.py:84 | `split("/")` yields one more piece than there are separators |
| Text.SplitJoin | shopping_cart.py:176 | joining separator-free fields with `/` and splitting again gives the fields back |
| Text.JoinSplit | shopping_cart.py:84 | joining the pieces of a split with the separator gives back the original string |
| Text.Lower | shopping_cart.py:258 | `lower()` keeps the length and lower-cases each character (ASCII) |
| Text.Strip | shopping_cart.py:250 | `strip()` removes exactly the leading and trailing white space: the result is a slice of the input, everything before and after it is white space, its own ends are not, and it is empty exactly when the input is all white space |
| Text.IsSubstring | shopping_cart.py:258 | `in` on strings holds exactly when the needle occurs at some index of the haystack |
| Numbers.IntText | shopping_cart.py:230 | `str` of an integer is read back unchanged by `int` |
| Numbers.FloatText | shopping_cart.py:230 | `str` of a whole number of cents is read back unchanged by `float` |
| Numbers.TwoDecimalText | shopping_cart.py:18-34 | a catalog price written with two decimals is read back by `float` as its number of cents over 100 |
| Codec.CreateRecordString | shopping_cart.py:166-176 | splitting a joined record at `/` gives back its fields when none holds a `/` |
| Codec.DecodeJoinedFields | shopping_cart.py:103-108 | decoding joined fields succeeds exactly when fields 0, 3 and 4 parse as int, float and int, and then yields those six fields |
| Codec.RecordRoundTrip | shopping_cart.py:91-108 | a record whose text fields hold no `/` decodes back to itself after encoding |
| Codec.DecodedFieldsFree | shopping_cart.py:104-105 | the text fields of a decoded record hold no `/`, since they are pieces of a split at `/` |
| Codec.TooFewFields | shopping_cart.py:103-108 | a line with fewer than six fields fails to decode (the `IndexError` path) |
| Codec.ExtraFieldsIgnored | shopping_cart.py:105 | fields past the sixth do not change the decoded record |
| Codec.DecodeProductText | shopping_cart.py:83-88 | a `code/name/price` entry with a `/`-free name decodes to its code, name and price |
| Codec.DecodeAllAt | shopping_cart.py:117-118 | the i-th decoded record is what the i-th stored line decodes to |
| Codec.DecodeAllPrefix | shopping_cart.py:117-118 | decoding one more stored line appends exactly that line's record |
| Validators.InRange | shopping_cart.py:49 | `x in range(lo, hi)` holds exactly when `lo <= x < hi` |
| Validators.IsValidCode | shopping_cart.py:39-53 | a code is valid exactly when it lies in 0..39 |
| Validators.IsValidQuantity | shopping_cart.py:56-70 | a quantity is valid exactly when it lies in 1..49 |
| Validators.IsValidShippingMethod | shopping_cart.py:225-228 | exactly "Pick-up" and "Delivery" are accepted, compared exactly |
| Validators.AcceptedCode | shopping_cart.py:208-210 | a code line is accepted exactly when it is all digits with a value in 1..39, and yields that value |
| Validators.AcceptedQuantity | shopping_cart.py:220-223 | a quantity line is accepted exactly when it is all digits with a value in 1..49 |
| Validators.CodeZeroRejected | shopping_cart.py:208-209 | code 0 passes `is_valid_code` and is still turned away by the add flow |
| Catalog.CatalogShape | shopping_cart.py:18-34 | the catalog has forty entries, all with positive prices |
| Catalog.EntryDecodes | shopping_cart.py:18-34 | a catalog entry decodes to its own code, name and price |
| Catalog.PriceListDecodes | shopping_cart.py:18-34 | the entry at index i decodes with code i |
| Catalog.Lookup | shopping_cart.py:213-218 | the scan's result has the wanted code and comes from some entry, and it is empty exactly when no entry decodes with that code |
| Catalog.LookupFirst | shopping_cart.py:213-218 | the scan stops at the first entry with the wanted code, whatever follows (`break`) |
| Catalog.CatalogLookup | shopping_cart.py:212-218 | over `price_list` the scan finds exactly the codes 0..39, each at its own index |
| Catalog.Tier | shopping_cart.py:217 | the value is "High" exactly when the unit price is at least 30.00, else "Low" |
| Catalog.CatalogTier | shopping_cart.py:217 | a catalog product is "High" exactly when its price is at least 3000 cents |
| Catalog.FindProduct | shopping_cart.py:212-218 | the loop yields the catalog name, price and tier of codes 0..39, and the defaults `""`, `0.0`, `""` for any other code |
| Pricing.PickUpCost | shopping_cart.py:119-122 | a line not shipped by "Delivery" costs price times quantity |
| Pricing.DeliveryLowCost | shopping_cart.py:121-123 | delivery of a non-"High" line costs price times quantity plus 10% |
| Pricing.DeliveryHighCost | shopping_cart.py:121-127 | delivery of a "High" line costs price times quantity plus 10%, plus 2 per unit |
| Pricing.LineCostAtLeastBase | shopping_cart.py:119-127 | surcharges only add: a line costs at least price times quantity, which is non-negative |
| Pricing.TotalAppend | shopping_cart.py:116-129 | the total is additive over concatenated record lists |
| Pricing.TotalNonNegative | shopping_cart.py:116-129 | with non-negative prices and quantities the total is never negative |
| Pricing.TotalCost | shopping_cart.py:111-131 | the accumulated total is the sum of the line costs of the decoded records |
| Pricing.KnifeBlockExample | shopping_cart.py:119-127 | Knife Block Set, two units: High, $223.89 delivered, $199.90 picked up |
| Pricing.SaladServerExample | shopping_cart.py:119-127 | Salad Server Set, three units delivered: Low, $61.71 |
| Search.Aggregate | shopping_cart.py:255-272 | the dict the loop builds keeps its key order and its keys in step, each key once, each row tagged with its key |
| Search.AggregateSnoc | shopping_cart.py:255-272 | one more record changes the dict only when it matches, by folding it in |
| Search.FirstIndex | shopping_cart.py:259 | the first position of a matching record with a given code, or the length when there is none |
| Search.Selected | shopping_cart.py:258 | every selected record matches the keyword and has the code |
| Search.AggregateDescribes | shopping_cart.py:255-272 | the dict is the filter-then-sum grouping: right keys, right rows, first-encounter order |
| Search.RowCodes | shopping_cart.py:258-263 | a code gets a row exactly when some record with that code matches |
| Search.RowContents | shopping_cart.py:259-272 | a row has name, value and price of the code's first match, and quantity and cost summed over all its matches |
| Search.RowOrder | shopping_cart.py:259-263 | rows come in the order their codes were first met |
| Search.NoRowsIffNoMatch | shopping_cart.py:274-276 | there are no rows exactly when no record matches |
| Search.RowsInOrder | shopping_cart.py:278 | `items()` yields one row per key in insertion order: row i is the entry for the i-th inserted key and carries that code, no code appears twice, and every key of the dict appears |
| Search.Accumulate | shopping_cart.py:259-272 | the dict updates for one match are the fold step: seed a new code at the end, then add quantity and line cost |
| Search.SearchRecord | shopping_cart.py:249-281 | blank keyword refused exactly when the stripped input is empty; else no records exactly when nothing matches, otherwise the grouped rows in order and the first row's cost as total |
| Search.SameProductMerges | shopping_cart.py:259-272 | two matches of one product make one row with summed quantity and cost, and that row's cost is the total of both records |
| Search.ReportedTotalIsFirstRow | shopping_cart.py:280 | with two matched products the shown total is the first row's cost, while the two rows' costs add up to the full total |
| Search.NameMatchesItself | shopping_cart.py:258 | a product's own name always matches it as a keyword |
| Cart.NewFields | shopping_cart.py:230 | the six rendered fields: code and price as text that `int` and `float` read back, name, tier, the quantity as typed, the method |
| Cart.NewRecordDecodes | shopping_cart.py:230 | the appended line decodes to the new record: code, catalog name, tier, price, typed quantity, method |
| Cart.NewRecordWellFormed | shopping_cart.py:208-230 | a new record has a code 1..39, the catalog's name, price and tier, a quantity 1..49 and a valid method |
| Cart.AppendKeepsValid | shopping_cart.py:230 | appending a well-formed line keeps every stored line decodable and well formed |
| Cart.ShoppingCart.constructor | shopping_cart.py:37 | the record list starts empty |
| Cart.ShoppingCart.AddRecord | shopping_cart.py:199-230 | "END" reports the total and changes nothing; each rejected input changes nothing; accepted inputs append the encoded record; every stored line stays well formed |

The table lists members by what their contracts state. The functions that define the program's operations, and which those contracts are about, are:

- `Text.Split` is `str.split("/")` (shopping_cart.py:84, :104), and `Text.Join` is `"/".join` (:176).
- `Numbers.ParseInt` is `int()` on a field (:85, :105), and `Numbers.ParseFloat` is `float()` (:85, :105).
- `Codec.SplitProduct` is `split_product` (:73-88): `None` when there are fewer than three pieces or fields 0 and 2 do not parse.
- `Codec.SplitRecord` is `split_record` (:91-108): `None` when there are fewer than six pieces or fields 0, 3 and 4 do not parse.
- `Catalog.PriceList` is `price_list` (:18-34), built from the forty `Catalog.Items`.
- `Pricing.LineCost` is the cost rule that `total_cost` and `search_record` both apply (:119-127, :265-270). `Pricing.RecordCost` applies it to one record.
- `Pricing.Total` is the sum that `total_cost` accumulates, taken in list order (:116-129).
- `Search.Matches` is the case-insensitive containment test (:258).
- `Search.AddMatch` is one update of the results dict: seed the row if the code is new, then add the quantity and cost (:259-272).
- `Cart.NewRecord` is the record that the add flow builds and appends (:230).

## Left out

- Console input and output: prompts, `print`, `show_records` and the table headers. One call of `AddRecord` or `SearchRecord` takes the lines the user typed; the re-prompting loops become one outcome per attempt (`RejectedCode`, `RejectedQuantity`, `RejectedShipping`, `EmptyKeyword`), and the caller repeats.
- The menu loop in `__main__` and the `Exit` option.
- Floating point: prices, costs and totals are exact reals. The `:.2f` rounding of printed totals is not modelled.
- `str()` of a float is modelled only for whole numbers of cents (e.g. "18.7", "43.0"), which is every price the program stores.
- `int()` and `float()` are modelled on ASCII text: an optional sign, then digits, with an optional decimal point for `float`. Surrounding white space, underscores, exponents, `inf` and `nan` are not modelled.
- Validators.AcceptedCode: does not model the 4300-digit limit of `int()` in Python 3.11 and later. A longer digit line raises `ValueError`, which line 208 does not catch, so the add flow stops; the model accepts such a line (leading zeros) when its value is in 1..39.
- Validators.AcceptedQuantity: does not model the same 4300-digit limit at line 222; the model accepts such a line when its value is in 1..49.
- `isdigit`, `lower` and `strip` are modelled for ASCII only; the Unicode digits, cases and white space Python also accepts are not.
- `total_cost` and `search_record` crash when a stored line fails to decode (unpacking `None`). The model requires every stored line to decode (`Codec.Decodable`), which the add flow guarantees (`Cart.AppendKeepsValid`).
- Search.SearchRecord: the rows are returned as typed `Row` values rather than re-encoded as `/`-joined strings. The total at line 280 is taken from the first row's cost directly rather than by re-parsing its last field.
- Catalog.FindProduct: the postcondition names the catalog's own name, price and tier for codes 0..39, rather than restating the scan through `Catalog.Lookup`. `Catalog.CatalogLookup` connects the two.
