# Trade query model

A Dafny model of the query logic inside a small trade-record service (FastAPI over MongoDB). The service stores trade executions and serves list, search, filter and get-by-id requests. Two pieces of logic in its request handlers are modelled and proved here:

- **The filter builder** of the `/trades/filter` handler. Six optional parameters (`assetClass`, `tradeType`, `minPrice`, `maxPrice`, `start`, `end`) become one query map over at most four field paths: `asset_class`, `trade_details.price`, `trade_date_time` and `trade_details.buySellIndicator`. The handler starts from an empty map and runs a sequence of `if` writes. A later write to the same key replaces an earlier one, so each bound pair gives a two-sided range, a one-sided range, or no key at all. Presence is decided by Python truthiness: a price of `0.0` or an empty string counts as absent, and a datetime always counts as present.
- **The sort resolver** of the `/trades/list` handler. An optional sortable field and an order in {`Des`, `Asc`}, defaulting to `Des`, become either no ordering or one (field, direction) pair. Descending is encoded by prefixing the field with `-`, and the prefix is stripped again before the pair is built.

Files:

- `options.dfy`: the `Option` type used for every optional parameter and field.
- `trades.dfy`: the stored `Trade` record, the query condition type `Cond` (`Eq` or a `Range` with optional lower and upper bounds), and `Matches`. `Matches` reads a query as the conjunction of its field conditions, which gives the built queries a meaning to prove things against.
- `filter.dfy`: the filter builder. `BuildFilter` is the handler's step-by-step construction. `Query` is a reference definition with one condition per present parameter. `Truthy` is the handler's presence test. `BuildFilter` is proved to equal `Query(Truthy(p))`.
- `sort.dfy`: the sort resolver as a pure function, with lemmas about the enumerated field names.

Prices are modelled as `real` and timestamps as `int`. Both are abstract ordered values that are only stored and compared.

`BuildFilter` follows the code's truthiness tests exactly; the consequence for a zero price bound is recorded under "## Findings".

## Model

| member | source | states |
|---|---|---|
| `TradeFilter.Truthy` | main.py:148-184 | A string parameter counts as given when it is non-empty, and a price when it is non-zero. A date bound counts as given whenever it is supplied. Every parameter that counts keeps its value. |
| `TradeFilter.Query` | main.py:145-184 | The reference query has keys only among the four filterable paths. It has an equality key exactly when that parameter is given, holding the parameter verbatim. It has a price or date key exactly when at least one bound of the pair is given, and that key holds a single range with exactly the given bounds. |
| `TradeFilter.QueryMeaning` | main.py:145-184 | A trade matches the reference query if and only if it meets every given parameter: equal asset class and side, and price and timestamp within the given bounds. |
| `TradeFilter.QuerySatisfiable` | main.py:156-160 | Some trade matches the reference query if and only if no bound pair is inverted. The combined range is one conjunctive condition, not two separate alternatives. |
| `TradeFilter.BuildFilter` | main.py:145-184 | The handler's sequence of overwriting writes yields `Query(Truthy(p))`. Keys are a subset of the four paths. `asset_class` and `trade_details.buySellIndicator` hold the parameter verbatim exactly when it is truthy. Both price bounds give `{$gte, $lte}`, only max gives `{$lte}`, only min gives `{$gte}`, and neither gives no key. `start`/`end` follow the same four cases on `trade_date_time`. |
| `TradeFilter.FilterMeaning` | main.py:145-184 | The handler's query selects exactly the trades that meet its truthy parameters. |
| `TradeFilter.ZeroPriceIsAbsent` | main.py:151-165 | A `minPrice` or `maxPrice` of `0.0` produces the same query as leaving that parameter out. |
| `TradeFilter.ZeroMaxPriceWidens` | main.py:151-154 | With only `maxPrice = 0.0`, the handler's query matches a trade with a positive price, even though that trade violates the bound as given. |
| `TradeFilter.QueryNarrows` | main.py:145-184 | For the reference query, giving more parameters can only shrink the set of matching trades. |
| `TradeFilter.FilterNarrows` | main.py:145-184 | For the handler's query, giving more parameters can only shrink the set of matching trades. |
| `TradeSort.ResolveSort` | main.py:88-95 | There is no ordering exactly when `sort` is missing or empty. For a field not starting with `-`, the pair is the caller's own field. It is descending if and only if the order, defaulting to `Des`, is `Des`. For a field starting with `-`, the pair is descending, on the field itself under `Des` and on the field without its first character otherwise. |
| `TradeSort.SortableFieldsUnprefixed` | main.py:83 | Every enumerated sortable field is non-empty and does not start with `-`. |
| `TradeSort.OrderFor` | main.py:83 | The order string for a direction is one of the two accepted values `Des` and `Asc`, and it is `Des` exactly for descending. |
| `TradeSort.ResolveSortableField` | main.py:83-95 | For every sortable field, the result is exactly (field, direction named by the order). With no order given, the direction is descending. |
| `TradeSort.ResolveSortRoundTrip` | main.py:83-95 | Asking for a direction through its order string resolves to that direction, on the unprefixed field. |
| `TradeSort.PrefixedKeyReadsDescending` | main.py:88-95 | For every field starting with `-` and every order, the result is descending: on the field itself under `Des`, and on the field without its first `-` otherwise. The field enumeration is what rules such fields out. |

## Findings

| source | as written | input that shows it | evidently intended | confidence | as-written member | corrected member |
|---|---|---|---|---|---|---|
| main.py:151-165 | `if maxPrice:` / `if minPrice:` treat a bound of `0.0` as absent | `maxPrice=0` alone: the query has no price key, so it matches every trade, including a trade priced `10.0` | a bound counts as given when it is supplied, so `maxPrice=0` keeps only prices `<= 0` | medium, not executed | `TradeFilter.ZeroMaxPriceWidens` | `TradeFilter.QueryMeaning` |

The corrected behaviour is `Query` applied to the parameters as given. It tests presence only, and `QueryMeaning` proves it selects exactly the trades that meet every supplied bound. The handler as written is `Query` composed with `Truthy`, so the discrepancy lies entirely in `Truthy`.

## Left out

- MongoDB access (`insert_one`, `find`, `find_one`, skip/limit/sort execution, the `$text` search with its `$exists` alternatives): these are calls into an external store. `Matches` gives only the conjunctive reading of the filter query. It does not cover text search, result order or pagination.
- Pydantic validation of `Trade`/`TradeDetails`, field aliases, and re-validating each stored document into a `Trade`: this is library behaviour. The record shape is kept as the `Trade` datatype, but no validation function is modelled.
- FastAPI routing, query-parameter parsing and enum enforcement, uvicorn, the connection-string environment variable, and the `print` calls: this is I/O plumbing. Enum enforcement shows up only as the `SortableFields` constant and as the preconditions of the sort lemmas.
- The create handler's blanket `except` and the get-by-id "not found" message: error glue around store calls.
- Datetime parsing and float arithmetic: values are only passed through and compared, so prices are `real` and timestamps `int`. NaN and the distinction between `-0.0` and `0.0` are not modelled.
