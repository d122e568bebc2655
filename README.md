# efinance quote getters, modelled in Dafny

This project models the core of `efinance/common/getter.py`. That module fetches
market data from the Eastmoney quote service and shapes each response into a
fixed-schema table.

- **K-line shaping.** `get_quote_history_single`, `get_history_bill` and
  `get_today_bill` split every comma-joined kline string into a row. They build
  a table over the endpoint's columns and insert the instrument's code and name
  in front.
- **Deal detail.** `get_deal_detail` first looks the quote id up in the
  process-wide `BASE_INFO_CACHE`. A code that prints as `nan` short-circuits to
  an empty seven-column table. Otherwise it keeps the first four fields of each
  detail line, inserts the previous close, and fills in name and code.
- **Batch.** `get_quote_history_multi` runs one retried unit of work per code.
  Each unit writes `dfs[code]` and advances the progress bar, only on success.
- **Dispatch.** `get_quote_history` routes a string to the single path and any
  other iterable to the batch path. Anything else raises `TypeError`.

Modules:

- `Wrappers`: `Option`, `Result` and the error kinds the getters can raise.
- `Text`: Python `str.split`, `sep.join`, `split('.')[-1]` and ASCII `lower`.
- `Frame`: the part of pandas the getters rely on.
  - A table is a column list plus rows of cells.
  - A cell is wire text, Python's `None` or pandas' `NaN`. `str` prints them
    as the text, "None" and "nan".
  - `DataFrame(rows, columns=...)` pads short rows with `None`. It raises
    unless the widest row matches the columns.
  - `df.insert` of a constant column raises on a duplicate name.
- `KLines`: the three kline getters.
- `DealDetail`: the deal-detail table, the base-info cache (a class whose map
  field is updated in place) and the whole deal-detail call.
- `Batch`: the retry loop, the batch loop and the dispatch.

Design points:

- The service is an input. A response is an already-decoded payload, and
  `None` stands for a request that raised.
- The quote-id resolver `get_quote_id` is a parameter `string -> Option<string>`.
- The batch layer receives every attempt's response from an oracle
  `respond(unit, attempt)`. Each unit writes only its own key of the result
  map, so a sequential loop in input order gives the same map and counter
  whenever codes are distinct.
- A unit writes `dfs[code]` and advances the progress bar only after its
  fetch returns (getter.py lines 133-134). A code whose every attempt raised
  has no key, and the counter counts successful units.
- In `get_deal_detail`, `BASE_INFO_CACHE.get(quote_id, get_base_info(quote_id))`
  evaluates the base-info request before the lookup. A cache hit therefore
  does not avoid the request. When the request raises, the call fails even on
  a hit and the cache is left as it was.

## Model

| member | source | states |
|---|---|---|
| `Text.Split` | efinance/common/getter.py:97 | there is always at least one piece; no piece contains the separator; there is exactly one piece, the whole string, iff the separator is absent |
| `Text.JoinSplit` | efinance/common/getter.py:97 | joining the pieces with the separator gives back the kline string, so splitting loses nothing |
| `Text.SplitJoin` | efinance/common/getter.py:97 | splitting a join of separator-free fields gives back those fields |
| `Text.SplitAround` | efinance/common/getter.py:97 | a separator between two strings splits each side independently |
| `Text.LastPieceIsSuffix` | efinance/common/getter.py:99 | the last piece is the suffix after the final separator, or the whole string |
| `Text.LastSegment` | efinance/common/getter.py:99 | the code holds no '.'; it is a suffix of the quote id preceded by '.' or the whole id; a dot-free id is its own code |
| `Text.CodeRoundTrip` | efinance/common/getter.py:99-101 | for a quote id `market.code` with a dot-free code, extraction gives back exactly `code` |
| `Text.NanSpellings` | efinance/common/getter.py:354 | lower-casing equals 'nan' exactly for the eight case spellings of nan |
| `Frame.PyStr` | efinance/common/getter.py:354 | `str` of a cell: the text itself, "None" for a null, "nan" for NaN |
| `Frame.MaxWidth` | efinance/common/getter.py:100 | the data width pandas infers bounds every row, is reached by some row, and is 0 for no rows |
| `Frame.FromRows` | efinance/common/getter.py:100 | construction succeeds iff there are no rows or the widest row has one field per column; the error carries both widths; rows keep their order and fields; short rows are padded with `None` |
| `Frame.InsertColumn` | efinance/common/getter.py:101-102 | inserting fails iff the name already exists; otherwise the new column sits at the position in every row, and dropping it gives back the original table |
| `Frame.InsertInFront` | efinance/common/getter.py:101-102 | inserting at position 0 prepends the name to the columns and the value to every row |
| `Frame.InsertColumnAt` | efinance/common/getter.py:101-102 | the new column and cells land exactly at the given position, the rest shifted right |
| `KLines.KlineTable` | efinance/common/getter.py:91-104 | no klines give a zero-row table with columns name, code, then the endpoint's; every success has those columns, one row per kline, and the response's name and the extracted code in front of every row |
| `KLines.PrependNameAndCode` | efinance/common/getter.py:101-102 | the code is inserted first, so a clash on it is reported first; success iff neither name is taken, and then every row gains the name and the code in front |
| `KLines.KlineOutcome` | efinance/common/getter.py:91-102 | the call succeeds iff there are no klines, or the name is present, the widest row matches the columns, and no column clashes with name or code; a missing name and a shape mismatch give those errors |
| `KLines.KlineRows` | efinance/common/getter.py:97-102 | with every kline having one field per column, row i is name, code, then the fields of kline i, in input order |
| `KLines.KlineCodeColumn` | efinance/common/getter.py:99-101 | for a quote id `market.code` every row's code cell is exactly `code` |
| `KLines.TodayBill` | efinance/common/getter.py:290-302 | a missing name fails even when there are no klines; otherwise no klines give the empty eight-column table; success iff the name is present and the rows are six fields wide; with a name it is the kline table over the six fixed columns, so one row per kline with the name and the extracted code in front |
| `KLines.QuoteHistorySingle` | efinance/common/getter.py:72-104 | quote-id mode uses the code verbatim, otherwise an unresolvable code fails; a request that raises fails; a response is shaped by the kline table over the code (quote-id mode) or the resolved quote id; every success has the kline schema |
| `DealDetail.FirstFour` | efinance/common/getter.py:370 | a line keeps its first four fields, or all of them when it has fewer |
| `DealDetail.DealTable` | efinance/common/getter.py:353-377 | a 'nan' code gives the empty seven-column table before any request; every success has the seven fixed columns, one row per detail line, and the record's name and code and the previous close in every row |
| `DealDetail.DealOutcome` | efinance/common/getter.py:369-375 | with a complete response the call fails iff there are lines and none has four fields, with a shape-mismatch error |
| `DealDetail.DealRows` | efinance/common/getter.py:370-376 | row i is name, code, time, previous close, price, volume, order count, taken from the first four fields of line i |
| `DealDetail.EmptyBaseInfoShortCircuits` | efinance/common/getter.py:321-355 | the empty base-info record always takes the 'nan' short-circuit, whatever the details response |
| `DealDetail.CodeIsNanCases` | efinance/common/getter.py:354-355 | the short-circuit fires exactly for a NaN code or a text code spelled nan in any case, and never for a null code |
| `DealDetail.NullCodeIsRequested` | efinance/common/getter.py:354-376 | a null code does not short-circuit: the details are requested, and the rows carry the null as their code |
| `DealDetail.CacheLookup` | efinance/common/getter.py:351-352 | afterwards the id is cached; a cached record wins and the cache is unchanged; a miss stores the fetched record; no other key changes |
| `DealDetail.CacheLookupStable` | efinance/common/getter.py:351-352 | a second lookup of the same id returns the same record and leaves the cache as it was |
| `DealDetail.BaseInfoCache.Lookup` | efinance/common/getter.py:351-352 | a base-info request that raises propagates and leaves the cache unchanged, even on a hit; otherwise the cache and the record are those of `CacheLookup` |
| `DealDetail.GetDealDetail` | efinance/common/getter.py:330-377 | the cache step, then the deal table built from the cached record and the details response |
| `Batch.RetryFirstSuccess` | efinance/common/getter.py:124 | the retried call has a table iff some attempt within the budget succeeds, and it is the table of the first such attempt, every earlier attempt having raised |
| `Batch.RunUnit` | efinance/common/getter.py:124-133 | at most `tries` attempts; a unit with no table used them all; a successful unit stopped at its first success, every earlier attempt having raised |
| `Batch.SucceededUnits` | efinance/common/getter.py:133-134 | the positions whose unit succeeded, and no others |
| `Batch.LastSuccess` | efinance/common/getter.py:133 | the last successful unit of a code: it is that code's, it succeeded, and no later unit of that code did |
| `Batch.Aggregate` | efinance/common/getter.py:120-142 | the progress count is the number of units that succeeded, never more than the number of codes |
| `Batch.AggregateAt` | efinance/common/getter.py:133 | a code is a key iff one of its units succeeded, and it holds the table of the last of them |
| `Batch.AggregateKeys` | efinance/common/getter.py:133 | the keys are exactly the input codes with a successful unit, so failed codes have no key |
| `Batch.RetrySchema` | efinance/common/getter.py:124-126 | a retried unit's table has the kline schema |
| `Batch.BatchSchema` | efinance/common/getter.py:126-133 | every table in the result map has the kline schema |
| `Batch.QuoteHistoryMulti` | efinance/common/getter.py:107-142 | the map and the counter after the loop are those of `Aggregate` over all codes |
| `Batch.UnitIsolated` | efinance/common/getter.py:125-133 | a unit's outcome depends only on the responses to its own attempts |
| `Batch.RetryAgrees` | efinance/common/getter.py:124 | two fetches that agree on every attempt of a unit give it the same outcome |
| `Batch.DistinctProgress` | efinance/common/getter.py:133-134 | with distinct codes the counter equals the number of keys |
| `Batch.AllFail` | efinance/common/getter.py:120-142 | when every attempt raises, the map is empty and the counter is 0 |
| `Batch.AllSucceed` | efinance/common/getter.py:138-142 | when every unit succeeds, the keys are exactly the input codes |
| `Batch.GetQuoteHistory` | efinance/common/getter.py:191-209 | a string takes one unretried single fetch; an iterable goes to the batch path; anything else is a `TypeError` |

## Left out

- HTTP requests, URLs, headers and query parameters are left out. Responses
  are inputs: decoded payloads, or `None` for a request that raised.
- The query parameters `beg`, `end`, `klt`, `fqt` and `max_count` only shape
  the request, so they are left out.
- `jsonpath` extraction is left out. The `klines`, `name`, `details` and
  `prePrice` values are fields of the payload, and an absent value is `None`
  (an empty list for klines).
- The `to_numeric` decorator is left out, because its module
  (`efinance/utils`) is not part of this model. Cells keep the wire text.
- `get_quote_id` is not part of this model. It is the resolver parameter.
- `get_history_bill` is the single-instrument shaping without quote-id mode
  over its own column list. It is modelled by `KLines.QuoteHistorySingle`
  with `quoteIdMode` false, and has no member of its own.
- `get_realtime_quotes_by_fs` and `get_base_info` are left out: they rename
  the columns of a remote response. The record `get_base_info` returns for
  missing data is `DealDetail.EmptyBaseInfo`, whose fields are NaN.
- A missing `name` key in a kline response is a `MissingKey` error; a `name`
  whose value is a JSON null is inserted as a `None` cell, as the getters do.
  The same goes for a null `prePrice`. A null `details` list is treated like
  an absent one.
- Threads are left out: `multitasking.task` and `wait_for_tasks`. The batch is
  a sequential loop in input order.
- The order in which concurrent units of the same code write their key is not
  captured. The model lets the later position win.
- Timing and display are left out: the retry delay and the `tqdm`
  description text. The bar is a counter.
- Batch.RetryFirstSuccess: `tries` is a natural number. A negative `tries`, which
  makes the retry decorator try forever, is not modelled.
- The getters' in-place list and DataFrame updates (`columns.insert`,
  `df.insert`, `df.loc[...] =`) are modelled as functions on table values.
  These objects are local and never aliased before they are returned.
- `str.lower` is modelled for ASCII letters only. Other characters are left
  unchanged.
- The `df.loc` broadcast of the detail values is modelled by the column order
  it produces. pandas' index alignment is left out.
