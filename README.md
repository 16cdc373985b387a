# Pharmacy stock checker, modelled in Dafny

The stock checker asks a retailer's stock endpoint about one product in a
fixed list of stores and prints one line per store. Its logic lives in
`parse_stock_levels` (src/main.py): it walks the `stockLevels` list of the
decoded response and, for each entry, looks the stock code up in a fixed
three-entry table (`R` Out of Stock, `G` In Stock, `A` Limited Stock, anything
else Unknown Status) and the store id up in a store directory, falling back to
`Store ID <id>`. The result is one `{store_name, stock_status}` record per
entry, in input order.

This project models:

- `json_values.dfy`, module `PyJson`: the decoded JSON value (`Json`, with
  `Null` for Python's `None`), the Python exceptions the parser can raise on
  a malformed response (`PyError`) and a `Result` carrying either, dictionary
  `get` with a default, hashability, truthiness, and the text an f-string
  produces for a scalar (`None`, `True`/`False`, the decimal digits of an
  int, or the string itself), with a decimal round trip.
- `stock_checker.dfy`, module `StockChecker`: the outcome branch of
  `check_stock`, the parser as specification functions (`StatusLabel`,
  `StoreName`, `ParseEntry`, `StockLevelEntries`, `Collect` for the
  loop's accumulation, `ParseEntries`, `Parse`)
  and as the imperative loop that builds the result list
  (`ParseStockLevels`), and the script that prints the records
  (`Output`, `PrintedLines`, `Report`).

The parser is modelled on every decoded response, not only on the documented
shape. Where Python would raise, the model returns `Err`. A `None`, bool or
int under `stockLevels` cannot be iterated (TypeError). A non-empty string or
dict under it iterates over strings, which have no `get` (AttributeError), and
so does a list element that is not a dict. A list or dict used as a stock code
or store id cannot be a dictionary key (TypeError). An absent `stockLevels`
key gives the empty list; an absent `stockLevel` defaults to `""` and so to
Unknown Status; an absent `storeId` is `None` and renders as `Store ID None`.

The directory's keys are strings while the script requests integer store ids.
The lookup is by exact key, so an integer `storeId` in a response never
resolves to a name and always falls back to `Store ID <digits>`
(`IntegerIdsFallBack`). That lemma also shows that two different integer ids
fall back to different names.

Dafny values are immutable, so neither the response nor the directory can be
changed by the parser, and the result is a new sequence built by the loop.

## Model

| member | source | states |
|---|---|---|
| PyJson.Truthy | src/main.py:89 | a value is truthy exactly when it is none of `None`, `False`, `0`, `""`, `[]`, `{}` |
| PyJson.NatToDecimal | src/main.py:57 | the text of a non-negative int is at least one decimal digit, all digits, with no leading zero above 9 |
| PyJson.IntToDecimal | src/main.py:57 | the text of an int is non-empty, starts with `-` exactly when the int is negative, continues with decimal digits only, without a leading zero unless the magnitude is 0, and those digits read back to the int's magnitude |
| PyJson.Render | src/main.py:57 | the f-string text of a scalar id: a string verbatim; an int as an optional `-` then decimal digits only, with no leading zero unless it is 0, which read back to it; `None`, `True` or `False` otherwise |
| PyJson.DecimalRoundTrip | src/main.py:57 | reading back the digits `str()` gives for a non-negative int yields that int |
| PyJson.IntToDecimalInjective | src/main.py:57 | two ints whose rendered text is equal are equal, so the fallback label identifies an integer id |
| StockChecker.CheckStock | src/main.py:24-33 | the request yields a value other than `None` only on status 200 with a JSON body, and then it is that body; any other status, an undecodable body or a transport failure yields `None` |
| StockChecker.StatusLabel | src/main.py:48-56 | `R`, `G`, `A` map to Out of Stock, In Stock, Limited Stock, each label only from its own code; every other value maps to Unknown Status and vice versa |
| StockChecker.StoreName | src/main.py:57 | a string id that is a directory key gives the directory's name; any other id gives `Store ID ` followed by its rendered text |
| StockChecker.ParseEntry | src/main.py:55-62 | one entry gives a record exactly when it is a dict whose `storeId` and `stockLevel` are scalars or absent; otherwise AttributeError for a non-dict, TypeError for an unhashable field |
| StockChecker.StockLevelEntries | src/main.py:54 | a missing `stockLevels` key gives no entries; a list gives its items; an empty string or dict gives no entries; a non-empty string or dict raises AttributeError; anything else raises TypeError |
| StockChecker.Collect | src/main.py:54-62 | the loop's accumulation over per-entry outcomes: on success it holds one record per outcome |
| StockChecker.ParseEntries | src/main.py:54-62 | the records for a list of entries: on success one per entry |
| StockChecker.Parse | src/main.py:36-64 | `parse_stock_levels` as a function: no `stockLevels` key gives the empty result; it succeeds exactly when `stockLevels` can be iterated and every entry is well formed, and then it has one record per entry |
| StockChecker.ParseStockLevels | src/main.py:36-64 | the loop that appends one record per entry returns exactly what `Parse` specifies, including the exception of the first failing entry |
| StockChecker.CollectSnoc | src/main.py:54-62 | accumulating one more outcome appends its record or stops with its exception |
| StockChecker.CollectPrefixFailure | src/main.py:54-62 | once a prefix of the outcomes fails, the whole accumulation fails the same way |
| StockChecker.CollectSucceeds | src/main.py:54-62 | the accumulation succeeds exactly when every outcome is a record |
| StockChecker.CollectPointwise | src/main.py:54-62 | a successful accumulation holds outcome i's record at position i |
| StockChecker.CollectFirstFailure | src/main.py:54-62 | a failed accumulation reports the exception of the first failing outcome, all earlier ones being records |
| StockChecker.CollectConcat | src/main.py:54-62 | two successful accumulations back to back give the concatenated records |
| StockChecker.PrefixFailurePropagates | src/main.py:54-62 | once an entry fails, the whole parse fails with that exception, whatever follows it |
| StockChecker.ExtendPrefix | src/main.py:54-62 | one turn of the loop appends entry i's record to the records of the first i entries, or stops with entry i's exception |
| StockChecker.ParseEntriesSucceeds | src/main.py:54-62 | the parse of a list of entries succeeds exactly when every entry is well formed |
| StockChecker.ParseEntriesPointwise | src/main.py:54-62 | a successful parse has one record per entry, and record i is entry i's record |
| StockChecker.FirstFailureReported | src/main.py:54-62 | a failing parse reports the exception of the first entry that is not well formed, all earlier entries being well formed |
| StockChecker.ParseEntriesConcat | src/main.py:54-62 | parsing two lists back to back gives the concatenation of their records: no entry is dropped, merged or reordered |
| StockChecker.RecordsFollowEntries | src/main.py:54-62 | on success the output has the input's length and record i holds the directory name or fallback of entry i's id and the label of entry i's code |
| StockChecker.RecordsAreResolvedOrFallback | src/main.py:55-62 | every store name is a directory value or starts with `Store ID `, and every status is one of the four labels |
| StockChecker.NoEntriesNoRecords | src/main.py:54 | a response without `stockLevels`, or with an empty list there, gives the empty result and no exception |
| StockChecker.WellFormedResponseParses | src/main.py:54-57 | a response whose `stockLevels` is a list parses without exception exactly when every element is a dict with scalar or absent `storeId` and `stockLevel` |
| StockChecker.IntegerIdsFallBack | src/main.py:57 | an integer store id never hits the string-keyed directory and falls back to `Store ID ` and its digits; different integer ids give different names |
| StockChecker.MissingIdFallsBack | src/main.py:55-57 | an entry without `storeId` gets the name `Store ID None` |
| StockChecker.TwoStoresExample | src/main.py:36-64 | entries 723/G and 999/R with a directory naming only 723 give Boots Oxford Street/In Stock then Store ID 999/Out of Stock, in that order |
| StockChecker.StatusLine | src/main.py:94 | a printed line is `Store: `, then the store name, then `, Stock Status: `, then the status, and nothing else |
| StockChecker.Output | src/main.py:89-96 | a falsy fetched value (including `None` and an empty dict) prints only the no-data message; a truthy non-dict raises AttributeError; a dict prints output exactly when parsing succeeds and otherwise dies with the parser's exception; the output is the header and then, at line i + 1, the status line of record i |
| StockChecker.PrintedLines | src/main.py:92-94 | the printed lines are the header followed by `Store: <name>, Stock Status: <status>` for each record in order |
| StockChecker.Report | src/main.py:89-96 | the script's parse-and-print step produces exactly what `Output` specifies |
| StockChecker.FailedRequestPrintsNoData | src/main.py:86-96 | a non-200 status, an undecodable body or a transport failure makes the parse-and-print step print only the no-data message, without parsing |

## Left out

- The HTTP request itself (URL, headers, the JSON payload `{productIdList, storeIdList}`) and the network: the outcome of the request is a parameter (`HttpOutcome`).
- CheckStock: assumes a body that is not JSON raises an exception the handler catches (true of current versions of the HTTP library, where the decode error is a request exception); with older versions it would escape instead.
- The diagnostic output of `check_stock` on failure (status code, body text, exception message).
- Printing to standard output: the script's output is modelled as the list of lines it prints.
- Any number Python decodes to a float (a fraction, an exponent such as `1e3`, `NaN`, `Infinity`) and its rendering: numbers are integers here.
- The key order of a dict: only whether a dict under `stockLevels` is empty matters, because iterating a non-empty one fails at its first key.
- Dictionary keys other than strings in the store directory: the directory is a string-to-string map, as in the script's constant.
- Rendering of a list or dict store id: such an id raises TypeError at the lookup, so its text never reaches the result.
