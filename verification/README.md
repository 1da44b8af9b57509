# SolarEdge energy table — a Dafny model

`solar_output.py` fetches a solar site's energy history from the SolarEdge
monitoring API and prints it as a two-column text table. This project models the
part of the script that does not touch the outside world:

- **Response formatter** (`response_formatter.dfy`, module `ResponseFormatter`):
  the date cell (`print_d`: first ten characters, or `No data`), the value cell
  (`print_v`: the value truncated toward zero as decimal text, or `No data`), the
  table (`output_table`: a fixed two-line header, then one row per sample, in
  order), and the status dispatch (`handle_request`). `OutputTable` is a method
  with a loop that builds the text step by step, as the script does. It is proved
  equal to the function `Table`, and the properties are proved about `Table`.
- **Table properties** (`table_properties.dfy`, module `TableProperties`): the
  empty table, appending a sample, where row `i` sits, how many lines a table
  has, that the header occurs once and only at the front, the cell rules, and the
  worked example of a two-sample response.
- **Decimal text** (`decimal.dfy`, module `Decimal`): Python's `str(int(v))` on
  a number. `TruncateTowardZero` is written out, because `Floor` alone rounds
  negative values down. `IntToString` produces the text. `ParseInt` is its
  independent partner, and the round trip between them is proved.
- **Configuration loader** (`config_loader.dfy`, module `ConfigLoader`):
  `load_config` after the file is parsed. It adds the endpoint address derived
  from `site_id` and keeps every other setting.
- **Request builder** (`request_builder.dfy`, module `RequestBuilder`):
  `build_request` up to the network call. It produces the endpoint address and
  exactly four query parameters.
- `wrappers.dfy` holds `Option` and `Result`.

The configuration is a `map<string, string>` that has already been parsed. A
sample's value is a mathematical `real`. The two dates come from a `daysBack`
function that the caller passes in, because the script computes them from the
clock.

Three behaviours of the code shape the model:

- A response whose status is not 200 reaches `solar_output.py:62`, which adds
  an `int` to a `str` and so raises `TypeError`. `HandleRequest` therefore fails
  with `StatusConcatenation` and never returns text for such a response. The
  evidently intended line `Response status: <code>` is modelled beside it (see
  Findings).
- An empty date string gives `""[:10]`, an empty date cell. `PrintD` keeps that
  behaviour.
- A sample without a `date` or `value` key makes `d['date']` or `d['value']`
  raise `KeyError`; only a JSON `null` renders `No data`. In the model, `None`
  stands for `null`.

## Model

| member | source | states |
|---|---|---|
| `Decimal.TruncateTowardZero` | solar_output.py:36 | `int(v)` drops the fraction toward zero: a non-negative result at most `v` and within one below it, or a non-positive result at least `v` and within one above it |
| `Decimal.TruncateIsOdd` | solar_output.py:36 | truncating `-v` gives minus the truncation of `v`, unlike `Floor` |
| `Decimal.TruncateKeepsIntegers` | solar_output.py:36 | an integer-valued input is unchanged |
| `Decimal.NatToString` | solar_output.py:36 | decimal text of a natural number: non-empty, only digits, a leading `0` only for zero, and no leading zero when there is more than one digit |
| `Decimal.IntToString` | solar_output.py:36 | decimal text of an integer: non-empty, digits with a leading minus exactly when the number is negative, no leading zero after the minus or on a multi-digit number |
| `Decimal.NatToStringRoundTrip` | solar_output.py:36 | reading the digits of a natural number's text gives back the number |
| `Decimal.IntToStringRoundTrip` | solar_output.py:36 | `ParseInt(IntToString(i)) == Some(i)` for every integer |
| `Decimal.IntToStringInjective` | solar_output.py:36 | distinct integers get distinct texts |
| `ResponseFormatter.PrintD` | solar_output.py:41-46 | a missing date gives `No data`; a present date gives its prefix of length `min(10, len)` |
| `ResponseFormatter.PrintV` | solar_output.py:33-38 | a missing value gives `No data`; a present value gives the canonical decimal text of the value truncated toward zero (`IntToString`: sign only when negative, no leading zero), which reads back as that integer |
| `ResponseFormatter.TableAppend` | solar_output.py:53-54 | appending a sample appends exactly its row to the table: the date cell, a bar between two spaces, the value cell, and a line break |
| `ResponseFormatter.TableOfPrefix` | solar_output.py:51-54 | the table of no samples is the title line followed by the rule line, and the table of the first `i` samples is that of the first `i - 1` followed by row `i` |
| `ResponseFormatter.OutputTable` | solar_output.py:49-55 | the text built by the loop equals the header followed by the rows of all samples (`Table`) |
| `ResponseFormatter.HandleRequest` | solar_output.py:58-62 | a table exactly when the status is 200 and the body has `energy.values`, and then the table of those samples; any other status fails with the str-plus-int error; status 200 without the list fails as a payload-shape error |
| `ResponseFormatter.HandleRequestIntended` | solar_output.py:58-62 | the corrected dispatch: status 200 gives exactly what `HandleRequest` gives (the table, or the payload-shape failure when the list is missing); any other status gives `Response status: ` followed by the canonical decimal text of the status code (`IntToString`), which reads back as the code |
| `ResponseFormatter.StatusLineExample` | solar_output.py:62 | for status 403 the code as written fails, while the corrected dispatch gives `Response status: 403` |
| `TableProperties.TableOfNoSamples` | solar_output.py:51-52 | the table of no samples is exactly the header: a line break, the `Date`/`Wh` title line, and the dashed rule line, each line ending in a line break |
| `TableProperties.RowsConcat` | solar_output.py:53-54 | the rows of two lists joined are the rows of the first followed by the rows of the second |
| `TableProperties.TableRowAt` | solar_output.py:53-55 | the table is the table of the first `i` samples, then row `i`, then the rows of the later samples, so no sample is dropped or reordered |
| `TableProperties.RowNewlines` | solar_output.py:54 | a row whose date cell (the first ten characters of the date) has no line break contains exactly one line break |
| `TableProperties.HeaderNewlines` | solar_output.py:51-52 | the header contains exactly three line breaks |
| `TableProperties.TableLineCount` | solar_output.py:51-55 | with single-line dates, a table of `n` samples has `n + 3` line breaks: one per header line and one per sample |
| `TableProperties.TableEndsWithNewline` | solar_output.py:51-54 | every table is non-empty and ends with a line break |
| `TableProperties.RowBars` | solar_output.py:54 | a column bar in a row lies inside the date cell or is the separator, which follows a space |
| `TableProperties.RuleMarkOnlyInRule` | solar_output.py:51-55 | eleven dashes followed by a bar occur in a table only where the header's rule line starts |
| `TableProperties.HeaderAt` | solar_output.py:51-55 | wherever the header occurs in a table, it starts at position zero |
| `TableProperties.HeaderOnlyAtStart` | solar_output.py:51-55 | the header is a prefix of every table and occurs nowhere else in it |
| `TableProperties.PrintDIdempotent` | solar_output.py:44 | cutting a date cell to ten characters a second time changes nothing |
| `TableProperties.PrintVDistinguishes` | solar_output.py:33-38 | a present value never renders as `No data`, and two values render alike exactly when both are missing or both truncate to the same integer |
| `TableProperties.CellExamples` | solar_output.py:33-46 | `1234.9` gives `1234`, `-0.5` gives `0`, `-7.0` gives `-7`, `2024-01-01T00:00:00` gives `2024-01-01`, and missing fields give `No data` |
| `TableProperties.TableExample` | solar_output.py:49-55 | a dated sample of 1234.9 Wh followed by an all-null sample renders as the header, then the row for `2024-01-01` and `1234`, then the row with `No data` in both cells |
| `ConfigLoader.AddressRoundTrip` | solar_output.py:22-23 | the site identifier can be read back from the derived address, so distinct sites get distinct addresses |
| `ConfigLoader.LoadConfig` | solar_output.py:17-25 | fails with a missing-key error exactly when `site_id` is absent; otherwise the keys are the old keys plus `address`, `address` is the site's endpoint, and every other setting is unchanged |
| `RequestBuilder.BuildRequest` | solar_output.py:65-72 | succeeds exactly when all settings are present, both offsets are integers and `daysBack` turns each into a date, and otherwise fails at the first problem in the script's order (`site_id`, `api_key`, `start`, its date, `end`, its date, `unit`), with a date that leaves the calendar reported as out of range; on success the target is the site's endpoint and the parameters have exactly the keys `api_key`, `startDate`, `endDate` and `timeUnit`, holding the API key, the two computed dates and the unit |

## Left out

- The HTTP GET (`requests.get`, solar_output.py:73). `BuildRequest` returns the address and parameters it would pass.
- Decoding the response body (`r.json()`, solar_output.py:60). A `Response` carries the already-decoded `energy.values` list, or `None` when the body has no such list.
- Absent `date` or `value` keys in a sample. Python raises `KeyError` for these; the model's `None` is a JSON `null`.
- Dates that are not strings, and values that are not numbers. `int()` accepts some of these: the string `"12"` renders as `12` and `true` as `1`. Others make Python raise `TypeError` or `ValueError`. The model's value is always a number.
- Reading the configuration file and `json.load` (solar_output.py:19-20). The model starts from the parsed map, and every setting is text.
- `daysback` (solar_output.py:28-30). It depends on the clock and on calendar arithmetic, so it is the `daysBack` parameter. That parameter returns `None` where `timedelta` or the date addition raises `OverflowError` (an offset beyond 999999999 days, or a date outside years 1 to 9999), and `BuildRequest` then fails with `DateOutOfRange`. The `YYYY-MM-DD` shape of the dates is not modelled.
- BuildRequest: reads the `start` and `end` offsets with `Decimal.ParseInt`, which accepts an optional minus sign followed by ASCII digits. Python's `int()` also accepts surrounding whitespace, a plus sign, underscores and decimal digits of other scripts, and truncates a JSON number such as `7.9` to `7`. Every setting is text in the model, and those texts fail there.
- TableLineCount: holds only when no date cell, the first ten characters of the date, contains a line break. Each line break within those ten characters adds a line to the table; line breaks after them are cut off.
- IEEE floating point. Values are mathematical reals, so NaN and infinity, which make `int(v)` raise, do not arise. Python also rounds a JSON decimal to the nearest binary float before `int()` sees it: `2.9999999999999999` becomes `3.0` and prints `3`, while the model truncates the exact real and prints `2`.
- The top-level `print` of the result (solar_output.py:76).

## Findings

| source | as written | input that shows it | evidently intended | confidence | as-written member | corrected member |
|---|---|---|---|---|---|---|
| solar_output.py:62 | `'Response status: ' + r.status_code` adds an `int` to a `str`, which raises `TypeError` | any response whose status is not 200, e.g. 403 | return the line `Response status: 403` | high (not executed) | `ResponseFormatter.StatusLineExample` (about `ResponseFormatter.HandleRequest`) | `ResponseFormatter.HandleRequestIntended` |
