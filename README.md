# Weather fetch script: a Dafny model

This project models the core of `codigo/busca_clima.py`, a command-line script
that fetches current weather and a 5-day forecast from OpenWeather for a list of
cities. For each city it dumps the raw JSON to `raw/<query>_<stamp>.json` and
appends flattened rows to a cumulative `weather.csv`.

The model covers these parts of the script:

- `get_api_key`: the API key is taken from `--api-key`, then the
  `OPENWEATHER_API_KEY` environment variable, then `config.local.json`.
- `parse_cities`: the inline `--cities` string is split on `;` and stripped.
  Each row of the `--cities-file` table becomes a `name,state,country` query.
  The run stops when no city is found.
- The row-building half of `append_to_csv`: one `current` row when the current
  payload is truthy, then one `forecast` row per entry of the forecast `list`.
  It reproduces Python's defaulting idioms (`d.get(k, {})`, `(d.get(k, {}) or {})`,
  `(d.get("weather", [{}]) or [{}])[0]`). A missing field gives an absent
  value. The row fails when a nested value has the wrong type and Python
  reads through it. For `main`, `wind`, `rain` and `weather` that means a value
  that is truthy and is not a dict (or, for `weather`, not a list whose first
  entry is a dict); falsy values such as `0` or `{}` are tolerated. For `coord`
  it means any value that is present and not a dict, `null` included.
- The header-once append: a new table gets the header and the rows, and an
  existing table gets the rows only.
- The loop of `main`: fetch, save the raw dump under the sanitised file name,
  then append the rows. A failure stops the run.

Modules:

- `Wrappers`: `Option` and `Result`.
- `Text`: Python's `strip`, `split` and `join`.
- `JsonValues`: decoded JSON and the defaulting idioms.
- `Credentials`: the API-key lookup.
- `Cities`: the city list.
- `Normalise`: bundle to rows.
- `Output`: the output directory, the CSV table and the run.

The script's crashes are modelled as error results:

- `ShortRow`: `.strip()` on the `None` that `csv.DictReader` puts in a short row's cells.
- `ConfigNotObject`: `.get` on a config file that is not a JSON object.
- `Malformed`: `.get` or indexing on a payload value of the wrong type.

The run lemmas in `Output` are stated for any normaliser, passed as a function
value. `OutputDir.Run` uses the script's normaliser, `Normalise.BundleRows`.

## Model

| member | source | states |
|---|---|---|
| Text.StripSpec | codigo/busca_clima.py:48 | `strip()` returns a contiguous piece of its input with no space at either end. It is empty exactly when the input is all whitespace, and stripping twice equals stripping once. |
| Text.StripCut | codigo/busca_clima.py:48 | Everything `strip()` cuts off, at either end, is whitespace. |
| Text.Split | codigo/busca_clima.py:48 | `split(sep)` returns at least one piece, and no piece contains the separator. |
| Text.JoinSplit | codigo/busca_clima.py:48 | Joining the pieces of `s.split(sep)` with `sep` gives `s` back. |
| Text.SplitJoin | codigo/busca_clima.py:58 | Joining separator-free pieces and splitting again gives the same pieces. |
| Credentials.ResolveApiKey | codigo/busca_clima.py:28-42 | A key is always truthy and comes from the CLI, the environment or the config entry. The config crash happens exactly when neither the CLI nor the environment gives a key and the config file is not a JSON object. |
| Credentials.HigherSourceWins | codigo/busca_clima.py:29-41 | The CLI key beats the environment, and the environment beats the config file, whatever the lower sources hold. |
| Credentials.MissingKeyExactly | codigo/busca_clima.py:37-42 | The run stops for a missing key exactly when no source holds a truthy key. |
| Cities.InlineQueriesAreEntries | codigo/busca_clima.py:46-49 | Every inline query is non-empty, stripped and free of `;`. |
| Cities.InlineRoundTrip | codigo/busca_clima.py:46-49 | Parsing valid entries joined with `;` gives the same entries back, in the same order. |
| Cities.KeepStrippedAppend | codigo/busca_clima.py:48 | Filtering the stripped chunks distributes over concatenation, so the chunks keep their order. |
| Cities.NonEmpty | codigo/busca_clima.py:58 | The filter `[x for x in ... if x]` is never longer than its input, keeps only non-empty parts, and keeps every non-empty part. |
| Cities.NonEmptyAppend | codigo/busca_clima.py:58 | The filter distributes over concatenation, so the kept parts stay in their original order. |
| Cities.RowQuerySpec | codigo/busca_clima.py:54-58 | A row gives a query exactly when its cells are present. The query is empty exactly when all three cells are blank. Without commas in the cells, splitting the query on `,` gives the non-blank cells in order. |
| Cities.CuritibaWithoutState | codigo/busca_clima.py:55-58 | A row with name "Curitiba", no state column and country "BR" gives "Curitiba,BR". |
| Cities.CuritibaBlankState | codigo/busca_clima.py:56-58 | A blank state cell is left out of the query. |
| Cities.FileQueriesFailFast | codigo/busca_clima.py:54-57 | One short row makes the whole table fail, whatever follows it. |
| Cities.FileQueriesNonBlank | codigo/busca_clima.py:59-60 | Every query taken from the table is non-empty. |
| Cities.FileQueriesIsShortRow | codigo/busca_clima.py:55-57 | The only way the table can fail is the short-row crash. |
| Cities.CityQueriesSpec | codigo/busca_clima.py:44-63 | A success is non-empty, lists the inline queries first and the table's after them, and without a table is just the inline queries. The short-row error happens exactly when the table fails. "No cities" happens exactly when both sources are empty. |
| Cities.CollectInline | codigo/busca_clima.py:46-49 | The inline loop returns exactly the stripped, non-blank `;`-chunks, in order. |
| Cities.CollectFile | codigo/busca_clima.py:50-60 | The table loop appends the table's queries to what it was given, or fails with the short-row error exactly when the table fails. |
| Cities.ParseCities | codigo/busca_clima.py:44-63 | `parse_cities` returns exactly the result the lemmas above characterise. |
| JsonValues.DefaultsOnMissingKey | codigo/busca_clima.py:99-108 | A missing key never fails: it gives `{}` for dictionaries, `None` for scalars and `[{}]` for the weather list. |
| Normalise.CurrentRowsSpec | codigo/busca_clima.py:92-109 | The bundle has one current row exactly when its current payload is truthy. That row is tagged "current" and carries the bundle's query and fetch time. |
| Normalise.ForecastRowsSpec | codigo/busca_clima.py:113-130 | The forecast loop gives one row per list entry, in list order, each tagged "forecast". |
| Normalise.ForecastRowsFailFast | codigo/busca_clima.py:113-130 | A failing forecast entry fails the whole list. |
| Normalise.ForecastPartSpec | codigo/busca_clima.py:112-130 | The forecast rows are, position by position, the rows of the `list` entries. |
| Normalise.BundleRowsShape | codigo/busca_clima.py:87-130 | The rows number the current row (when present) plus the forecast entries. The current row comes first with the "current" tag. Then come the forecast rows in list order with the "forecast" tag. Every row keeps the bundle's query and fetch time. |
| Normalise.CurrentRowsOkIff | codigo/busca_clima.py:92-109 | The current rows fail exactly in these cases: the `current` payload is truthy and not a dict; its `coord` is present and not a dict (`null` included); or its `main`, `wind`, `rain` or `weather` is truthy and not a dict (for `weather`, not a list whose first entry is a dict). |
| Normalise.ForecastRowOkIff | codigo/busca_clima.py:114-130 | When the forecast's `city` object and its `coord` are readable, an entry fails exactly in two cases: it is not a dict, or one of its `main`, `wind`, `rain` or `weather` values is truthy with the wrong shape. |
| Normalise.ForecastRowsOkIff | codigo/busca_clima.py:113-130 | The forecast loop succeeds exactly when every entry succeeds. |
| Normalise.ForecastPartOkIff | codigo/busca_clima.py:112-130 | The forecast part fails exactly outside the tolerated forecast shapes. The `city` object is read only when the list has entries. |
| Normalise.BundleRowsOkIff | codigo/busca_clima.py:87-130 | Normalisation fails exactly on a bundle outside the tolerated shapes. Missing or empty nested objects never make it fail. |
| Normalise.CurrentMissingFieldsAbsent | codigo/busca_clima.py:99-108 | A missing `main`, `wind`, `rain`, `weather`, `coord` or `name` gives absent values in the current row. |
| Normalise.ForecastMissingFieldsAbsent | codigo/busca_clima.py:119-129 | The same holds for forecast rows, including a missing `pop` or `city`. |
| Normalise.CurrentStep | codigo/busca_clima.py:92-109 | The current-weather block yields exactly the current rows of the bundle. |
| Normalise.ForecastLoop | codigo/busca_clima.py:112-130 | The forecast loop yields exactly the forecast rows of the bundle, or the error of its first bad entry. |
| Normalise.NormaliseRows | codigo/busca_clima.py:87-130 | The row building yields exactly the rows characterised above. |
| Output.AppendedSpec | codigo/busca_clima.py:132-137 | A new table gets exactly one header, in its first line. An append to an existing table adds no header and keeps every earlier line in place. The new rows form the tail, and the table grows by exactly the new rows, plus the header for a new table. |
| Output.AppendedTwice | codigo/busca_clima.py:133-135 | Two appends equal one append of both batches, in order. |
| Output.RowLinesConcat | codigo/busca_clima.py:132 | Writing two batches of rows gives the lines of the first batch, then those of the second. |
| Output.HeaderCountAppend | codigo/busca_clima.py:132-137 | Header counts add up over concatenation. |
| Output.RowLinesHaveNoHeader | codigo/busca_clima.py:135 | Data rows contain no header line. |
| Output.Sanitise | codigo/busca_clima.py:162 | `q.replace(",", "_")` keeps the length and turns each comma into `_`. |
| Output.SanitiseSpec | codigo/busca_clima.py:162 | The raw file's stem has no comma, and a query without commas is its own stem. |
| Output.RunIsAppendOnly | codigo/busca_clima.py:155-167 | Whatever the run's outcome, the earlier table lines stay a prefix, an existing table keeps existing, and no raw dump disappears. |
| Output.RunAllSucceed | codigo/busca_clima.py:155-167 | When every city succeeds, the table is the old one plus every city's rows in processing order. A header is added only when the table was new. |
| Output.TwoCitiesFreshTable | codigo/busca_clima.py:155-167 | Two cities written into a fresh directory give one header, then the first city's rows, then the second's. |
| Output.RunPrefixNext | codigo/busca_clima.py:155-167 | After a completed prefix, one more pass either extends the prefix or, if it aborts, decides the whole run. |
| Output.AbortIsFinal | codigo/busca_clima.py:155-167 | Once a pass fails, later cities change nothing. |
| Output.OutputDir.constructor | codigo/busca_clima.py:152-153 | The output directory starts in the state a run finds it in. |
| Output.OutputDir.SaveRaw | codigo/busca_clima.py:161-164 | The raw dump is stored under its name, replacing any file of that name. The table is unchanged. |
| Output.OutputDir.AppendToCsv | codigo/busca_clima.py:82-137 | On success the table gains the bundle's rows, with the header only when it is new. On failure nothing changes. |
| Output.OutputDir.ProcessCity | codigo/busca_clima.py:156-167 | One loop pass changes the directory exactly as one step of the run. |
| Output.OutputDir.Run | codigo/busca_clima.py:155-167 | The loop leaves the directory and outcome of running every city in order, stopping at the first failure. |

## Left out

- HTTP requests, `urllib`, `time.sleep` and the wall clock are not modelled. Each city's fetch result, fetch time and file stamp are inputs (`Output.Fetch`).
- `datetime.utcfromtimestamp` is not modelled. `ts` keeps the payload's raw `dt` value (0 when missing), so the crash on a non-numeric or null `dt` is not captured.
- Reading files is not modelled. `config.local.json` arrives already decoded, or as `None` when absent, so JSON syntax errors in it are not modelled. The cities table arrives as `csv.DictReader` records; CSV quoting and dialects are not modelled.
- pandas is not modelled. The model does not capture how `DataFrame` takes the union of the row dictionaries' columns, how `to_csv` serialises values, or that a later append whose columns differ from the header's writes misaligned rows. That also happens within one run: the header comes from the first frame ever written, which may lack `rain_3h` and `pop` or be empty. A line is a header or a data row.
- `argparse`, `ensure_dirs`, the progress prints, `--units` and `--lang` are not modelled: they only shape the HTTP request or the console.
- JSON numbers are `real`; floating-point rounding and Python's `int`/`float` distinction are not modelled.
- Python exception types are collapsed. Every payload crash is `Malformed`, and a network or decoding failure of `fetch_city` is `FetchFailed`.
- Output.OutputDir.SaveRaw: writing the raw dump is modelled as always succeeding. In the script, `raw_path.open("w")` raises for a query containing `/` or a file name that is too long. That aborts the run after the fetch and before `append_to_csv`; the model does not capture this failure.
- Overlapping raw file names (two queries with the same sanitised name in the same second) overwrite, as in the script. Concurrent runs writing one directory are not modelled.
