# OHLCV fetch layer — a Dafny model

This project models `data/fetch_data.py`, the module that fetches daily or
intraday price bars (open, high, low, close, adjusted close, volume) for a
ticker. There are two providers: Polygon.io, which needs an API key, and
Yahoo Finance. Every part of the module is modelled:

- a fifteen-minute in-memory cache;
- a dispatcher that can fall back from Polygon to Yahoo;
- the Polygon adapter (`_polygon_aggs`, `_fetch_polygon`): the key check,
  the date defaults, the interval mapping, the reply checks and the bar
  table;
- the Yahoo adapter (`_fetch_yahoo`): the download and its emptiness check;
- a column normaliser (`_normalize_df`);
- a cache-key builder (`_cache_key`);
- `latest_close_date`.

## Modules

- `Outcomes`: optional values, one error constructor per exception the
  module raises, and a `Result` type. Each raise becomes an `Err`.
- `Text`: the Python string methods the module relies on:
  - `lower`, `upper` and `title`, with case mapping on ASCII letters only;
  - `strip`, which removes every character Python's `isspace()` accepts;
  - code-point string order;
  - `"|".join`, with a splitting inverse.
- `Calendar`: day numbers and `date.isoformat()`. These give the default
  request window: today, and today minus `365 * 2` days.
- `Frames`: the DataFrame as columns plus rows. Each row has an ordered
  index value and one optional cell per column, where `None` is NaN. This
  module also holds `dropna`, `sort_index` and `latest_close_date`.
- `Normalization`: `_normalize_df`.
- `CacheKeys`: `_cache_key` and the key that `fetch_ohlcv` builds.
- `Providers`: `_polygon_aggs`, `_fetch_polygon` and `_fetch_yahoo`.
- `Fetch`: `fetch_ohlcv`.
  - The cache is the class `OhlcvCache`, whose one field is the key-to-entry
    map that the source keeps in `_CACHE`.
  - `FetchOhlcv` is the imperative method. It does the lookup, then the
    `df` / `try` / `except` sequence (as `AskProviders`), then the write.
  - The method is proved equal to the state-transition function
    `FetchStep`, and the cache and dispatch properties are lemmas about
    `FetchStep`.

## Parameters and traces

Everything outside the module comes in as a parameter, in a `World` value:

- the `POLYGON_API_KEY` value;
- the clock, both in seconds and as the UTC day number;
- the date parser;
- a function that answers a Polygon aggregates request;
- a function that answers a Yahoo download.

Each adapter returns its outcome together with the requests it sent. The
dispatch properties ("`yahoo` never asks Polygon") are therefore statements
about that trace. The fallback warning printed at line 150 becomes a boolean.

## Behaviour of the code worth knowing

- The synonym keys of lines 42-50 are all lower-case, and line 51 title-cases
  every name before line 52 renames. So no synonym can ever match
  (`Normalization.RenameIsDead`).
- `_normalize_df` neither sorts nor removes duplicate dates. Only line 98, on
  the Polygon path, sorts. The model proves that normalisation keeps the
  surviving rows in input order (`Normalization.NormalizeRows`) and that
  Polygon tables ascend by time (`Providers.AggsFrameSpec`), and nothing
  more.
- Fields that contain `|` can give two different requests the same key
  (`CacheKeys.FetchKeyCollision`). Without `|` in any field the key is
  injective (`CacheKeys.FetchKeyInjective`).
- Only `1m`, `1min` and `minute` (in any case) give minute bars (line 112).
  Every other interval, `1h` included, gives day bars.
- A Yahoo download that has rows but no `Close` value passes the emptiness
  check of line 72. The `dropna` at line 56 then removes every row, and the
  empty table is returned and cached at lines 156-157
  (`Fetch.YahooEmptyResult`). A success that comes from Polygon always has
  rows (`Fetch.PolygonResultNonEmpty`).
- A provider made only of white space is not `auto`. `provider or "auto"`
  sees a non-empty string, and stripping leaves the empty name, which asks
  no provider (`Fetch.BlankProviderNotAuto`).

## Model

Below, "the separator" is the `|` character that `_cache_key` joins with.

| member | source | states |
|---|---|---|
| CacheKeys.CacheKeyOrder | data/fetch_data.py:32-33 | with distinct names, the key is the `name=value` texts in any ascending-name arrangement of the fields, joined by the separator; the sorted order is unique |
| CacheKeys.SortByNameSpec | data/fetch_data.py:33 | `sorted(kw.items())` on distinct names is strictly ascending by name and a permutation of the fields |
| CacheKeys.FetchKeyLayout | data/fetch_data.py:138 | the `fetch_ohlcv` key always lists end, interval, provider, start, ticker in that order |
| CacheKeys.FetchKeyInjective | data/fetch_data.py:32-33 | when no field contains the separator, equal keys mean all five fields are equal |
| CacheKeys.FetchKeyCollision | data/fetch_data.py:32-33 | an end date and an interval that trade an `interval=` segment (with its separator) give the same key |
| CacheKeys.FetchKeyCollisionExample | data/fetch_data.py:138 | a concrete pair of different AAPL requests that share a key |
| Text.SplitJoin | data/fetch_data.py:33 | splitting a join of separator-free parts gives the parts back |
| Text.JoinInjective | data/fetch_data.py:33 | a join of separator-free parts determines the parts |
| Text.CaseFolding | data/fetch_data.py:137-138 | `lower(upper(s)) == lower(s)` and `upper(lower(s)) == upper(s)` |
| Text.StripResult | data/fetch_data.py:51 | `strip()` returns the middle slice of the input with no white space at either end, and only white space is removed |
| Text.StripPadded | data/fetch_data.py:137 | any white space added at either end does not change what `strip()` returns |
| Text.TitleIdempotent | data/fetch_data.py:51 | `title()` applied twice equals `title()` applied once |
| Text.TitleCasedFixed | data/fetch_data.py:51 | a title-cased name is unchanged by `title()` |
| Text.StrLessTotal | data/fetch_data.py:33 | the string order `sorted` uses is total on distinct strings (also irreflexive and transitive: StrLessIrreflexive, StrLessTransitive) |
| Fetch.KeyIgnoresCase | data/fetch_data.py:137-138 | lower- or upper-casing the ticker, or upper-casing the provider, does not change the key |
| Fetch.KeyIgnoresPadding | data/fetch_data.py:137-138 | any white space around a non-empty provider does not change the key |
| Fetch.BlankProviderNotAuto | data/fetch_data.py:137 | any non-empty provider made only of white space becomes the empty name, not `auto` |
| Fetch.ProviderDefault | data/fetch_data.py:137 | a missing or empty provider means `auto` |
| Fetch.KeyOfInjective | data/fetch_data.py:137-138 | requests free of the separator share a key only when ticker (upper-cased), dates, interval and provider name agree |
| Fetch.CacheGetAfterPut | data/fetch_data.py:139-140 | an entry written at `now` answers a lookup at `later` with its table exactly while `later - now < 900`, and is a miss afterwards |
| Fetch.CacheGetOtherKey | data/fetch_data.py:139-140 | writing under one key does not change the lookup of another |
| Fetch.OhlcvCache.Lookup | data/fetch_data.py:139-140 | the lookup answers as `CacheGet` on the current entries |
| Fetch.OhlcvCache.FetchOhlcv | data/fetch_data.py:120-158 | the result, the provider requests, the warning and the new cache contents are those of `FetchStep` on the old contents |
| Fetch.AskProviders | data/fetch_data.py:142-156 | the imperative try/except sequence computes what `Dispatch` says |
| Fetch.FetchMiss | data/fetch_data.py:139-157 | on a miss the outcome is the dispatch outcome, and a success is stored under the key stamped `now` |
| Fetch.FetchHit | data/fetch_data.py:139-140 | a fresh entry is returned, no provider is asked, no warning is printed and the cache is unchanged |
| Fetch.FetchWrite | data/fetch_data.py:142-157 | on a miss, the entry under the key becomes the returned table stamped `now` exactly on success; a failure leaves the cache unchanged; no key is removed; other keys are untouched |
| Fetch.FetchExpired | data/fetch_data.py:139 | a stale entry is ignored, not removed: the call behaves as on an empty cache, and a failure keeps the stale entry |
| Fetch.FetchRepeat | data/fetch_data.py:139-157 | after a successful miss, the same request within the TTL, as long as its key is unchanged (always on the same day; on any day when both dates are given), is a hit with the same table and no requests |
| Fetch.YahooOnly | data/fetch_data.py:143-154 | `yahoo` sends exactly one Yahoo request and no Polygon request, does not warn, and returns `_fetch_yahoo`'s outcome |
| Fetch.PolygonOnly | data/fetch_data.py:143-149 | `polygon` sends only Polygon requests, does not warn, and returns or re-raises `_fetch_polygon`'s outcome |
| Fetch.PolygonAttemptNormal | data/fetch_data.py:156 | normalising a successful Polygon table again changes nothing; the table has rows, and exactly one request was sent |
| Fetch.PolygonResultNonEmpty | data/fetch_data.py:143-156 | a `polygon` or `auto` call that Polygon answers returns a table with at least one row |
| Fetch.YahooEmptyResult | data/fetch_data.py:72-74 | a `yahoo` download with rows but no `Close` value succeeds with no rows, and that empty table is cached under the key |
| Fetch.AutoPolygon | data/fetch_data.py:143-156 | `auto` with a working Polygon returns Polygon's table after one Polygon request, without a warning |
| Fetch.AutoFallback | data/fetch_data.py:143-154 | `auto` after any Polygon failure warns, then asks Yahoo, and Yahoo's success or failure is the result |
| Fetch.AutoWithoutKey | data/fetch_data.py:143-154 | `auto` without a key warns and sends only the Yahoo request |
| Fetch.UnknownProvider | data/fetch_data.py:143-156 | any other provider name asks nobody, fails, and leaves the cache unchanged |
| Fetch.DispatchShapes | data/fetch_data.py:142-156 | the requests sent are none, one, or a Polygon request then a Yahoo request; the warning is printed exactly when `auto` falls back |
| Fetch.CallShapes | data/fetch_data.py:139-156 | the same for a whole call, where a hit sends nothing and does not warn |
| Frames.LatestCloseDate | data/fetch_data.py:36-37 | on a non-empty table the result is the index of one of its rows |
| Frames.LatestCloseDateIsLatest | data/fetch_data.py:36-37 | on a table sorted by index, no row's index exceeds the latest close date |
| Frames.SortByIndexSpec | data/fetch_data.py:98 | `sort_index()` is ascending and a permutation of the rows |
| Frames.KeepValuedAppend | data/fetch_data.py:56 | `dropna` distributes over concatenation, so kept rows keep their relative order |
| Frames.KeepValuedComplete | data/fetch_data.py:56 | every row with a value at the column survives `dropna` |
| Frames.CanonicalIdempotent | data/fetch_data.py:51 | `strip().title()` applied twice equals `strip().title()` applied once |
| Normalization.Normalize | data/fetch_data.py:40-56 | the only failure is the missing `Close` column |
| Normalization.RenameIsDead | data/fetch_data.py:42-52 | the synonym map never renames a title-cased name |
| Normalization.NormalizeColumns | data/fetch_data.py:51-54 | success exactly when `Close` is among the title-cased names; then every output name is a fixed point of `strip().title()`, the columns are the title-cased names with `Adj Close` appended when it was absent, and both price columns are present |
| Normalization.NormalizeRows | data/fetch_data.py:54-56 | the output rows are the input rows with a `Close` value, in input order, extended by the copied `Adj Close` when it was synthesised |
| Normalization.NormalizeCloseValues | data/fetch_data.py:53-56 | no output row lacks `Close`; a synthesised `Adj Close` equals `Close` row for row |
| Normalization.NormalizeFixed | data/fetch_data.py:40-56 | a frame with canonical names, both price columns and no missing `Close` is returned unchanged |
| Normalization.NormalizeIdempotent | data/fetch_data.py:51-56 | normalising a normalised frame changes nothing, so the second normalisation on the Yahoo path (lines 74 and 156) is harmless |
| Normalization.NormalizeDropsAll | data/fetch_data.py:56 | when no row holds a `Close` value, normalisation succeeds with no rows |
| Normalization.NormalizeDropsAllExample | data/fetch_data.py:51-56 | a one-column `Close` table whose only cell is missing normalises to the columns `Close, Adj Close` and no rows |
| Providers.AggsFrameSpec | data/fetch_data.py:92-98 | the Polygon table has the six columns in order and one row per bar (as a permutation), ascending by time, fully populated, with `Adj Close` equal to `Close` |
| Providers.AggsFrameLatest | data/fetch_data.py:36-37 | the latest close date of a Polygon table is the largest bar time and is a bar's time |
| Providers.NormalizeAggsFrame | data/fetch_data.py:92-98 | a Polygon table passes through `_normalize_df` unchanged |
| Providers.PolygonColumnPositions | data/fetch_data.py:98 | `Close` is at position 3 and `Adj Close` at position 4 |
| Providers.PolygonAggsOutcome | data/fetch_data.py:80-90 | one request goes out, for the upper-cased ticker with `adjusted=true`, `sort=asc`, `limit=50000` and a 30-second timeout; success exactly on a 200 reply with non-empty JSON `results`; each failure names its cause |
| Providers.PolygonAggsSuccess | data/fetch_data.py:92-98 | a success is a non-empty, sorted, normalised table of the six columns with `Adj Close` equal to `Close` |
| Providers.TimespanIgnoresCase | data/fetch_data.py:112 | the interval mapping ignores case |
| Providers.TimespanExamples | data/fetch_data.py:112-114 | `1M` and `MINUTE` give minute bars; `1h` and `5m` give day bars |
| Providers.FetchPolygonNoKey | data/fetch_data.py:103-104 | without a key the fetch fails before any request |
| Providers.FetchPolygonRequest | data/fetch_data.py:101-114 | a request goes out exactly when the key is set and both dates parse, carrying the parsed or default dates and the mapped interval; otherwise the first problem is the error |
| Providers.NormDateNonEmpty | data/fetch_data.py:108-110 | a parsed date is never empty, so `or` supplies a default only for a missing date |
| Providers.FetchYahooOutcome | data/fetch_data.py:62-74 | one download with the fixed options; success exactly on a non-empty table with a `Close` column after title-casing; the result is normalised, has both price columns and no missing `Close` |
| Calendar.IsoDateExamples | data/fetch_data.py:109-110 | day 0 is `1970-01-01`, and day 19782 is the leap day `2024-02-29` |
| Calendar.IsoDateLength | data/fetch_data.py:108-110 | an ISO date is at least ten characters long |

## Left out

- Network I/O: the Polygon URL string, `requests.get` and `yf.download` are not modelled. The model keeps the request's fields and the reply's status, body and decoded `results`.
- Environment and clock: `os.getenv`, `time.time()` and `datetime.utcnow()` are `World` fields.
- Fetch.OhlcvCache.FetchOhlcv: the two `_now()` readings (lines 139 and 157) are taken as one instant, and the several `utcnow()` readings as one day.
- The date parser (`dateparser.parse`) is a parameter that returns a day number or rejects the text. `pd.to_datetime` on the index (lines 55 and 93) is the identity on the model's ordered stamps.
- Providers.PolygonAggs: bars that lack `t` or a price field, and JSON whose `results` is not a list of bars, are not modelled. Every decoded bar carries all six fields.
- Providers.AggsFrame: `sort_index()` is modelled as a stable sort. Pandas' default sort is not stable for equal timestamps, so the order of tied bars is not captured.
- Text.Lower, Text.Upper, Text.Title: case mapping covers ASCII letters only; other characters are left unchanged.
- Frames.Frame: column names that coincide after `strip().title()` create duplicate labels in pandas. The model excludes such frames through the subset type.
- pandas details are not modelled: copy semantics (`.copy()` at lines 140 and 157; values are immutable here), MultiIndex columns from yfinance, and dtypes.
- Prices are opaque `real` values, and nothing computes with them.
- The `print` warning at line 150 is the `warned` flag. The exception text is not kept, only the error's kind and data.
- Concurrency: the module has none, and none is modelled.
- main.py (HTTP endpoints), test_fetch_data.py (live-network checks) and data__init__.py (re-exports) are not part of this model.
