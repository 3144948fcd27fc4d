/** `fetch_ohlcv` (data/fetch_data.py, lines 120-158): request defaults, the
    in-memory cache with a fifteen-minute time to live, and the provider
    dispatch with its Polygon-then-Yahoo fallback. The clock, the environment
    and the two adapters' back ends come in as a `World`; the cache is an
    object whose one field is the key-to-entry map the source keeps in
    `_CACHE`. */
module Fetch {
  import opened Outcomes
  import opened Text
  import opened Calendar
  import opened Frames
  import opened Normalization
  import opened CacheKeys
  import opened Providers

  /** `_TTL_SEC`: entries are served for fifteen minutes. */
  const TTL: int := 15 * 60

  /** One cache entry: when it was written (seconds since the epoch) and the table. */
  datatype Entry = Entry(ts: int, frame: Frame)

  type Store = map<string, Entry>

  /** Everything outside the module: the `POLYGON_API_KEY` value (empty when
      unset), the current time in seconds and the current UTC day number, the
      date parser, the Polygon server and the Yahoo download. */
  datatype World = World(
    apiKey: string, now: int, today: int,
    parseDate: string -> Option<int>,
    polygon: PolygonRequest -> PolygonReply,
    yahoo: YahooRequest -> Download)

  /** The arguments of `fetch_ohlcv`; `None` stands for Python's `None`. */
  datatype Request = Request(
    ticker: string, start: Option<string>, end: Option<string>, interval: string, provider: Option<string>)

  /** What one call of `fetch_ohlcv` returns (or raises), the requests it sent
      to the providers in order, whether it printed the fallback warning, and
      the cache afterwards. */
  datatype Step = Step(result: Result<Frame>, calls: seq<Call>, warned: bool, store: Store)

  /** Line 139: the key is cached and its entry is younger than the TTL. */
  predicate Fresh(store: Store, key: string, now: int) {
    key in store && now - store[key].ts < TTL
  }

  /** Lines 139-140: the cached table when its entry is fresh. */
  function CacheGet(store: Store, key: string, now: int): Option<Frame> {
    if Fresh(store, key, now) then Some(store[key].frame) else None
  }

  /** An entry written at `now` answers a lookup at `later` exactly while it is
      younger than the TTL. */
  lemma CacheGetAfterPut(store: Store, key: string, f: Frame, now: int, later: int)
    ensures CacheGet(store[key := Entry(now, f)], key, later) == if later - now < TTL then Some(f) else None
  {
  }

  /** Writing under one key does not change the lookup of another. */
  lemma CacheGetOtherKey(store: Store, key: string, other: string, e: Entry, now: int)
    requires other != key
    ensures CacheGet(store[other := e], key, now) == CacheGet(store, key, now)
  {
  }

  /** Lines 132-135: a missing end is today, a missing start two years back. */
  function EndOf(req: Request, today: int): string {
    if req.end.None? then IsoDate(today) else req.end.value
  }

  function StartOf(req: Request, today: int): string {
    if req.start.None? then IsoDate(today - DefaultWindowDays) else req.start.value
  }

  /** Line 137: `(provider or "auto").lower().strip()`. */
  function ProviderName(provider: Option<string>): string {
    Strip(Lower(if provider.None? || provider.value == "" then "auto" else provider.value))
  }

  /** Line 138: the cache key of a request. */
  function KeyOf(req: Request, today: int): string {
    FetchKey(Upper(req.ticker), StartOf(req, today), EndOf(req, today), req.interval, ProviderName(req.provider))
  }

  /** Line 146 with the defaulted dates. */
  function PolygonAttempt(req: Request, w: World): Attempt {
    FetchPolygon(req.ticker, Some(StartOf(req, w.today)), Some(EndOf(req, w.today)), req.interval,
                 w.apiKey, w.today, w.parseDate, w.polygon)
  }

  /** Line 154 with the defaulted dates. */
  function YahooAttempt(req: Request, w: World): Attempt {
    FetchYahoo(req.ticker, StartOf(req, w.today), EndOf(req, w.today), req.interval, w.yahoo)
  }

  /** Lines 142-156 on a cache miss. `polygon` re-raises a Polygon failure;
      `auto` swallows it, warns and goes on to Yahoo; a provider name that is
      none of the three leaves no table, and normalising the missing table
      fails. */
  function Dispatch(req: Request, w: World): (r: (Result<Frame>, seq<Call>, bool)) {
    var name := ProviderName(req.provider);
    var tryPolygon := name == "polygon" || name == "auto";
    var p := PolygonAttempt(req, w);
    if tryPolygon && p.result.Err? && name == "polygon" then (p.result, p.calls, false)
    else
      var before := if tryPolygon then p.calls else [];
      var warned := tryPolygon && p.result.Err?;
      if tryPolygon && p.result.Ok? then (Normalize(p.result.value), before, warned)
      else if name == "yahoo" || name == "auto" then
        var y := YahooAttempt(req, w);
        (if y.result.Ok? then Normalize(y.result.value) else y.result, before + y.calls, warned)
      else (Err(NoFrame), before, warned)
  }

  /** One call of `fetch_ohlcv` on cache contents `store`: a fresh entry is
      returned as is; otherwise the providers are asked and a success is
      written under the key, stamped with the current time. */
  function FetchStep(store: Store, req: Request, w: World): Step {
    var key := KeyOf(req, w.today);
    match CacheGet(store, key, w.now)
    case Some(f) => Step(Ok(f), [], false, store)
    case None =>
      var (result, calls, warned) := Dispatch(req, w);
      Step(result, calls, warned, if result.Ok? then store[key := Entry(w.now, result.value)] else store)
  }

  /** The module-level cache `_CACHE` and the function that uses it. */
  class OhlcvCache {
    var entries: Store

    constructor ()
      ensures entries == map[]
    {
      entries := map[];
    }

    /** Lines 139-140. */
    method Lookup(key: string, now: int) returns (hit: Option<Frame>)
      ensures hit == CacheGet(entries, key, now)
    {
      if key in entries && now - entries[key].ts < TTL {
        hit := Some(entries[key].frame);
      } else {
        hit := None;
      }
    }

    /** `fetch_ohlcv`, step by step as lines 132-158 take it. */
    method FetchOhlcv(req: Request, w: World) returns (result: Result<Frame>, calls: seq<Call>, warned: bool)
      modifies this
      ensures Step(result, calls, warned, entries) == FetchStep(old(entries), req, w)
    {
      var end := EndOf(req, w.today);
      var start := StartOf(req, w.today);
      var provider := ProviderName(req.provider);
      var key := FetchKey(Upper(req.ticker), start, end, req.interval, provider);
      var hit := Lookup(key, w.now);
      if hit.Some? {
        return Ok(hit.value), [], false;
      }
      result, calls, warned := AskProviders(req, start, end, provider, w);
      FetchMiss(entries, req, w);
      if result.Ok? {
        entries := entries[key := Entry(w.now, result.value)];
      }
    }
  }

  /** On a miss the call is the providers' answer, written to the cache when
      it is a table. */
  lemma FetchMiss(store: Store, req: Request, w: World)
    requires !Fresh(store, KeyOf(req, w.today), w.now)
    ensures var d := Dispatch(req, w);
      FetchStep(store, req, w) == Step(d.0, d.1, d.2, if d.0.Ok? then store[KeyOf(req, w.today) := Entry(w.now, d.0.value)] else store)
  {
  }

  /** Lines 142-156: ask the providers the name selects, falling back from
      Polygon to Yahoo under `auto`, and normalise what came back. */
  method AskProviders(req: Request, start: string, end: string, provider: string, w: World)
    returns (result: Result<Frame>, calls: seq<Call>, warned: bool)
    requires start == StartOf(req, w.today) && end == EndOf(req, w.today)
    requires provider == ProviderName(req.provider)
    ensures (result, calls, warned) == Dispatch(req, w)
  {
    var df: Option<Frame> := None;
    calls := [];
    warned := false;
    if provider == "polygon" || provider == "auto" {
      var attempt := FetchPolygon(req.ticker, Some(start), Some(end), req.interval,
                                  w.apiKey, w.today, w.parseDate, w.polygon);
      calls := attempt.calls;
      if attempt.result.Err? {
        if provider == "polygon" {
          return attempt.result, calls, false;
        }
        warned := true;
      } else {
        df := Some(attempt.result.value);
      }
    }
    if df.None? && (provider == "yahoo" || provider == "auto") {
      var attempt := FetchYahoo(req.ticker, start, end, req.interval, w.yahoo);
      calls := calls + attempt.calls;
      if attempt.result.Err? {
        return attempt.result, calls, warned;
      }
      df := Some(attempt.result.value);
    }
    if df.None? {
      return Err(NoFrame), calls, warned;
    }
    result := Normalize(df.value);
  }

  // ---------------------------------------------------------------- properties

  /** A fresh entry answers the call: no provider is asked and the cache is
      left as it was. */
  lemma FetchHit(store: Store, req: Request, w: World)
    requires Fresh(store, KeyOf(req, w.today), w.now)
    ensures FetchStep(store, req, w) == Step(Ok(store[KeyOf(req, w.today)].frame), [], false, store)
  {
  }

  /** On a miss the cache is written exactly when the call succeeds: the
      entry under the key becomes the returned table stamped `now`, every other
      entry stays, and no entry is ever removed. */
  lemma FetchWrite(store: Store, req: Request, w: World)
    requires !Fresh(store, KeyOf(req, w.today), w.now)
    ensures var s := FetchStep(store, req, w);
      var key := KeyOf(req, w.today);
      && (s.result.Ok? ==> key in s.store && s.store[key] == Entry(w.now, s.result.value))
      && (s.result.Err? ==> s.store == store)
      && store.Keys <= s.store.Keys
      && (forall k :: k in store && k != key ==> s.store[k] == store[k])
  {
  }

  /** A stale entry is ignored, not removed: the call behaves as on an empty
      cache, and a failing call leaves the stale entry in place. */
  lemma FetchExpired(store: Store, req: Request, w: World)
    requires KeyOf(req, w.today) in store && !Fresh(store, KeyOf(req, w.today), w.now)
    ensures var s := FetchStep(store, req, w);
      var e := FetchStep(map[], req, w);
      && s.result == e.result && s.calls == e.calls && s.warned == e.warned
      && KeyOf(req, w.today) in s.store
      && (s.result.Err? ==> s.store[KeyOf(req, w.today)] == store[KeyOf(req, w.today)])
  {
  }

  /** A successful call that asked a provider makes the same request, within
      the TTL and while it still has the same key (always on the same day, and
      on any day when both dates are given), a cache hit returning the same
      table. */
  lemma FetchRepeat(store: Store, req: Request, w: World, later: World)
    requires !Fresh(store, KeyOf(req, w.today), w.now)
    requires FetchStep(store, req, w).result.Ok?
    requires KeyOf(req, later.today) == KeyOf(req, w.today) && later.now - w.now < TTL
    ensures var s := FetchStep(store, req, w);
      FetchStep(s.store, req, later) == Step(s.result, [], false, s.store)
  {
  }

  /** `yahoo` never asks Polygon; on a miss it returns exactly what
      `_fetch_yahoo` returns, since the second normalisation changes nothing. */
  lemma YahooOnly(store: Store, req: Request, w: World)
    requires ProviderName(req.provider) == "yahoo"
    requires !Fresh(store, KeyOf(req, w.today), w.now)
    ensures var s := FetchStep(store, req, w);
      && s.calls == YahooAttempt(req, w).calls
      && s.calls == [YahooCall(YahooRequest(req.ticker, StartOf(req, w.today), EndOf(req, w.today), req.interval, false, false, false))]
      && s.result == YahooAttempt(req, w).result
      && !s.warned
  {
    var y := YahooAttempt(req, w);
    FetchYahooOutcome(req.ticker, StartOf(req, w.today), EndOf(req, w.today), req.interval, w.yahoo);
  }

  /** The Polygon result, normalised again at line 156, is unchanged, and it
      has at least one row. */
  lemma PolygonAttemptNormal(req: Request, w: World)
    requires PolygonAttempt(req, w).result.Ok?
    ensures Normalize(PolygonAttempt(req, w).result.value) == PolygonAttempt(req, w).result
    ensures |PolygonAttempt(req, w).calls| == 1
    ensures |PolygonAttempt(req, w).result.value.rows| > 0
  {
    var start := Some(StartOf(req, w.today));
    var end := Some(EndOf(req, w.today));
    FetchPolygonRequest(req.ticker, start, end, req.interval, w.apiKey, w.today, w.parseDate, w.polygon);
    PolygonAggsSuccess(req.ticker, RequestDate(start, w.parseDate, w.today - 365 * 2),
                       RequestDate(end, w.parseDate, w.today),
                       Timespan(req.interval).0, Timespan(req.interval).1, w.apiKey, w.polygon);
  }

  /** `polygon` never asks Yahoo; on a miss it returns exactly what
      `_fetch_polygon` returns or raises. */
  lemma PolygonOnly(store: Store, req: Request, w: World)
    requires ProviderName(req.provider) == "polygon"
    requires !Fresh(store, KeyOf(req, w.today), w.now)
    ensures var s := FetchStep(store, req, w);
      && s.calls == PolygonAttempt(req, w).calls
      && (forall c :: c in s.calls ==> c.PolygonCall?)
      && s.result == PolygonAttempt(req, w).result
      && !s.warned
  {
    var p := PolygonAttempt(req, w);
    FetchPolygonRequest(req.ticker, Some(StartOf(req, w.today)), Some(EndOf(req, w.today)), req.interval,
                        w.apiKey, w.today, w.parseDate, w.polygon);
    if p.result.Ok? {
      PolygonAttemptNormal(req, w);
    }
  }

  /** `auto` with a working Polygon: Polygon's table, no Yahoo request, no
      warning. */
  lemma AutoPolygon(store: Store, req: Request, w: World)
    requires ProviderName(req.provider) == "auto"
    requires !Fresh(store, KeyOf(req, w.today), w.now)
    requires PolygonAttempt(req, w).result.Ok?
    ensures var s := FetchStep(store, req, w);
      && s.result == PolygonAttempt(req, w).result
      && s.calls == PolygonAttempt(req, w).calls && |s.calls| == 1 && s.calls[0].PolygonCall?
      && !s.warned
  {
    PolygonAttemptNormal(req, w);
    FetchPolygonRequest(req.ticker, Some(StartOf(req, w.today)), Some(EndOf(req, w.today)), req.interval,
                        w.apiKey, w.today, w.parseDate, w.polygon);
  }

  /** `auto` after any Polygon failure: a warning, then Yahoo, whose outcome
      (success or failure) is the call's. */
  lemma AutoFallback(store: Store, req: Request, w: World)
    requires ProviderName(req.provider) == "auto"
    requires !Fresh(store, KeyOf(req, w.today), w.now)
    requires PolygonAttempt(req, w).result.Err?
    ensures var s := FetchStep(store, req, w);
      && s.warned
      && s.calls == PolygonAttempt(req, w).calls + YahooAttempt(req, w).calls
      && s.result == YahooAttempt(req, w).result
  {
    FetchYahooOutcome(req.ticker, StartOf(req, w.today), EndOf(req, w.today), req.interval, w.yahoo);
  }

  /** `auto` without a credential sends only the Yahoo request. */
  lemma AutoWithoutKey(store: Store, req: Request, w: World)
    requires ProviderName(req.provider) == "auto" && w.apiKey == ""
    requires !Fresh(store, KeyOf(req, w.today), w.now)
    ensures var s := FetchStep(store, req, w);
      && s.warned
      && s.calls == [YahooCall(YahooRequest(req.ticker, StartOf(req, w.today), EndOf(req, w.today), req.interval, false, false, false))]
      && s.result == YahooAttempt(req, w).result
  {
    AutoFallback(store, req, w);
  }

  /** Any other provider name asks nobody and fails without touching the
      cache. */
  lemma UnknownProvider(store: Store, req: Request, w: World)
    requires ProviderName(req.provider) !in ["auto", "polygon", "yahoo"]
    requires !Fresh(store, KeyOf(req, w.today), w.now)
    ensures FetchStep(store, req, w) == Step(Err(NoFrame), [], false, store)
  {
  }

  /** The requests the providers are sent are none, one, or a Polygon request
      followed by a Yahoo request; and the warning is printed exactly when
      `auto` falls back. */
  lemma DispatchShapes(req: Request, w: World)
    ensures var (_, calls, warned) := Dispatch(req, w);
      && (calls == []
          || (|calls| == 1 && (calls[0].PolygonCall? || calls[0].YahooCall?))
          || (|calls| == 2 && calls[0].PolygonCall? && calls[1].YahooCall?))
      && (warned <==> ProviderName(req.provider) == "auto" && PolygonAttempt(req, w).result.Err?)
  {
    PolygonAttemptCalls(req, w);
    YahooAttemptCalls(req, w);
  }

  lemma PolygonAttemptCalls(req: Request, w: World)
    ensures var p := PolygonAttempt(req, w);
      (p.calls == [] || (|p.calls| == 1 && p.calls[0].PolygonCall?))
  {
    FetchPolygonRequest(req.ticker, Some(StartOf(req, w.today)), Some(EndOf(req, w.today)), req.interval,
                        w.apiKey, w.today, w.parseDate, w.polygon);
  }

  lemma YahooAttemptCalls(req: Request, w: World)
    ensures |YahooAttempt(req, w).calls| == 1 && YahooAttempt(req, w).calls[0].YahooCall?
  {
  }

  /** The same for a whole call, where a cache hit sends nothing and warns
      of nothing. */
  lemma CallShapes(store: Store, req: Request, w: World)
    ensures var s := FetchStep(store, req, w);
      && (s.calls == []
          || (|s.calls| == 1 && (s.calls[0].PolygonCall? || s.calls[0].YahooCall?))
          || (|s.calls| == 2 && s.calls[0].PolygonCall? && s.calls[1].YahooCall?))
      && (s.warned <==> !Fresh(store, KeyOf(req, w.today), w.now) && ProviderName(req.provider) == "auto"
                        && PolygonAttempt(req, w).result.Err?)
  {
    if !Fresh(store, KeyOf(req, w.today), w.now) {
      FetchMiss(store, req, w);
      DispatchShapes(req, w);
    }
  }

  /** The ticker's case and the provider's case do not change the key. */
  lemma KeyIgnoresCase(req: Request, today: int, provider: string)
    requires req.provider == Some(provider)
    ensures KeyOf(req.(ticker := Lower(req.ticker)), today) == KeyOf(req, today)
    ensures KeyOf(req.(ticker := Upper(req.ticker)), today) == KeyOf(req, today)
    ensures KeyOf(req.(provider := Some(Upper(provider))), today) == KeyOf(req, today)
  {
    CaseFolding(req.ticker);
    UpperIdempotent(req.ticker);
    CaseFolding(provider);
    assert |Upper(provider)| == |provider|;
  }

  /** White space around a non-empty provider does not change the key (around
      an empty one it does: `"  "` is not `auto`). */
  lemma KeyIgnoresPadding(req: Request, today: int, provider: string, before: string, after: string)
    requires req.provider == Some(provider) && provider != ""
    requires AllSpace(before) && AllSpace(after)
    ensures KeyOf(req.(provider := Some(before + provider + after)), today) == KeyOf(req, today)
  {
    LowerPadded(before, provider, after);
    StripPadded(before, Lower(provider), after);
  }

  /** A non-empty provider made only of white space is not `auto`: `or` keeps
      it, and stripping leaves the empty name. */
  lemma BlankProviderNotAuto(provider: string)
    requires provider != "" && AllSpace(provider)
    ensures ProviderName(Some(provider)) == ""
  {
    assert provider + "" + "" == provider;
    LowerPadded(provider, "", "");
    StripPadded(provider, "", "");
    assert TrimStart("") == "";
  }

  /** A missing provider and an empty one both mean `auto`. */
  lemma ProviderDefault()
    ensures ProviderName(None) == "auto" && ProviderName(Some("")) == "auto"
  {
    assert Lower("auto") == "auto";
    assert Strip("auto") == "auto";
  }

  /** Requests whose fields hold no `|` share a key only when they agree on
      the upper-cased ticker, both dates, the interval and the provider name. */
  lemma KeyOfInjective(a: Request, b: Request, today: int)
    requires '|' !in Upper(a.ticker) && '|' !in StartOf(a, today) && '|' !in EndOf(a, today)
    requires '|' !in a.interval && '|' !in ProviderName(a.provider)
    requires '|' !in Upper(b.ticker) && '|' !in StartOf(b, today) && '|' !in EndOf(b, today)
    requires '|' !in b.interval && '|' !in ProviderName(b.provider)
    requires KeyOf(a, today) == KeyOf(b, today)
    ensures Upper(a.ticker) == Upper(b.ticker) && StartOf(a, today) == StartOf(b, today)
    ensures EndOf(a, today) == EndOf(b, today) && a.interval == b.interval
    ensures ProviderName(a.provider) == ProviderName(b.provider)
  {
    FetchKeyInjective(Upper(a.ticker), StartOf(a, today), EndOf(a, today), a.interval, ProviderName(a.provider),
                      Upper(b.ticker), StartOf(b, today), EndOf(b, today), b.interval, ProviderName(b.provider));
  }

  /** A Polygon table that answers a `polygon` or `auto` call has rows, as the
      module's callers expect of any result. */
  lemma PolygonResultNonEmpty(store: Store, req: Request, w: World)
    requires ProviderName(req.provider) == "polygon" || ProviderName(req.provider) == "auto"
    requires !Fresh(store, KeyOf(req, w.today), w.now)
    requires PolygonAttempt(req, w).result.Ok?
    ensures FetchStep(store, req, w).result.Ok?
    ensures |FetchStep(store, req, w).result.value.rows| > 0
  {
    PolygonAttemptNormal(req, w);
    if ProviderName(req.provider) == "polygon" {
      PolygonOnly(store, req, w);
    } else {
      AutoPolygon(store, req, w);
    }
  }

  /** The Yahoo path can succeed with no rows: a download that has rows but no
      `Close` value passes the emptiness check of line 72, loses every row to
      the `dropna` of line 56, and the empty table is returned and cached. */
  lemma YahooEmptyResult(store: Store, req: Request, w: World, f: Frame)
    requires ProviderName(req.provider) == "yahoo"
    requires !Fresh(store, KeyOf(req, w.today), w.now)
    requires w.yahoo(YahooRequest(req.ticker, StartOf(req, w.today), EndOf(req, w.today), req.interval, false, false, false))
             == Downloaded(f)
    requires !IsEmpty(f) && Close in Canonicals(f.columns)
    requires forall k :: 0 <= k < |f.rows| ==> !HasValue(f.rows[k], IndexOf(Canonicals(f.columns), Close))
    ensures var s := FetchStep(store, req, w);
      && s.result.Ok? && s.result.value.rows == []
      && s.store == store[KeyOf(req, w.today) := Entry(w.now, s.result.value)]
  {
    YahooOnly(store, req, w);
    NormalizeDropsAll(f);
    FetchWrite(store, req, w);
  }
}
