/** The two market-data adapters (data/fetch_data.py, lines 62-114). The
    network and the libraries behind them are parameters: `server` answers a
    Polygon aggregates request, `download` answers a Yahoo download, and
    `parse` is the free-form date parser. Each adapter returns its outcome
    together with the requests it sent, in order. */
module Providers {
  import opened Outcomes
  import opened Text
  import opened Calendar
  import opened Frames
  import opened Normalization

  // ---------------------------------------------------------------- Polygon

  /** One element of the `results` array of an aggregates reply: the bar's
      start (milliseconds since the epoch) and its open, high, low, close and
      volume. */
  datatype Agg = Agg(t: int, o: real, h: real, l: real, c: real, v: real)

  /** The reply body as `r.json()` reads it: not a JSON object, or an object
      whose `results` array (empty when the key is absent) holds these bars. */
  datatype Payload = Undecodable | Decoded(results: seq<Agg>)

  /** What `requests.get` comes back with: an exception before any reply
      (timeout, refused connection), or a status, a body text and its JSON. */
  datatype PolygonReply = Unreachable | Reply(status: int, body: string, payload: Payload)

  /** The parts of the aggregates request: the five URL segments (upper-cased
      ticker, multiplier, timespan, start, end), the four query parameters and
      the timeout. */
  datatype PolygonRequest = PolygonRequest(
    ticker: string, multiplier: int, timespan: string, start: string, end: string,
    adjusted: string, sort: string, limit: int, apiKey: string, timeoutSeconds: int)

  /** The arguments of `yf.download`. */
  datatype YahooRequest = YahooRequest(
    ticker: string, start: string, end: string, interval: string,
    autoAdjust: bool, progress: bool, threads: bool)

  /** What `yf.download` comes back with: a table, or an exception. */
  datatype Download = Downloaded(frame: Frame) | DownloadFailed

  /** One request sent to a provider. */
  datatype Call = PolygonCall(polygon: PolygonRequest) | YahooCall(yahoo: YahooRequest)

  /** An adapter's outcome and the requests it sent. */
  datatype Attempt = Attempt(result: Result<Frame>, calls: seq<Call>)

  const PolygonLimit: int := 50000
  const PolygonTimeout: int := 30

  /** The columns of line 98, in that order. */
  const PolygonColumns: seq<string> := ["Open", "High", "Low", "Close", AdjClose, "Volume"]

  /** Lines 92-97 on one bar: indexed by its time, `o h l c` renamed, `Adj
      Close` a copy of `Close`, in the column order of line 98. */
  function AggRow(a: Agg): Row {
    Row(a.t, [Some(a.o), Some(a.h), Some(a.l), Some(a.c), Some(a.c), Some(a.v)])
  }

  function AggRows(results: seq<Agg>): (rows: seq<Row>)
    ensures |rows| == |results|
  {
    seq(|results|, i requires 0 <= i < |results| => AggRow(results[i]))
  }

  /** Every column name of line 98 is its own canonical form. */
  lemma PolygonColumnsFixed()
    ensures forall i :: 0 <= i < |PolygonColumns| ==> Canonical(PolygonColumns[i]) == PolygonColumns[i]
  {
    CapitalWord("Open");
    CapitalWord("High");
    CapitalWord("Low");
    CapitalWord("Close");
    CapitalWord("Volume");
    AdjCloseTitleCased();
    NamesFixed(PolygonColumns);
  }

  lemma PolygonColumnsDistinct()
    ensures forall i, j :: 0 <= i < j < |PolygonColumns| ==> PolygonColumns[i] != PolygonColumns[j]
  {
  }

  lemma PolygonColumnsCanonical()
    ensures forall i :: 0 <= i < |PolygonColumns| ==> Canonical(PolygonColumns[i]) == PolygonColumns[i]
    ensures CanonicallyDistinct(PolygonColumns)
  {
    PolygonColumnsFixed();
    PolygonColumnsDistinct();
    FixedNamesDistinct(PolygonColumns);
  }

  lemma AggRowsShaped(results: seq<Agg>)
    ensures forall r :: r in SortByIndex(AggRows(results)) ==> |r.cells| == |PolygonColumns|
  {
    SortByIndexSpec(AggRows(results));
    forall r | r in SortByIndex(AggRows(results)) ensures |r.cells| == |PolygonColumns| {
      assert r in multiset(AggRows(results));
    }
  }

  /** Lines 92-98 on a non-empty `results`: the bars as rows, sorted by time. */
  function AggsFrame(results: seq<Agg>): Frame {
    PolygonColumnsCanonical();
    AggRowsShaped(results);
    Table(PolygonColumns, SortByIndex(AggRows(results)))
  }

  /** `_polygon_aggs`: one request, then in this order: no reply, a status
      other than 200, a body that is not JSON, an empty `results`. */
  function PolygonAggs(ticker: string, start: string, end: string, timespan: string, multiplier: int,
                       apiKey: string, server: PolygonRequest -> PolygonReply): Attempt
  {
    var req := PolygonRequest(Upper(ticker), multiplier, timespan, start, end,
                              "true", "asc", PolygonLimit, apiKey, PolygonTimeout);
    var result: Result<Frame> :=
      match server(req)
      case Unreachable => Err(PolygonUnavailable)
      case Reply(status, body, payload) =>
        if status != 200 then Err(PolygonStatus(status, body))
        else match payload
          case Undecodable => Err(PolygonUndecodable)
          case Decoded(results) => if results == [] then Err(NoPolygonData(ticker)) else Ok(AggsFrame(results));
    Attempt(result, [PolygonCall(req)])
  }

  /** Lines 112-114: the interval, in any case, picks minute bars or day bars. */
  function Timespan(interval: string): (string, int) {
    var i := Lower(interval);
    if i == "1m" || i == "1min" || i == "minute" then ("minute", 1) else ("day", 1)
  }

  /** Line 108's `norm`: `None` stays `None`, any other text is parsed and
      written back as an ISO date; text the parser rejects is an error. */
  function NormDate(d: Option<string>, parse: string -> Option<int>): Result<Option<string>> {
    match d
    case None => Ok(None)
    case Some(text) =>
      match parse(text)
      case None => Err(BadDate(text))
      case Some(day) => Ok(Some(IsoDate(day)))
  }

  /** Python's `x or default` on an optional text. */
  function OrDefault(x: Option<string>, default: string): string {
    if x.None? || x.value == "" then default else x.value
  }

  /** `_fetch_polygon`: the key check, the date defaults (today and two years
      back, with `today` a UTC day number) and the interval mapping. */
  function FetchPolygon(ticker: string, start: Option<string>, end: Option<string>, interval: string,
                        apiKey: string, today: int, parse: string -> Option<int>,
                        server: PolygonRequest -> PolygonReply): Attempt
  {
    if apiKey == "" then Attempt(Err(NoApiKey), [])
    else
      match NormDate(start, parse)
      case Err(e) => Attempt(Err(e), [])
      case Ok(s) =>
        match NormDate(end, parse)
        case Err(e) => Attempt(Err(e), [])
        case Ok(e) =>
          var (timespan, multiplier) := Timespan(interval);
          PolygonAggs(ticker, OrDefault(s, IsoDate(today - DefaultWindowDays)), OrDefault(e, IsoDate(today)),
                      timespan, multiplier, apiKey, server)
  }

  // ---------------------------------------------------------------- Yahoo

  /** `_fetch_yahoo`: one download; an empty table is an error, anything else
      is normalised. */
  function FetchYahoo(ticker: string, start: string, end: string, interval: string,
                      download: YahooRequest -> Download): Attempt
  {
    var req := YahooRequest(ticker, start, end, interval, false, false, false);
    var result: Result<Frame> :=
      match download(req)
      case DownloadFailed => Err(YahooUnavailable)
      case Downloaded(f) => if IsEmpty(f) then Err(NoYahooData(ticker)) else Normalize(f);
    Attempt(result, [YahooCall(req)])
  }

  // ---------------------------------------------------------------- properties

  /** The columns hold `Close` at position 3 and `Adj Close` at position 4. */
  lemma PolygonColumnPositions()
    ensures Close in PolygonColumns && IndexOf(PolygonColumns, Close) == 3
    ensures AdjClose in PolygonColumns && IndexOf(PolygonColumns, AdjClose) == 4
  {
    assert PolygonColumns[3] == Close && PolygonColumns[4] == AdjClose;
    PolygonColumnsDistinct();
    assert Close !in PolygonColumns[..3];
    assert AdjClose !in PolygonColumns[..4];
    IndexOfUnique(PolygonColumns, Close, 3);
    IndexOfUnique(PolygonColumns, AdjClose, 4);
  }

  /** The Polygon table: the six columns of line 98, one row per bar (the
      bars themselves, each as often as it came), ascending by time, every
      cell present and `Adj Close` equal to `Close` in every row. */
  lemma AggsFrameSpec(results: seq<Agg>)
    ensures var f := AggsFrame(results);
      && f.columns == PolygonColumns
      && SortedByIndex(f.rows)
      && multiset(f.rows) == multiset(AggRows(results))
      && |f.rows| == |results|
      && (forall k :: 0 <= k < |f.rows| ==> f.rows[k] in AggRows(results))
      && (forall k :: 0 <= k < |f.rows| ==> f.rows[k].cells[4] == f.rows[k].cells[3])
      && (forall k :: 0 <= k < |f.rows| ==> forall i :: 0 <= i < 6 ==> f.rows[k].cells[i].Some?)
  {
    var rows := AggRows(results);
    var sorted := SortByIndex(rows);
    SortByIndexSpec(rows);
    assert |sorted| == |multiset(sorted)| == |multiset(rows)| == |rows|;
    forall k | 0 <= k < |sorted| ensures sorted[k] in rows {
      assert sorted[k] in multiset(rows);
    }
  }

  /** The latest close date of a Polygon table is the time of its latest bar. */
  lemma AggsFrameLatest(results: seq<Agg>)
    requires results != []
    ensures |AggsFrame(results).rows| > 0
    ensures forall a :: a in results ==> a.t <= LatestCloseDate(AggsFrame(results))
    ensures exists a :: a in results && a.t == LatestCloseDate(AggsFrame(results))
  {
    var f := AggsFrame(results);
    AggsFrameSpec(results);
    LatestCloseDateIsLatest(f);
    forall a | a in results ensures a.t <= LatestCloseDate(f) {
      var i :| 0 <= i < |results| && results[i] == a;
      assert AggRows(results)[i] == AggRow(a);
      assert AggRow(a) in multiset(f.rows);
      var k :| 0 <= k < |f.rows| && f.rows[k] == AggRow(a);
    }
    var last := f.rows[|f.rows| - 1];
    assert last in AggRows(results);
    var i :| 0 <= i < |results| && AggRows(results)[i] == last;
    assert results[i] in results && results[i].t == LatestCloseDate(f);
  }

  /** A Polygon table passes through `_normalize_df` unchanged, so line 156 is
      harmless on the Polygon path. */
  lemma PolygonColumnsReady()
    ensures forall c :: c in PolygonColumns ==> Canonical(c) == c
    ensures Close in PolygonColumns && AdjClose in PolygonColumns && IndexOf(PolygonColumns, Close) == 3
  {
    PolygonColumnsFixed();
    PolygonColumnPositions();
    forall c | c in PolygonColumns ensures Canonical(c) == c {
      var i :| 0 <= i < |PolygonColumns| && PolygonColumns[i] == c;
    }
  }

  lemma AggsFrameCloseValued(results: seq<Agg>)
    ensures forall k :: 0 <= k < |AggsFrame(results).rows| ==> HasValue(AggsFrame(results).rows[k], 3)
  {
    AggsFrameSpec(results);
  }

  lemma NormalizeAggsFrame(results: seq<Agg>)
    ensures Normalize(AggsFrame(results)) == Ok(AggsFrame(results))
  {
    var f := AggsFrame(results);
    assert f.columns == PolygonColumns;
    PolygonColumnsReady();
    AggsFrameCloseValued(results);
    NormalizeFixed(f);
  }

  /** `_polygon_aggs` sends exactly one request, for the upper-cased ticker
      with the fixed query parameters, and succeeds exactly when the reply is
      a 200 whose JSON holds a non-empty `results`; each failure names its
      cause. */
  lemma PolygonAggsOutcome(ticker: string, start: string, end: string, timespan: string, multiplier: int,
                           apiKey: string, server: PolygonRequest -> PolygonReply)
    ensures var a := PolygonAggs(ticker, start, end, timespan, multiplier, apiKey, server);
      var req := PolygonRequest(Upper(ticker), multiplier, timespan, start, end, "true", "asc", 50000, apiKey, 30);
      var reply := server(req);
      && a.calls == [PolygonCall(req)]
      && (a.result.Ok? <==> reply.Reply? && reply.status == 200 && reply.payload.Decoded? && reply.payload.results != [])
      && (reply.Unreachable? ==> a.result == Err(PolygonUnavailable))
      && (reply.Reply? && reply.status != 200 ==> a.result == Err(PolygonStatus(reply.status, reply.body)))
      && (reply.Reply? && reply.status == 200 && reply.payload.Undecodable? ==> a.result == Err(PolygonUndecodable))
      && (reply.Reply? && reply.status == 200 && reply.payload == Decoded([]) ==> a.result == Err(NoPolygonData(ticker)))
  {
  }

  /** A successful `_polygon_aggs` returns the Polygon table of the reply's
      bars, which is already normalised. */
  lemma PolygonAggsSuccess(ticker: string, start: string, end: string, timespan: string, multiplier: int,
                           apiKey: string, server: PolygonRequest -> PolygonReply)
    requires PolygonAggs(ticker, start, end, timespan, multiplier, apiKey, server).result.Ok?
    ensures var f := PolygonAggs(ticker, start, end, timespan, multiplier, apiKey, server).result.value;
      && f.columns == PolygonColumns
      && |f.rows| > 0
      && SortedByIndex(f.rows)
      && (forall k :: 0 <= k < |f.rows| ==> f.rows[k].cells[4] == f.rows[k].cells[3])
      && Normalize(f) == Ok(f)
  {
    var req := PolygonRequest(Upper(ticker), multiplier, timespan, start, end, "true", "asc", 50000, apiKey, 30);
    var results := server(req).payload.results;
    AggsFrameSpec(results);
    NormalizeAggsFrame(results);
  }

  /** The interval is read without regard to case. */
  lemma TimespanIgnoresCase(interval: string)
    ensures Timespan(Upper(interval)) == Timespan(interval)
    ensures Timespan(Lower(interval)) == Timespan(interval)
  {
    CaseFolding(interval);
    LowerIdempotent(interval);
  }

  /** Minute bars for the three minute spellings in any case; everything else,
      an hourly interval included, asks for day bars. */
  lemma TimespanExamples()
    ensures Timespan("1M") == ("minute", 1) && Timespan("MINUTE") == ("minute", 1)
    ensures Timespan("1h") == ("day", 1) && Timespan("5m") == ("day", 1)
  {
    assert Lower("1M") == "1m";
    assert Lower("MINUTE") == "minute";
    assert Lower("1h") == "1h";
    assert Lower("5m") == "5m";
  }

  /** With no credential nothing is sent. */
  lemma FetchPolygonNoKey(ticker: string, start: Option<string>, end: Option<string>, interval: string,
                          today: int, parse: string -> Option<int>, server: PolygonRequest -> PolygonReply)
    ensures FetchPolygon(ticker, start, end, interval, "", today, parse, server) == Attempt(Err(NoApiKey), [])
  {
  }

  /** The dates the Polygon request carries: the parsed dates as ISO text, or
      today and two years back when none is given. */
  function RequestDate(d: Option<string>, parse: string -> Option<int>, fallback: int): string
    requires NormDate(d, parse).Ok?
  {
    if d.None? then IsoDate(fallback) else IsoDate(parse(d.value).value)
  }

  /** `_fetch_polygon` sends a request exactly when the key is set and both
      dates parse, and then sends one, for the parsed or default dates and the
      mapped interval; otherwise it fails with the first problem found. */
  lemma FetchPolygonRequest(ticker: string, start: Option<string>, end: Option<string>, interval: string,
                            apiKey: string, today: int, parse: string -> Option<int>,
                            server: PolygonRequest -> PolygonReply)
    ensures var a := FetchPolygon(ticker, start, end, interval, apiKey, today, parse, server);
      && (|a.calls| == 1 <==> apiKey != "" && NormDate(start, parse).Ok? && NormDate(end, parse).Ok?)
      && (a.calls == [] ==> a.result.Err?)
      && (|a.calls| == 0 || |a.calls| == 1)
      && (apiKey == "" ==> a.result == Err(NoApiKey))
      && (apiKey != "" && NormDate(start, parse).Err? ==> a.result == Err(BadDate(start.value)))
      && (apiKey != "" && NormDate(start, parse).Ok? && NormDate(end, parse).Err? ==> a.result == Err(BadDate(end.value)))
      && (|a.calls| == 1 ==>
            a == PolygonAggs(ticker, RequestDate(start, parse, today - 365 * 2), RequestDate(end, parse, today),
                             Timespan(interval).0, Timespan(interval).1, apiKey, server))
  {
    if apiKey != "" && NormDate(start, parse).Ok? && NormDate(end, parse).Ok? {
      NormDateNonEmpty(start, parse);
      NormDateNonEmpty(end, parse);
    }
  }

  /** A parsed date is never empty text, so `or` only supplies the default
      for a missing date. */
  lemma NormDateNonEmpty(d: Option<string>, parse: string -> Option<int>)
    requires NormDate(d, parse).Ok?
    ensures NormDate(d, parse).value.Some? ==> NormDate(d, parse).value.value != ""
  {
    if d.Some? && parse(d.value).Some? {
      IsoDateLength(parse(d.value).value);
    }
  }

  /** `_fetch_yahoo` downloads once with the fixed options and succeeds exactly
      when the download returns a non-empty table with a `Close` column after
      title-casing; the result is normalised, keeps both price columns and has
      no missing `Close`. */
  lemma FetchYahooOutcome(ticker: string, start: string, end: string, interval: string,
                          download: YahooRequest -> Download)
    ensures var a := FetchYahoo(ticker, start, end, interval, download);
      var req := YahooRequest(ticker, start, end, interval, false, false, false);
      && a.calls == [YahooCall(req)]
      && (a.result.Ok? <==> download(req).Downloaded? && !IsEmpty(download(req).frame)
                             && Close in Canonicals(download(req).frame.columns))
      && (download(req).DownloadFailed? ==> a.result == Err(YahooUnavailable))
      && (download(req).Downloaded? && IsEmpty(download(req).frame) ==> a.result == Err(NoYahooData(ticker)))
      && (a.result.Ok? ==>
            && Normalize(a.result.value) == a.result
            && Close in a.result.value.columns && AdjClose in a.result.value.columns
            && forall k :: 0 <= k < |a.result.value.rows| ==>
                 HasValue(a.result.value.rows[k], IndexOf(a.result.value.columns, Close)))
  {
    var req := YahooRequest(ticker, start, end, interval, false, false, false);
    if download(req).Downloaded? && !IsEmpty(download(req).frame) {
      var f := download(req).frame;
      NormalizeColumns(f);
      if Close in Canonicals(f.columns) {
        NormalizeCloseValues(f);
        NormalizeIdempotent(f);
      }
    }
  }
}
