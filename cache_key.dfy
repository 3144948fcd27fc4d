/** `_cache_key(**kw)` (data/fetch_data.py, lines 32-33): the keyword
    arguments, sorted by name, written `name=value` and joined with `|`; and
    the key `fetch_ohlcv` builds from its five request fields (line 138). */
module CacheKeys {
  import opened Text

  /** One keyword argument: its name and the text `str(value)` of its value. */
  type Field = (string, string)

  /** `f"{k}={v}"` */
  function Render(f: Field): string {
    f.0 + "=" + f.1
  }

  function Renders(fs: seq<Field>): seq<string> {
    seq(|fs|, i requires 0 <= i < |fs| => Render(fs[i]))
  }

  /** Keyword names are distinct (Python rejects a repeated keyword). */
  predicate DistinctNames(fs: seq<Field>) {
    forall i, j :: 0 <= i < j < |fs| ==> fs[i].0 != fs[j].0
  }

  predicate NamesAscending(fs: seq<Field>) {
    forall i, j :: 0 <= i < j < |fs| ==> StrLess(fs[i].0, fs[j].0)
  }

  function InsertByName(f: Field, fs: seq<Field>): seq<Field> {
    if fs == [] || StrLess(f.0, fs[0].0) then [f] + fs
    else [fs[0]] + InsertByName(f, fs[1..])
  }

  /** `sorted(kw.items())`: with distinct names, tuple order is name order. */
  function SortByName(fs: seq<Field>): seq<Field> {
    if fs == [] then [] else InsertByName(fs[0], SortByName(fs[1..]))
  }

  /** `_cache_key(**kw)` */
  function CacheKey(fs: seq<Field>): string {
    Join(Renders(SortByName(fs)), '|')
  }

  // ---------------------------------------------------------------- sorting

  lemma {:induction false} InsertByNameMembers(f: Field, fs: seq<Field>)
    ensures forall g :: g in InsertByName(f, fs) <==> g == f || g in fs
    ensures multiset(InsertByName(f, fs)) == multiset(fs) + multiset{f}
  {
    if fs != [] && !StrLess(f.0, fs[0].0) {
      InsertByNameMembers(f, fs[1..]);
      assert fs == [fs[0]] + fs[1..];
    }
  }

  lemma {:induction false} InsertByNameAscending(f: Field, fs: seq<Field>)
    requires NamesAscending(fs)
    requires forall g :: g in fs ==> g.0 != f.0
    ensures NamesAscending(InsertByName(f, fs))
  {
    if fs == [] || StrLess(f.0, fs[0].0) {
      var out := [f] + fs;
      forall i, j | 0 <= i < j < |out| ensures StrLess(out[i].0, out[j].0) {
        if i == 0 && j > 1 {
          StrLessTransitive(f.0, fs[0].0, fs[j - 1].0);
        } else if i > 0 {
          assert out[i] == fs[i - 1] && out[j] == fs[j - 1];
        }
      }
    } else {
      assert fs[0] in fs;
      StrLessTotal(f.0, fs[0].0);
      var tail := InsertByName(f, fs[1..]);
      InsertByNameAscending(f, fs[1..]);
      InsertByNameMembers(f, fs[1..]);
      var out := [fs[0]] + tail;
      forall i, j | 0 <= i < j < |out| ensures StrLess(out[i].0, out[j].0) {
        if i == 0 {
          assert out[j] in tail;
          if out[j] != f {
            var k :| 0 <= k < |fs[1..]| && fs[1..][k] == out[j];
            assert fs[k + 1] == out[j];
          }
        } else {
          assert out[i] == tail[i - 1] && out[j] == tail[j - 1];
        }
      }
    }
  }

  /** The sorted keywords are in strictly ascending name order and are the
      given keywords, each once. */
  lemma {:induction false} SortByNameSpec(fs: seq<Field>)
    requires DistinctNames(fs)
    ensures NamesAscending(SortByName(fs))
    ensures multiset(SortByName(fs)) == multiset(fs)
  {
    if fs != [] {
      var rest := fs[1..];
      DistinctTail(fs);
      SortByNameSpec(rest);
      HeadNameFresh(fs, SortByName(rest));
      InsertByNameAscending(fs[0], SortByName(rest));
      InsertByNameMembers(fs[0], SortByName(rest));
      assert fs == [fs[0]] + rest;
    }
  }

  lemma DistinctTail(fs: seq<Field>)
    requires DistinctNames(fs) && fs != []
    ensures DistinctNames(fs[1..])
  {
    var rest := fs[1..];
    forall i, j | 0 <= i < j < |rest| ensures rest[i].0 != rest[j].0 {
      assert rest[i] == fs[i + 1] && rest[j] == fs[j + 1];
    }
  }

  /** The first keyword's name occurs nowhere among the others. */
  lemma HeadNameFresh(fs: seq<Field>, others: seq<Field>)
    requires DistinctNames(fs) && fs != [] && multiset(others) == multiset(fs[1..])
    ensures forall g :: g in others ==> g.0 != fs[0].0
  {
    forall g | g in others ensures g.0 != fs[0].0 {
      assert g in multiset(fs[1..]);
      var k :| 0 <= k < |fs[1..]| && fs[1..][k] == g;
      assert fs[k + 1] == g;
    }
  }

  lemma AscendingHeadLeast(a: seq<Field>, x: Field)
    requires NamesAscending(a) && x in a && x != a[0]
    ensures StrLess(a[0].0, x.0)
  {
    var k :| 0 <= k < |a| && a[k] == x;
  }

  lemma AscendingTail(a: seq<Field>)
    requires NamesAscending(a) && |a| > 0
    ensures NamesAscending(a[1..])
  {
    forall i, j | 0 <= i < j < |a[1..]| ensures StrLess(a[1..][i].0, a[1..][j].0) {
      assert a[1..][i] == a[i + 1] && a[1..][j] == a[j + 1];
    }
  }

  lemma MultisetTail(a: seq<Field>)
    requires |a| > 0
    ensures multiset(a[1..]) == multiset(a) - multiset{a[0]}
  {
    assert a == [a[0]] + a[1..];
  }

  lemma AscendingSameHead(a: seq<Field>, b: seq<Field>)
    requires NamesAscending(a) && NamesAscending(b)
    requires multiset(a) == multiset(b) && |a| > 0 && |b| > 0
    ensures a[0] == b[0]
  {
    assert a[0] in multiset(b) && b[0] in multiset(a);
    if a[0] != b[0] {
      AscendingHeadLeast(a, b[0]);
      AscendingHeadLeast(b, a[0]);
      StrLessTransitive(a[0].0, b[0].0, a[0].0);
      StrLessIrreflexive(a[0].0);
    }
  }

  /** Only one order of a set of keywords is strictly ascending by name. */
  lemma {:induction false} AscendingUnique(a: seq<Field>, b: seq<Field>)
    requires NamesAscending(a) && NamesAscending(b)
    requires multiset(a) == multiset(b)
    ensures a == b
    decreases |a|
  {
    assert |a| == |multiset(a)| == |multiset(b)| == |b|;
    if a != [] {
      AscendingSameHead(a, b);
      MultisetTail(a);
      MultisetTail(b);
      AscendingTail(a);
      AscendingTail(b);
      AscendingUnique(a[1..], b[1..]);
      assert a == [a[0]] + a[1..] && b == [b[0]] + b[1..];
    }
  }

  /** The key is the `name=value` texts in ascending name order, joined by `|`. */
  lemma CacheKeyOrder(fs: seq<Field>, ascending: seq<Field>)
    requires DistinctNames(fs)
    requires NamesAscending(ascending) && multiset(ascending) == multiset(fs)
    ensures CacheKey(fs) == Join(Renders(ascending), '|')
  {
    SortByNameSpec(fs);
    AscendingUnique(SortByName(fs), ascending);
  }

  // ---------------------------------------------------------------- fetch_ohlcv's key

  /** Line 138: `_cache_key(ticker=..., start=..., end=..., interval=..., provider=...)`
      with the arguments in the order the call writes them. */
  function FetchKey(ticker: string, start: string, end: string, interval: string, provider: string): string {
    CacheKey(FetchFields(ticker, start, end, interval, provider))
  }

  function FetchFields(ticker: string, start: string, end: string, interval: string, provider: string): seq<Field> {
    [("ticker", ticker), ("start", start), ("end", end), ("interval", interval), ("provider", provider)]
  }

  function FetchFieldsAscending(ticker: string, start: string, end: string, interval: string, provider: string): seq<Field> {
    [("end", end), ("interval", interval), ("provider", provider), ("start", start), ("ticker", ticker)]
  }

  lemma FetchNamesDistinct(ticker: string, start: string, end: string, interval: string, provider: string)
    ensures DistinctNames(FetchFields(ticker, start, end, interval, provider))
  {
    var fs := FetchFields(ticker, start, end, interval, provider);
    assert fs[0].0 == "ticker" && fs[1].0 == "start" && fs[2].0 == "end" && fs[3].0 == "interval" && fs[4].0 == "provider";
  }

  lemma FetchNamesAscending(ticker: string, start: string, end: string, interval: string, provider: string)
    ensures NamesAscending(FetchFieldsAscending(ticker, start, end, interval, provider))
  {
    var fs := FetchFieldsAscending(ticker, start, end, interval, provider);
    assert fs[0].0 == "end" && fs[1].0 == "interval" && fs[2].0 == "provider" && fs[3].0 == "start" && fs[4].0 == "ticker";
    assert StrLess("end", "interval") && StrLess("interval", "provider");
    assert StrLess("provider", "start") && StrLess("start", "ticker");
    StrLessTransitive("end", "interval", "provider");
    StrLessTransitive("end", "provider", "start");
    StrLessTransitive("end", "start", "ticker");
    StrLessTransitive("interval", "provider", "start");
    StrLessTransitive("interval", "start", "ticker");
    StrLessTransitive("provider", "start", "ticker");
  }

  lemma FetchFieldsPermuted(ticker: string, start: string, end: string, interval: string, provider: string)
    ensures multiset(FetchFieldsAscending(ticker, start, end, interval, provider))
         == multiset(FetchFields(ticker, start, end, interval, provider))
  {
    var t, s, e, i, p := ("ticker", ticker), ("start", start), ("end", end), ("interval", interval), ("provider", provider);
    calc {
      multiset(FetchFieldsAscending(ticker, start, end, interval, provider));
      multiset{e, i, p, s, t};
      multiset{t, s, e, i, p};
      multiset(FetchFields(ticker, start, end, interval, provider));
    }
  }

  lemma FetchFieldsSorted(ticker: string, start: string, end: string, interval: string, provider: string)
    ensures DistinctNames(FetchFields(ticker, start, end, interval, provider))
    ensures NamesAscending(FetchFieldsAscending(ticker, start, end, interval, provider))
    ensures multiset(FetchFieldsAscending(ticker, start, end, interval, provider))
         == multiset(FetchFields(ticker, start, end, interval, provider))
  {
    FetchNamesDistinct(ticker, start, end, interval, provider);
    FetchNamesAscending(ticker, start, end, interval, provider);
    FetchFieldsPermuted(ticker, start, end, interval, provider);
  }

  lemma FetchRenders(ticker: string, start: string, end: string, interval: string, provider: string)
    ensures Renders(FetchFieldsAscending(ticker, start, end, interval, provider))
         == ["end=" + end, "interval=" + interval, "provider=" + provider, "start=" + start, "ticker=" + ticker]
  {
    assert "end" + "=" == "end=" && "interval" + "=" == "interval=" && "provider" + "=" == "provider=";
    assert "start" + "=" == "start=" && "ticker" + "=" == "ticker=";
  }

  /** The fields of the key always come as end, interval, provider, start, ticker. */
  lemma FetchKeyLayout(ticker: string, start: string, end: string, interval: string, provider: string)
    ensures FetchKey(ticker, start, end, interval, provider)
         == Join(["end=" + end, "interval=" + interval, "provider=" + provider, "start=" + start, "ticker=" + ticker], '|')
  {
    FetchFieldsSorted(ticker, start, end, interval, provider);
    CacheKeyOrder(FetchFields(ticker, start, end, interval, provider), FetchFieldsAscending(ticker, start, end, interval, provider));
    FetchRenders(ticker, start, end, interval, provider);
  }

  /** Requests whose fields contain no `|` get the same key only when all five
      fields agree. */
  lemma FetchKeyInjective(t1: string, s1: string, e1: string, i1: string, p1: string,
                          t2: string, s2: string, e2: string, i2: string, p2: string)
    requires '|' !in t1 && '|' !in s1 && '|' !in e1 && '|' !in i1 && '|' !in p1
    requires '|' !in t2 && '|' !in s2 && '|' !in e2 && '|' !in i2 && '|' !in p2
    requires FetchKey(t1, s1, e1, i1, p1) == FetchKey(t2, s2, e2, i2, p2)
    ensures t1 == t2 && s1 == s2 && e1 == e2 && i1 == i2 && p1 == p2
  {
    FetchKeyLayout(t1, s1, e1, i1, p1);
    FetchKeyLayout(t2, s2, e2, i2, p2);
    var xs := ["end=" + e1, "interval=" + i1, "provider=" + p1, "start=" + s1, "ticker=" + t1];
    var ys := ["end=" + e2, "interval=" + i2, "provider=" + p2, "start=" + s2, "ticker=" + t2];
    JoinInjective(xs, ys, '|');
    assert xs[0][4..] == e1 && ys[0][4..] == e2;
    assert xs[1][9..] == i1 && ys[1][9..] == i2;
    assert xs[2][9..] == p1 && ys[2][9..] == p2;
    assert xs[3][6..] == s1 && ys[3][6..] == s2;
    assert xs[4][7..] == t1 && ys[4][7..] == t2;
  }

  /** Without that condition two different requests can share a key: an end
      date and an interval can trade a `|interval=` between them. */
  lemma FetchKeyCollision(ticker: string, start: string, end: string, x: string, interval: string, provider: string)
    ensures FetchKey(ticker, start, end + "|interval=" + x, interval, provider)
         == FetchKey(ticker, start, end, x + "|interval=" + interval, provider)
  {
    FetchKeyLayout(ticker, start, end + "|interval=" + x, interval, provider);
    FetchKeyLayout(ticker, start, end, x + "|interval=" + interval, provider);
    var tail := ["provider=" + provider, "start=" + start, "ticker=" + ticker];
    var a, b, c := "end=" + end, "interval=" + x, "interval=" + interval;
    assert "end=" + (end + "|interval=" + x) == a + ['|'] + b;
    assert "interval=" + (x + "|interval=" + interval) == b + ['|'] + c;
    assert ["end=" + (end + "|interval=" + x), "interval=" + interval] + tail
        == ["end=" + (end + "|interval=" + x), "interval=" + interval, "provider=" + provider, "start=" + start, "ticker=" + ticker];
    assert ["end=" + end, "interval=" + (x + "|interval=" + interval)] + tail
        == ["end=" + end, "interval=" + (x + "|interval=" + interval), "provider=" + provider, "start=" + start, "ticker=" + ticker];
    JoinShift(a, b, c, tail, '|');
  }

  /** For instance, a `1h` request whose end text is `2024-01-10|interval=1d`
      and a request ending `2024-01-10` whose interval text is
      `1d|interval=1h`. */
  lemma FetchKeyCollisionExample()
    ensures FetchKey("AAPL", "2024-01-01", "2024-01-10|interval=1d", "1h", "yahoo")
         == FetchKey("AAPL", "2024-01-01", "2024-01-10", "1d|interval=1h", "yahoo")
    ensures "2024-01-10|interval=1d" != "2024-01-10"
  {
    FetchKeyCollision("AAPL", "2024-01-01", "2024-01-10", "1d", "1h", "yahoo");
    assert "2024-01-10|interval=1d" == "2024-01-10" + "|interval=" + "1d";
    assert "1d|interval=1h" == "1d" + "|interval=" + "1h";
  }
}
