/** `_normalize_df` (data/fetch_data.py, lines 40-56): renames the columns
    with `strip().title()` and then with a fixed synonym table, adds an
    `Adj Close` column copied from `Close` when it is missing, and drops the
    rows whose `Close` is missing. The index conversion of line 55 changes no
    value of this model (row labels are already ordered numbers). */
module Normalization {
  import opened Outcomes
  import opened Text
  import opened Frames

  /** The synonym table of lines 42-50. Its keys all begin with a lower-case
      letter, so no title-cased name ever matches one (see RenameIsDead). */
  const Synonyms: map<string, string> := map[
    "open" := "Open", "high" := "High", "low" := "Low", "close" := "Close",
    "volume" := "Volume", "adjclose" := AdjClose, "adj_close" := AdjClose]

  /** `df.rename(columns=rename)` on one name. */
  function Rename(c: string): string {
    if c in Synonyms then Synonyms[c] else c
  }

  /** The column names after lines 51 and 52. */
  function RenamedColumns(cols: seq<string>): seq<string> {
    seq(|cols|, i requires 0 <= i < |cols| => Rename(Canonical(cols[i])))
  }

  /** The names `strip().title()` makes of `cols`. */
  function Canonicals(cols: seq<string>): seq<string> {
    seq(|cols|, i requires 0 <= i < |cols| => Canonical(cols[i]))
  }

  /** Line 54 on the rows: each row gets a copy of its cell at `ci` appended. */
  function AppendCopy(rows: seq<Row>, ci: nat): (out: seq<Row>)
    ensures |out| == |rows|
  {
    if rows == [] then []
    else [Row(rows[0].index, rows[0].cells + [CellAt(rows[0], ci)])] + AppendCopy(rows[1..], ci)
  }

  /** The frame after lines 51-54: renamed, with `Adj Close` added if needed. */
  function Renamed(f: Frame): Table {
    var cols := RenamedColumns(f.columns);
    if AdjClose !in cols && Close in cols then Table(cols + [AdjClose], AppendCopy(f.rows, IndexOf(cols, Close)))
    else Table(cols, f.rows)
  }

  /** `_normalize_df(df)`. `dropna(subset=["Close"])` raises KeyError when there
      is no `Close` column. */
  function Normalize(f: Frame): (r: Result<Frame>)
    ensures r.Err? ==> r.error == MissingColumn(Close)
  {
    var t := Renamed(f);
    if Close !in t.columns then Err(MissingColumn(Close))
    else
      RenamedIsFrame(f);
      KeepValuedShaped(t.rows, IndexOf(t.columns, Close), |t.columns|);
      var out: Frame := Table(t.columns, KeepValued(t.rows, IndexOf(t.columns, Close)));
      Ok(out)
  }

  // ---------------------------------------------------------------- helpers

  lemma CloseCanonical()
    ensures Canonical(Close) == Close
  {
    CapitalWord(Close);
    CanonicalFixed(Close);
  }

  lemma AdjCloseTitleCased()
    ensures TitleCased(AdjClose) && Stripped(AdjClose)
  {
  }

  lemma AdjCloseCanonical()
    ensures Canonical(AdjClose) == AdjClose
  {
    AdjCloseTitleCased();
    CanonicalFixed(AdjClose);
  }

  /** The synonym table can never fire after title-casing: lines 42-52 leave
      every name exactly as `strip().title()` made it. */
  lemma RenameIsDead(c: string)
    ensures Rename(Canonical(c)) == Canonical(c)
  {
    var s := Strip(c);
    if Title(s) in Synonyms {
      assert |Title(s)| > 0 && IsLower(Title(s)[0]);
      TitleHead(s);
      assert false;
    }
  }

  lemma RenamedColumnsCanonical(cols: seq<string>)
    ensures RenamedColumns(cols) == Canonicals(cols)
    ensures forall i :: 0 <= i < |cols| ==> Canonical(RenamedColumns(cols)[i]) == RenamedColumns(cols)[i]
  {
    forall i | 0 <= i < |cols|
      ensures RenamedColumns(cols)[i] == Canonical(cols[i])
      ensures Canonical(RenamedColumns(cols)[i]) == RenamedColumns(cols)[i]
    {
      RenameIsDead(cols[i]);
      CanonicalIdempotent(cols[i]);
    }
  }

  lemma {:induction false} AppendCopyShaped(rows: seq<Row>, ci: nat, w: nat)
    requires forall k :: 0 <= k < |rows| ==> |rows[k].cells| == w
    ensures forall k :: 0 <= k < |rows| ==> |AppendCopy(rows, ci)[k].cells| == w + 1
  {
    if rows != [] {
      AppendCopyShaped(rows[1..], ci, w);
      forall k | 1 <= k < |rows| ensures |AppendCopy(rows, ci)[k].cells| == w + 1 {
        assert AppendCopy(rows, ci)[k] == AppendCopy(rows[1..], ci)[k - 1];
      }
    }
  }

  lemma {:induction false} KeepValuedShaped(rows: seq<Row>, ci: nat, w: nat)
    requires forall k :: 0 <= k < |rows| ==> |rows[k].cells| == w
    ensures forall k :: 0 <= k < |KeepValued(rows, ci)| ==> |KeepValued(rows, ci)[k].cells| == w
  {
  }

  /** Title-casing distinct names keeps them canonically distinct, and
      makes every one of them canonical. */
  lemma CanonicalsDistinct(cols: seq<string>)
    requires CanonicallyDistinct(cols)
    ensures CanonicallyDistinct(Canonicals(cols))
    ensures forall c :: c in Canonicals(cols) ==> Canonical(c) == c
  {
    var cs := Canonicals(cols);
    forall i | 0 <= i < |cols| ensures Canonical(cs[i]) == cs[i] {
      CanonicalIdempotent(cols[i]);
    }
  }

  /** Appending a new canonical name to canonical, distinct names keeps them so. */
  lemma AppendDistinct(cols: seq<string>, name: string)
    requires CanonicallyDistinct(cols) && forall c :: c in cols ==> Canonical(c) == c
    requires Canonical(name) == name && name !in cols
    ensures CanonicallyDistinct(cols + [name])
    ensures forall c :: c in cols + [name] ==> Canonical(c) == c
  {
    var all := cols + [name];
    forall i, j | 0 <= i < j < |all| ensures Canonical(all[i]) != Canonical(all[j]) {
      assert all[i] == cols[i] && cols[i] in cols;
      if j < |cols| {
        assert all[j] == cols[j];
      }
    }
  }

  /** Lines 51-54 keep the frame well formed. */
  lemma SynthesizedIsFrame(f: Frame, cols: seq<string>, name: string, ci: nat)
    requires cols == Canonicals(f.columns)
    requires CanonicallyDistinct(cols) && forall c :: c in cols ==> Canonical(c) == c
    requires Canonical(name) == name && name !in cols
    ensures Shaped(Table(cols + [name], AppendCopy(f.rows, ci)))
    ensures CanonicallyDistinct(cols + [name]) && forall c :: c in cols + [name] ==> Canonical(c) == c
  {
    AppendDistinct(cols, name);
    AppendCopyShaped(f.rows, ci, |f.columns|);
  }

  lemma RenamedIsFrame(f: Frame)
    ensures Shaped(Renamed(f)) && CanonicallyDistinct(Renamed(f).columns)
    ensures forall c :: c in Renamed(f).columns ==> Canonical(c) == c
  {
    var cols := Canonicals(f.columns);
    RenamedShape(f);
    CanonicalsDistinct(f.columns);
    if AdjClose !in cols && Close in cols {
      AdjCloseCanonical();
      SynthesizedIsFrame(f, cols, AdjClose, IndexOf(cols, Close));
    }
  }

  // ---------------------------------------------------------------- properties

  /** The expected rows, written as one pass: each input row whose `Close`
      (at `ci`) has a value, in input order, with a copy of that value appended
      when `Adj Close` is synthesized. */
  function Survivors(rows: seq<Row>, ci: nat, synthesized: bool): seq<Row> {
    if rows == [] then []
    else
      var r := rows[0];
      var kept := if synthesized then Row(r.index, r.cells + [CellAt(r, ci)]) else r;
      (if HasValue(r, ci) then [kept] else []) + Survivors(rows[1..], ci, synthesized)
  }

  lemma {:induction false} KeepValuedAppendCopy(rows: seq<Row>, ci: nat)
    requires forall k :: 0 <= k < |rows| ==> ci < |rows[k].cells|
    ensures KeepValued(AppendCopy(rows, ci), ci) == Survivors(rows, ci, true)
  {
    if rows != [] {
      KeepValuedAppendCopy(rows[1..], ci);
      assert AppendCopy(rows, ci)[1..] == AppendCopy(rows[1..], ci);
    }
  }

  lemma {:induction false} KeepValuedSurvivors(rows: seq<Row>, ci: nat)
    ensures KeepValued(rows, ci) == Survivors(rows, ci, false)
  {
    if rows != [] {
      KeepValuedSurvivors(rows[1..], ci);
    }
  }

  /** With `Adj Close` synthesized, every surviving row carries its `Close`
      value again in the new last cell. */
  lemma {:induction false} SurvivorsMirrorClose(rows: seq<Row>, ci: nat, w: nat)
    requires ci < w
    requires forall k :: 0 <= k < |rows| ==> |rows[k].cells| == w
    ensures forall k :: 0 <= k < |Survivors(rows, ci, true)| ==>
      |Survivors(rows, ci, true)[k].cells| == w + 1 &&
      CellAt(Survivors(rows, ci, true)[k], w) == CellAt(Survivors(rows, ci, true)[k], ci) &&
      HasValue(Survivors(rows, ci, true)[k], ci)
  {
    if rows != [] {
      SurvivorsMirrorClose(rows[1..], ci, w);
    }
  }

  /** Lines 51-54 in terms of the title-cased names. */
  lemma RenamedShape(f: Frame)
    ensures var cols := Canonicals(f.columns);
      Renamed(f) == if AdjClose !in cols && Close in cols
                    then Table(cols + [AdjClose], AppendCopy(f.rows, IndexOf(cols, Close)))
                    else Table(cols, f.rows)
  {
    RenamedColumnsCanonical(f.columns);
  }

  lemma NormalizeOk(f: Frame)
    requires Close in Renamed(f).columns
    ensures Normalize(f).Ok?
    ensures Normalize(f).value == Table(Renamed(f).columns, KeepValued(Renamed(f).rows, IndexOf(Renamed(f).columns, Close)))
  {
  }

  /** `_normalize_df` fails exactly when no column is named `Close` after
      `strip().title()`. On success every column name is a fixed point of
      `strip().title()`, the columns are the renamed input columns with
      `Adj Close` appended when it was not among them, and both `Close` and
      `Adj Close` are present. */
  lemma NormalizeColumns(f: Frame)
    ensures Normalize(f).Ok? <==> Close in Canonicals(f.columns)
    ensures Normalize(f).Ok? ==>
      var n := Normalize(f).value;
      var cols := Canonicals(f.columns);
      && (forall c :: c in n.columns ==> Canonical(c) == c)
      && n.columns == (if AdjClose in cols then cols else cols + [AdjClose])
      && Close in n.columns && AdjClose in n.columns
  {
    RenamedColumnsCanonical(f.columns);
    RenamedIsFrame(f);
  }

  /** On success the rows are exactly Survivors: the input rows with a
      `Close` value, in input order, extended by the synthesized `Adj Close`. */
  lemma NormalizeRows(f: Frame)
    requires Close in Canonicals(f.columns)
    ensures Normalize(f).Ok?
    ensures var cols := Canonicals(f.columns);
      Normalize(f).value.rows == Survivors(f.rows, IndexOf(cols, Close), AdjClose !in cols)
  {
    var cols := Canonicals(f.columns);
    var t := Renamed(f);
    RenamedShape(f);
    NormalizeOk(f);
    var ci := IndexOf(cols, Close);
    if AdjClose !in cols {
      assert t.columns == cols + [AdjClose];
      IndexOfAppend(cols, Close, AdjClose);
      KeepValuedAppendCopy(f.rows, ci);
    } else {
      KeepValuedSurvivors(f.rows, ci);
    }
  }

  lemma IndexOfUnique(cols: seq<string>, name: string, i: nat)
    requires i < |cols| && cols[i] == name && name !in cols[..i]
    ensures IndexOf(cols, name) == i
  {
  }

  /** Appending a name does not move the names before it. */
  lemma IndexOfAppend(cols: seq<string>, name: string, extra: string)
    requires name in cols
    ensures IndexOf(cols + [extra], name) == IndexOf(cols, name)
  {
    var i := IndexOf(cols, name);
    assert (cols + [extra])[..i] == cols[..i];
    IndexOfUnique(cols + [extra], name, i);
  }

  lemma IndexOfLast(cols: seq<string>, extra: string)
    requires extra !in cols
    ensures IndexOf(cols + [extra], extra) == |cols|
  {
    assert (cols + [extra])[..|cols|] == cols;
    IndexOfUnique(cols + [extra], extra, |cols|);
  }

  /** No surviving row has a missing `Close`. */
  lemma NormalizeCloseKept(f: Frame)
    requires Close in Canonicals(f.columns)
    ensures Normalize(f).Ok?
    ensures Close in Normalize(f).value.columns
    ensures var n := Normalize(f).value;
      forall k :: 0 <= k < |n.rows| ==> HasValue(n.rows[k], IndexOf(n.columns, Close))
  {
    RenamedShape(f);
    NormalizeOk(f);
  }

  /** A synthesized `Adj Close` equals `Close` row for row. */
  lemma NormalizeAdjMirror(f: Frame)
    requires Close in Canonicals(f.columns) && AdjClose !in Canonicals(f.columns)
    ensures Normalize(f).Ok?
    ensures Close in Normalize(f).value.columns && AdjClose in Normalize(f).value.columns
    ensures var n := Normalize(f).value;
      forall k :: 0 <= k < |n.rows| ==>
        CellAt(n.rows[k], IndexOf(n.columns, AdjClose)) == CellAt(n.rows[k], IndexOf(n.columns, Close))
  {
    var cols := Canonicals(f.columns);
    var ci := IndexOf(cols, Close);
    NormalizeColumns(f);
    NormalizeRows(f);
    var n := Normalize(f).value;
    assert n.columns == cols + [AdjClose];
    IndexOfAppend(cols, Close, AdjClose);
    IndexOfLast(cols, AdjClose);
    SurvivorsMirrorClose(f.rows, ci, |f.columns|);
  }

  /** No surviving row has a missing `Close`; when `Adj Close` was synthesized
      it equals `Close` row for row. */
  lemma NormalizeCloseValues(f: Frame)
    requires Close in Canonicals(f.columns)
    ensures Normalize(f).Ok?
    ensures Close in Normalize(f).value.columns && AdjClose in Normalize(f).value.columns
    ensures var n := Normalize(f).value;
      forall k :: 0 <= k < |n.rows| ==> HasValue(n.rows[k], IndexOf(n.columns, Close))
    ensures AdjClose !in Canonicals(f.columns) ==>
      var n := Normalize(f).value;
      forall k :: 0 <= k < |n.rows| ==>
        CellAt(n.rows[k], IndexOf(n.columns, AdjClose)) == CellAt(n.rows[k], IndexOf(n.columns, Close))
  {
    NormalizeColumns(f);
    NormalizeCloseKept(f);
    if AdjClose !in Canonicals(f.columns) {
      NormalizeAdjMirror(f);
    }
  }

  /** Normalising a normalised frame changes nothing, so the second
      `_normalize_df` on the Yahoo path is harmless. */
  lemma CanonicalsFixed(cols: seq<string>)
    requires forall c :: c in cols ==> Canonical(c) == c
    ensures Canonicals(cols) == cols
  {
    forall i | 0 <= i < |cols| ensures Canonicals(cols)[i] == cols[i] {
      assert cols[i] in cols;
    }
  }

  /** A frame whose names are canonical, which has both price columns and no
      missing `Close` is a fixed point of `_normalize_df`. */
  lemma NormalizeFixed(f: Frame)
    requires forall c :: c in f.columns ==> Canonical(c) == c
    requires Close in f.columns && AdjClose in f.columns
    requires forall k :: 0 <= k < |f.rows| ==> HasValue(f.rows[k], IndexOf(f.columns, Close))
    ensures Normalize(f) == Ok(f)
  {
    CanonicalsFixed(f.columns);
    RenamedShape(f);
    assert Renamed(f) == Table(f.columns, f.rows);
    KeepValuedAll(f.rows, IndexOf(f.columns, Close));
    NormalizeOk(f);
  }

  lemma NormalizeIdempotent(f: Frame)
    requires Normalize(f).Ok?
    ensures Normalize(Normalize(f).value) == Normalize(f)
  {
    NormalizeColumns(f);
    NormalizeCloseValues(f);
    NormalizeFixed(Normalize(f).value);
  }

  /** When no row holds a `Close` value, none survives. */
  lemma {:induction false} SurvivorsNone(rows: seq<Row>, ci: nat, synthesized: bool)
    requires forall k :: 0 <= k < |rows| ==> !HasValue(rows[k], ci)
    ensures Survivors(rows, ci, synthesized) == []
  {
    if rows != [] {
      SurvivorsNone(rows[1..], ci, synthesized);
    }
  }

  /** `_normalize_df` succeeds with no rows at all when no row holds a `Close`
      value: the `dropna` of line 56 raises nothing on an emptied table. */
  lemma NormalizeDropsAll(f: Frame)
    requires Close in Canonicals(f.columns)
    requires forall k :: 0 <= k < |f.rows| ==> !HasValue(f.rows[k], IndexOf(Canonicals(f.columns), Close))
    ensures Normalize(f).Ok? && Normalize(f).value.rows == []
  {
    var cols := Canonicals(f.columns);
    NormalizeRows(f);
    SurvivorsNone(f.rows, IndexOf(cols, Close), AdjClose !in cols);
  }

  /** For instance, a one-column table whose only `Close` is missing. */
  lemma NormalizeDropsAllExample(f: Frame)
    requires f.columns == [Close] && f.rows == [Row(0, [None])]
    ensures Normalize(f).Ok?
    ensures Normalize(f).value.columns == [Close, AdjClose] && Normalize(f).value.rows == []
  {
    CloseCanonical();
    var cols := Canonicals(f.columns);
    assert cols == [Close];
    assert AdjClose !in cols by {
      assert |AdjClose| != |Close|;
    }
    assert IndexOf(cols, Close) == 0;
    assert forall k :: 0 <= k < |f.rows| ==> !HasValue(f.rows[k], IndexOf(cols, Close));
    RenamedShape(f);
    assert Renamed(f).columns == cols + [AdjClose] == [Close, AdjClose];
    NormalizeOk(f);
    NormalizeDropsAll(f);
  }
}
