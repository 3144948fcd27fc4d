/** The tabular data the fetch module passes around (a pandas DataFrame of
    price bars): named columns, and rows that each carry an index value (the
    bar's timestamp, an opaque ordered number here) and one optional cell per
    column. `None` is pandas' missing value (NaN). Prices stay opaque: nothing
    computes with them. */
module Frames {
  import opened Outcomes
  import opened Text

  /** A row label: a date or timestamp, kept as an ordered number. */
  type Stamp = int

  datatype Row = Row(index: Stamp, cells: seq<Option<real>>)

  datatype Table = Table(columns: seq<string>, rows: seq<Row>)

  const Close: string := "Close"
  const AdjClose: string := "Adj Close"

  /** The normalizer's first column renamer, `lambda c: c.strip().title()`. */
  function Canonical(c: string): string {
    Title(Strip(c))
  }

  lemma CanonicalIdempotent(c: string)
    ensures Canonical(Canonical(c)) == Canonical(c)
  {
    var s := Strip(c);
    StripResult(c);
    TitleKeepsStripped(s);
    StripFixed(Title(s));
    TitleIdempotent(s);
  }

  /** A stripped, title-cased name is its own canonical form. */
  lemma CanonicalFixed(c: string)
    requires Stripped(c) && TitleCased(c)
    ensures Canonical(c) == c
  {
    StripFixed(c);
    TitleCasedFixed(c);
  }

  /** Names that are all stripped and title-cased are all canonical. */
  lemma NamesFixed(cols: seq<string>)
    requires forall i :: 0 <= i < |cols| ==> Stripped(cols[i]) && TitleCased(cols[i])
    ensures forall i :: 0 <= i < |cols| ==> Canonical(cols[i]) == cols[i]
  {
    forall i | 0 <= i < |cols| ensures Canonical(cols[i]) == cols[i] {
      CanonicalFixed(cols[i]);
    }
  }

  /** Distinct canonical names stay distinct. */
  lemma FixedNamesDistinct(cols: seq<string>)
    requires forall i :: 0 <= i < |cols| ==> Canonical(cols[i]) == cols[i]
    requires forall i, j :: 0 <= i < j < |cols| ==> cols[i] != cols[j]
    ensures CanonicallyDistinct(cols)
  {
  }

  /** Every row has one cell per column. */
  predicate Shaped(t: Table) {
    forall k :: 0 <= k < |t.rows| ==> |t.rows[k].cells| == |t.columns|
  }

  /** No two column names coincide, even after `strip().title()`. */
  predicate CanonicallyDistinct(cols: seq<string>) {
    forall i, j :: 0 <= i < j < |cols| ==> Canonical(cols[i]) != Canonical(cols[j])
  }

  /** The frames this model handles. */
  type Frame = t: Table | Shaped(t) && CanonicallyDistinct(t.columns) witness Table([], [])

  /** `df.empty`: no rows or no columns. */
  predicate IsEmpty(t: Table) {
    |t.rows| == 0 || |t.columns| == 0
  }

  /** The position of column `name`. */
  function IndexOf(cols: seq<string>, name: string): (i: nat)
    requires name in cols
    ensures i < |cols| && cols[i] == name && name !in cols[..i]
  {
    if cols[0] == name then 0 else 1 + IndexOf(cols[1..], name)
  }

  /** The cell of `r` at column position `i` (missing past the row's end). */
  function CellAt(r: Row, i: nat): Option<real> {
    if i < |r.cells| then r.cells[i] else None
  }

  /** The row holds a value (not NaN) in column position `i`. */
  predicate HasValue(r: Row, i: nat) {
    CellAt(r, i).Some?
  }

  /** `dropna(subset=[column at i])`: the rows holding a value at `i`, in order. */
  function KeepValued(rows: seq<Row>, i: nat): (kept: seq<Row>)
    ensures |kept| <= |rows|
    ensures forall k :: 0 <= k < |kept| ==> HasValue(kept[k], i)
    ensures forall k :: 0 <= k < |kept| ==> kept[k] in rows
  {
    if rows == [] then []
    else (if HasValue(rows[0], i) then [rows[0]] else []) + KeepValued(rows[1..], i)
  }

  /** Dropping distributes over concatenation: rows keep their relative order. */
  lemma {:induction false} KeepValuedAppend(a: seq<Row>, b: seq<Row>, i: nat)
    ensures KeepValued(a + b, i) == KeepValued(a, i) + KeepValued(b, i)
  {
    if a == [] {
      assert a + b == b;
    } else {
      var head := if HasValue(a[0], i) then [a[0]] else [];
      assert (a + b)[0] == a[0] && (a + b)[1..] == a[1..] + b;
      KeepValuedAppend(a[1..], b, i);
      assert KeepValued(a + b, i) == head + (KeepValued(a[1..], i) + KeepValued(b, i));
    }
  }

  /** Every row with a value survives. */
  lemma {:induction false} KeepValuedComplete(rows: seq<Row>, i: nat, r: Row)
    requires r in rows && HasValue(r, i)
    ensures r in KeepValued(rows, i)
  {
    if rows[0] != r {
      KeepValuedComplete(rows[1..], i, r);
    }
  }

  /** Nothing is dropped when every row has a value. */
  lemma {:induction false} KeepValuedAll(rows: seq<Row>, i: nat)
    requires forall k :: 0 <= k < |rows| ==> HasValue(rows[k], i)
    ensures KeepValued(rows, i) == rows
  {
    if rows != [] {
      KeepValuedAll(rows[1..], i);
    }
  }

  /** `latest_close_date(df)`: the index of the last row (pandas raises
      IndexError on an empty frame). */
  function LatestCloseDate(t: Table): (d: Stamp)
    requires |t.rows| > 0
    ensures exists k :: 0 <= k < |t.rows| && t.rows[k].index == d
  {
    t.rows[|t.rows| - 1].index
  }

  // ---------------------------------------------------------------- sort_index

  predicate SortedByIndex(rows: seq<Row>) {
    forall j, k :: 0 <= j < k < |rows| ==> rows[j].index <= rows[k].index
  }

  /** Inserts `r` before the first row whose index is not smaller. */
  function InsertByIndex(r: Row, rows: seq<Row>): seq<Row> {
    if rows == [] || r.index <= rows[0].index then [r] + rows
    else [rows[0]] + InsertByIndex(r, rows[1..])
  }

  /** `sort_index()`: rows in ascending index order. */
  function SortByIndex(rows: seq<Row>): seq<Row> {
    if rows == [] then [] else InsertByIndex(rows[0], SortByIndex(rows[1..]))
  }

  lemma {:induction false} InsertByIndexMembers(r: Row, rows: seq<Row>)
    ensures forall x :: x in InsertByIndex(r, rows) <==> x == r || x in rows
    ensures multiset(InsertByIndex(r, rows)) == multiset(rows) + multiset{r}
  {
    if rows != [] && r.index > rows[0].index {
      InsertByIndexMembers(r, rows[1..]);
      assert rows == [rows[0]] + rows[1..];
    }
  }

  lemma {:induction false} InsertByIndexSorted(r: Row, rows: seq<Row>)
    requires SortedByIndex(rows)
    ensures SortedByIndex(InsertByIndex(r, rows))
  {
    if rows != [] && r.index > rows[0].index {
      var tail := InsertByIndex(r, rows[1..]);
      InsertByIndexSorted(r, rows[1..]);
      InsertByIndexMembers(r, rows[1..]);
      var out := [rows[0]] + tail;
      forall j, k | 0 <= j < k < |out| ensures out[j].index <= out[k].index {
        if j == 0 {
          assert out[k] in tail;
        } else {
          assert out[j] == tail[j - 1] && out[k] == tail[k - 1];
        }
      }
    }
  }

  /** The sorted rows are ascending by index and are the input rows, each as
      often as it occurs there. */
  lemma {:induction false} SortByIndexSpec(rows: seq<Row>)
    ensures SortedByIndex(SortByIndex(rows))
    ensures multiset(SortByIndex(rows)) == multiset(rows)
  {
    if rows != [] {
      SortByIndexSpec(rows[1..]);
      InsertByIndexSorted(rows[0], SortByIndex(rows[1..]));
      InsertByIndexMembers(rows[0], SortByIndex(rows[1..]));
      assert rows == [rows[0]] + rows[1..];
    }
  }

  /** On rows sorted by index the last index is the latest one. */
  lemma LatestCloseDateIsLatest(t: Table)
    requires |t.rows| > 0 && SortedByIndex(t.rows)
    ensures forall k :: 0 <= k < |t.rows| ==> t.rows[k].index <= LatestCloseDate(t)
  {
  }
}
