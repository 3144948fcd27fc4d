/** The Python string operations the fetch module relies on: `lower`, `upper`,
    `strip`, `title`, ordering of strings (as `sorted` uses it) and `join`.
    Case mapping covers the ASCII letters; every other character is uncased and
    left unchanged by the case functions. `strip` removes exactly the characters
    for which Python's `str.isspace()` holds. */
module Text {

  /** Python's `str.isspace()`: the Unicode white-space characters. */
  predicate IsSpace(c: char) {
    var n := c as int;
    n == 0x20 || 0x09 <= n <= 0x0D || 0x1C <= n <= 0x1F || n == 0x85 || n == 0xA0
    || n == 0x1680 || 0x2000 <= n <= 0x200A || n == 0x2028 || n == 0x2029
    || n == 0x202F || n == 0x205F || n == 0x3000
  }

  predicate IsUpper(c: char) { 'A' <= c <= 'Z' }

  predicate IsLower(c: char) { 'a' <= c <= 'z' }

  /** A character that has an upper and a lower case form. */
  predicate IsCased(c: char) { IsUpper(c) || IsLower(c) }

  function LowerChar(c: char): char {
    if IsUpper(c) then (c as int + 32) as char else c
  }

  function UpperChar(c: char): char {
    if IsLower(c) then (c as int - 32) as char else c
  }

  /** `s.lower()` */
  function Lower(s: string): string {
    seq(|s|, i requires 0 <= i < |s| => LowerChar(s[i]))
  }

  /** `s.upper()` */
  function Upper(s: string): string {
    seq(|s|, i requires 0 <= i < |s| => UpperChar(s[i]))
  }

  /** Case mapping forgets the case it started from. */
  lemma CaseFolding(s: string)
    ensures Lower(Upper(s)) == Lower(s)
    ensures Upper(Lower(s)) == Upper(s)
  {
    assert forall i :: 0 <= i < |s| ==> Lower(Upper(s))[i] == Lower(s)[i];
    assert forall i :: 0 <= i < |s| ==> Upper(Lower(s))[i] == Upper(s)[i];
  }

  lemma UpperIdempotent(s: string)
    ensures Upper(Upper(s)) == Upper(s)
  {
    assert forall i :: 0 <= i < |s| ==> Upper(Upper(s))[i] == Upper(s)[i];
  }

  lemma LowerIdempotent(s: string)
    ensures Lower(Lower(s)) == Lower(s)
  {
    assert forall i :: 0 <= i < |s| ==> Lower(Lower(s))[i] == Lower(s)[i];
  }

  // ---------------------------------------------------------------- strip

  function TrimStart(s: string): (r: string)
    ensures |r| <= |s|
  {
    if |s| > 0 && IsSpace(s[0]) then TrimStart(s[1..]) else s
  }

  function TrimEnd(s: string): (r: string)
    ensures |r| <= |s|
  {
    if |s| > 0 && IsSpace(s[|s| - 1]) then TrimEnd(s[..|s| - 1]) else s
  }

  /** `s.strip()` */
  function Strip(s: string): string {
    TrimEnd(TrimStart(s))
  }

  /** Neither end of `s` is white space. */
  predicate Stripped(s: string) {
    s == [] || (!IsSpace(s[0]) && !IsSpace(s[|s| - 1]))
  }

  lemma {:induction false} TrimStartSuffix(s: string)
    ensures |TrimStart(s)| <= |s| && TrimStart(s) == s[|s| - |TrimStart(s)|..]
    ensures TrimStart(s) == [] || !IsSpace(TrimStart(s)[0])
    ensures forall k :: 0 <= k < |s| - |TrimStart(s)| ==> IsSpace(s[k])
  {
    if |s| > 0 && IsSpace(s[0]) {
      TrimStartSuffix(s[1..]);
      forall k | 1 <= k < |s| - |TrimStart(s)| ensures IsSpace(s[k]) {
        assert s[k] == s[1..][k - 1];
      }
    }
  }

  lemma {:induction false} TrimEndPrefix(s: string)
    ensures |TrimEnd(s)| <= |s| && TrimEnd(s) == s[..|TrimEnd(s)|]
    ensures TrimEnd(s) == [] || !IsSpace(TrimEnd(s)[|TrimEnd(s)| - 1])
    ensures forall k :: |TrimEnd(s)| <= k < |s| ==> IsSpace(s[k])
  {
    if |s| > 0 && IsSpace(s[|s| - 1]) {
      TrimEndPrefix(s[..|s| - 1]);
    }
  }

  /** How many characters `strip()` removes from the front of `s`. */
  ghost function StripOffset(s: string): nat {
    |s| - |TrimStart(s)|
  }

  /** `strip()` leaves a string neither of whose ends is white space: the middle
      of its argument, with only white space cut off on either side. */
  lemma StripResult(s: string)
    ensures Stripped(Strip(s))
    ensures StripOffset(s) + |Strip(s)| <= |s|
    ensures Strip(s) == s[StripOffset(s)..StripOffset(s) + |Strip(s)|]
    ensures forall k :: 0 <= k < StripOffset(s) ==> IsSpace(s[k])
    ensures forall k :: StripOffset(s) + |Strip(s)| <= k < |s| ==> IsSpace(s[k])
  {
    StripSlice(s);
    StripEnds(s);
    TrimStartSuffix(s);
  }

  lemma StripSlice(s: string)
    ensures StripOffset(s) + |Strip(s)| <= |s|
    ensures Strip(s) == s[StripOffset(s)..StripOffset(s) + |Strip(s)|]
    ensures forall k :: StripOffset(s) + |Strip(s)| <= k < |s| ==> IsSpace(s[k])
  {
    var t := TrimStart(s);
    var i := StripOffset(s);
    var n := |TrimEnd(t)|;
    TrimStartSuffix(s);
    TrimEndPrefix(t);
    assert t == s[i..];
    assert s[i..i + n] == t[..n];
    SpacesAfter(s, t, i, n);
  }

  lemma StripEnds(s: string)
    ensures Stripped(Strip(s))
  {
    var t := TrimStart(s);
    var r := TrimEnd(t);
    TrimStartSuffix(s);
    TrimEndPrefix(t);
    if |r| > 0 {
      assert t != [] && r[0] == t[0];
      assert !IsSpace(r[0]) && !IsSpace(r[|r| - 1]);
    }
  }

  lemma SpacesAfter(s: string, t: string, i: nat, n: nat)
    requires i + n <= |s| && t == s[i..]
    requires forall k :: n <= k < |t| ==> IsSpace(t[k])
    ensures forall k :: i + n <= k < |s| ==> IsSpace(s[k])
  {
    forall k | i + n <= k < |s| ensures IsSpace(s[k]) {
      assert s[k] == t[k - i];
    }
  }

  /** Every character of `s` is white space. */
  predicate AllSpace(s: string) {
    forall k :: 0 <= k < |s| ==> IsSpace(s[k])
  }

  /** White space has no case, so `lower()` keeps padding as it is. */
  lemma LowerPadded(before: string, s: string, after: string)
    requires AllSpace(before) && AllSpace(after)
    ensures Lower(before + s + after) == before + Lower(s) + after
  {
    var p := before + s + after;
    forall i | 0 <= i < |p| ensures Lower(p)[i] == (before + Lower(s) + after)[i] {
      if i < |before| {
        assert p[i] == before[i] && IsSpace(before[i]);
      } else if i >= |before| + |s| {
        assert p[i] == after[i - |before| - |s|] && IsSpace(after[i - |before| - |s|]);
      } else {
        assert p[i] == s[i - |before|];
      }
    }
  }

  /** `strip()` removes any white space added at either end. */
  lemma StripPadded(before: string, s: string, after: string)
    requires AllSpace(before) && AllSpace(after)
    ensures Strip(before + s + after) == Strip(s)
  {
    assert before + s + after == before + (s + after);
    TrimStartSpaces(before, s + after);
    TrimStartAppendSpaces(s, after);
  }

  lemma {:induction false} TrimStartSpaces(a: string, x: string)
    requires AllSpace(a)
    ensures TrimStart(a + x) == TrimStart(x)
  {
    if a != [] {
      assert (a + x)[0] == a[0] && (a + x)[1..] == a[1..] + x;
      var rest := a[1..];
      assert AllSpace(rest) by {
        forall k | 0 <= k < |rest| ensures IsSpace(rest[k]) {
          assert rest[k] == a[k + 1];
        }
      }
      TrimStartSpaces(rest, x);
    } else {
      assert a + x == x;
    }
  }

  lemma {:induction false} TrimEndSpaces(y: string, b: string)
    requires AllSpace(b)
    ensures TrimEnd(y + b) == TrimEnd(y)
    decreases |b|
  {
    if b != [] {
      var yb := y + b;
      assert yb[|yb| - 1] == b[|b| - 1];
      assert yb[..|yb| - 1] == y + b[..|b| - 1];
      var front := b[..|b| - 1];
      assert AllSpace(front) by {
        forall k | 0 <= k < |front| ensures IsSpace(front[k]) {
          assert front[k] == b[k];
        }
      }
      TrimEndSpaces(y, front);
    } else {
      assert y + b == y;
    }
  }

  lemma {:induction false} TrimStartAppendSpaces(s: string, b: string)
    requires AllSpace(b)
    ensures TrimEnd(TrimStart(s + b)) == TrimEnd(TrimStart(s))
  {
    if |s| > 0 && IsSpace(s[0]) {
      assert (s + b)[0] == s[0] && (s + b)[1..] == s[1..] + b;
      TrimStartAppendSpaces(s[1..], b);
    } else if |s| == 0 {
      assert s + b == b + [];
      TrimStartSpaces(b, []);
    } else {
      assert (s + b)[0] == s[0];
      TrimEndSpaces(s, b);
    }
  }

  /** A string whose ends are not white space is a fixed point of `strip()`. */
  lemma StripFixed(s: string)
    requires Stripped(s)
    ensures Strip(s) == s
  {
  }

  // ---------------------------------------------------------------- title

  /** CPython's `str.title()` loop: a cased character is lower-cased when the
      character before it (in the ORIGINAL string) was cased, and upper-cased
      otherwise; uncased characters are copied. */
  function TitleFrom(s: string, afterCased: bool): (r: string)
    ensures |r| == |s|
  {
    if s == [] then []
    else [if afterCased then LowerChar(s[0]) else UpperChar(s[0])] + TitleFrom(s[1..], IsCased(s[0]))
  }

  /** `s.title()` */
  function Title(s: string): string {
    TitleFrom(s, false)
  }

  /** Title-casing changes only cased characters, and keeps them cased. */
  lemma {:induction false} TitleFromShape(s: string, p: bool)
    ensures forall i :: 0 <= i < |s| ==> IsCased(TitleFrom(s, p)[i]) == IsCased(s[i])
    ensures forall i :: 0 <= i < |s| && !IsCased(s[i]) ==> TitleFrom(s, p)[i] == s[i]
  {
    if s != [] {
      var t := TitleFrom(s, p);
      var u := TitleFrom(s[1..], IsCased(s[0]));
      TitleFromShape(s[1..], IsCased(s[0]));
      assert t == [t[0]] + u;
      forall i | 1 <= i < |s|
        ensures IsCased(t[i]) == IsCased(s[i])
        ensures !IsCased(s[i]) ==> t[i] == s[i]
      {
        assert t[i] == u[i - 1] && s[i] == s[1..][i - 1];
      }
    }
  }

  lemma {:induction false} TitleFromIdempotent(s: string, p: bool)
    ensures TitleFrom(TitleFrom(s, p), p) == TitleFrom(s, p)
  {
    if s != [] {
      var t := TitleFrom(s, p);
      assert t[0] == (if p then LowerChar(s[0]) else UpperChar(s[0]));
      assert IsCased(t[0]) == IsCased(s[0]);
      assert t[1..] == TitleFrom(s[1..], IsCased(s[0]));
      TitleFromIdempotent(s[1..], IsCased(s[0]));
    }
  }

  /** `title()` applied twice is `title()` applied once. */
  lemma TitleIdempotent(s: string)
    ensures Title(Title(s)) == Title(s)
  {
    TitleFromIdempotent(s, false);
  }

  /** `title()` keeps a stripped string stripped: white space is uncased. */
  lemma TitleKeepsStripped(s: string)
    requires Stripped(s)
    ensures Stripped(Title(s))
  {
    TitleFromShape(s, false);
  }

  /** The first character of a title-cased string is upper case or uncased. */
  lemma TitleHead(s: string)
    requires s != []
    ensures Title(s)[0] == UpperChar(s[0])
    ensures !IsLower(Title(s)[0])
  {
  }

  /** Every cased character is upper case exactly when it starts a word, that
      is when the character before it is uncased (Python's `istitle()` without
      its "at least one cased character" condition). */
  predicate TitleCased(s: string) {
    forall k :: 0 <= k < |s| && IsCased(s[k]) ==> (IsUpper(s[k]) <==> !AfterCased(s, k))
  }

  /** The character before position `k` is cased. */
  predicate AfterCased(s: string, k: int) {
    0 < k <= |s| && IsCased(s[k - 1])
  }

  lemma {:induction false} TitleFromFixed(s: string, p: bool)
    requires |s| > 0 && IsCased(s[0]) ==> (IsUpper(s[0]) <==> !p)
    requires forall k :: 0 < k < |s| && IsCased(s[k]) ==> (IsUpper(s[k]) <==> !IsCased(s[k - 1]))
    ensures TitleFrom(s, p) == s
  {
    if s != [] {
      var t := s[1..];
      forall k | 0 < k < |t| && IsCased(t[k]) ensures IsUpper(t[k]) <==> !IsCased(t[k - 1]) {
        assert t[k] == s[k + 1] && t[k - 1] == s[k];
      }
      if |t| > 0 {
        assert t[0] == s[1];
      }
      TitleFromFixed(t, IsCased(s[0]));
      assert s == [s[0]] + t;
    }
  }

  /** A title-cased string is a fixed point of `title()`. */
  lemma TitleCasedFixed(s: string)
    requires TitleCased(s)
    ensures Title(s) == s
  {
    if |s| > 0 && IsCased(s[0]) {
      assert !AfterCased(s, 0);
    }
    forall k | 0 < k < |s| && IsCased(s[k]) ensures IsUpper(s[k]) <==> !IsCased(s[k - 1]) {
      assert AfterCased(s, k) == IsCased(s[k - 1]);
    }
    TitleFromFixed(s, false);
  }

  /** A capitalised word of lower-case letters is title-cased. */
  lemma CapitalWord(s: string)
    requires |s| > 0 && IsUpper(s[0])
    requires forall k :: 0 < k < |s| ==> IsLower(s[k])
    ensures TitleCased(s) && Stripped(s)
  {
  }

  // ---------------------------------------------------------------- order

  /** Python's `<` on strings: lexicographic by code point, a proper prefix first. */
  predicate StrLess(a: string, b: string)
    decreases |a|
  {
    if |a| == 0 then |b| > 0
    else if |b| == 0 then false
    else if a[0] != b[0] then a[0] < b[0]
    else StrLess(a[1..], b[1..])
  }

  lemma {:induction false} StrLessIrreflexive(a: string)
    ensures !StrLess(a, a)
    decreases |a|
  {
    if |a| > 0 {
      StrLessIrreflexive(a[1..]);
    }
  }

  lemma {:induction false} StrLessTransitive(a: string, b: string, c: string)
    requires StrLess(a, b) && StrLess(b, c)
    ensures StrLess(a, c)
    decreases |a|
  {
    if |a| > 0 && a[0] == b[0] && b[0] == c[0] {
      StrLessTransitive(a[1..], b[1..], c[1..]);
    }
  }

  lemma {:induction false} StrLessTotal(a: string, b: string)
    requires a != b
    ensures StrLess(a, b) || StrLess(b, a)
    decreases |a|
  {
    if |a| > 0 && |b| > 0 && a[0] == b[0] {
      assert a == [a[0]] + a[1..] && b == [b[0]] + b[1..];
      StrLessTotal(a[1..], b[1..]);
    }
  }

  // ---------------------------------------------------------------- join

  /** `sep.join(xs)` for a one-character separator. */
  function Join(xs: seq<string>, sep: char): string
    decreases |xs|
  {
    if |xs| == 0 then "" else if |xs| == 1 then xs[0] else xs[0] + [sep] + Join(xs[1..], sep)
  }

  /** Moving a separator from the end of one piece to the start of the next
      leaves the join unchanged. */
  lemma JoinShift(a: string, b: string, c: string, tail: seq<string>, sep: char)
    requires |tail| > 0
    ensures Join([a + [sep] + b, c] + tail, sep) == Join([a, b + [sep] + c] + tail, sep)
  {
    var j := Join(tail, sep);
    var x := a + [sep] + b;
    var y := b + [sep] + c;
    JoinPair(x, c, tail, sep);
    JoinPair(a, y, tail, sep);
    var s := [sep];
    calc {
      x + s + (c + s + j);
      { AppendAssoc(x, s, c + s + j); }
      x + (s + (c + s + j));
      { AppendAssoc(a, s, b); AppendAssoc(a, s + b, s + (c + s + j)); }
      a + ((s + b) + (s + (c + s + j)));
      { AppendAssoc(s + b, s, c + s + j); AppendAssoc(s, b, s); AppendAssoc(s, b + s, c + s + j); }
      a + (s + ((b + s) + (c + s + j)));
      { AppendAssoc(b + s, c, s + j); AppendAssoc(c, s, j); AppendAssoc(b + s, c + s, j); AppendAssoc(b + s, c, s); }
      a + (s + (y + s + j));
      { AppendAssoc(a, s, y + s + j); }
      a + s + (y + s + j);
    }
  }

  lemma AppendAssoc(u: string, v: string, w: string)
    ensures u + v + w == u + (v + w)
  {
  }

  lemma JoinPair(x: string, c: string, tail: seq<string>, sep: char)
    requires |tail| > 0
    ensures Join([x, c] + tail, sep) == x + [sep] + (c + [sep] + Join(tail, sep))
  {
    assert ([x, c] + tail)[1..] == [c] + tail;
    assert ([c] + tail)[1..] == tail;
  }

  /** The first position of `c` in `s`. */
  function IndexOfChar(s: string, c: char): (i: nat)
    requires c in s
    ensures i < |s| && s[i] == c && c !in s[..i]
  {
    if s[0] == c then 0 else 1 + IndexOfChar(s[1..], c)
  }

  /** `s.split(sep)`: the pieces between separators. */
  ghost function Split(s: string, sep: char): seq<string>
    decreases |s|
  {
    if sep !in s then [s]
    else
      var i := IndexOfChar(s, sep);
      [s[..i]] + Split(s[i + 1..], sep)
  }

  lemma {:induction false} IndexOfCharAfter(x: string, sep: char, y: string)
    requires sep !in x
    ensures sep in x + [sep] + y && IndexOfChar(x + [sep] + y, sep) == |x|
  {
    var s := x + [sep] + y;
    assert s[|x|] == sep;
    if x != [] {
      assert s[1..] == x[1..] + [sep] + y;
      IndexOfCharAfter(x[1..], sep, y);
    }
  }

  /** Splitting a join gives back the pieces when no piece holds the separator. */
  lemma {:induction false} SplitJoin(xs: seq<string>, sep: char)
    requires |xs| > 0
    requires forall k :: 0 <= k < |xs| ==> sep !in xs[k]
    ensures Split(Join(xs, sep), sep) == xs
    decreases |xs|
  {
    if |xs| > 1 {
      var rest := Join(xs[1..], sep);
      var s := xs[0] + [sep] + rest;
      assert Join(xs, sep) == s;
      IndexOfCharAfter(xs[0], sep, rest);
      assert s[..|xs[0]|] == xs[0];
      assert s[|xs[0]| + 1..] == rest;
      assert Split(s, sep) == [xs[0]] + Split(rest, sep);
      SplitJoin(xs[1..], sep);
      assert xs == [xs[0]] + xs[1..];
    }
  }

  /** So such a join is injective. */
  lemma JoinInjective(xs: seq<string>, ys: seq<string>, sep: char)
    requires |xs| > 0 && |ys| > 0
    requires forall k :: 0 <= k < |xs| ==> sep !in xs[k]
    requires forall k :: 0 <= k < |ys| ==> sep !in ys[k]
    requires Join(xs, sep) == Join(ys, sep)
    ensures xs == ys
  {
    SplitJoin(xs, sep);
    SplitJoin(ys, sep);
  }
}
