/**
 * What the table text promises: the header once, at the front; one line per
 * sample, in input order; and the cell rules for missing and present fields.
 */
module TableProperties {
  import opened Wrappers
  import opened Decimal
  import opened ResponseFormatter

  /** `pat` occurs in `s` starting at position `p`. */
  predicate OccursAt(pat: string, s: string, p: int) {
    0 <= p && p + |pat| <= |s| && s[p..p + |pat|] == pat
  }

  /** The number of line breaks in `s`. */
  function CountNewlines(s: string): nat {
    if s == [] then 0 else (if s[0] == '\n' then 1 else 0) + CountNewlines(s[1..])
  }

  /** No sample's date cell holds a line break. */
  predicate SingleLineDates(xs: seq<Sample>) {
    forall i :: 0 <= i < |xs| ==> '\n' !in PrintD(xs[i].date)
  }

  /** The table of no samples is the two header lines and nothing else. */
  lemma TableOfNoSamples()
    ensures Table([]) == "\n   Date    |   Wh\n-----------|------\n"
  {
    assert Table([]) == Header;
    HeaderText();
  }

  lemma HeaderText()
    ensures Header == "\n   Date    |   Wh\n-----------|------\n"
  {
    assert TitleLine == "\n   Date    |   Wh\n";
    assert RuleLine == "-----------|------\n";
  }

  lemma {:induction false} RowsConcat(xs: seq<Sample>, ys: seq<Sample>)
    ensures Rows(xs + ys) == Rows(xs) + Rows(ys)
    decreases |ys|
  {
    if ys == [] {
      assert xs + ys == xs;
    } else {
      var init := ys[..|ys| - 1];
      assert (xs + ys)[..|xs + ys| - 1] == xs + init;
      RowsConcat(xs, init);
      AppendAssoc(Rows(xs), Rows(init), Row(ys[|ys| - 1]));
    }
  }

  lemma AppendAssoc(a: string, b: string, c: string)
    ensures a + b + c == a + (b + c)
  {
  }

  /**
   * Row `i` sits right after the table of the samples before it, and the
   * rows of the later samples follow it: nothing is dropped or reordered.
   */
  lemma {:induction false} TableRowAt(xs: seq<Sample>, i: nat)
    requires i < |xs|
    ensures Table(xs) == Table(xs[..i]) + Row(xs[i]) + Rows(xs[i + 1..])
  {
    assert xs == xs[..i + 1] + xs[i + 1..];
    RowsConcat(xs[..i + 1], xs[i + 1..]);
    assert xs[..i + 1][..i] == xs[..i];
    var before, row, after := Rows(xs[..i]), Row(xs[i]), Rows(xs[i + 1..]);
    AppendAssoc(Header, before + row, after);
    AppendAssoc(Header, before, row);
  }

  lemma {:induction false} CountNewlinesConcat(a: string, b: string)
    ensures CountNewlines(a + b) == CountNewlines(a) + CountNewlines(b)
    decreases |a|
  {
    if a == [] {
      assert a + b == b;
    } else {
      assert (a + b)[1..] == a[1..] + b;
      CountNewlinesConcat(a[1..], b);
    }
  }

  lemma {:induction false} CountNewlinesNone(s: string)
    requires '\n' !in s
    ensures CountNewlines(s) == 0
    decreases |s|
  {
    if s != [] {
      assert forall c :: c in s[1..] ==> c in s;
      CountNewlinesNone(s[1..]);
    }
  }

  /** A value cell holds neither a line break nor a column bar. */
  lemma PrintVChars(v: Option<real>)
    ensures forall k :: 0 <= k < |PrintV(v)| ==> PrintV(v)[k] != '\n' && PrintV(v)[k] != '|'
  {
  }

  /** A row whose date cell has no line break holds exactly one: its terminator. */
  lemma RowNewlines(x: Sample)
    requires '\n' !in PrintD(x.date)
    ensures CountNewlines(Row(x)) == 1
  {
    var d, v := PrintD(x.date), PrintV(x.value);
    PrintVChars(x.value);
    CountNewlinesNone(d);
    CountNewlinesNone(v);
    CountNewlinesConcat(d, Separator);
    CountNewlinesConcat(d + Separator, v);
    CountNewlinesConcat(d + Separator + v, "\n");
  }

  lemma HeaderNewlines()
    ensures CountNewlines(Header) == 3
  {
    assert '\n' !in TitleText && '\n' !in RuleText;
    CountNewlinesNone(TitleText);
    CountNewlinesNone(RuleText);
    CountNewlinesConcat("\n", TitleText);
    CountNewlinesConcat("\n" + TitleText, "\n");
    CountNewlinesConcat(RuleText, "\n");
    CountNewlinesConcat(TitleLine, RuleLine);
  }

  /** With single-line dates, the table has one line break per header line and one per sample. */
  lemma {:induction false} TableLineCount(xs: seq<Sample>)
    requires SingleLineDates(xs)
    ensures CountNewlines(Table(xs)) == |xs| + 3
    decreases |xs|
  {
    if xs == [] {
      assert Table(xs) == Header;
      HeaderNewlines();
    } else {
      var init, x := xs[..|xs| - 1], xs[|xs| - 1];
      assert SingleLineDates(init) by {
        forall i | 0 <= i < |init| ensures init[i] == xs[i] { }
      }
      TableLineCount(init);
      assert init + [x] == xs;
      TableAppend(init, x);
      RowNewlines(x);
      CountNewlinesConcat(Table(init), Row(x));
    }
  }

  /** The first twelve characters of the rule line: eleven dashes and a column bar. */
  const RuleMark := "-----------|"

  lemma HeaderChars()
    ensures |Header| == 38
    ensures forall k :: 0 <= k < |Header| && Header[k] == '|' ==> k == 12 || k == 30
    ensures Header[1] == ' ' && Header[|Header| - 1] == '\n'
    ensures Header[19..31] == RuleMark
  {
    assert forall k :: 0 <= k < |TitleText| && TitleText[k] == '|' ==> k == 11;
    assert forall k :: 0 <= k < |RuleText| && RuleText[k] == '|' ==> k == 11;
  }

  /** Inside the header, the rule mark starts only the rule line. */
  lemma RuleMarkInHeader(q: int)
    requires OccursAt(RuleMark, Header, q)
    ensures q == 19
  {
    HeaderChars();
    assert Header[q..q + 12][11] == '|' && Header[q..q + 12][0] == '-';
  }

  lemma TableEndsWithNewline(xs: seq<Sample>)
    ensures |Table(xs)| > 0 && Table(xs)[|Table(xs)| - 1] == '\n'
  {
    HeaderChars();
    if xs != [] {
      var init, x := xs[..|xs| - 1], xs[|xs| - 1];
      assert init + [x] == xs;
      TableAppend(init, x);
    }
  }

  /** A column bar in a row is either inside the date cell or the separator after it. */
  lemma RowBars(x: Sample, j: int)
    requires 0 <= j < |Row(x)| && Row(x)[j] == '|'
    ensures |PrintD(x.date)| <= DateWidth
    ensures j < |PrintD(x.date)| || (j == |PrintD(x.date)| + 1 && Row(x)[j - 1] == ' ')
  {
    PrintVChars(x.value);
  }

  /** Past a line break, a row cannot hold the end of a rule mark. */
  lemma RuleMarkBeforeRow(s: string, x: Sample, q: int)
    requires |s| > 0 && s[|s| - 1] == '\n'
    requires OccursAt(RuleMark, s + Row(x), q)
    ensures q + |RuleMark| <= |s|
  {
    if |s| < q + |RuleMark| {
      var t := s + Row(x);
      RuleMarkChars(t, q);
      assert t[|s| - 1] == '\n';
      assert |s| <= q;
      assert t[q + 10] == Row(x)[q + 10 - |s|] && t[q + 11] == Row(x)[q + 11 - |s|];
      RowBars(x, q + 11 - |s|);
    }
  }

  /** An occurrence of the rule mark is eleven dashes and a bar, with no line break. */
  lemma RuleMarkChars(t: string, q: int)
    requires OccursAt(RuleMark, t, q)
    ensures forall k :: q <= k < q + 11 ==> t[k] == '-'
    ensures t[q + 11] == '|'
  {
    forall k | q <= k < q + 12
      ensures t[k] == RuleMark[k - q]
    {
      assert t[q..q + 12][k - q] == t[k];
    }
  }

  /** An occurrence that ends within the first part of a string is an occurrence in that part. */
  lemma OccursInPrefix(pat: string, s: string, u: string, q: int)
    requires OccursAt(pat, s + u, q) && q + |pat| <= |s|
    ensures OccursAt(pat, s, q)
  {
    assert (s + u)[q..q + |pat|] == s[q..q + |pat|];
  }

  /** What occurs inside an occurrence occurs in the enclosing string. */
  lemma OccursInside(a: string, b: string, t: string, p: int, k: nat)
    requires OccursAt(a, t, p) && k + |b| <= |a| && a[k..k + |b|] == b
    ensures OccursAt(b, t, p + k)
  {
    forall i | 0 <= i < |b|
      ensures t[p + k + i] == b[i]
    {
      assert t[p..p + |a|][k + i] == a[k..k + |b|][i];
    }
  }

  /**
   * The rule mark appears once in any table, where the header's rule line
   * starts: no row can produce eleven dashes followed by a column bar.
   */
  lemma {:induction false} RuleMarkOnlyInRule(xs: seq<Sample>, q: int)
    requires OccursAt(RuleMark, Table(xs), q)
    ensures q == 19
    decreases |xs|
  {
    if xs == [] {
      RuleMarkInEmptyTable(q);
    } else {
      RuleMarkBeforeLastRow(xs, q);
      RuleMarkOnlyInRule(xs[..|xs| - 1], q);
    }
  }

  lemma RuleMarkInEmptyTable(q: int)
    requires OccursAt(RuleMark, Table([]), q)
    ensures q == 19
  {
    assert Table([]) == Header;
    RuleMarkInHeader(q);
  }

  /** A rule mark in a table lies wholly before the last sample's row. */
  lemma RuleMarkBeforeLastRow(xs: seq<Sample>, q: int)
    requires xs != [] && OccursAt(RuleMark, Table(xs), q)
    ensures OccursAt(RuleMark, Table(xs[..|xs| - 1]), q)
  {
    var init, x := xs[..|xs| - 1], xs[|xs| - 1];
    assert init + [x] == xs;
    TableAppend(init, x);
    TableEndsWithNewline(init);
    RuleMarkBeforeRow(Table(init), x, q);
    OccursInPrefix(RuleMark, Table(init), Row(x), q);
  }

  /** The header starts at position zero wherever it occurs in a table. */
  lemma HeaderAt(xs: seq<Sample>, p: int)
    requires OccursAt(Header, Table(xs), p)
    ensures p == 0
  {
    HeaderChars();
    OccursInside(Header, RuleMark, Table(xs), p, 19);
    RuleMarkOnlyInRule(xs, p + 19);
  }

  /** The header opens every table and occurs nowhere else in it. */
  lemma HeaderOnlyAtStart(xs: seq<Sample>)
    ensures Header <= Table(xs)
    ensures forall p :: OccursAt(Header, Table(xs), p) ==> p == 0
  {
    forall p | OccursAt(Header, Table(xs), p)
      ensures p == 0
    {
      HeaderAt(xs, p);
    }
  }

  /** Cutting a date cell again changes nothing. */
  lemma PrintDIdempotent(d: Option<string>)
    ensures d.Some? ==> PrintD(Some(PrintD(d))) == PrintD(d)
  {
  }

  /**
   * A value cell tells a missing value apart from every present one, and two
   * present values share a cell exactly when they truncate alike.
   */
  lemma PrintVDistinguishes(a: Option<real>, b: Option<real>)
    ensures a.Some? ==> PrintV(a) != NoData
    ensures PrintV(a) == PrintV(b) <==>
      (a.None? && b.None?) ||
      (a.Some? && b.Some? && TruncateTowardZero(a.value) == TruncateTowardZero(b.value))
  {
    if a.Some? {
      assert PrintV(a)[0] != NoData[0];
    }
    if b.Some? {
      assert PrintV(b)[0] != NoData[0];
    }
    if a.Some? && b.Some? {
      IntToStringInjective(TruncateTowardZero(a.value), TruncateTowardZero(b.value));
    }
  }

  /** The cells of the documented examples: truncation, not rounding, and toward zero. */
  lemma CellExamples()
    ensures PrintV(Some(1234.9)) == "1234"
    ensures PrintV(Some(-0.5)) == "0"
    ensures PrintV(Some(-7.0)) == "-7"
    ensures PrintD(Some("2024-01-01T00:00:00")) == "2024-01-01"
    ensures PrintD(None) == "No data" && PrintV(None) == "No data"
  {
    assert TruncateTowardZero(1234.9) == 1234;
    assert NatToString(1234) == "1234";
    assert TruncateTowardZero(-0.5) == 0;
    assert TruncateTowardZero(-7.0) == -7;
  }

  /** A two-sample response renders as the header, a dated row, and an all-missing row. */
  lemma TableExample()
    ensures Table([Sample(Some("2024-01-01T00:00:00"), Some(1234.9)), Sample(None, None)])
         == Header + "2024-01-01 | 1234\n" + "No data | No data\n"
  {
    var x, y := Sample(Some("2024-01-01T00:00:00"), Some(1234.9)), Sample(None, None);
    CellExamples();
    TableAppend([], x);
    TableAppend([x], y);
    assert [x] + [y] == [x, y];
    assert Table([]) == Header;
    AppendAssoc(Header, Row(x), Row(y));
    ExampleRows();
  }

  lemma ExampleRows()
    ensures "2024-01-01" + Separator + "1234" + "\n" == "2024-01-01 | 1234\n"
    ensures NoData + Separator + NoData + "\n" == "No data | No data\n"
  {
  }
}
