/**
 * The response formatter of solar_output.py: a sample's date and value
 * rendered as table cells, the fixed-format table, and the choice between
 * the table and an error made from the HTTP status.
 */
module ResponseFormatter {
  import opened Wrappers
  import opened Decimal

  /** One entry of the provider's `energy.values` list; `None` stands for a JSON `null`. */
  datatype Sample = Sample(date: Option<string>, value: Option<real>)

  /** An HTTP response: its status, and the `energy.values` list if the body holds one. */
  datatype Response = Response(statusCode: int, values: Option<seq<Sample>>)

  /** What `handle_request` raises instead of returning a string. */
  datatype ResponseError =
    | StatusConcatenation(statusCode: int)  // `str + int` raises TypeError
    | PayloadShape                         // body without `energy.values`

  const NoData := "No data"
  const DateWidth := 10
  const Separator := " | "
  const TitleText := "   Date    |   Wh"
  const RuleText := "-----------|------"
  const TitleLine := "\n" + TitleText + "\n"
  const RuleLine := RuleText + "\n"
  const Header := TitleLine + RuleLine
  const StatusPrefix := "Response status: "

  function Min(a: int, b: int): int {
    if a <= b then a else b
  }

  /** The date cell: the first ten characters of the date, or "No data" when it is missing. */
  function PrintD(d: Option<string>): (r: string)
    ensures d.None? ==> r == NoData
    ensures d.Some? ==> r <= d.value && |r| == Min(DateWidth, |d.value|)
  {
    match d
    case None => NoData
    case Some(s) => if |s| <= DateWidth then s else s[..DateWidth]
  }

  /**
   * The value cell: the decimal text of the value truncated toward zero, or
   * "No data" when it is missing.
   */
  function PrintV(v: Option<real>): (r: string)
    ensures v.None? ==> r == NoData
    ensures v.Some? ==> ParseInt(r) == Some(TruncateTowardZero(v.value))
    ensures v.Some? ==> r == IntToString(TruncateTowardZero(v.value))
  {
    match v
    case None => NoData
    case Some(x) =>
      var n := TruncateTowardZero(x);
      IntToStringRoundTrip(n);
      IntToString(n)
  }

  /** The table line for one sample. */
  function Row(x: Sample): string {
    PrintD(x.date) + Separator + PrintV(x.value) + "\n"
  }

  /** The table lines for the samples, in order. */
  function Rows(xs: seq<Sample>): string {
    if xs == [] then "" else Rows(xs[..|xs| - 1]) + Row(xs[|xs| - 1])
  }

  /** The whole table: the two header lines, then one line per sample. */
  function Table(xs: seq<Sample>): string {
    Header + Rows(xs)
  }

  /** Builds the table text step by step, as `output_table` does. */
  method OutputTable(samples: seq<Sample>) returns (s: string)
    ensures s == Table(samples)
  {
    s := TitleLine;
    s := s + RuleLine;
    TableOfPrefix(samples, 0);
    for i := 0 to |samples|
      invariant s == Table(samples[..i])
    {
      TableOfPrefix(samples, i + 1);
      s := s + Row(samples[i]);
    }
    assert samples[..|samples|] == samples;
  }

  /** The table of the first `i` samples: the header alone, or one row more than the first `i - 1`. */
  lemma TableOfPrefix(samples: seq<Sample>, i: nat)
    requires i <= |samples|
    ensures i == 0 ==> Table(samples[..i]) == TitleLine + RuleLine
    ensures 0 < i ==> Table(samples[..i]) == Table(samples[..i - 1]) + Row(samples[i - 1])
  {
    if i > 0 {
      assert samples[..i] == samples[..i - 1] + [samples[i - 1]];
      TableAppend(samples[..i - 1], samples[i - 1]);
    }
  }

  /** Appending a sample appends exactly its row. */
  lemma {:induction false} TableAppend(xs: seq<Sample>, x: Sample)
    ensures Table(xs + [x]) == Table(xs) + Row(x)
  {
    assert (xs + [x])[..|xs|] == xs;
  }

  /**
   * `handle_request` as written: status 200 yields the table of the samples;
   * any other status raises, because the status line adds a string to an int.
   */
  function HandleRequest(resp: Response): (r: Result<string, ResponseError>)
    ensures r.Success? <==> resp.statusCode == 200 && resp.values.Some?
    ensures r.Success? ==> r.value == Table(resp.values.value)
    ensures resp.statusCode != 200 ==> r == Failure(StatusConcatenation(resp.statusCode))
    ensures resp.statusCode == 200 && resp.values.None? ==> r == Failure(PayloadShape)
  {
    if resp.statusCode == 200 then
      match resp.values
      case Some(xs) => Success(Table(xs))
      case None => Failure(PayloadShape)
    else
      Failure(StatusConcatenation(resp.statusCode))
  }

  /**
   * `handle_request` as evidently intended: a status other than 200 yields
   * the one-line text "Response status: " followed by the status in decimal.
   */
  function HandleRequestIntended(resp: Response): (r: Result<string, ResponseError>)
    ensures r.Failure? <==> resp.statusCode == 200 && resp.values.None?
    ensures resp.statusCode == 200 && r.Success? ==> r.value == Table(resp.values.value)
    ensures resp.statusCode != 200 ==>
      r.Success? && StatusPrefix <= r.value
      && ParseInt(r.value[|StatusPrefix|..]) == Some(resp.statusCode)
    ensures resp.statusCode == 200 ==> r == HandleRequest(resp)
    ensures resp.statusCode != 200 ==> r == Success(StatusPrefix + IntToString(resp.statusCode))
  {
    if resp.statusCode == 200 then
      HandleRequest(resp)
    else
      var code := IntToString(resp.statusCode);
      IntToStringRoundTrip(resp.statusCode);
      assert (StatusPrefix + code)[|StatusPrefix|..] == code;
      Success(StatusPrefix + code)
  }

  /**
   * Status 403 shows the discrepancy: as written the call raises; as intended
   * it yields the one-line status text.
   */
  lemma StatusLineExample()
    ensures HandleRequest(Response(403, Some([]))) == Failure(StatusConcatenation(403))
    ensures HandleRequestIntended(Response(403, Some([]))) == Success(StatusPrefix + "403")
  {
    assert NatToString(403) == "403";
  }
}
