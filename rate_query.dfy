/**
  * The rate query page: the request built from the form, what a reply does
  * to the page's state, the CSV export of the loaded records, and the two
  * table sorters. The export's download mechanics are not modelled: the
  * result is the file name and content that would be downloaded.
  */
module RateQuery {
  import opened Options
  import opened Text
  import opened Dates
  import opened Wire
  import opened Routes

  /** `startDate` / `endDate`: both formatted when the range has exactly two entries, otherwise both null. */
  function DateBounds(dateRange: Option<seq<CalendarDate>>): (r: (Option<string>, Option<string>))
    ensures r.0.Some? <==> dateRange.Some? && |dateRange.value| == 2
    ensures r.1.Some? <==> r.0.Some?
    ensures r.0.Some? ==> r.0.value == FormatDate(dateRange.value[0]) && r.1.value == FormatDate(dateRange.value[1])
  {
    if dateRange.Some? && |dateRange.value| == 2 then
      (Some(FormatDate(dateRange.value[0])), Some(FormatDate(dateRange.value[1])))
    else (None, None)
  }

  /** The daily-rates request `handleSubmit` sends (a null bound is left out of the query). */
  function QueryRequest(currency: string, dateRange: Option<seq<CalendarDate>>): (req: RatesRequest)
    ensures req.endpoint == DailyRates && req.currency == currency
    ensures (req.startDate, req.endDate) == DateBounds(dateRange)
  {
    var (startDate, endDate) := DateBounds(dateRange);
    RatesRequest(DailyRates, currency, startDate, endDate)
  }

  /** The query string value the backend reads for an optional parameter. */
  function ArgOf(param: Option<string>): string {
    param.GetOr("")
  }

  /**
    * End to end: a two-date range reaches the backend as exactly that window;
    * any other range leaves both bounds to the backend's defaults.
    */
  lemma QueryWindowReachesBackend(currency: string, dateRange: Option<seq<CalendarDate>>, today: CalendarDate)
    requires (dateRange.Some? && |dateRange.value| == 2) || Ordinal(today) > DefaultSpanDays
    ensures var req := QueryRequest(currency, dateRange);
      var b := ResolveBounds(ArgOf(req.startDate), ArgOf(req.endDate), today);
      && b.Bounds?
      && (dateRange.Some? && |dateRange.value| == 2 ==> b == Bounds(dateRange.value[0], dateRange.value[1]))
      && (!(dateRange.Some? && |dateRange.value| == 2) ==> b.end == today && Ordinal(b.start) == Ordinal(today) - DefaultSpanDays)
  {
    if dateRange.Some? && |dateRange.value| == 2 {
      ParseFormatRoundTrip(dateRange.value[0]);
      ParseFormatRoundTrip(dateRange.value[1]);
    }
  }

  /** The page's `rateData` and `error` after a submit, from the reply. */
  datatype QueryState = QueryState(rateData: Option<BodyData>, error: Option<string>)

  const FetchFailedMessage: string := "获取汇率数据失败"
  const QueryFailedMessage: string := "查询失败，请稍后再试"

  /**
    * `handleSubmit` after the request: a successful body replaces the data;
    * an unsuccessful one or a thrown request keeps the old data and sets an error.
    */
  function AfterQuery(old_: QueryState, reply: Reply): (s: QueryState)
    ensures reply.Received? && reply.body.success ==> s == QueryState(reply.body.data, None)
    ensures reply.Received? && !reply.body.success ==> s == QueryState(old_.rateData, Some(FetchFailedMessage))
    ensures reply.Failed? ==> s == QueryState(old_.rateData, Some(QueryFailedMessage))
  {
    match reply
    case Received(body) =>
      if body.success then QueryState(body.data, None) else QueryState(old_.rateData, Some(FetchFailedMessage))
    case Failed => QueryState(old_.rateData, Some(QueryFailedMessage))
  }

  // ---------------------------------------------------------------------------
  // CSV export

  /** The header line, `日期,货币代码,汇率`. */
  const Header: string := "日期,货币代码,汇率"

  /** One record as `date,currency_code,rate`; `show` renders the number as JavaScript prints it. */
  function CsvLine(r: RateItem, show: real -> string): string {
    Join([r.date, r.currencyCode, show(r.rate)], ",")
  }

  /** What the export downloads. */
  datatype CsvFile = CsvFile(name: string, content: string)

  /** `exportToCSV`: nothing without loaded records; otherwise the header and one line per record. */
  function ExportCsv(rateData: Option<BodyData>, show: real -> string): (f: Option<CsvFile>)
    ensures f.None? <==> rateData.None? || RatesOf(rateData.value).None? || |RatesOf(rateData.value).value| == 0
    ensures f.Some? ==> f.value.name == Interpolate(CurrencyCodeOf(rateData.value)) + "_rates.csv"
  {
    if rateData.None? then None
    else match RatesOf(rateData.value)
      case None => None
      case Some(rates) =>
        if |rates| == 0 then None
        else
          var lines := seq(|rates|, i requires 0 <= i < |rates| => CsvLine(rates[i], show));
          Some(CsvFile(Interpolate(CurrencyCodeOf(rateData.value)) + "_rates.csv", Join([Header] + lines, "\n")))
  }

  /** No field of the record holds `c`. */
  predicate FieldsAvoid(r: RateItem, show: real -> string, c: char) {
    c !in r.date && c !in r.currencyCode && c !in show(r.rate)
  }

  /**
    * The content has exactly one line more than there are records: the
    * header first, then record i on line i+1, in input order, no trailing
    * newline. This needs the fields to be free of line breaks.
    */
  lemma CsvLines(rateData: Option<BodyData>, show: real -> string)
    requires ExportCsv(rateData, show).Some?
    requires forall r :: r in RatesOf(rateData.value).value ==> FieldsAvoid(r, show, '\n')
    ensures var rates := RatesOf(rateData.value).value;
      var lines := Split(ExportCsv(rateData, show).value.content, '\n');
      && |lines| == |rates| + 1
      && lines[0] == Header
      && forall i :: 0 <= i < |rates| ==> lines[i + 1] == CsvLine(rates[i], show)
  {
    var rates := RatesOf(rateData.value).value;
    var lines := seq(|rates|, i requires 0 <= i < |rates| => CsvLine(rates[i], show));
    var parts := [Header] + lines;
    forall i | 0 <= i < |parts|
      ensures '\n' !in parts[i]
    {
      if i > 0 {
        assert rates[i - 1] in rates;
        JoinAvoids([rates[i - 1].date, rates[i - 1].currencyCode, show(rates[i - 1].rate)], ",", '\n');
      }
    }
    SplitJoin(parts, '\n');
  }

  /** Each line splits back into its three fields when none of them holds a comma. */
  lemma CsvLineFields(r: RateItem, show: real -> string)
    requires FieldsAvoid(r, show, ',')
    ensures Split(CsvLine(r, show), ',') == [r.date, r.currencyCode, show(r.rate)]
  {
    SplitJoin([r.date, r.currencyCode, show(r.rate)], ',');
  }

  /** Fields are not quoted: a comma inside the currency code yields a line of four fields. */
  lemma CommaInFieldIsNotQuoted(r: RateItem, show: real -> string)
    requires r.currencyCode == "A,B" && ',' !in r.date && ',' !in show(r.rate)
    ensures |Split(CsvLine(r, show), ',')| == 4
  {
    var d := r.date;
    var v := show(r.rate);
    assert [d, "A,B", v][1..] == ["A,B", v] && ["A,B", v][1..] == [v];
    assert Join([v], ",") == v;
    assert Join(["A,B", v], ",") == "A,B" + "," + v;
    assert Join([d, "A,B", v], ",") == d + "," + ("A,B" + "," + v);
    assert [d, "A", "B", v][1..] == ["A", "B", v] && ["A", "B", v][1..] == ["B", v] && ["B", v][1..] == [v];
    assert Join(["B", v], ",") == "B" + "," + v;
    assert Join(["A", "B", v], ",") == "A" + "," + ("B" + "," + v);
    assert Join([d, "A", "B", v], ",") == d + "," + ("A" + "," + ("B" + "," + v));
    assert "A,B" + "," + v == "A" + "," + ("B" + "," + v);
    SplitJoin([d, "A", "B", v], ',');
  }

  // ---------------------------------------------------------------------------
  // Table sorters

  /** The date column's comparator, by the sign of `new Date(a.date) - new Date(b.date)` (ISO strings compare by text). */
  function DateSorter(a: RateItem, b: RateItem): (c: int)
    ensures c < 0 <==> StrLess(a.date, b.date)
    ensures c == 0 <==> a.date == b.date
  {
    StrLessIrreflexive(a.date);
    StrLessTotal(a.date, b.date);
    if StrLess(a.date, b.date) then -1 else if a.date == b.date then 0 else 1
  }

  /** The rate column's comparator, `a.rate - b.rate`. */
  function RateSorter(a: RateItem, b: RateItem): (c: real)
    ensures c < 0.0 <==> a.rate < b.rate
    ensures c == 0.0 <==> a.rate == b.rate
  {
    a.rate - b.rate
  }

  /** Both comparators are consistent: swapping the arguments flips the sign, and the order is transitive. */
  lemma SortersConsistent(a: RateItem, b: RateItem, c: RateItem)
    ensures DateSorter(a, b) == -DateSorter(b, a)
    ensures RateSorter(a, b) == -RateSorter(b, a)
    ensures DateSorter(a, b) < 0 && DateSorter(b, c) < 0 ==> DateSorter(a, c) < 0
    ensures RateSorter(a, b) < 0.0 && RateSorter(b, c) < 0.0 ==> RateSorter(a, c) < 0.0
  {
    if StrLess(a.date, b.date) {
      StrLessAsymmetric(a.date, b.date);
      if StrLess(b.date, c.date) {
        StrLessTransitive(a.date, b.date, c.date);
      }
    } else if StrLess(b.date, a.date) {
      StrLessAsymmetric(b.date, a.date);
    } else {
      StrLessTotal(a.date, b.date);
    }
  }
}
