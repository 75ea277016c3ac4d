/**
  * The four GET routes of the backend's `/api` blueprint. A request is its
  * path currency and its `start_date` / `end_date` query strings (`""` when
  * missing, as `request.args.get(name, '')` gives); the clock reading is a
  * parameter. An exception the routes do not catch becomes the application's
  * 500 reply.
  */
module Routes {
  import opened Options
  import opened Dates
  import opened Wire
  import opened ExchangeRateModel
  import opened RateService

  /** The default window: the last `365*3` days. */
  const DefaultSpanDays: nat := 365 * 3

  const BadDateMessage: string := "日期格式无效，请使用YYYY-MM-DD格式"
  const ServerErrorMessage: string := "Server error"

  /** An HTTP reply: a status and its JSON body. */
  datatype Response = Response(status: int, body: Body)

  function SuccessBody(d: BodyData): Body {
    Body(true, Some(d), None, None, None)
  }

  /** An error body; the 500 handler's body has no `success`, read as false. */
  function ErrorBody(message: string): Body {
    Body(false, None, Some(message), None, None)
  }

  /** The application-wide handler for an uncaught exception. */
  const ServerError: Response := Response(500, ErrorBody(ServerErrorMessage))

  /** How the route resolves its two bounds: both dates, a `ValueError`, or an `OverflowError`. */
  datatype Bounds = Bounds(start: CalendarDate, end: CalendarDate) | BadDate | Overflow

  /**
    * `datetime.now() - timedelta(days=365*3)`, which overflows when it would
    * fall before 0001-01-01.
    */
  function DefaultStart(today: CalendarDate): (r: Option<CalendarDate>)
    ensures r.Some? <==> Ordinal(today) > DefaultSpanDays
    ensures r.Some? ==> Ordinal(r.value) == Ordinal(today) - DefaultSpanDays && Before(r.value, today)
  {
    if Ordinal(today) > DefaultSpanDays then
      SubtractDaysStep(today, DefaultSpanDays);
      Some(SubtractDays(today, DefaultSpanDays))
    else None
  }

  /**
    * The `try` block of every rate route: the start is resolved first, then
    * the end; a non-empty argument is parsed with `%Y-%m-%d`, an empty one
    * defaults (start: three years back, end: today).
    */
  function ResolveBounds(startArg: string, endArg: string, today: CalendarDate): (b: Bounds)
    ensures startArg != "" && ParseDate(startArg).None? ==> b == BadDate
    ensures b == Overflow <==> startArg == "" && Ordinal(today) <= DefaultSpanDays
    ensures b.Bounds? <==>
      && (startArg != "" ==> ParseDate(startArg).Some?)
      && (startArg == "" ==> Ordinal(today) > DefaultSpanDays)
      && (endArg != "" ==> ParseDate(endArg).Some?)
    ensures b.Bounds? && startArg != "" ==> ParseDate(startArg) == Some(b.start)
    ensures b.Bounds? && endArg != "" ==> ParseDate(endArg) == Some(b.end)
    ensures b.Bounds? && startArg == "" ==> Ordinal(b.start) == Ordinal(today) - DefaultSpanDays
    ensures b.Bounds? && endArg == "" ==> b.end == today
  {
    var start := if startArg != "" then ParseDate(startArg) else DefaultStart(today);
    if start.None? then
      if startArg != "" then BadDate else Overflow
    else
      var end := if endArg != "" then ParseDate(endArg) else Some(today);
      if end.None? then BadDate else Bounds(start.value, end.value)
  }

  /** The `data` object of a rate route, with the bounds echoed as `%Y-%m-%d`. */
  function RatePayload(code: string, start: CalendarDate, end: CalendarDate, rates: Option<seq<RateItem>>,
                       monthly: Option<seq<MonthlyItem>>, yearly: Option<seq<YearlyItem>>): Payload {
    Payload(Some(code), Some(FormatDate(start)), Some(FormatDate(end)), rates, monthly, yearly)
  }

  /** What the three rate routes share: the status and error body the bounds decide. */
  function BoundsFailure(b: Bounds): (r: Option<Response>)
    ensures r.Some? <==> !b.Bounds?
    ensures b == BadDate ==> r == Some(Response(400, ErrorBody(BadDateMessage)))
    ensures b == Overflow ==> r == Some(ServerError)
  {
    match b
    case BadDate => Some(Response(400, ErrorBody(BadDateMessage)))
    case Overflow => Some(ServerError)
    case Bounds(_, _) => None
  }

  /** `GET /api/rates/<code>`: the daily records of the window, oldest first. */
  function GetRates(rows: seq<ExchangeRate>, code: string, startArg: string, endArg: string, today: CalendarDate): (r: Response)
    ensures var b := ResolveBounds(startArg, endArg, today);
      && (r.status == 200 <==> b.Bounds?)
      && (b.Bounds? ==> r.body == SuccessBody(Record(RatePayload(code, b.start, b.end, Some(HistoricalRates(rows, code, b.start, b.end)), None, None))))
      && (!b.Bounds? ==> Some(r) == BoundsFailure(b))
  {
    var b := ResolveBounds(startArg, endArg, today);
    match b
    case Bounds(start, end) =>
      Response(200, SuccessBody(Record(RatePayload(code, start, end, Some(HistoricalRates(rows, code, start, end)), None, None))))
    case _ => BoundsFailure(b).value
  }

  /** `GET /api/rates/<code>/monthly`: the monthly averages of the window. */
  function GetMonthlyRates(rows: seq<ExchangeRate>, code: string, startArg: string, endArg: string, today: CalendarDate): (r: Response)
    ensures var b := ResolveBounds(startArg, endArg, today);
      && (r.status == 200 <==> b.Bounds?)
      && (b.Bounds? ==> r.body == SuccessBody(Record(RatePayload(code, b.start, b.end, None, Some(MonthlyAverages(rows, code, b.start, b.end)), None))))
      && (!b.Bounds? ==> Some(r) == BoundsFailure(b))
  {
    var b := ResolveBounds(startArg, endArg, today);
    match b
    case Bounds(start, end) =>
      Response(200, SuccessBody(Record(RatePayload(code, start, end, None, Some(MonthlyAverages(rows, code, start, end)), None))))
    case _ => BoundsFailure(b).value
  }

  /** `GET /api/rates/<code>/yearly`: the yearly averages of the window. */
  function GetYearlyRates(rows: seq<ExchangeRate>, code: string, startArg: string, endArg: string, today: CalendarDate): (r: Response)
    ensures var b := ResolveBounds(startArg, endArg, today);
      && (r.status == 200 <==> b.Bounds?)
      && (b.Bounds? ==> r.body == SuccessBody(Record(RatePayload(code, b.start, b.end, None, None, Some(YearlyAverages(rows, code, b.start, b.end))))))
      && (!b.Bounds? ==> Some(r) == BoundsFailure(b))
  {
    var b := ResolveBounds(startArg, endArg, today);
    match b
    case Bounds(start, end) =>
      Response(200, SuccessBody(Record(RatePayload(code, start, end, None, None, Some(YearlyAverages(rows, code, start, end))))))
    case _ => BoundsFailure(b).value
  }

  /** `GET /api/currencies`: always succeeds with the configured codes under `data`. */
  function GetCurrencies(): (r: Response)
    ensures r.status == 200 && r.body.success && r.body.data.Some? && r.body.data.value.CurrencyList?
    ensures |r.body.data.value.items| == |SupportedCurrencies|
    ensures forall i :: 0 <= i < |SupportedCurrencies| ==> r.body.data.value.items[i].code == SupportedCurrencies[i]
  {
    Response(200, SuccessBody(CurrencyList(SupportedCurrencyList())))
  }

  /** What the frontend's awaited call gives: the body on a 2xx status, a thrown error otherwise. */
  function ReplyOf(r: Response): (reply: Reply)
    ensures reply.Received? <==> 200 <= r.status < 300
    ensures reply.Received? ==> reply.body == r.body
  {
    if 200 <= r.status < 300 then Received(r.body) else Failed
  }

  // ---------------------------------------------------------------------------
  // Properties of the routes

  /** With neither argument the window is the 1095 days ending today, start before end. */
  lemma DefaultWindow(today: CalendarDate)
    requires Ordinal(today) > DefaultSpanDays
    ensures var b := ResolveBounds("", "", today);
      b.Bounds? && b.end == today && Before(b.start, b.end) && Ordinal(b.end) - Ordinal(b.start) == DefaultSpanDays
  {
  }

  /**
    * The echoed `start_date` and `end_date` are canonical: sending them back
    * resolves to the same window, whatever the clock says then.
    */
  lemma EchoedBoundsReproduceWindow(startArg: string, endArg: string, today: CalendarDate, later: CalendarDate)
    requires ResolveBounds(startArg, endArg, today).Bounds?
    ensures var b := ResolveBounds(startArg, endArg, today);
      ResolveBounds(FormatDate(b.start), FormatDate(b.end), later) == b
  {
    var b := ResolveBounds(startArg, endArg, today);
    ParseFormatRoundTrip(b.start);
    ParseFormatRoundTrip(b.end);
  }

  /** A start after the end is not an error: the route succeeds with no records. */
  lemma InvertedWindowIsEmpty(rows: seq<ExchangeRate>, code: string, startArg: string, endArg: string, today: CalendarDate)
    requires var b := ResolveBounds(startArg, endArg, today); b.Bounds? && Before(b.end, b.start)
    ensures var r := GetRates(rows, code, startArg, endArg, today);
      r.status == 200 && r.body.data.value.payload.rates == Some([])
  {
    var b := ResolveBounds(startArg, endArg, today);
    InvertedWindowSelectsNothing(rows, code, b.start, b.end);
  }

  /** Every rendered record is of the requested currency and dated inside the window. */
  lemma HistoricalRatesWithinWindow(rows: seq<ExchangeRate>, code: string, start: CalendarDate, end: CalendarDate, i: nat)
    requires i < |HistoricalRates(rows, code, start, end)|
    ensures var item := HistoricalRates(rows, code, start, end)[i];
      && item.currencyCode == code
      && ParseDate(item.date).Some?
      && NotAfter(start, ParseDate(item.date).value)
      && NotAfter(ParseDate(item.date).value, end)
  {
    var recs := HistoricalRecords(rows, code, start, end);
    assert recs[i] in recs;
  }

  /** The three rate routes accept and refuse the same arguments and echo the same window. */
  lemma RoutesAgreeOnBounds(rows: seq<ExchangeRate>, code: string, startArg: string, endArg: string, today: CalendarDate)
    ensures var d := GetRates(rows, code, startArg, endArg, today);
      var m := GetMonthlyRates(rows, code, startArg, endArg, today);
      var y := GetYearlyRates(rows, code, startArg, endArg, today);
      && d.status == m.status == y.status
      && (d.status != 200 ==> d == m == y)
      && (d.status == 200 ==>
            d.body.data.value.payload.startDate == m.body.data.value.payload.startDate == y.body.data.value.payload.startDate &&
            d.body.data.value.payload.endDate == m.body.data.value.payload.endDate == y.body.data.value.payload.endDate)
  {
  }

  /** A refused request never depends on the table. */
  lemma RefusalIgnoresTable(rows: seq<ExchangeRate>, other: seq<ExchangeRate>, code: string, startArg: string, endArg: string, today: CalendarDate)
    requires GetRates(rows, code, startArg, endArg, today).status != 200
    ensures GetRates(rows, code, startArg, endArg, today) == GetRates(other, code, startArg, endArg, today)
    ensures ReplyOf(GetRates(rows, code, startArg, endArg, today)) == Failed
  {
  }
}
