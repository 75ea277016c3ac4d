/**
  * The rate chart page: which endpoint a submit calls, which payload field,
  * title and axis kind the chart gets for the selected granularity, and the
  * page state the submit and the granularity switch update.
  */
module ChartPage {
  import opened Options
  import opened Dates
  import opened Wire
  import opened RateQuery
  import opened ChartComponent

  /** The series for the chart: the payload field of the granularity, or nothing. */
  function ChartSeries(chartData: Option<BodyData>, chartType: string): (s: seq<SeriesItem>)
    ensures chartData.None? ==> s == []
    ensures chartType != "daily" && chartType != "monthly" && chartType != "yearly" ==> s == []
    ensures chartData.Some? && chartType == "daily" ==>
      var f := RatesOf(chartData.value).GetOr([]);
      |s| == |f| && forall i :: 0 <= i < |s| ==> s[i] == DailyPoint(f[i])
    ensures chartData.Some? && chartType == "monthly" ==>
      var f := MonthlyRatesOf(chartData.value).GetOr([]);
      |s| == |f| && forall i :: 0 <= i < |s| ==> s[i] == MonthlyPoint(f[i])
    ensures chartData.Some? && chartType == "yearly" ==>
      var f := YearlyRatesOf(chartData.value).GetOr([]);
      |s| == |f| && forall i :: 0 <= i < |s| ==> s[i] == YearlyPoint(f[i])
  {
    if chartData.None? then []
    else if chartType == "daily" then
      var f := RatesOf(chartData.value).GetOr([]);
      seq(|f|, i requires 0 <= i < |f| => DailyPoint(f[i]))
    else if chartType == "monthly" then
      var f := MonthlyRatesOf(chartData.value).GetOr([]);
      seq(|f|, i requires 0 <= i < |f| => MonthlyPoint(f[i]))
    else if chartType == "yearly" then
      var f := YearlyRatesOf(chartData.value).GetOr([]);
      seq(|f|, i requires 0 <= i < |f| => YearlyPoint(f[i]))
    else []
  }

  /** The title suffix of a granularity. */
  function TitleSuffix(chartType: string): string {
    if chartType == "daily" then " 日汇率走势"
    else if chartType == "monthly" then " 月平均汇率走势"
    else if chartType == "yearly" then " 年平均汇率走势"
    else " 汇率走势"
  }

  /** `getChartTitle`: empty without data, otherwise `{currency_code}/CNY` and the granularity's suffix. */
  function ChartTitle(chartData: Option<BodyData>, chartType: string): (t: string)
    ensures chartData.None? ==> t == ""
    ensures chartData.Some? ==> t == Interpolate(CurrencyCodeOf(chartData.value)) + "/CNY" + TitleSuffix(chartType)
  {
    if chartData.None? then "" else Interpolate(CurrencyCodeOf(chartData.value)) + "/CNY" + TitleSuffix(chartType)
  }

  /**
    * The title tells the granularities apart: over the same data, two chart
    * types that load different series, or that `getChartTitle` names
    * differently, never share a title, and each title begins with the pair.
    */
  lemma {:induction false} TitleNamesGranularity(d: BodyData, t1: string, t2: string)
    ensures var p := Interpolate(CurrencyCodeOf(d)) + "/CNY";
      |ChartTitle(Some(d), t1)| > |p| && ChartTitle(Some(d), t1)[..|p|] == p
    ensures TitleSuffix(t1) != TitleSuffix(t2) ==> ChartTitle(Some(d), t1) != ChartTitle(Some(d), t2)
    ensures EndpointFor(t1) != EndpointFor(t2) ==> ChartTitle(Some(d), t1) != ChartTitle(Some(d), t2)
  {
    var p := Interpolate(CurrencyCodeOf(d)) + "/CNY";
    var a, b := ChartTitle(Some(d), t1), ChartTitle(Some(d), t2);
    assert a == p + TitleSuffix(t1) && b == p + TitleSuffix(t2);
    assert a[..|p|] == p;
    if a == b {
      assert a[|p|..] == TitleSuffix(t1);
      assert b[|p|..] == TitleSuffix(t2);
    }
    if EndpointFor(t1) != EndpointFor(t2) {
      assert TitleSuffix(t1) != TitleSuffix(t2) by {
        if t1 == "monthly" || t2 == "monthly" {
          assert TitleSuffix("monthly")[1] == '月';
        } else {
          assert TitleSuffix("yearly")[1] == '年';
        }
      }
    }
  }

  /** `getChartXAxisType`: the axis kind of a granularity, dates by default. */
  function XAxisType(chartType: string): (axis: string)
    ensures KnownAxis(axis)
    ensures chartType == "monthly" ==> axis == "month"
    ensures chartType == "yearly" ==> axis == "year"
    ensures chartType != "monthly" && chartType != "yearly" ==> axis == "time"
  {
    if chartType == "daily" then "time"
    else if chartType == "monthly" then "month"
    else if chartType == "yearly" then "year"
    else "time"
  }

  /** The endpoint a submit calls for a granularity, the daily one by default. */
  function EndpointFor(chartType: string): (e: Endpoint)
    ensures e == MonthlyRates <==> chartType == "monthly"
    ensures e == YearlyRates <==> chartType == "yearly"
  {
    if chartType == "monthly" then MonthlyRates else if chartType == "yearly" then YearlyRates else DailyRates
  }

  /**
    * What the page hands the chart fits the axis kind it hands with it: for
    * every granularity each item has the label and value fields that axis reads.
    */
  lemma SeriesFitsAxis(chartData: Option<BodyData>, chartType: string, i: nat)
    requires i < |ChartSeries(chartData, chartType)|
    ensures LabelOf(XAxisType(chartType), ChartSeries(chartData, chartType)[i]).Some?
    ensures ValueOf(XAxisType(chartType), ChartSeries(chartData, chartType)[i]).Some?
  {
  }

  /**
    * Switching granularity before the new data arrives shows nothing: daily
    * data carries no `monthly_rates`, so the monthly view of it is empty.
    */
  lemma SwitchShowsNoDataUntilReload(code: string, start: string, end: string, rates: seq<RateItem>)
    ensures ChartSeries(Some(Record(Payload(Some(code), Some(start), Some(end), Some(rates), None, None))), "monthly") == []
  {
  }

  /** The chart page's state. */
  class ChartPageState {
    var chartData: Option<BodyData>
    var chartType: string
    var error: Option<string>

    constructor ()
      ensures chartData.None? && chartType == "daily" && error.None?
    {
      chartData := None;
      chartType := "daily";
      error := None;
    }

    /**
      * `handleSubmit`: request the granularity's endpoint with the form's
      * bounds (`respond` is the backend's answer); a successful body replaces
      * the data, anything else keeps it and sets an error.
      */
    method HandleSubmit(currency: string, dateRange: Option<seq<CalendarDate>>, respond: RatesRequest -> Reply)
      returns (request: RatesRequest)
      modifies this
      ensures request.endpoint == EndpointFor(chartType) && request.currency == currency
      ensures (request.startDate, request.endDate) == DateBounds(dateRange)
      ensures QueryState(chartData, error) == AfterQuery(QueryState(old(chartData), old(error)), respond(request))
      ensures chartType == old(chartType)
    {
      error := None;
      var (startDate, endDate) := DateBounds(dateRange);
      request := RatesRequest(EndpointFor(chartType), currency, startDate, endDate);
      var reply := respond(request);
      if reply.Received? && reply.body.success {
        chartData := reply.body.data;
      } else if reply.Received? {
        error := Some(FetchFailedMessage);
      } else {
        error := Some(QueryFailedMessage);
      }
    }

    /** `handleChartTypeChange`: select the granularity; resubmit only when data is already loaded. */
    method HandleChartTypeChange(value: string) returns (resubmit: bool)
      modifies this
      ensures chartType == value
      ensures resubmit <==> chartData.Some?
      ensures chartData == old(chartData) && error == old(error)
    {
      chartType := value;
      resubmit := chartData.Some?;
    }
  }
}
