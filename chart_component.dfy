/**
  * The chart component: from its `data` items and its `xAxisType` it builds
  * the parallel category-label and value arrays of the line chart, and
  * renders a placeholder when there is nothing to draw. ECharts' own
  * drawing is not modelled.
  */
module ChartComponent {
  import opened Options
  import opened Wire

  /** An item handed to the chart: a daily record, a monthly average or a yearly average. */
  datatype SeriesItem = DailyPoint(daily: RateItem) | MonthlyPoint(monthly: MonthlyItem) | YearlyPoint(yearly: YearlyItem)

  /** `xAxisType` when the caller passes none. */
  const DefaultAxis: string := "category"

  /** The label field an axis kind reads (`date`, `month`, `year`); `None` for an absent field (`undefined`). */
  function LabelOf(axis: string, item: SeriesItem): Option<string> {
    if axis == "time" then (if item.DailyPoint? then Some(item.daily.date) else None)
    else if axis == "month" then (if item.MonthlyPoint? then Some(item.monthly.month) else None)
    else if axis == "year" then (if item.YearlyPoint? then Some(item.yearly.year) else None)
    else None
  }

  /** The value field an axis kind reads (`rate` or `average_rate`). */
  function ValueOf(axis: string, item: SeriesItem): Option<real> {
    if axis == "time" then (if item.DailyPoint? then Some(item.daily.rate) else None)
    else if axis == "month" then (if item.MonthlyPoint? then Some(item.monthly.averageRate) else None)
    else if axis == "year" then (if item.YearlyPoint? then Some(item.yearly.averageRate) else None)
    else None
  }

  /** The axis kinds `getOption` extracts for; any other kind extracts nothing. */
  predicate KnownAxis(axis: string) {
    axis == "time" || axis == "month" || axis == "year"
  }

  /** `axisLabel.interval`: `'auto'` or a fixed step. */
  datatype LabelInterval = Auto | Every(step: int)

  /** The parts of the chart option the component computes. */
  datatype ChartOption = ChartOption(title: string, labels: seq<Option<string>>, values: seq<Option<real>>,
                                     rotate: int, interval: LabelInterval)

  /** `axisLabel.rotate`: 45 degrees for dates, flat otherwise. */
  function LabelRotate(axis: string): (r: int)
    ensures r == 45 <==> axis == "time"
    ensures r != 45 ==> r == 0
  {
    if axis == "time" then 45 else 0
  }

  /** `axisLabel.interval`: automatic thinning for dates, every label otherwise. */
  function LabelSpacing(axis: string): (r: LabelInterval)
    ensures r == Auto <==> axis == "time"
    ensures r != Auto ==> r == Every(0)
  {
    if axis == "time" then Auto else Every(0)
  }

  /**
    * `getOption`: one pass over `data` pushing each item's label and value,
    * for a known axis kind; otherwise both arrays stay empty.
    */
  method GetOption(data: seq<SeriesItem>, title: string, axis: string) returns (option: ChartOption)
    ensures option.title == title
    ensures KnownAxis(axis) ==> |option.labels| == |data| && |option.values| == |data|
    ensures KnownAxis(axis) ==> forall i :: 0 <= i < |data| ==>
      option.labels[i] == LabelOf(axis, data[i]) && option.values[i] == ValueOf(axis, data[i])
    ensures !KnownAxis(axis) ==> option.labels == [] && option.values == []
    ensures option.rotate == LabelRotate(axis) && option.interval == LabelSpacing(axis)
  {
    var xAxisData: seq<Option<string>> := [];
    var seriesData: seq<Option<real>> := [];
    if KnownAxis(axis) {
      var i := 0;
      while i < |data|
        invariant 0 <= i <= |data|
        invariant |xAxisData| == i && |seriesData| == i
        invariant forall j :: 0 <= j < i ==> xAxisData[j] == LabelOf(axis, data[j]) && seriesData[j] == ValueOf(axis, data[j])
      {
        var item := data[i];
        xAxisData := xAxisData + [LabelOf(axis, item)];
        seriesData := seriesData + [ValueOf(axis, item)];
        i := i + 1;
      }
    }
    option := ChartOption(title, xAxisData, seriesData, LabelRotate(axis), LabelSpacing(axis));
  }

  /** What the component shows. */
  datatype View = NoData | Chart(option: ChartOption)

  /** The component: the chart for non-empty data, the "暂无数据" placeholder otherwise. */
  method Render(data: Option<seq<SeriesItem>>, title: string, axis: Option<string>) returns (view: View)
    ensures view.NoData? <==> data.None? || |data.value| == 0
    ensures view.Chart? ==> view.option.title == title && view.option.rotate == LabelRotate(axis.GetOr(DefaultAxis))
    ensures view.Chart? ==> view.option.interval == LabelSpacing(axis.GetOr(DefaultAxis))
    ensures view.Chart? && KnownAxis(axis.GetOr(DefaultAxis)) ==>
      |view.option.labels| == |data.value| && |view.option.values| == |data.value|
    ensures view.Chart? && KnownAxis(axis.GetOr(DefaultAxis)) ==> forall i :: 0 <= i < |data.value| ==>
      view.option.labels[i] == LabelOf(axis.GetOr(DefaultAxis), data.value[i]) &&
      view.option.values[i] == ValueOf(axis.GetOr(DefaultAxis), data.value[i])
    ensures view.Chart? && !KnownAxis(axis.GetOr(DefaultAxis)) ==> view.option.labels == [] && view.option.values == []
  {
    if data.None? || |data.value| == 0 {
      return NoData;
    }
    var option := GetOption(data.value, title, axis.GetOr(DefaultAxis));
    view := Chart(option);
  }

  /** The default axis kind extracts nothing: a chart drawn without `xAxisType` has no points. */
  lemma DefaultAxisExtractsNothing(item: SeriesItem)
    ensures !KnownAxis(DefaultAxis)
    ensures LabelOf(DefaultAxis, item).None? && ValueOf(DefaultAxis, item).None?
  {
  }
}
