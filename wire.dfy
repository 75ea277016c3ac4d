/**
  * The JSON bodies exchanged between the Flask backend and the React pages,
  * as typed values. A field a body may lack is an `Option`; `None` stands for
  * JavaScript's `undefined`.
  */
module Wire {
  import opened Options

  /** An entry of the currency list. The backend sends `code` only; the pages also display `name`. */
  datatype CurrencyItem = CurrencyItem(code: string, name: Option<string>)

  /** A daily rate record as the backend renders it (`id`, `currency_code`, `rate`, `date`, `created_at`). */
  datatype RateItem = RateItem(id: int, currencyCode: string, rate: real, date: string, createdAt: string)

  /** A monthly average (`month`, `average_rate`). */
  datatype MonthlyItem = MonthlyItem(month: string, averageRate: real)

  /** A yearly average (`year`, `average_rate`). */
  datatype YearlyItem = YearlyItem(year: string, averageRate: real)

  /** The object a rate route puts under `data`. */
  datatype Payload = Payload(
    currencyCode: Option<string>,
    startDate: Option<string>,
    endDate: Option<string>,
    rates: Option<seq<RateItem>>,
    monthlyRates: Option<seq<MonthlyItem>>,
    yearlyRates: Option<seq<YearlyItem>>)

  /** What `data` holds: the currency list (an array) or a rate payload (an object). */
  datatype BodyData = CurrencyList(items: seq<CurrencyItem>) | Record(payload: Payload)

  /** `data.rates`; reading a field of an array gives `undefined`. */
  function RatesOf(d: BodyData): Option<seq<RateItem>> {
    if d.Record? then d.payload.rates else None
  }

  function MonthlyRatesOf(d: BodyData): Option<seq<MonthlyItem>> {
    if d.Record? then d.payload.monthlyRates else None
  }

  function YearlyRatesOf(d: BodyData): Option<seq<YearlyItem>> {
    if d.Record? then d.payload.yearlyRates else None
  }

  function CurrencyCodeOf(d: BodyData): Option<string> {
    if d.Record? then d.payload.currencyCode else None
  }

  /**
    * A response body. `rates` and `currencies` at the top level are fields the
    * converter page reads; the backend never fills them.
    */
  datatype Body = Body(
    success: bool,
    data: Option<BodyData>,
    error: Option<string>,
    rates: Option<seq<RateItem>>,
    currencies: Option<seq<CurrencyItem>>)

  /** What an awaited request gives a page: axios resolves with the body on a 2xx status and throws otherwise. */
  datatype Reply = Received(body: Body) | Failed

  datatype Endpoint = DailyRates | MonthlyRates | YearlyRates

  /** A rate request: the endpoint, the currency in the path and the optional `start_date` / `end_date` parameters. */
  datatype RatesRequest = RatesRequest(endpoint: Endpoint, currency: string, startDate: Option<string>, endDate: Option<string>)

  /** How a template literal renders a field that may be `undefined`. */
  function Interpolate(s: Option<string>): string {
    s.GetOr("undefined")
  }
}
