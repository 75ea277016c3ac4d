/**
  * The currency converter page. Its state is a `CurrencyConverter` object
  * whose fields are the page's React state; each handler is a method. The
  * page converts between CNY and one foreign currency: forward (CNY to the
  * foreign currency) divides by the CNY rate, reverse multiplies by it.
  */
module Converter {
  import opened Options
  import opened Dates
  import opened Wire
  import opened Numbers
  import opened ExchangeRateModel
  import opened RateService
  import opened Routes

  const Cny: string := "CNY"

  /** The currency whose rate the conversion requests (`isReverse ? fromCurrency : toCurrency`). */
  function TargetCurrency(isReverse: bool, fromCurrency: string, toCurrency: string): string {
    if isReverse then fromCurrency else toCurrency
  }

  /** The currency shown on the "from" side. */
  function FromDisplay(isReverse: bool, toCurrency: string): string {
    if isReverse then toCurrency else Cny
  }

  /** The currency shown on the "to" side. */
  function ToDisplay(isReverse: bool, toCurrency: string): string {
    if isReverse then Cny else toCurrency
  }

  /** Exactly one side shows CNY and the other shows `toCurrency`. */
  lemma DisplaysArePair(isReverse: bool, toCurrency: string)
    ensures {FromDisplay(isReverse, toCurrency), ToDisplay(isReverse, toCurrency)} == {Cny, toCurrency}
  {
  }

  /**
    * The converted amount for a `rate` quoted as CNY per unit of the foreign
    * currency: reverse (foreign to CNY) multiplies, forward (CNY to foreign) divides.
    */
  function Convert(amount: real, rate: real, isReverse: bool): (r: Number)
    ensures isReverse ==> r == Finite(amount * rate)
    ensures !isReverse && rate != 0.0 ==> r.Finite? && r.value * rate == amount
    ensures !isReverse && rate == 0.0 && amount > 0.0 ==> r == PosInfinity
  {
    if isReverse then Finite(amount * rate) else Divide(amount, rate)
  }

  /** Converting forward and then back with the same positive rate returns the amount. */
  lemma ConvertRoundTrip(amount: real, rate: real)
    requires rate != 0.0
    ensures Convert(Convert(amount, rate, false).value, rate, true) == Finite(amount)
    ensures Convert(Convert(amount, rate, true).value, rate, false) == Finite(amount)
  {
  }

  /** A larger amount converts to a larger result at a positive rate, in both directions. */
  lemma ConvertMonotone(a: real, b: real, rate: real, isReverse: bool)
    requires a < b && rate > 0.0
    ensures Convert(a, rate, isReverse).value < Convert(b, rate, isReverse).value
  {
    if !isReverse {
      var x := Convert(a, rate, false).value;
      var y := Convert(b, rate, false).value;
      assert x * rate < y * rate;
    }
  }

  /** `data.rates[0].rate` on the body as the page reads it: `rates` at the top level. */
  function TopLevelRate(body: Body): (r: Option<real>)
    ensures r.Some? <==> body.rates.Some? && |body.rates.value| > 0
    ensures r.Some? ==> r.value == body.rates.value[0].rate
  {
    if body.rates.Some? && |body.rates.value| > 0 then Some(body.rates.value[0].rate) else None
  }

  /** `data.currencies || []` on the body as the page reads it. */
  function TopLevelCurrencies(body: Body): (r: seq<CurrencyItem>)
    ensures body.currencies.None? ==> r == []
    ensures body.currencies.Some? ==> r == body.currencies.value
  {
    body.currencies.GetOr([])
  }

  /** How one press of the convert button ends. */
  datatype Outcome = InvalidAmount | Converted | NoRate | ConversionFailed

  /** The converter page's state. */
  class CurrencyConverter {
    var currencies: seq<CurrencyItem>
    var fromCurrency: string
    var toCurrency: string
    var amount: real
    var convertedAmount: Number
    var exchangeRate: real
    var isReverse: bool

    constructor ()
      ensures currencies == [] && fromCurrency == Cny && toCurrency == "USD" && amount == 100.0
      ensures convertedAmount == Finite(0.0) && exchangeRate == 0.0 && !isReverse
    {
      currencies := [];
      fromCurrency := Cny;
      toCurrency := "USD";
      amount := 100.0;
      convertedAmount := Finite(0.0);
      exchangeRate := 0.0;
      isReverse := false;
    }

    /** `fetchCurrencies`: keep the list the reply carries; a failed request leaves the list alone. */
    method LoadCurrencies(reply: Reply)
      modifies this
      ensures reply.Received? ==> currencies == TopLevelCurrencies(reply.body)
      ensures reply.Failed? ==> currencies == old(currencies)
      ensures fromCurrency == old(fromCurrency) && toCurrency == old(toCurrency) && amount == old(amount)
      ensures convertedAmount == old(convertedAmount) && exchangeRate == old(exchangeRate) && isReverse == old(isReverse)
    {
      if reply.Received? {
        currencies := TopLevelCurrencies(reply.body);
      }
    }

    /**
      * `performConversion`: a non-positive amount is refused before any
      * request; otherwise today's daily rate of the target currency is
      * requested (`respond` is the backend's answer) and, when the reply
      * carries a rate, the rate and the converted amount are stored.
      */
    method PerformConversion(today: CalendarDate, respond: RatesRequest -> Reply) returns (request: Option<RatesRequest>, outcome: Outcome)
      modifies this
      ensures amount <= 0.0 <==> request.None?
      ensures request.Some? ==> request.value == RatesRequest(DailyRates, TargetCurrency(isReverse, fromCurrency, toCurrency), Some(FormatDate(today)), Some(FormatDate(today)))
      ensures outcome == InvalidAmount <==> request.None?
      ensures request.Some? ==>
        match respond(request.value)
        case Failed => outcome == ConversionFailed
        case Received(body) => outcome == (if TopLevelRate(body).Some? then Converted else NoRate)
      ensures outcome == Converted ==>
        var rate := TopLevelRate(respond(request.value).body).value;
        exchangeRate == rate && convertedAmount == Convert(amount, rate, isReverse)
      ensures outcome != Converted ==> exchangeRate == old(exchangeRate) && convertedAmount == old(convertedAmount)
      ensures currencies == old(currencies) && fromCurrency == old(fromCurrency) && toCurrency == old(toCurrency)
      ensures amount == old(amount) && isReverse == old(isReverse)
    {
      if amount <= 0.0 {
        return None, InvalidAmount;
      }
      var target := TargetCurrency(isReverse, fromCurrency, toCurrency);
      var day := FormatDate(today);
      request := Some(RatesRequest(DailyRates, target, Some(day), Some(day)));
      var reply := respond(request.value);
      if reply.Failed? {
        return request, ConversionFailed;
      }
      var rate := TopLevelRate(reply.body);
      if rate.None? {
        return request, NoRate;
      }
      exchangeRate := rate.value;
      convertedAmount := Convert(amount, rate.value, isReverse);
      outcome := Converted;
    }

    /** `toggleDirection`: flip the direction and clear the result. */
    method ToggleDirection()
      modifies this
      ensures isReverse == !old(isReverse) && convertedAmount == Finite(0.0) && exchangeRate == 0.0
      ensures currencies == old(currencies) && fromCurrency == old(fromCurrency) && toCurrency == old(toCurrency) && amount == old(amount)
    {
      isReverse := !isReverse;
      convertedAmount := Finite(0.0);
      exchangeRate := 0.0;
    }

    /** `swapCurrencies`: exchange the two currencies and clear the result. */
    method SwapCurrencies()
      modifies this
      ensures fromCurrency == old(toCurrency) && toCurrency == old(fromCurrency)
      ensures convertedAmount == Finite(0.0) && exchangeRate == 0.0
      ensures currencies == old(currencies) && amount == old(amount) && isReverse == old(isReverse)
    {
      fromCurrency, toCurrency := toCurrency, fromCurrency;
      convertedAmount := Finite(0.0);
      exchangeRate := 0.0;
    }

    /** The "from" selector: in reverse mode it edits `toCurrency`; otherwise it does nothing. */
    method SelectFrom(value: string)
      modifies this
      ensures toCurrency == (if isReverse then value else old(toCurrency))
      ensures currencies == old(currencies) && fromCurrency == old(fromCurrency) && amount == old(amount)
      ensures convertedAmount == old(convertedAmount) && exchangeRate == old(exchangeRate) && isReverse == old(isReverse)
    {
      if isReverse {
        toCurrency := value;
      }
    }

    /** The "to" selector: in forward mode it edits `toCurrency`; otherwise it does nothing. */
    method SelectTo(value: string)
      modifies this
      ensures toCurrency == (if !isReverse then value else old(toCurrency))
      ensures currencies == old(currencies) && fromCurrency == old(fromCurrency) && amount == old(amount)
      ensures convertedAmount == old(convertedAmount) && exchangeRate == old(exchangeRate) && isReverse == old(isReverse)
    {
      if !isReverse {
        toCurrency := value;
      }
    }

    /** The amount input: `parseFloat(text) || 0`, where `None` stands for `NaN`. */
    method SetAmount(parsed: Option<real>)
      modifies this
      ensures amount == parsed.GetOr(0.0)
      ensures currencies == old(currencies) && fromCurrency == old(fromCurrency) && toCurrency == old(toCurrency)
      ensures convertedAmount == old(convertedAmount) && exchangeRate == old(exchangeRate) && isReverse == old(isReverse)
    {
      amount := parsed.GetOr(0.0);
    }

    /** The "from" selector's `disabled`: in forward mode it always shows CNY and is locked. */
    predicate FromSelectDisabled()
      reads this
      ensures FromSelectDisabled() <==> !isReverse
    {
      !isReverse && FromDisplay(isReverse, toCurrency) == Cny
    }

    /**
      * The swap button's `disabled`: swapping is offered only in reverse mode,
      * exactly when the "from" selector is the enabled one.
      */
    predicate SwapDisabled()
      reads this
      ensures SwapDisabled() <==> !isReverse
      ensures SwapDisabled() <==> FromSelectDisabled()
    {
      !isReverse
    }

    /** The "to" selector's `disabled`: in reverse mode it always shows CNY and is locked. */
    predicate ToSelectDisabled()
      reads this
      ensures ToSelectDisabled() <==> isReverse
    {
      isReverse && ToDisplay(isReverse, toCurrency) == Cny
    }
  }

  /** Swapping twice restores the original pair; only the cleared rate and result differ from before. */
  method SwapCurrenciesTwice(c: CurrencyConverter)
    modifies c
    ensures c.fromCurrency == old(c.fromCurrency) && c.toCurrency == old(c.toCurrency)
    ensures c.convertedAmount == Finite(0.0) && c.exchangeRate == 0.0
    ensures c.currencies == old(c.currencies) && c.amount == old(c.amount) && c.isReverse == old(c.isReverse)
  {
    c.SwapCurrencies();
    c.SwapCurrencies();
  }

  /** Exactly one selector is enabled at a time, and it is the one not showing the CNY side. */
  lemma OneSelectorEnabled(c: CurrencyConverter)
    ensures c.FromSelectDisabled() != c.ToSelectDisabled()
    ensures !c.FromSelectDisabled() ==> FromDisplay(c.isReverse, c.toCurrency) == c.toCurrency
    ensures !c.ToSelectDisabled() ==> ToDisplay(c.isReverse, c.toCurrency) == c.toCurrency
  {
  }

  // ---------------------------------------------------------------------------
  // Where the page and the backend disagree

  /**
    * As written, reverse mode requests the rate of `fromCurrency`, which the
    * page never shows and which starts as CNY: with the initial currencies the
    * request is for CNY while the page shows USD on the "from" side.
    */
  lemma ReverseRequestsHiddenCurrency()
    ensures TargetCurrency(true, Cny, "USD") == Cny
    ensures FromDisplay(true, "USD") == "USD"
    ensures TargetCurrency(true, Cny, "USD") != FromDisplay(true, "USD")
  {
  }

  /** The currency the page shows as the foreign side in either direction. */
  function IntendedTarget(isReverse: bool, toCurrency: string): (c: string)
    ensures !isReverse ==> c == ToDisplay(isReverse, toCurrency)
    ensures isReverse ==> c == FromDisplay(isReverse, toCurrency)
  {
    toCurrency
  }

  /** The corrected target is the same currency in both directions, so toggling never changes what is requested. */
  lemma IntendedTargetIgnoresDirection(toCurrency: string)
    ensures IntendedTarget(true, toCurrency) == IntendedTarget(false, toCurrency)
    ensures IntendedTarget(false, toCurrency) == TargetCurrency(false, Cny, toCurrency)
  {
  }

  /** As written, the page reads `rates` at the top of the body, where the daily route never puts it. */
  lemma TopLevelRateNeverPresent(rows: seq<ExchangeRate>, code: string, startArg: string, endArg: string, today: CalendarDate)
    ensures TopLevelRate(GetRates(rows, code, startArg, endArg, today).body).None?
  {
  }

  /** `data.data.rates[0].rate`: the rate where the daily route puts it. */
  function NestedRate(body: Body): (r: Option<real>)
    ensures r.Some? <==> body.data.Some? && RatesOf(body.data.value).Some? && |RatesOf(body.data.value).value| > 0
    ensures r.Some? ==> r.value == RatesOf(body.data.value).value[0].rate
  {
    if body.data.Some? && RatesOf(body.data.value).Some? && |RatesOf(body.data.value).value| > 0
    then Some(RatesOf(body.data.value).value[0].rate)
    else None
  }

  /**
    * With the corrected reader, asking the backend for today's rate of a
    * currency that has a stored row for today yields exactly that row's rate
    * (the table holds one row per currency and day).
    */
  lemma NestedRateFindsStoredRate(rows: seq<ExchangeRate>, e: ExchangeRate, today: CalendarDate)
    requires UniqueKeys(rows) && e in rows && e.date == today
    ensures NestedRate(GetRates(rows, e.currencyCode, FormatDate(today), FormatDate(today), today).body) == Some(e.rate)
  {
    var code := e.currencyCode;
    ParseFormatRoundTrip(today);
    assert ResolveBounds(FormatDate(today), FormatDate(today), today) == Bounds(today, today);
    var recs := HistoricalRecords(rows, code, today, today);
    assert e in recs;
    var first := recs[0];
    assert first in recs;
    assert first in rows && first.currencyCode == code && first.date == today;
    var i :| 0 <= i < |rows| && rows[i] == e;
    var j :| 0 <= j < |rows| && rows[j] == first;
    assert first == e;
  }

  /** As written, the page reads `currencies` at the top of the body, so its list stays empty. */
  lemma TopLevelCurrenciesAlwaysEmpty()
    ensures TopLevelCurrencies(GetCurrencies().body) == []
  {
  }

  /** `data.data`: the currency list where the currency route puts it. */
  function NestedCurrencies(body: Body): (r: seq<CurrencyItem>)
    ensures body.data.Some? && body.data.value.CurrencyList? ==> r == body.data.value.items
    ensures !(body.data.Some? && body.data.value.CurrencyList?) ==> r == []
  {
    if body.data.Some? && body.data.value.CurrencyList? then body.data.value.items else []
  }

  /** With the corrected reader the page lists every configured currency, in order. */
  lemma NestedCurrenciesListsSupported()
    ensures var r := NestedCurrencies(GetCurrencies().body);
      |r| == |SupportedCurrencies| && forall i :: 0 <= i < |r| ==> r[i].code == SupportedCurrencies[i]
  {
  }
}
