/** The `exchange_rates` table row and its JSON rendering (`ExchangeRate.to_dict`). */
module ExchangeRateModel {
  import opened Options
  import opened Dates
  import opened Wire

  /**
    * A row: `id` (primary key), `currency_code`, `rate` and `date` (all NOT NULL)
    * and `created_at`. A datatype field cannot be null, so the NOT NULL
    * constraints hold by construction.
    */
  datatype ExchangeRate = ExchangeRate(id: int, currencyCode: string, rate: real, date: CalendarDate, createdAt: Instant)

  /** The declared column width `String(3)`. SQLite does not enforce it, so the table does not rely on it. */
  predicate DeclaredWidth(e: ExchangeRate) {
    |e.currencyCode| <= 3
  }

  /**
    * `to_dict`: the five keys of `RateItem`; the code and rate copied, the date
    * rendered zero-padded as `YYYY-MM-DD` (which parses back to the stored date)
    * and `created_at` as `YYYY-MM-DD HH:MM:SS`.
    */
  function ToDict(e: ExchangeRate): (r: RateItem)
    ensures r.id == e.id && r.currencyCode == e.currencyCode && r.rate == e.rate
    ensures ParseDate(r.date) == Some(e.date)
    ensures |r.date| == 10 && Year4(r.date[..4]) == e.date.year && Digits2(r.date, 5) == e.date.month && Digits2(r.date, 8) == e.date.day
    ensures |r.createdAt| == 19 && r.createdAt[..10] == FormatDate(e.createdAt.date)
    ensures r.createdAt[10] == ' ' && r.createdAt[13] == ':' && r.createdAt[16] == ':'
    ensures IsDigit(r.createdAt[11]) && IsDigit(r.createdAt[12]) && IsDigit(r.createdAt[14])
    ensures IsDigit(r.createdAt[15]) && IsDigit(r.createdAt[17]) && IsDigit(r.createdAt[18])
    ensures Digits2(r.createdAt, 11) == e.createdAt.hour && Digits2(r.createdAt, 14) == e.createdAt.minute
    ensures Digits2(r.createdAt, 17) == e.createdAt.second
  {
    ParseFormatRoundTrip(e.date);
    RateItem(e.id, e.currencyCode, e.rate, FormatDate(e.date), FormatInstant(e.createdAt))
  }
}
