/**
  * The backend's rate table and its service functions: the daily update that
  * inserts or overwrites one rate per currency and day, the inclusive
  * date-range query sorted by date, the per-month and per-year averages, and
  * the supported-currency list. The table is a sequence of rows in insertion
  * order; the network fetch arrives as data.
  */
module RateService {
  import opened Options
  import opened Text
  import opened Dates
  import opened Wire
  import opened ExchangeRateModel

  /** The configured currency codes, in configuration order. */
  const SupportedCurrencies: seq<string> :=
    ["USD", "EUR", "JPY", "GBP", "AUD", "CAD", "CHF", "HKD", "SGD", "NZD",
     "KRW", "THB", "RUB", "INR", "MYR", "ZAR", "BRL", "MXN", "IDR", "TRY"]

  /** The currency every rate is quoted in. */
  const BaseCurrency: string := "CNY"

  // ---------------------------------------------------------------------------
  // Fetching and the daily update

  /** What one call of the rate fetch yields: the date and the CNY rate, or `(None, None)`. */
  datatype Fetch = Fetched(date: CalendarDate, rate: real) | NotFetched

  /**
    * The extraction rule applied to a decoded provider response: its `rates`
    * object (`None` when the body has none) must hold the base currency, whose
    * rate is returned with today's date. A transport error never gets this far
    * and is `NotFetched` directly.
    */
  function ExtractRate(rates: Option<map<string, real>>, today: CalendarDate): (f: Fetch)
    ensures f.Fetched? <==> rates.Some? && BaseCurrency in rates.value
    ensures f.Fetched? ==> f.date == today && f.rate == rates.value[BaseCurrency]
  {
    if rates.Some? && BaseCurrency in rates.value then Fetched(today, rates.value[BaseCurrency]) else NotFetched
  }

  /** `if date and rate`: a fetch is stored unless it failed or its rate is zero (falsy). */
  predicate Stored(f: Fetch) {
    f.Fetched? && f.rate != 0.0
  }

  predicate HasKey(e: ExchangeRate, code: string, date: Date) {
    e.currencyCode == code && e.date == date
  }

  /** The row `filter_by(currency_code=code, date=date).first()` finds: the first with that key. */
  function FindRecord(rows: seq<ExchangeRate>, code: string, date: Date): (k: Option<nat>)
    ensures k.Some? ==> k.value < |rows| && HasKey(rows[k.value], code, date)
    ensures k.Some? ==> forall j :: 0 <= j < k.value ==> !HasKey(rows[j], code, date)
    ensures k.None? <==> forall j :: 0 <= j < |rows| ==> !HasKey(rows[j], code, date)
  {
    if |rows| == 0 then None
    else if HasKey(rows[0], code, date) then Some(0)
    else
      match FindRecord(rows[1..], code, date)
      case None => None
      case Some(j) => Some(j + 1)
  }

  function MaxId(rows: seq<ExchangeRate>): (m: int)
    requires |rows| > 0
    ensures forall i :: 0 <= i < |rows| ==> rows[i].id <= m
    ensures exists i :: 0 <= i < |rows| && rows[i].id == m
  {
    if |rows| == 1 then rows[0].id
    else
      var rest := MaxId(rows[1..]);
      var k :| 0 <= k < |rows[1..]| && rows[1..][k].id == rest;
      assert rows[k + 1].id == rest;
      if rows[0].id > rest then rows[0].id else rest
  }

  /** The id SQLite gives a new row: one more than the largest in use, or 1 in an empty table. */
  function NextId(rows: seq<ExchangeRate>): (n: int)
    ensures forall i :: 0 <= i < |rows| ==> rows[i].id < n
    ensures |rows| == 0 ==> n == 1
    ensures |rows| > 0 ==> exists i :: 0 <= i < |rows| && rows[i].id == n - 1
  {
    if |rows| == 0 then 1 else MaxId(rows) + 1
  }

  /**
    * One step of the update: the first row with key (code, date) gets the new
    * rate and nothing else changes; without such a row a new row is appended
    * with a fresh id and creation time `now`.
    */
  function Upsert(rows: seq<ExchangeRate>, code: string, date: CalendarDate, rate: real, now: Instant): (r: seq<ExchangeRate>)
    ensures exists i :: 0 <= i < |r| && HasKey(r[i], code, date) && r[i].rate == rate
    ensures FindRecord(rows, code, date).Some? ==> |r| == |rows|
    ensures FindRecord(rows, code, date).None? ==>
      |r| == |rows| + 1 && r[|rows|] == ExchangeRate(NextId(rows), code, rate, date, now)
    ensures forall i :: 0 <= i < |rows| && Some(i) != FindRecord(rows, code, date) ==> r[i] == rows[i]
    ensures forall i :: 0 <= i < |rows| && Some(i) == FindRecord(rows, code, date) ==> r[i] == rows[i].(rate := rate)
  {
    match FindRecord(rows, code, date)
    case Some(k) =>
      var r := rows[k := rows[k].(rate := rate)];
      assert HasKey(r[k], code, date) && r[k].rate == rate;
      r
    case None =>
      var r := rows + [ExchangeRate(NextId(rows), code, rate, date, now)];
      assert HasKey(r[|rows|], code, date) && r[|rows|].rate == rate;
      r
  }

  /** The first row with the key is the one `FindRecord` returns. */
  lemma FindRecordFirst(rows: seq<ExchangeRate>, code: string, date: Date, k: nat)
    requires k < |rows| && HasKey(rows[k], code, date)
    requires forall j :: 0 <= j < k ==> !HasKey(rows[j], code, date)
    ensures FindRecord(rows, code, date) == Some(k)
  {
  }

  /** The table after the update has handled `codes` in order, each with its own fetch. */
  function ApplyFetches(rows: seq<ExchangeRate>, codes: seq<string>, fetch: string -> Fetch, now: Instant): seq<ExchangeRate>
    decreases |codes|
  {
    if |codes| == 0 then rows
    else
      var before := ApplyFetches(rows, codes[..|codes| - 1], fetch, now);
      var code := codes[|codes| - 1];
      var f := fetch(code);
      if Stored(f) then Upsert(before, code, f.date, f.rate, now) else before
  }

  /** The rate table, updated in place by the scheduled job. */
  class RateTable {
    var rows: seq<ExchangeRate>

    constructor ()
      ensures rows == []
    {
      rows := [];
    }

    /**
      * One currency's write: overwrite the rate of the first row with key
      * (code, date), or append a new row when there is none.
      */
    method StoreRate(code: string, date: CalendarDate, rate: real, now: Instant)
      modifies this
      ensures rows == Upsert(old(rows), code, date, rate, now)
    {
      var existing := FindRecord(rows, code, date);
      if existing.Some? {
        rows := rows[existing.value := rows[existing.value].(rate := rate)];
      } else {
        rows := rows + [ExchangeRate(NextId(rows), code, rate, date, now)];
      }
    }

    /**
      * `update_exchange_rates`: for each supported currency, store the fetched
      * rate under (code, date), overwriting the rate of an existing row or
      * appending a new one. `fetch` gives the outcome of each currency's fetch.
      */
    method UpdateExchangeRates(fetch: string -> Fetch, now: Instant)
      modifies this
      ensures rows == ApplyFetches(old(rows), SupportedCurrencies, fetch, now)
      ensures UniqueKeys(old(rows)) ==> UniqueKeys(rows)
    {
      var i := 0;
      while i < |SupportedCurrencies|
        invariant 0 <= i <= |SupportedCurrencies|
        invariant rows == ApplyFetches(old(rows), SupportedCurrencies[..i], fetch, now)
      {
        var code := SupportedCurrencies[i];
        var f := fetch(code);
        ghost var before := rows;
        if f.Fetched? && f.rate != 0.0 {
          StoreRate(code, f.date, f.rate, now);
        }
        assert ApplyFetches(old(rows), SupportedCurrencies[..i + 1], fetch, now)
            == if Stored(f) then Upsert(before, code, f.date, f.rate, now) else before by {
          assert SupportedCurrencies[..i + 1][..i] == SupportedCurrencies[..i];
          assert SupportedCurrencies[..i + 1][i] == code;
        }
        i := i + 1;
      }
      assert SupportedCurrencies[..|SupportedCurrencies|] == SupportedCurrencies;
      if UniqueKeys(old(rows)) {
        ApplyFetchesKeepsKeysUnique(old(rows), SupportedCurrencies, fetch, now);
      }
    }
  }

  /** Storing the same key twice keeps only the second rate and adds at most one row. */
  lemma UpsertLastWriteWins(rows: seq<ExchangeRate>, code: string, date: CalendarDate, x: real, y: real, now: Instant)
    ensures Upsert(Upsert(rows, code, date, x, now), code, date, y, now) == Upsert(rows, code, date, y, now)
  {
    var once := Upsert(rows, code, date, x, now);
    var twice := Upsert(once, code, date, y, now);
    var direct := Upsert(rows, code, date, y, now);
    match FindRecord(rows, code, date)
    case Some(k) =>
      FindRecordFirst(once, code, date, k);
      assert |twice| == |direct|;
      forall i | 0 <= i < |twice|
        ensures twice[i] == direct[i]
      {
      }
    case None =>
      FindRecordFirst(once, code, date, |rows|);
      assert |twice| == |direct|;
      forall i | 0 <= i < |twice|
        ensures twice[i] == direct[i]
      {
        if i < |rows| {
          assert twice[i] == once[i] == rows[i];
        }
      }
  }

  /** No two rows share a (code, date) key. */
  ghost predicate UniqueKeys(rows: seq<ExchangeRate>) {
    forall i, j :: 0 <= i < j < |rows| ==> !HasKey(rows[j], rows[i].currencyCode, rows[i].date)
  }

  /** The update never creates a second row for a key. */
  lemma UpsertKeepsKeysUnique(rows: seq<ExchangeRate>, code: string, date: CalendarDate, rate: real, now: Instant)
    requires UniqueKeys(rows)
    ensures UniqueKeys(Upsert(rows, code, date, rate, now))
  {
    var r := Upsert(rows, code, date, rate, now);
    forall i, j | 0 <= i < j < |r|
      ensures !HasKey(r[j], r[i].currencyCode, r[i].date)
    {
      assert r[i].currencyCode == rows[i].currencyCode && r[i].date == rows[i].date;
      if j < |rows| {
        assert r[j].currencyCode == rows[j].currencyCode && r[j].date == rows[j].date;
      }
    }
  }

  lemma {:induction false} ApplyFetchesKeepsKeysUnique(rows: seq<ExchangeRate>, codes: seq<string>, fetch: string -> Fetch, now: Instant)
    requires UniqueKeys(rows)
    ensures UniqueKeys(ApplyFetches(rows, codes, fetch, now))
    decreases |codes|
  {
    if |codes| > 0 {
      var before := ApplyFetches(rows, codes[..|codes| - 1], fetch, now);
      ApplyFetchesKeepsKeysUnique(rows, codes[..|codes| - 1], fetch, now);
      var f := fetch(codes[|codes| - 1]);
      if Stored(f) {
        UpsertKeepsKeysUnique(before, codes[|codes| - 1], f.date, f.rate, now);
      }
    }
  }

  /**
    * After the update every currency whose fetch was stored has a row for its
    * fetch date holding the fetched rate, provided the codes are distinct
    * (a later currency's upsert never touches another currency's rows).
    */
  lemma {:induction false} ApplyFetchesStoresEveryRate(rows: seq<ExchangeRate>, codes: seq<string>, fetch: string -> Fetch, now: Instant, n: nat)
    requires n < |codes| && Stored(fetch(codes[n]))
    requires forall i, j :: 0 <= i < j < |codes| ==> codes[i] != codes[j]
    ensures exists e :: e in ApplyFetches(rows, codes, fetch, now) && HasKey(e, codes[n], fetch(codes[n]).date) && e.rate == fetch(codes[n]).rate
    decreases |codes|
  {
    var last := codes[|codes| - 1];
    var before := ApplyFetches(rows, codes[..|codes| - 1], fetch, now);
    var f := fetch(last);
    if n < |codes| - 1 {
      assert codes[..|codes| - 1][n] == codes[n];
      ApplyFetchesStoresEveryRate(rows, codes[..|codes| - 1], fetch, now, n);
      var e :| e in before && HasKey(e, codes[n], fetch(codes[n]).date) && e.rate == fetch(codes[n]).rate;
      if Stored(f) {
        var r := Upsert(before, last, f.date, f.rate, now);
        var i :| 0 <= i < |before| && before[i] == e;
        assert codes[n] != last;
        assert r[i] == e;
      }
    } else {
      assert codes[n] == last;
      var r := Upsert(before, last, f.date, f.rate, now);
      var i :| 0 <= i < |r| && HasKey(r[i], last, f.date) && r[i].rate == f.rate;
      assert r[i] in r;
    }
  }

  /** Rows of currencies the update does not handle stay where they are, unchanged. */
  lemma {:induction false} ApplyFetchesKeepsOtherCurrencies(rows: seq<ExchangeRate>, codes: seq<string>, fetch: string -> Fetch, now: Instant)
    ensures var r := ApplyFetches(rows, codes, fetch, now);
      |r| >= |rows| && forall i :: 0 <= i < |rows| && rows[i].currencyCode !in codes ==> r[i] == rows[i]
    decreases |codes|
  {
    if |codes| > 0 {
      var prefix := codes[..|codes| - 1];
      var last := codes[|codes| - 1];
      ApplyFetchesKeepsOtherCurrencies(rows, prefix, fetch, now);
      var before := ApplyFetches(rows, prefix, fetch, now);
      assert forall c :: c in prefix ==> c in codes;
      var f := fetch(last);
      if Stored(f) {
        var r := Upsert(before, last, f.date, f.rate, now);
        forall i | 0 <= i < |rows| && rows[i].currencyCode !in codes
          ensures r[i] == rows[i]
        {
          assert before[i] == rows[i];
          assert !HasKey(before[i], last, f.date);
        }
      }
    }
  }

  /** Every supported code fits the declared three-character column. */
  lemma SupportedCodesFitColumn()
    ensures forall c :: c in SupportedCurrencies ==> |c| == 3
  {
  }

  /** Rows the update writes respect the declared column width when the old rows do. */
  lemma {:induction false} ApplyFetchesKeepsDeclaredWidth(rows: seq<ExchangeRate>, codes: seq<string>, fetch: string -> Fetch, now: Instant)
    requires forall c :: c in codes ==> |c| <= 3
    requires forall e :: e in rows ==> DeclaredWidth(e)
    ensures forall e :: e in ApplyFetches(rows, codes, fetch, now) ==> DeclaredWidth(e)
    decreases |codes|
  {
    if |codes| > 0 {
      var prefix := codes[..|codes| - 1];
      var last := codes[|codes| - 1];
      assert forall c :: c in prefix ==> c in codes;
      ApplyFetchesKeepsDeclaredWidth(rows, prefix, fetch, now);
      var before := ApplyFetches(rows, prefix, fetch, now);
      var f := fetch(last);
      if Stored(f) {
        var r := Upsert(before, last, f.date, f.rate, now);
        assert last in codes;
        forall i | 0 <= i < |r|
          ensures DeclaredWidth(r[i])
        {
          if i < |before| {
            assert before[i] in before;
            assert r[i].currencyCode == before[i].currencyCode;
          } else {
            assert r[i].currencyCode == last;
            assert |last| <= 3;
          }
        }
      }
    }
  }

  // ---------------------------------------------------------------------------
  // Queries

  /** `currency_code == code AND date >= start AND date <= end`. */
  predicate InRange(e: ExchangeRate, code: string, start: Date, end: Date) {
    e.currencyCode == code && NotAfter(start, e.date) && NotAfter(e.date, end)
  }

  /** The matching rows, in table order. */
  function Select(rows: seq<ExchangeRate>, code: string, start: Date, end: Date): seq<ExchangeRate> {
    if |rows| == 0 then []
    else if InRange(rows[0], code, start, end) then [rows[0]] + Select(rows[1..], code, start, end)
    else Select(rows[1..], code, start, end)
  }

  /** The filter keeps exactly the matching rows. */
  lemma {:induction false} SelectMembers(rows: seq<ExchangeRate>, code: string, start: Date, end: Date)
    ensures forall e :: e in Select(rows, code, start, end) <==> e in rows && InRange(e, code, start, end)
  {
    if |rows| > 0 {
      SelectMembers(rows[1..], code, start, end);
      assert rows == [rows[0]] + rows[1..];
    }
  }

  /** The filter never keeps a row more often than it is stored. */
  lemma {:induction false} SelectSubMultiset(rows: seq<ExchangeRate>, code: string, start: Date, end: Date)
    ensures multiset(Select(rows, code, start, end)) <= multiset(rows)
  {
    if |rows| > 0 {
      SelectSubMultiset(rows[1..], code, start, end);
      assert rows == [rows[0]] + rows[1..];
    }
  }

  /** A window whose start lies after its end matches no row. */
  lemma {:induction false} InvertedWindowSelectsNothing(rows: seq<ExchangeRate>, code: string, start: Date, end: Date)
    requires Before(end, start)
    ensures Select(rows, code, start, end) == []
  {
    if |rows| > 0 {
      InvertedWindowSelectsNothing(rows[1..], code, start, end);
    }
  }

  predicate SortedByDate(s: seq<ExchangeRate>) {
    forall i, j :: 0 <= i < j < |s| ==> NotAfter(s[i].date, s[j].date)
  }

  /** Insert `x` before the first row not earlier than it (so equal dates keep their order). */
  function InsertByDate(x: ExchangeRate, s: seq<ExchangeRate>): seq<ExchangeRate> {
    if |s| == 0 || NotAfter(x.date, s[0].date) then [x] + s
    else [s[0]] + InsertByDate(x, s[1..])
  }

  /** `ORDER BY date`, keeping table order between rows of the same date. */
  function SortByDate(s: seq<ExchangeRate>): seq<ExchangeRate> {
    if |s| == 0 then [] else InsertByDate(s[0], SortByDate(s[1..]))
  }

  /** Inserting into date-sorted rows adds exactly `x` and keeps them date-sorted. */
  lemma {:induction false} InsertByDateSorted(x: ExchangeRate, s: seq<ExchangeRate>)
    requires SortedByDate(s)
    ensures multiset(InsertByDate(x, s)) == multiset(s) + multiset{x}
    ensures SortedByDate(InsertByDate(x, s))
  {
    if |s| == 0 || NotAfter(x.date, s[0].date) {
      SortedCons(x, s);
    } else {
      var rest := InsertByDate(x, s[1..]);
      InsertByDateSorted(x, s[1..]);
      assert s == [s[0]] + s[1..];
      forall k | 0 <= k < |rest|
        ensures NotAfter(s[0].date, rest[k].date)
      {
        assert rest[k] in multiset(rest);
        assert rest[k] == x || rest[k] in s[1..];
      }
      SortedCons(s[0], rest);
    }
  }

  /** A row no later than the first of date-sorted rows can go in front of them. */
  lemma SortedCons(x: ExchangeRate, s: seq<ExchangeRate>)
    requires SortedByDate(s)
    requires forall k :: 0 <= k < |s| ==> NotAfter(x.date, s[k].date)
    ensures SortedByDate([x] + s)
  {
    var r := [x] + s;
    forall i, j | 0 <= i < j < |r|
      ensures NotAfter(r[i].date, r[j].date)
    {
      if i > 0 {
        assert r[i] == s[i - 1] && r[j] == s[j - 1];
      } else {
        assert r[j] == s[j - 1];
      }
    }
  }

  /** `ORDER BY date` yields date-sorted rows that are a permutation of its input. */
  lemma {:induction false} SortByDateSorted(s: seq<ExchangeRate>)
    ensures multiset(SortByDate(s)) == multiset(s)
    ensures SortedByDate(SortByDate(s))
  {
    if |s| > 0 {
      SortByDateSorted(s[1..]);
      InsertByDateSorted(s[0], SortByDate(s[1..]));
      assert s == [s[0]] + s[1..];
    }
  }

  /**
    * The rows `get_historical_rates` reads: exactly the rows of `code` dated
    * within [start, end], both ends included, each as often as it is stored,
    * in ascending date order.
    */
  function HistoricalRecords(rows: seq<ExchangeRate>, code: string, start: Date, end: Date): (r: seq<ExchangeRate>)
    ensures SortedByDate(r)
    ensures multiset(r) == multiset(Select(rows, code, start, end))
    ensures forall e :: e in r <==> e in rows && InRange(e, code, start, end)
  {
    var s := Select(rows, code, start, end);
    var r := SortByDate(s);
    SelectMembers(rows, code, start, end);
    SelectSubMultiset(rows, code, start, end);
    SortByDateSorted(s);
    assert forall e :: e in r <==> e in s by {
      forall e ensures e in r <==> e in s {
        assert e in r <==> e in multiset(r);
        assert e in s <==> e in multiset(s);
      }
    }
    r
  }

  /** `get_historical_rates`: the matching rows rendered by `to_dict`, oldest first. */
  function HistoricalRates(rows: seq<ExchangeRate>, code: string, start: Date, end: Date): (r: seq<RateItem>)
    ensures var recs := HistoricalRecords(rows, code, start, end);
      |r| == |recs| && forall i :: 0 <= i < |r| ==> r[i] == ToDict(recs[i])
  {
    var recs := HistoricalRecords(rows, code, start, end);
    seq(|recs|, i requires 0 <= i < |recs| => ToDict(recs[i]))
  }

  // ---------------------------------------------------------------------------
  // Monthly and yearly averages

  /** The grouping granularity: `strftime('%Y-%m', date)` or `strftime('%Y', date)`. */
  datatype Period = ByMonth | ByYear

  /** The group label of a date: the first seven or four characters of its ISO form. */
  function PeriodLabel(p: Period, d: CalendarDate): string {
    match p
    case ByYear => Pad4(d.year)
    case ByMonth => Pad4(d.year) + ("-" + Pad2(d.month))
  }

  /** `strftime('%Y-%m')` and `strftime('%Y')` are the first seven and four characters of the ISO date. */
  lemma PeriodLabelIsDatePrefix(p: Period, d: CalendarDate)
    ensures |PeriodLabel(p, d)| == (if p == ByMonth then 7 else 4)
    ensures PeriodLabel(p, d) == FormatDate(d)[..|PeriodLabel(p, d)|]
  {
    var year := Pad4(d.year);
    var month := "-" + Pad2(d.month);
    assert FormatDate(d) == year + month + ("-" + Pad2(d.day));
  }

  /** Later dates never get smaller labels, so a date-sorted run of rows has ascending labels. */
  lemma PeriodLabelMonotone(p: Period, a: CalendarDate, b: CalendarDate)
    requires NotAfter(a, b)
    ensures PeriodLabel(p, a) == PeriodLabel(p, b) || StrLess(PeriodLabel(p, a), PeriodLabel(p, b))
  {
    var ma := "-" + Pad2(a.month);
    var mb := "-" + Pad2(b.month);
    if a.year < b.year {
      Pad4Ordered(a.year, b.year);
      if p == ByMonth {
        StrLessSettled(Pad4(a.year), Pad4(b.year), ma, mb);
      }
    } else if p == ByMonth && a.month < b.month {
      Pad2Ordered(a.month, b.month);
      StrLessCommonPrefix("-", Pad2(a.month), Pad2(b.month));
      StrLessCommonPrefix(Pad4(a.year), ma, mb);
    }
  }

  /** The distinct labels of `s`, merging each run of equal labels into one. */
  function Labels(p: Period, s: seq<ExchangeRate>): (r: seq<string>)
    ensures forall key :: key in r <==> exists e :: e in s && PeriodLabel(p, e.date) == key
    ensures |s| > 0 ==> |r| > 0 && r[0] == PeriodLabel(p, s[0].date)
  {
    if |s| == 0 then []
    else
      var rest := Labels(p, s[1..]);
      assert s == [s[0]] + s[1..];
      if |rest| > 0 && rest[0] == PeriodLabel(p, s[0].date) then rest
      else [PeriodLabel(p, s[0].date)] + rest
  }

  /** Over date-sorted rows the labels come out strictly ascending, hence distinct: `ORDER BY` the label. */
  lemma {:induction false} LabelsAscending(p: Period, s: seq<ExchangeRate>)
    requires SortedByDate(s)
    ensures forall i, j :: 0 <= i < j < |Labels(p, s)| ==> StrLess(Labels(p, s)[i], Labels(p, s)[j])
  {
    if |s| > 0 {
      var rest := Labels(p, s[1..]);
      LabelsAscending(p, s[1..]);
      var first := PeriodLabel(p, s[0].date);
      if !(|rest| > 0 && rest[0] == first) && |rest| > 0 {
        assert s[1..][0] == s[1];
        PeriodLabelMonotone(p, s[0].date, s[1].date);
        var r := [first] + rest;
        forall j | 0 < j < |r|
          ensures StrLess(r[0], r[j])
        {
          if j > 1 {
            StrLessTransitive(first, rest[0], rest[j - 1]);
          }
        }
      }
    }
  }

  /** The sum of the rates in `s` whose date carries `label`. */
  function RateSum(p: Period, s: seq<ExchangeRate>, key: string): real {
    if |s| == 0 then 0.0
    else (if PeriodLabel(p, s[0].date) == key then s[0].rate else 0.0) + RateSum(p, s[1..], key)
  }

  /** How many rows of `s` have a date carrying `label`. */
  function RateCount(p: Period, s: seq<ExchangeRate>, key: string): nat {
    if |s| == 0 then 0
    else (if PeriodLabel(p, s[0].date) == key then 1 else 0) + RateCount(p, s[1..], key)
  }

  /** A key is counted exactly when some row of `s` carries it. */
  lemma {:induction false} RateCountPositive(p: Period, s: seq<ExchangeRate>, key: string)
    ensures RateCount(p, s, key) > 0 <==> exists e :: e in s && PeriodLabel(p, e.date) == key
  {
    if |s| > 0 {
      RateCountPositive(p, s[1..], key);
      assert s == [s[0]] + s[1..];
    }
  }

  /** The totals of a non-empty sequence split into those of its head and of its tail. */
  lemma RateTotalsHead(p: Period, s: seq<ExchangeRate>, key: string)
    requires |s| > 0
    ensures RateSum(p, s, key) == RateSum(p, [s[0]], key) + RateSum(p, s[1..], key)
    ensures RateCount(p, s, key) == RateCount(p, [s[0]], key) + RateCount(p, s[1..], key)
  {
    assert [s[0]][1..] == [];
  }

  /** Inserting a row into sorted position adds exactly its own contribution. */
  lemma {:induction false} RateTotalsInsert(p: Period, x: ExchangeRate, s: seq<ExchangeRate>, key: string)
    ensures RateSum(p, InsertByDate(x, s), key) == RateSum(p, [x], key) + RateSum(p, s, key)
    ensures RateCount(p, InsertByDate(x, s), key) == RateCount(p, [x], key) + RateCount(p, s, key)
  {
    var r := InsertByDate(x, s);
    if |s| > 0 && !NotAfter(x.date, s[0].date) {
      RateTotalsInsert(p, x, s[1..], key);
      assert r[0] == s[0] && r[1..] == InsertByDate(x, s[1..]);
      RateTotalsHead(p, r, key);
      RateTotalsHead(p, s, key);
    } else {
      assert r[0] == x && r[1..] == s;
      RateTotalsHead(p, r, key);
    }
  }

  /** `avg` does not depend on the order the rows are visited in: sorting keeps every group's totals. */
  lemma {:induction false} RateTotalsSort(p: Period, s: seq<ExchangeRate>, key: string)
    ensures RateSum(p, SortByDate(s), key) == RateSum(p, s, key)
    ensures RateCount(p, SortByDate(s), key) == RateCount(p, s, key)
  {
    if |s| > 0 {
      var sorted := SortByDate(s[1..]);
      RateTotalsSort(p, s[1..], key);
      RateTotalsInsert(p, s[0], sorted, key);
      assert SortByDate(s) == InsertByDate(s[0], sorted);
      RateTotalsHead(p, s, key);
    }
  }

  /** One result row of a grouped query: the key and the average rate of its group. */
  datatype Group = Group(key: string, average: real)

  /** The mean of the rates in `s` carrying `key`; zero when there are none. */
  function Average(p: Period, s: seq<ExchangeRate>, key: string): real {
    var n := RateCount(p, s, key);
    if n == 0 then 0.0 else RateSum(p, s, key) / n as real
  }

  /** One group per key, in the order of `keys`, averaged over `recs`. */
  function GroupsOf(p: Period, recs: seq<ExchangeRate>, keys: seq<string>): (g: seq<Group>)
    ensures |g| == |keys|
    ensures forall i :: 0 <= i < |g| ==> g[i] == Group(keys[i], Average(p, recs, keys[i]))
  {
    if |keys| == 0 then [] else [Group(keys[0], Average(p, recs, keys[0]))] + GroupsOf(p, recs, keys[1..])
  }

  /** The grouped query: the keys of the matching rows in date order, each with its average. */
  function PeriodAverages(p: Period, rows: seq<ExchangeRate>, code: string, start: Date, end: Date): seq<Group> {
    var recs := HistoricalRecords(rows, code, start, end);
    GroupsOf(p, recs, Labels(p, recs))
  }

  /** `ORDER BY key`: the groups come out in strictly ascending key order, so no key repeats. */
  lemma PeriodKeysAscending(p: Period, rows: seq<ExchangeRate>, code: string, start: Date, end: Date)
    ensures forall i, j :: 0 <= i < j < |PeriodAverages(p, rows, code, start, end)| ==>
      StrLess(PeriodAverages(p, rows, code, start, end)[i].key, PeriodAverages(p, rows, code, start, end)[j].key)
  {
    var recs := HistoricalRecords(rows, code, start, end);
    LabelsAscending(p, recs);
  }

  /** The groups of `recs` carry exactly the labels of its rows. */
  lemma GroupKeysAreLabels(p: Period, recs: seq<ExchangeRate>, key: string)
    ensures (exists i :: 0 <= i < |GroupsOf(p, recs, Labels(p, recs))| && GroupsOf(p, recs, Labels(p, recs))[i].key == key)
      <==> key in Labels(p, recs)
  {
    var keys := Labels(p, recs);
    var g := GroupsOf(p, recs, keys);
    if key in keys {
      var i :| 0 <= i < |keys| && keys[i] == key;
      assert g[i].key == key;
    }
  }

  /** `GROUP BY key`: a key has a group exactly when some matching row carries it. */
  lemma PeriodKeysComplete(p: Period, rows: seq<ExchangeRate>, code: string, start: Date, end: Date, key: string)
    ensures (exists i :: 0 <= i < |PeriodAverages(p, rows, code, start, end)| && PeriodAverages(p, rows, code, start, end)[i].key == key)
      <==> (exists e :: e in rows && InRange(e, code, start, end) && PeriodLabel(p, e.date) == key)
  {
    var recs := HistoricalRecords(rows, code, start, end);
    var keys := Labels(p, recs);
    assert PeriodAverages(p, rows, code, start, end) == GroupsOf(p, recs, keys);
    GroupKeysAreLabels(p, recs, key);
    if key in keys {
      var e :| e in recs && PeriodLabel(p, e.date) == key;
      assert e in rows && InRange(e, code, start, end);
    }
    if exists e :: e in rows && InRange(e, code, start, end) && PeriodLabel(p, e.date) == key {
      var e :| e in rows && InRange(e, code, start, end) && PeriodLabel(p, e.date) == key;
      assert e in recs;
    }
  }

  /**
    * `avg(rate)`: each group holds the mean of the rates of the matching rows
    * with its key, taken over the rows in table order (the sort changes
    * nothing), and the group is never empty.
    */
  lemma PeriodAveragesMean(p: Period, rows: seq<ExchangeRate>, code: string, start: Date, end: Date, i: nat)
    requires i < |PeriodAverages(p, rows, code, start, end)|
    ensures var g := PeriodAverages(p, rows, code, start, end)[i];
      RateCount(p, Select(rows, code, start, end), g.key) > 0 &&
      g.average == RateSum(p, Select(rows, code, start, end), g.key) / RateCount(p, Select(rows, code, start, end), g.key) as real
  {
    var recs := HistoricalRecords(rows, code, start, end);
    var keys := Labels(p, recs);
    assert keys[i] in keys;
    RateCountPositive(p, recs, keys[i]);
    RateTotalsSort(p, Select(rows, code, start, end), keys[i]);
  }

  /** `get_monthly_average_rates`: the groups by `YYYY-MM` key, renamed to `month` and `average_rate`. */
  function MonthlyAverages(rows: seq<ExchangeRate>, code: string, start: Date, end: Date): (r: seq<MonthlyItem>)
    ensures |r| == |PeriodAverages(ByMonth, rows, code, start, end)|
    ensures forall i :: 0 <= i < |r| ==>
      r[i].month == PeriodAverages(ByMonth, rows, code, start, end)[i].key &&
      r[i].averageRate == PeriodAverages(ByMonth, rows, code, start, end)[i].average
  {
    var g := PeriodAverages(ByMonth, rows, code, start, end);
    seq(|g|, i requires 0 <= i < |g| => MonthlyItem(g[i].key, g[i].average))
  }

  /** `get_yearly_average_rates`: the groups by `YYYY` key, renamed to `year` and `average_rate`. */
  function YearlyAverages(rows: seq<ExchangeRate>, code: string, start: Date, end: Date): (r: seq<YearlyItem>)
    ensures |r| == |PeriodAverages(ByYear, rows, code, start, end)|
    ensures forall i :: 0 <= i < |r| ==>
      r[i].year == PeriodAverages(ByYear, rows, code, start, end)[i].key &&
      r[i].averageRate == PeriodAverages(ByYear, rows, code, start, end)[i].average
  {
    var g := PeriodAverages(ByYear, rows, code, start, end);
    seq(|g|, i requires 0 <= i < |g| => YearlyItem(g[i].key, g[i].average))
  }

  /** `get_supported_currencies`: one `{'code': c}` per configured code, in order; no name. */
  function SupportedCurrencyList(): (r: seq<CurrencyItem>)
    ensures |r| == |SupportedCurrencies|
    ensures forall i :: 0 <= i < |r| ==> r[i].code == SupportedCurrencies[i] && r[i].name.None?
  {
    seq(|SupportedCurrencies|, i requires 0 <= i < |SupportedCurrencies| => CurrencyItem(SupportedCurrencies[i], None))
  }
}
