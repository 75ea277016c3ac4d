/**
  * The dashboard page: the latest rate of the selected currency and its
  * change from the previous day's rate. Dates are compared as ISO
  * `YYYY-MM-DD` strings, whose text order is their calendar order.
  */
module Dashboard {
  import opened Options
  import opened Text
  import opened Wire
  import opened Numbers

  /** The record `calculateRateChange` returns; `change` is the percentage before rounding. */
  datatype RateChange = RateChange(current: real, change: Number, isIncrease: bool)

  /** `{ current: 0, change: 0, isIncrease: false }`. */
  const Neutral: RateChange := RateChange(0.0, Finite(0.0), false)

  /** No record is dated later than a record before it. */
  predicate NewestFirst(s: seq<RateItem>) {
    forall i, j :: 0 <= i < j < |s| ==> !StrLess(s[i].date, s[j].date)
  }

  /** Insert `x` before the first record not newer than it, so records of equal date keep their order. */
  function InsertNewest(x: RateItem, s: seq<RateItem>): (r: seq<RateItem>)
    ensures |r| == |s| + 1
  {
    if |s| == 0 || !StrLess(x.date, s[0].date) then [x] + s
    else [s[0]] + InsertNewest(x, s[1..])
  }

  /** `[...rates].sort((a, b) => new Date(b.date) - new Date(a.date))`: a stable newest-first copy. */
  function SortNewestFirst(s: seq<RateItem>): (r: seq<RateItem>)
    ensures |r| == |s|
  {
    if |s| == 0 then [] else InsertNewest(s[0], SortNewestFirst(s[1..]))
  }

  /** Inserting into a newest-first sequence adds exactly `x` and keeps it newest-first. */
  lemma {:induction false} InsertNewestSorted(x: RateItem, s: seq<RateItem>)
    requires NewestFirst(s)
    ensures multiset(InsertNewest(x, s)) == multiset(s) + multiset{x}
    ensures NewestFirst(InsertNewest(x, s))
  {
    if |s| == 0 || !StrLess(x.date, s[0].date) {
      forall j | 0 <= j < |s|
        ensures !StrLess(x.date, s[j].date)
      {
        if StrLess(x.date, s[j].date) {
          StrLessTotal(x.date, s[0].date);
          if StrLess(s[0].date, x.date) {
            StrLessTransitive(s[0].date, x.date, s[j].date);
          }
        }
      }
      NewerCons(x, s);
    } else {
      var rest := InsertNewest(x, s[1..]);
      InsertNewestSorted(x, s[1..]);
      assert s == [s[0]] + s[1..];
      forall k | 0 <= k < |rest|
        ensures !StrLess(s[0].date, rest[k].date)
      {
        assert rest[k] in multiset(rest);
        if rest[k] == x {
          StrLessAsymmetric(x.date, s[0].date);
        } else {
          assert rest[k] in s[1..];
        }
      }
      NewerCons(s[0], rest);
    }
  }

  /** A record not older than any of a newest-first sequence can go in front of it. */
  lemma NewerCons(x: RateItem, s: seq<RateItem>)
    requires NewestFirst(s)
    requires forall k :: 0 <= k < |s| ==> !StrLess(x.date, s[k].date)
    ensures NewestFirst([x] + s)
  {
    var r := [x] + s;
    forall i, j | 0 <= i < j < |r|
      ensures !StrLess(r[i].date, r[j].date)
    {
      if i > 0 {
        assert r[i] == s[i - 1] && r[j] == s[j - 1];
      } else {
        assert r[j] == s[j - 1];
      }
    }
  }

  /** The sort yields a newest-first permutation of its input. */
  lemma {:induction false} SortNewestFirstSorted(s: seq<RateItem>)
    ensures multiset(SortNewestFirst(s)) == multiset(s)
    ensures NewestFirst(SortNewestFirst(s))
  {
    if |s| > 0 {
      SortNewestFirstSorted(s[1..]);
      InsertNewestSorted(s[0], SortNewestFirst(s[1..]));
      assert s == [s[0]] + s[1..];
    }
  }

  /** `current - previous` as a percentage of `previous`, unrounded. */
  function Percent(current: real, previous: real): (n: Number)
    ensures previous != 0.0 ==> n.Finite? && n.value * previous == (current - previous) * 100.0
  {
    match Divide(current - previous, previous)
    case Finite(v) => Finite(v * 100.0)
    case other => other
  }

  /** The change between the two newest rates; neutral with fewer than two. */
  function ChangeOfRates(rates: seq<RateItem>): RateChange {
    if |rates| < 2 then Neutral
    else
      var sorted := SortNewestFirst(rates);
      var current := sorted[0].rate;
      var previous := sorted[1].rate;
      RateChange(current, Percent(current, previous), current > previous)
  }

  /** `mainCurrencyData ? calculateRateChange() : neutral`: missing data or missing `rates` are neutral too. */
  function RateChangeOf(data: Option<BodyData>): (r: RateChange)
    ensures data.None? || RatesOf(data.value).None? ==> r == Neutral
    ensures data.Some? && RatesOf(data.value).Some? ==> r == ChangeOfRates(RatesOf(data.value).value)
  {
    if data.None? then Neutral
    else match RatesOf(data.value)
      case None => Neutral
      case Some(rates) => ChangeOfRates(rates)
  }

  /** The two records the change is computed from: the newest and the next newest. */
  function NewestTwo(rates: seq<RateItem>): (RateItem, RateItem)
    requires |rates| >= 2
  {
    var sorted := SortNewestFirst(rates);
    (sorted[0], sorted[1])
  }

  /** The two records the change is read from are records of the input (two occurrences if equal). */
  lemma NewestTwoFromInput(rates: seq<RateItem>)
    requires |rates| >= 2
    ensures multiset{NewestTwo(rates).0, NewestTwo(rates).1} <= multiset(rates)
  {
    var sorted := SortNewestFirst(rates);
    SortNewestFirstSorted(rates);
    assert NewestTwo(rates) == (sorted[0], sorted[1]);
    assert sorted == [sorted[0], sorted[1]] + sorted[2..];
    assert multiset(sorted) == multiset([sorted[0], sorted[1]]) + multiset(sorted[2..]);
  }

  /** The first of them is a record no other record is newer than. */
  lemma NewestIsLatest(rates: seq<RateItem>)
    requires |rates| >= 2
    ensures forall e :: e in rates ==> !StrLess(NewestTwo(rates).0.date, e.date)
  {
    SortNewestFirstSorted(rates);
    NewestFirstHead(SortNewestFirst(rates));
  }

  /** The second is a record no record other than the first is newer than. */
  lemma NextIsLatestOfRest(rates: seq<RateItem>)
    requires |rates| >= 2
    ensures forall e :: e in multiset(rates) - multiset{NewestTwo(rates).0} ==> !StrLess(NewestTwo(rates).1.date, e.date)
  {
    var sorted := SortNewestFirst(rates);
    SortNewestFirstSorted(rates);
    assert sorted == [sorted[0]] + sorted[1..];
    NewestFirstHead(sorted[1..]);
    assert multiset(rates) - multiset{sorted[0]} == multiset(sorted[1..]);
  }

  /** The head of a newest-first sequence is not older than any of its records. */
  lemma NewestFirstHead(s: seq<RateItem>)
    requires NewestFirst(s) && |s| > 0
    ensures forall e :: e in multiset(s) ==> !StrLess(s[0].date, e.date)
  {
    forall e | e in multiset(s)
      ensures !StrLess(s[0].date, e.date)
    {
      assert e in s;
      var j :| 0 <= j < |s| && s[j] == e;
      if j == 0 {
        StrLessIrreflexive(e.date);
      }
    }
  }

  /**
    * `calculateRateChange` with at least two records: `current` is the newest
    * rate, `isIncrease` holds exactly when it is above the next newest, and
    * `change` is the percentage step from the next newest; fewer records are neutral.
    */
  lemma ChangeOfRatesSpec(rates: seq<RateItem>)
    ensures |rates| < 2 ==> ChangeOfRates(rates) == Neutral
    ensures |rates| >= 2 ==>
      var newest := NewestTwo(rates).0.rate;
      var next := NewestTwo(rates).1.rate;
      && ChangeOfRates(rates).current == newest
      && (ChangeOfRates(rates).isIncrease <==> newest > next)
      && (next != 0.0 ==> ChangeOfRates(rates).change.Finite? && ChangeOfRates(rates).change.value * next == (newest - next) * 100.0)
  {
  }

  /** No two records share a date. */
  predicate DistinctDates(s: seq<RateItem>) {
    forall i, j :: 0 <= i < j < |s| ==> s[i].date != s[j].date
  }

  /** Among records of distinct dates, the one no other is newer than is unique. */
  lemma NewestIsUnique(s: seq<RateItem>, x: RateItem, y: RateItem)
    requires DistinctDates(s)
    requires x in s && y in s
    requires forall e :: e in s ==> !StrLess(x.date, e.date)
    requires forall e :: e in s ==> !StrLess(y.date, e.date)
    ensures x == y
  {
    StrLessTotal(x.date, y.date);
    var i :| 0 <= i < |s| && s[i] == x;
    var j :| 0 <= j < |s| && s[j] == y;
  }

  /** With distinct dates, each record occurs once. */
  lemma RecordCountedOnce(a: seq<RateItem>, k: nat)
    requires DistinctDates(a) && k < |a|
    ensures multiset(a)[a[k]] == 1
  {
    assert a == a[..k] + [a[k]] + a[k + 1..];
    assert a[k] !in a[..k];
    assert a[k] !in a[k + 1..];
    assert multiset(a) == multiset(a[..k]) + multiset{a[k]} + multiset(a[k + 1..]);
  }

  lemma NewestAgree(a: seq<RateItem>, b: seq<RateItem>)
    requires multiset(a) == multiset(b) && DistinctDates(a) && |a| >= 2 && |b| >= 2
    ensures NewestTwo(a).0 == NewestTwo(b).0
  {
    NewestTwoFromInput(a);
    NewestTwoFromInput(b);
    NewestIsLatest(a);
    NewestIsLatest(b);
    var x := NewestTwo(a).0;
    var y := NewestTwo(b).0;
    assert x in multiset(a) && y in multiset(a);
    forall e | e in a
      ensures !StrLess(y.date, e.date)
    {
      assert e in multiset(b);
    }
    NewestIsUnique(a, x, y);
  }

  lemma NextAgree(a: seq<RateItem>, b: seq<RateItem>)
    requires multiset(a) == multiset(b) && DistinctDates(a) && |a| >= 2 && |b| >= 2
    requires NewestTwo(a).0 == NewestTwo(b).0
    ensures NewestTwo(a).1 == NewestTwo(b).1
  {
    NewestTwoFromInput(a);
    NewestTwoFromInput(b);
    NextIsLatestOfRest(a);
    NextIsLatestOfRest(b);
    var x1 := NewestTwo(a).0;
    var x2 := NewestTwo(a).1;
    var y2 := NewestTwo(b).1;
    var k :| 0 <= k < |a| && a[k] == x1;
    RecordCountedOnce(a, k);
    var rest := multiset(a) - multiset{x1};
    assert x2 in rest && y2 in rest;
    StrLessTotal(x2.date, y2.date);
    var i :| 0 <= i < |a| && a[i] == x2;
    var j :| 0 <= j < |a| && a[j] == y2;
  }

  /** With distinct dates the result depends only on which records there are, not on their order. */
  lemma ChangeIgnoresOrder(a: seq<RateItem>, b: seq<RateItem>)
    requires multiset(a) == multiset(b) && DistinctDates(a)
    ensures ChangeOfRates(a) == ChangeOfRates(b)
  {
    assert |a| == |multiset(a)| == |multiset(b)| == |b|;
    if |a| >= 2 {
      NewestAgree(a, b);
      NextAgree(a, b);
    }
  }

  /** The dashboard page's state that the change card and the currency picker use. */
  class DashboardPage {
    var selectedCurrency: string
    var mainCurrencyData: Option<BodyData>

    constructor ()
      ensures selectedCurrency == "USD" && mainCurrencyData.None?
    {
      selectedCurrency := "USD";
      mainCurrencyData := None;
    }

    /** `handleCurrencyChange`: select the currency and drop the data of the previous one. */
    method HandleCurrencyChange(value: string)
      modifies this
      ensures selectedCurrency == value && mainCurrencyData.None?
    {
      selectedCurrency := value;
      mainCurrencyData := None;
    }

    /**
      * The change card's value. Sorting works on a copy: the method changes
      * nothing, so the loaded records keep their order.
      */
    method CalculateRateChange() returns (r: RateChange)
      ensures r == RateChangeOf(mainCurrencyData)
      ensures mainCurrencyData.None? ==> r == Neutral
    {
      r := RateChangeOf(mainCurrencyData);
    }
  }

  /** Right after a currency change the card is neutral until new data arrives. */
  lemma ChangeAfterSelectionIsNeutral()
    ensures RateChangeOf(None) == Neutral
  {
  }
}
