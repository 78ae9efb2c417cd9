/** What the client's resolution promises: which series are queried, what a
    day's rate means, how the walk back for the first day ends, and the shape
    of the daily series. */
module EcbProperties {
  import opened Dates
  import opened EcbClient
  import Validation

  // ---------------------------------------------------------------------------
  // Queries

  /** Different currencies name different series. */
  lemma SeriesUrlInjective(a: string, b: string)
    requires SeriesUrl(a) == SeriesUrl(b)
    ensures a == b
  {
    var u := SeriesUrl(a);
    assert |a| == |b|;
    assert a == u[|SeriesPrefix|..|SeriesPrefix| + |a|];
  }

  /** Direct mode exactly when one side is the reference currency; every query
      asks for the same window; each names the series of one side of the pair,
      never the reference currency's own series when the two sides differ;
      triangulation queries the from-side first. */
  lemma LegSelection(c: Client, startPeriod: string, endPeriod: string)
    requires c.fromCurrency != c.toCurrency
    ensures IsDirect(c) <==> |LegQueries(c, startPeriod, endPeriod)| == 1
    ensures forall q | q in LegQueries(c, startPeriod, endPeriod) :: q.startPeriod == startPeriod && q.endPeriod == endPeriod
    ensures forall q | q in LegQueries(c, startPeriod, endPeriod) ::
      (q.url == SeriesUrl(c.fromCurrency) || q.url == SeriesUrl(c.toCurrency)) && q.url != SeriesUrl(Reference)
    ensures !IsDirect(c) ==>
      LegQueries(c, startPeriod, endPeriod)[0].url == SeriesUrl(c.fromCurrency)
      && LegQueries(c, startPeriod, endPeriod)[1].url == SeriesUrl(c.toCurrency)
  {
    forall q | q in LegQueries(c, startPeriod, endPeriod)
      ensures q.url != SeriesUrl(Reference)
    {
      if q.url == SeriesUrl(Reference) {
        if IsDirect(c) {
          SeriesUrlInjective(DirectLeg(c), Reference);
        } else if q.url == SeriesUrl(c.fromCurrency) {
          SeriesUrlInjective(c.fromCurrency, Reference);
        } else {
          SeriesUrlInjective(c.toCurrency, Reference);
        }
      }
    }
  }

  // ---------------------------------------------------------------------------
  // The rate of one day

  /** The rate from `from` to `to` implied by the quotes of both against the
      reference currency (units of a currency per reference unit). */
  function CrossRate(fromQuote: real, toQuote: real): real
    requires fromQuote != 0.0
  {
    toQuote / fromQuote
  }

  /** The quote of `cur` against the reference currency: 1 for the reference
      currency itself, the observed value otherwise. */
  function QuoteOf(cur: string, observed: real): real {
    if cur == Reference then 1.0 else observed
  }

  function Swap(c: Client): Client {
    Client(c.toCurrency, c.fromCurrency, c.fromDate, c.toDate)
  }

  /** In direct mode the formula is the cross rate of the two quotes, one of them
      the reference currency's own. */
  lemma DirectRateIsCrossRate(c: Client, index: nat, rates: map<nat, seq<real>>, v: real)
    requires IsDirect(c) && c.fromCurrency != c.toCurrency
    requires First(rates, index) == Some(v) && v != 0.0
    ensures RateFromObservations(c, index, rates, map[])
      == Rate(CrossRate(QuoteOf(c.fromCurrency, v), QuoteOf(c.toCurrency, v)))
  {
  }

  /** With both legs observed the formula is the cross rate of the two quotes. */
  lemma TriangulatedRateIsCrossRate(c: Client, index: nat, rates: map<nat, seq<real>>, extra: map<nat, seq<real>>, v: real, w: real)
    requires First(rates, index) == Some(v) && First(extra, index) == Some(w) && v != 0.0
    ensures RateFromObservations(c, index, rates, extra) == Rate(CrossRate(v, w))
  {
  }

  /** With the second leg empty, triangulation falls back to the direct formula,
      so the rate is the inverse of the from-side quote alone. */
  lemma EmptySecondLegFallsBack(c: Client, index: nat, rates: map<nat, seq<real>>, v: real)
    requires !IsDirect(c)
    requires First(rates, index) == Some(v) && v != 0.0
    ensures RateFromObservations(c, index, rates, map[]) == Rate(1.0 / v)
  {
  }

  /** Swapping the pair (and, in triangulation, its legs) inverts the rate. */
  lemma SwappedPairInverts(c: Client, index: nat, rates: map<nat, seq<real>>, extra: map<nat, seq<real>>)
    requires c.fromCurrency != c.toCurrency
    requires First(rates, index).Some? && First(rates, index).value != 0.0
    requires |extra| > 0 ==> First(extra, index).Some? && First(extra, index).value != 0.0
    requires |extra| == 0 ==> IsDirect(c)
    ensures var there := RateFromObservations(c, index, rates, extra);
            var back := if |extra| > 0 then RateFromObservations(Swap(c), index, extra, rates)
                        else RateFromObservations(Swap(c), index, rates, extra);
            there.Rate? && back.Rate? && there.value * back.value == 1.0
  {
    var v := First(rates, index).value;
    if |extra| > 0 {
      var w := First(extra, index).value;
      assert (w / v) * (v / w) == 1.0;
    } else {
      assert v * (1.0 / v) == 1.0;
    }
  }

  // ---------------------------------------------------------------------------
  // The walk back for the first day

  /** The walk from the text of a valid date is the walk from that date; from
      0001-01-01 it raises at once, since there is no earlier date. */
  lemma BackfillOfText(c: Client, fetch: Fetch, d: Date, fuel: nat)
    requires Valid(d)
    ensures Backfill(c, fetch, Format(d), fuel) == BackfillFrom(c, fetch, d, fuel)
    ensures d == MinDate ==> Backfill(c, fetch, Format(d), fuel) == Fatal
  {
    FormatParses(d);
  }

  /** When `n` is the nearest day before `d` in `open`, and it lies within
      the recursion bound, the walk stops at `n`. */
  lemma {:induction false} StopDayNearest(open: Date -> bool, d: Date, n: Date, fuel: nat)
    requires Valid(d) && Valid(n)
    requires Ordinal(d) - fuel <= Ordinal(n) < Ordinal(d)
    requires open(n)
    requires forall e | Valid(e) && Before(n, e) && Before(e, d) :: !open(e)
    ensures StopDay(open, d, fuel) == Some(n)
    decreases fuel
  {
    OrdinalBounds(n);
    assert d != MinDate by { MinDateOrdinal(); }
    PrevDayFacts(d);
    var p := PrevDay(d).value;
    if Ordinal(p) == Ordinal(n) {
      BeforeIffOrdinal(p, n);
      assert p == n;
    } else {
      BeforeIffOrdinal(n, p);
      BeforeIffOrdinal(p, d);
      assert !open(p);
      StopDayNearest(open, p, n, fuel - 1);
    }
  }

  /** When no day among the `fuel` days before `d` is in `open`, the walk
      stops nowhere. */
  lemma {:induction false} StopDayNone(open: Date -> bool, d: Date, fuel: nat)
    requires Valid(d)
    requires forall e | Valid(e) && Ordinal(d) - fuel <= Ordinal(e) < Ordinal(d) :: !open(e)
    ensures StopDay(open, d, fuel) == None
    decreases fuel
  {
    if fuel > 0 && d != MinDate {
      PrevDayFacts(d);
      var p := PrevDay(d).value;
      assert !open(p);
      StopDayNone(open, p, fuel - 1);
    }
  }

  /** When `n` is the nearest day before `d` whose legs all come back, and it
      lies within the recursion bound, the walk yields that day's rate
      (observation 0 of its one-day window). */
  lemma BackfillFindsNearest(c: Client, fetch: Fetch, d: Date, n: Date, fuel: nat)
    requires Valid(d) && Valid(n)
    requires Ordinal(d) - fuel <= Ordinal(n) < Ordinal(d)
    requires DayAvailable(c, fetch, Format(n))
    requires forall e | Valid(e) && Before(n, e) && Before(e, d) :: !DayAvailable(c, fetch, Format(e))
    ensures BackfillFrom(c, fetch, d, fuel) == DayRate(c, fetch, Format(n))
  {
    StopDayNearest(OpenDays(c, fetch), d, n, fuel);
  }

  /** New Year's Day with the last two days of December closed: the walk from
      2024-01-01 crosses the year end and stops at 2023-12-29. */
  lemma NewYearBackfill(c: Client, fetch: Fetch, fuel: nat)
    requires fuel >= 3
    requires DayAvailable(c, fetch, Format(Date(2023, 12, 29)))
    requires !DayAvailable(c, fetch, Format(Date(2023, 12, 30))) && !DayAvailable(c, fetch, Format(Date(2023, 12, 31)))
    ensures BackfillFrom(c, fetch, Date(2024, 1, 1), fuel) == DayRate(c, fetch, Format(Date(2023, 12, 29)))
  {
    var d, n := Date(2024, 1, 1), Date(2023, 12, 29);
    YearEndGap(n);
    forall e | Valid(e) && Before(n, e) && Before(e, d)
      ensures !DayAvailable(c, fetch, Format(e))
    {
      YearEndGap(e);
    }
    BackfillFindsNearest(c, fetch, d, n, fuel);
  }

  /** The only valid days strictly between 2023-12-29 and 2024-01-01 are the
      30th and the 31st, and the two ends are three days apart. */
  lemma YearEndGap(e: Date)
    ensures Valid(Date(2024, 1, 1)) && Valid(Date(2023, 12, 29))
    ensures Ordinal(Date(2024, 1, 1)) - Ordinal(Date(2023, 12, 29)) == 3
    ensures Valid(e) && Before(Date(2023, 12, 29), e) && Before(e, Date(2024, 1, 1)) ==>
      e == Date(2023, 12, 30) || e == Date(2023, 12, 31)
  {
  }

  /** When none of the `fuel` days before `d` has all its legs come back, the
      walk raises: it runs out of stack, or of calendar at 0001-01-01. */
  lemma BackfillExhausted(c: Client, fetch: Fetch, d: Date, fuel: nat)
    requires Valid(d)
    requires forall e | Valid(e) && Ordinal(d) - fuel <= Ordinal(e) < Ordinal(d) :: !DayAvailable(c, fetch, Format(e))
    ensures BackfillFrom(c, fetch, d, fuel) == Fatal
  {
    StopDayNone(OpenDays(c, fetch), d, fuel);
  }

  // ---------------------------------------------------------------------------
  // The resolution loop

  /** Every prefix of a resolved series is the resolution of that prefix, and
      each entry's rate is what its day's step gave, a lookup error leaving 0. */
  lemma {:induction false} ResolveAt(inp: Inputs, range: seq<string>, n: nat, k: nat)
    requires k < n <= |range| && Resolve(inp, range, n).Returns?
    ensures var data := Resolve(inp, range, n).value;
      && Resolve(inp, range, k) == Returns(data[..k])
      && !DayStep(inp, range, k, data[..k]).Fatal?
      && data[k].dailyExchangeRate == Recorded(DayStep(inp, range, k, data[..k]))
    decreases n
  {
    var data := Resolve(inp, range, n).value;
    var prev := Resolve(inp, range, n - 1);
    assert prev.Returns?;
    assert data == prev.value + [Entry(range[n - 1], Recorded(DayStep(inp, range, n - 1, prev.value)))];
    if k == n - 1 {
      assert data[..k] == prev.value;
    } else {
      ResolveAt(inp, range, n - 1, k);
      assert data[..k] == prev.value[..k];
    }
  }

  /** The loop raises exactly when some day's step raises an exception it does
      not catch; a lookup error on a day never stops the later days. */
  lemma {:induction false} ResolveThrowsIff(inp: Inputs, range: seq<string>, n: nat)
    requires n <= |range|
    ensures Resolve(inp, range, n).Throws? <==>
      exists k | 0 <= k < n :: Resolve(inp, range, k).Returns? && DayStep(inp, range, k, Resolve(inp, range, k).value).Fatal?
    decreases n
  {
    if n > 0 {
      ResolveThrowsIff(inp, range, n - 1);
      if Resolve(inp, range, n - 1).Throws? {
        var k :| 0 <= k < n - 1 && Resolve(inp, range, k).Returns? && DayStep(inp, range, k, Resolve(inp, range, k).value).Fatal?;
        assert 0 <= k < n;
      }
    }
  }

  /** An observed day in direct mode: the raw observation at the day's position
      in the primary date list when the from-currency is the reference currency,
      otherwise its inverse; 0 when that position has no observation. */
  lemma DirectObservedDay(inp: Inputs, range: seq<string>, data: seq<Entry>, k: nat)
    requires Resolve(inp, range, |range|) == Returns(data) && k < |range|
    requires Observed(inp, range[k]) && |inp.extra| == 0
    ensures var v := First(inp.rates, IndexOf(inp.dates, range[k]));
      && (v.None? ==> data[k].dailyExchangeRate == 0.0)
      && (v.Some? && inp.client.fromCurrency == Reference ==> data[k].dailyExchangeRate == v.value)
      && (v.Some? && inp.client.fromCurrency != Reference ==>
            v.value != 0.0 && data[k].dailyExchangeRate == 1.0 / v.value)
  {
    ResolveAt(inp, range, |range|, k);
  }

  /** An observed day with a non-empty second leg: the second leg's observation
      over the primary's, both at the day's position in the primary date list;
      0 when either leg has no observation there. */
  lemma TriangulatedObservedDay(inp: Inputs, range: seq<string>, data: seq<Entry>, k: nat)
    requires Resolve(inp, range, |range|) == Returns(data) && k < |range|
    requires Observed(inp, range[k]) && |inp.extra| > 0
    ensures var i := IndexOf(inp.dates, range[k]);
      && (First(inp.rates, i).None? || First(inp.extra, i).None? ==> data[k].dailyExchangeRate == 0.0)
      && (First(inp.rates, i).Some? && First(inp.extra, i).Some? ==>
            First(inp.rates, i).value != 0.0
            && data[k].dailyExchangeRate == First(inp.extra, i).value / First(inp.rates, i).value)
  {
    ResolveAt(inp, range, |range|, k);
  }

  /** A later day without its own observation repeats the previous entry's rate,
      the 0 of a failed day included. */
  lemma CarryForward(inp: Inputs, range: seq<string>, data: seq<Entry>, k: nat)
    requires Resolve(inp, range, |range|) == Returns(data) && 0 < k < |range|
    requires !Observed(inp, range[k])
    ensures data[k].dailyExchangeRate == data[k - 1].dailyExchangeRate
  {
    ResolveAt(inp, range, |range|, k);
  }

  /** Only the first day, when it has no observation of its own, walks back. */
  lemma FirstDayBackfill(inp: Inputs, range: seq<string>, data: seq<Entry>)
    requires Resolve(inp, range, |range|) == Returns(data) && 0 < |range|
    requires !Observed(inp, range[0])
    ensures var b := Backfill(inp.client, inp.fetch, range[0], inp.fuel);
      !b.Fatal? && data[0].dailyExchangeRate == Recorded(b)
  {
    ResolveAt(inp, range, |range|, 0);
  }

  // ---------------------------------------------------------------------------
  // The series of a window

  /** For a window whose dates parse with `from <= to`, the series, when the loop
      returns, has one entry per calendar day, in order, each dated with the
      range's text for that day. */
  lemma SeriesCoversWindow(c: Client, fetch: Fetch, fuel: nat, response: Response, extraResponse: Option<Response>, f: Date, t: Date)
    requires ParseDate(c.fromDate) == Some(f) && ParseDate(c.toDate) == Some(t) && !Before(t, f)
    requires Series(c, fetch, fuel, response, extraResponse).Returns?
    ensures Ordinal(f) <= Ordinal(t)
    ensures var data := Series(c, fetch, fuel, response, extraResponse).value;
      && |data| == Ordinal(t) - Ordinal(f) + 1
      && data[0].date == c.fromDate && data[|data| - 1].date == c.toDate
      && forall k | 0 <= k < |data| :: data[k].date == Format(AddDays(f, k))
  {
    BeforeIffOrdinal(t, f);
    var range := DateRange(f, t);
    DateRangeEnds(f, t);
    forall k | 0 <= k < |range|
      ensures range[k] == Format(AddDays(f, k))
    {
      DateRangeAt(f, t, k);
    }
  }

  /** For a window whose dates parse with `from <= to`, the entry point returns
      `[]` exactly when a query of the main window did not succeed with status
      200; otherwise it returns the non-empty series or raises. */
  lemma EmptyResultIff(c: Client, fetch: Fetch, fuel: nat, f: Date, t: Date)
    requires ParseDate(c.fromDate) == Some(f) && ParseDate(c.toDate) == Some(t) && !Before(t, f)
    ensures var qs := LegQueries(c, c.fromDate, c.toDate);
      DailyExchangeRates(c, fetch, fuel) == Returns([]) <==> exists q | q in qs :: !Succeeded(fetch(q))
  {
    var qs := LegQueries(c, c.fromDate, c.toDate);
    DateRangeEnds(f, t);
    assert qs[0] in qs;
    if !IsDirect(c) {
      assert qs[1] in qs;
    }
  }

  /** `EuropeanCentralBankClient(**serializer.data)`: serialized dates are text. */
  function ClientFor(req: Validation.Request): (c: Client)
    ensures c.fromCurrency == req.fromCurrency && c.toCurrency == req.toCurrency
    ensures Valid(req.fromDate) ==> ParseDate(c.fromDate) == Some(req.fromDate)
    ensures Valid(req.toDate) ==> ParseDate(c.toDate) == Some(req.toDate)
  {
    assert Valid(req.fromDate) ==> ParseDate(Format(req.fromDate)) == Some(req.fromDate) by {
      if Valid(req.fromDate) {
        FormatParses(req.fromDate);
      }
    }
    assert Valid(req.toDate) ==> ParseDate(Format(req.toDate)) == Some(req.toDate) by {
      if Valid(req.toDate) {
        FormatParses(req.toDate);
      }
    }
    Client(req.fromCurrency, req.toCurrency, Format(req.fromDate), Format(req.toDate))
  }

  /** An accepted request gives the client a window it can expand: one day per
      calendar day from the from-date to the to-date, at least one. */
  lemma AcceptedRequestWindow(req: Validation.Request, today: Date, choices: set<string>)
    requires Valid(req.fromDate) && Valid(req.toDate) && Valid(today)
    requires Validation.IsValid(req, today, choices).Ok?
    ensures DateRangeOf(ClientFor(req)) == Returns(DateRange(req.fromDate, req.toDate))
    ensures |DateRange(req.fromDate, req.toDate)| == Ordinal(req.toDate) - Ordinal(req.fromDate) + 1 >= 1
    ensures ClientFor(req).fromCurrency != ClientFor(req).toCurrency
  {
    Validation.AcceptedWindow(req, today, choices);
    Validation.IsValidIff(req, today, choices);
    FormatParses(req.fromDate);
    FormatParses(req.toDate);
  }

  // ---------------------------------------------------------------------------
  // Worked examples

  /** Friday observed, the weekend carried forward, US dollars to euros. */
  lemma WeekendExample(fetch: Fetch)
    ensures var inp := Inputs(Client("USD", "EUR", "2024-01-05", "2024-01-07"), fetch, 1,
                              ["2024-01-05"], map[0 := [1.10]], map[]);
      Resolve(inp, ["2024-01-05", "2024-01-06", "2024-01-07"], 3)
      == Returns([Entry("2024-01-05", 1.0 / 1.10), Entry("2024-01-06", 1.0 / 1.10), Entry("2024-01-07", 1.0 / 1.10)])
  {
    var inp := Inputs(Client("USD", "EUR", "2024-01-05", "2024-01-07"), fetch, 1,
                      ["2024-01-05"], map[0 := [1.10]], map[]);
    var range := ["2024-01-05", "2024-01-06", "2024-01-07"];
    var v := 1.0 / 1.10;
    assert IndexOf(inp.dates, range[0]) == 0;
    assert DayStep(inp, range, 0, []) == Rate(v);
    assert Resolve(inp, range, 0) == Returns([]);
    ResolveStep(inp, range, 0, []);
    var d1 := [Entry(range[0], v)];
    assert Recorded(DayStep(inp, range, 0, [])) == v;
    assert [] + d1 == d1;
    assert Resolve(inp, range, 1) == Returns(d1);
    assert range[1] !in inp.dates;
    assert DayStep(inp, range, 1, d1) == Rate(v);
    ResolveStep(inp, range, 1, d1);
    var d2 := d1 + [Entry(range[1], v)];
    assert Resolve(inp, range, 2) == Returns(d2);
    assert range[2] !in inp.dates;
    assert DayStep(inp, range, 2, d2) == Rate(v);
    ResolveStep(inp, range, 2, d2);
    assert d2 + [Entry(range[2], v)] == [Entry("2024-01-05", v), Entry("2024-01-06", v), Entry("2024-01-07", v)];
  }

  /** US dollars to yen, triangulated through the euro. */
  lemma TriangulationExample(fetch: Fetch)
    ensures var inp := Inputs(Client("USD", "JPY", "2024-01-05", "2024-01-05"), fetch, 1,
                              ["2024-01-05"], map[0 := [1.10]], map[0 := [160.0]]);
      Resolve(inp, ["2024-01-05"], 1) == Returns([Entry("2024-01-05", 160.0 / 1.10)])
  {
    var inp := Inputs(Client("USD", "JPY", "2024-01-05", "2024-01-05"), fetch, 1,
                      ["2024-01-05"], map[0 := [1.10]], map[0 := [160.0]]);
    var range := ["2024-01-05"];
    assert IndexOf(inp.dates, range[0]) == 0;
    assert DayStep(inp, range, 0, []) == Rate(160.0 / 1.10);
    assert Resolve(inp, range, 0) == Returns([]);
    ResolveStep(inp, range, 0, []);
    assert [] + [Entry(range[0], 160.0 / 1.10)] == [Entry("2024-01-05", 160.0 / 1.10)];
  }
}
