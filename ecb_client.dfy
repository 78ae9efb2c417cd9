/** `EuropeanCentralBankClient`: it turns the sparse daily observations that the
    European Central Bank's statistical data service publishes against the euro
    into one rate per calendar day of a requested window.

    The upstream service is a parameter: `Fetch` answers one query (a series URL
    and a `startPeriod`/`endPeriod` window) with a decoded response, or with
    `None` when the request helper gave nothing back. */
module EcbClient {
  import opened Dates

  const BaseUrl := "https://sdw-wsrest.ecb.europa.eu/service/data/EXR/"
  const FrequencyDaily := "D"
  const ExchangeTypeForeignCode := "SP00"
  const SeriesVariationAverage := "A"
  /** The reference currency: every series the service publishes is quoted against it. */
  const Reference := "EUR"

  /** The client's four fields, set once by its constructor. Dates are text. */
  datatype Client = Client(fromCurrency: string, toCurrency: string, fromDate: string, toDate: string)

  /** A decoded response body: the series' observation dates, and its
      observations keyed by their position in that list (the JSON keys "0",
      "1", ... read as numbers); each observation is a list whose first
      element is the rate. */
  datatype Payload = Payload(dates: seq<string>, observations: map<nat, seq<real>>)

  /** An HTTP response; `content` is `None` when the body is empty. */
  datatype Response = Response(status: int, content: Option<Payload>)

  datatype Query = Query(url: string, startPeriod: string, endPeriod: string)

  type Fetch = Query -> Option<Response>

  /** How far one day's evaluation got: a rate; an `IndexError` or `KeyError`,
      which the resolution loop catches; or any other exception, which escapes
      (`ZeroDivisionError`, `RecursionError`, `OverflowError`, `ValueError`). */
  datatype DayEval = Rate(value: real) | LookupError | Fatal

  /** A call that returns a value, or one that an exception escapes from. */
  datatype Outcome<T> = Returns(value: T) | Throws

  /** One element of the result: `{'date': ..., 'daily_exchange_rate': ...}`. */
  datatype Entry = Entry(date: string, dailyExchangeRate: real)

  // ---------------------------------------------------------------------------
  // Queries

  const SeriesPrefix := BaseUrl + FrequencyDaily + "."
  const SeriesSuffix := "." + Reference + "." + ExchangeTypeForeignCode + "." + SeriesVariationAverage

  /** `_get_daily_exchange_url`: the URL of the daily series `D.{cur}.EUR.SP00.A`.
      The currency can be read back from the URL, between the fixed prefix and
      the fixed suffix. */
  function SeriesUrl(cur: string): (url: string)
    ensures |url| == |SeriesPrefix| + |cur| + |SeriesSuffix|
    ensures url[..|SeriesPrefix|] == SeriesPrefix
    ensures url[|SeriesPrefix|..|SeriesPrefix| + |cur|] == cur
    ensures url[|SeriesPrefix| + |cur|..] == SeriesSuffix
  {
    var url := SeriesPrefix + cur + SeriesSuffix;
    assert url[|SeriesPrefix|..|SeriesPrefix| + |cur|] == cur;
    url
  }

  /** Direct mode: one side of the pair is the reference currency. */
  predicate IsDirect(c: Client) {
    c.fromCurrency == Reference || c.toCurrency == Reference
  }

  /** In direct mode, the side whose series is fetched. */
  function DirectLeg(c: Client): string {
    if c.fromCurrency == Reference then c.toCurrency else c.fromCurrency
  }

  /** The queries sent for a window: one series in direct mode; the from-side
      series and then the to-side series otherwise. Both the main request and
      each backfill step choose their legs this way. */
  function LegQueries(c: Client, startPeriod: string, endPeriod: string): (qs: seq<Query>)
    ensures |qs| == if IsDirect(c) then 1 else 2
  {
    if IsDirect(c) then [Query(SeriesUrl(DirectLeg(c)), startPeriod, endPeriod)]
    else [Query(SeriesUrl(c.fromCurrency), startPeriod, endPeriod), Query(SeriesUrl(c.toCurrency), startPeriod, endPeriod)]
  }

  /** A `requests` response is truthy unless its status is a client or server error. */
  predicate Truthy(r: Response)
    ensures 200 <= r.status < 400 ==> Truthy(r)
  {
    !(400 <= r.status < 600)
  }

  /** `response and response.content`. */
  predicate Usable(r: Option<Response>)
    ensures Succeeded(r) && r.value.content.Some? ==> Usable(r)
  {
    r.Some? && Truthy(r.value) && r.value.content.Some?
  }

  /** `response and response.status_code == 200`; the truth test adds nothing,
      since status 200 is truthy. */
  predicate Succeeded(r: Option<Response>)
    ensures Succeeded(r) <==> r.Some? && r.value.status == 200
  {
    r.Some? && Truthy(r.value) && r.value.status == 200
  }

  function ObservationsOf(r: Option<Response>): map<nat, seq<real>>
    requires Usable(r)
  {
    r.value.content.value.observations
  }

  // ---------------------------------------------------------------------------
  // The rate of one day

  /** `exr_rates[str(index)][0]`: `None` where Python raises `KeyError` (no such
      key) or `IndexError` (an empty observation). */
  function First(obs: map<nat, seq<real>>, index: nat): (v: Option<real>)
    ensures v.Some? <==> index in obs && |obs[index]| > 0
    ensures v.Some? ==> v.value == obs[index][0]
  {
    if index in obs && |obs[index]| > 0 then Some(obs[index][0]) else None
  }

  /** `_get_exchange_rate_from_exr_rates`. With a non-empty second leg the rate is
      `extra / primary`; otherwise it is the primary value itself when the
      from-currency is the reference currency, and its inverse when not. A zero
      divisor raises `ZeroDivisionError`, which nothing catches. */
  function RateFromObservations(c: Client, index: nat, rates: map<nat, seq<real>>, extra: map<nat, seq<real>>): (r: DayEval)
    ensures r.LookupError? <==> First(rates, index).None? || (|extra| > 0 && First(extra, index).None?)
    ensures r.Fatal? <==> First(rates, index) == Some(0.0) && (|extra| > 0 ==> First(extra, index).Some?)
                          && (|extra| > 0 || c.fromCurrency != Reference)
    ensures r.Rate? && |extra| > 0 ==> r.value * rates[index][0] == extra[index][0]
    ensures r.Rate? && |extra| == 0 && c.fromCurrency == Reference ==> r.value == rates[index][0]
    ensures r.Rate? && |extra| == 0 && c.fromCurrency != Reference ==> r.value * rates[index][0] == 1.0
  {
    if |extra| > 0 then
      match First(extra, index)
      case None => LookupError
      case Some(w) =>
        match First(rates, index)
        case None => LookupError
        case Some(v) => if v == 0.0 then Fatal else Rate(w / v)
    else
      match First(rates, index)
      case None => LookupError
      case Some(v) =>
        if c.fromCurrency == Reference then Rate(v)
        else if v == 0.0 then Fatal
        else Rate(1.0 / v)
  }

  /** Every query of a day's legs came back truthy and with content: the one
      leg in direct mode, both legs otherwise. */
  predicate DayAvailable(c: Client, fetch: Fetch, day: string)
    ensures DayAvailable(c, fetch, day) <==> forall q | q in LegQueries(c, day, day) :: Usable(fetch(q))
  {
    var qs := LegQueries(c, day, day);
    if IsDirect(c) then Usable(fetch(qs[0])) else Usable(fetch(qs[0])) && Usable(fetch(qs[1]))
  }

  /** The rate of a one-day window whose legs all came back: observation 0 of
      each leg, the from-side leg first as the primary. */
  function DayRate(c: Client, fetch: Fetch, day: string): (r: DayEval)
    requires DayAvailable(c, fetch, day)
    ensures var qs := LegQueries(c, day, day);
      var v := First(ObservationsOf(fetch(qs[0])), 0);
      && (v.None? ==> r.LookupError?)
      && (IsDirect(c) && v.Some? && c.fromCurrency == Reference ==> r == Rate(v.value))
      && (IsDirect(c) && v.Some? && c.fromCurrency != Reference ==>
            r == if v.value == 0.0 then Fatal else Rate(1.0 / v.value))
    ensures !IsDirect(c) ==>
      var qs := LegQueries(c, day, day);
      var v, x := First(ObservationsOf(fetch(qs[0])), 0), ObservationsOf(fetch(qs[1]));
      && (|x| > 0 && First(x, 0).None? ==> r.LookupError?)
      && (v.Some? && First(x, 0).Some? ==>
            r == if v.value == 0.0 then Fatal else Rate(First(x, 0).value / v.value))
      && (|x| == 0 && v.Some? ==> r == if v.value == 0.0 then Fatal else Rate(1.0 / v.value))
  {
    var qs := LegQueries(c, day, day);
    if IsDirect(c) then RateFromObservations(c, 0, ObservationsOf(fetch(qs[0])), map[])
    else
      RateFromObservations(c, 0, ObservationsOf(fetch(qs[0])), ObservationsOf(fetch(qs[1])))
  }

  /** `_get_previous_day_exchange_rate`: parse `day` (an unparsable day raises
      `ValueError`), then walk back from it. */
  function Backfill(c: Client, fetch: Fetch, day: string, fuel: nat): (r: DayEval)
    ensures ParseDate(day).None? ==> r.Fatal?
    ensures ParseDate(day).Some? && !r.Fatal? ==> RateOfEarlierDay(c, fetch, ParseDate(day).value, fuel, r)
  {
    match ParseDate(day)
    case None => Fatal
    case Some(d) => BackfillFrom(c, fetch, d, fuel)
  }

  /** The days whose one-day queries all come back with content. */
  function OpenDays(c: Client, fetch: Fetch): Date -> bool {
    e => DayAvailable(c, fetch, Format(e))
  }

  /** The day at which the walk of `_get_previous_day_exchange_rate` stops,
      going back one day at a time from `d`: the first earlier day in `open`,
      or `None` when the walk raises first. The source has no bound on the
      walk; `fuel` is the interpreter's recursion limit, whose
      `RecursionError` escapes like any unhandled exception, and so does the
      `OverflowError` of the day before 0001-01-01. */
  function StopDay(open: Date -> bool, d: Date, fuel: nat): (r: Option<Date>)
    ensures r.Some? ==> open(r.value)
    decreases fuel
  {
    if fuel == 0 then None
    else
      match PrevDay(d)
      case None => None
      case Some(p) => if open(p) then Some(p) else StopDay(open, p, fuel - 1)
  }

  /** The walk from a valid date stops, if at all, at a valid day among the
      `fuel` days before it. */
  lemma {:induction false} StopDayWithin(open: Date -> bool, d: Date, fuel: nat)
    requires Valid(d)
    ensures var r := StopDay(open, d, fuel);
      r.Some? ==> Valid(r.value) && Ordinal(d) - fuel <= Ordinal(r.value) < Ordinal(d)
    decreases fuel
  {
    if fuel > 0 && d != MinDate {
      PrevDayFacts(d);
      var p := PrevDay(d).value;
      if !open(p) {
        StopDayWithin(open, p, fuel - 1);
      }
    }
  }

  /** `r` is the rate of one of the `fuel` days before `d` whose legs all come back. */
  ghost predicate RateOfEarlierDay(c: Client, fetch: Fetch, d: Date, fuel: nat, r: DayEval)
    requires Valid(d)
  {
    exists p | Valid(p) && Ordinal(d) - fuel <= Ordinal(p) < Ordinal(d) ::
      DayAvailable(c, fetch, Format(p)) && r == DayRate(c, fetch, Format(p))
  }

  /** The walk of `_get_previous_day_exchange_rate` from date `d`: ask for the
      day before `d` as a one-day window; if every leg came back with content,
      use its observation 0, otherwise go one more day back. Each step passes
      the earlier day on as its `YYYY-MM-DD` text, which parses back to the
      same date (`Dates.FormatParses`), so the walk is followed on dates. */
  function BackfillFrom(c: Client, fetch: Fetch, d: Date, fuel: nat): (r: DayEval)
    ensures fuel == 0 || d == MinDate ==> r.Fatal?
    ensures Valid(d) && !r.Fatal? ==> RateOfEarlierDay(c, fetch, d, fuel, r)
  {
    match StopDay(OpenDays(c, fetch), d, fuel)
    case None => Fatal
    case Some(p) =>
      assert Valid(d) ==> Valid(p) && Ordinal(d) - fuel <= Ordinal(p) < Ordinal(d) by {
        if Valid(d) {
          StopDayWithin(OpenDays(c, fetch), d, fuel);
        }
      }
      DayRate(c, fetch, Format(p))
  }

  // ---------------------------------------------------------------------------
  // The resolution of a whole window

  /** What the resolution loop works from: the client, the upstream, the
      recursion bound, the primary leg's dates and observations, and the second
      leg's observations (empty when there is none). */
  datatype Inputs = Inputs(
    client: Client, fetch: Fetch, fuel: nat,
    dates: seq<string>, rates: map<nat, seq<real>>, extra: map<nat, seq<real>>)

  /** The data read from the responses before the loop: the dates and
      observations of `response` when it has content, the observations of
      `extraResponse` when it is truthy and has content. */
  function InputsOf(c: Client, fetch: Fetch, fuel: nat, response: Response, extraResponse: Option<Response>): Inputs {
    var dates := if response.content.Some? then response.content.value.dates else [];
    var rates := if response.content.Some? then response.content.value.observations else map[];
    var extra := if Usable(extraResponse) then ObservationsOf(extraResponse) else map[];
    Inputs(c, fetch, fuel, dates, rates, extra)
  }

  /** `exchange_date_ranges.index(day)`: the first position of `day`. */
  function IndexOf(s: seq<string>, x: string): (i: nat)
    requires x in s
    ensures i < |s| && s[i] == x
    ensures forall j | 0 <= j < i :: s[j] != x
  {
    if s[0] == x then 0 else 1 + IndexOf(s[1..], x)
  }

  /** A day with its own observation: it is in the primary date list and the
      primary observations are not empty. */
  predicate Observed(inp: Inputs, day: string) {
    day in inp.dates && |inp.rates| > 0
  }

  /** One iteration of the loop for position `k`, given the entries so far:
      the day's own observation, else the previous entry's rate, else backfill. */
  function DayStep(inp: Inputs, range: seq<string>, k: nat, data: seq<Entry>): (r: DayEval)
    requires k < |range| && |data| == k
    ensures !r.Rate? ==> Observed(inp, range[k]) || k == 0
    ensures k == 0 && !Observed(inp, range[k]) && ParseDate(range[k]).Some? && !r.Fatal? ==>
      RateOfEarlierDay(inp.client, inp.fetch, ParseDate(range[k]).value, inp.fuel, r)
  {
    var day := range[k];
    if Observed(inp, day) then RateFromObservations(inp.client, IndexOf(inp.dates, day), inp.rates, inp.extra)
    else if k != 0 && |data| > 0 then Rate(data[k - 1].dailyExchangeRate)
    else Backfill(inp.client, inp.fetch, day, inp.fuel)
  }

  /** The rate recorded for a day whose evaluation did not escape: a lookup error leaves 0. */
  function Recorded(e: DayEval): real
    requires !e.Fatal?
  {
    if e.Rate? then e.value else 0.0
  }

  /** The entries after the loop has handled the first `n` days of `range`, or
      `Throws` if one of those days raised an exception the loop does not catch.
      Each entry carries the day of its position. */
  function Resolve(inp: Inputs, range: seq<string>, n: nat): (r: Outcome<seq<Entry>>)
    requires n <= |range|
    ensures r.Returns? ==> |r.value| == n && forall k | 0 <= k < n :: r.value[k].date == range[k]
    decreases n
  {
    if n == 0 then Returns([])
    else
      match Resolve(inp, range, n - 1)
      case Throws => Throws
      case Returns(data) =>
        var e := DayStep(inp, range, n - 1, data);
        if e.Fatal? then Throws else Returns(data + [Entry(range[n - 1], Recorded(e))])
  }

  /** One more day handled without an escaping exception appends its entry. */
  lemma ResolveStep(inp: Inputs, range: seq<string>, k: nat, data: seq<Entry>)
    requires k < |range| && Resolve(inp, range, k) == Returns(data)
    ensures |data| == k
    ensures !DayStep(inp, range, k, data).Fatal? ==>
      Resolve(inp, range, k + 1) == Returns(data + [Entry(range[k], Recorded(DayStep(inp, range, k, data)))])
  {
  }

  /** Once a day has raised, every longer prefix raises too. */
  lemma {:induction false} ResolveThrowsOnward(inp: Inputs, range: seq<string>, n: nat, m: nat)
    requires n <= m <= |range| && Resolve(inp, range, n) == Throws
    ensures Resolve(inp, range, m) == Throws
    decreases m - n
  {
    if n < m {
      ResolveThrowsOnward(inp, range, n + 1, m);
    }
  }

  /** `_date_range`: both client dates parsed, then every day between them. */
  function DateRangeOf(c: Client): (r: Outcome<seq<string>>)
    ensures r.Returns? <==> ParseDate(c.fromDate).Some? && ParseDate(c.toDate).Some?
    ensures r.Returns? && |r.value| > 0 ==> r.value[0] == c.fromDate && r.value[|r.value| - 1] == c.toDate
  {
    var from, to := ParseDate(c.fromDate), ParseDate(c.toDate);
    if from.None? || to.None? then Throws
    else
      DateRangeTexts(from.value, to.value);
      Returns(DateRange(from.value, to.value))
  }

  /** What `_get_exchange_rates_data_from_api(response, extra_response)` computes. */
  function Series(c: Client, fetch: Fetch, fuel: nat, response: Response, extraResponse: Option<Response>): (r: Outcome<seq<Entry>>)
    ensures DateRangeOf(c).Throws? ==> r.Throws?
    ensures r.Returns? ==>
      && DateRangeOf(c).Returns? && |r.value| == |DateRangeOf(c).value|
      && forall k | 0 <= k < |r.value| :: r.value[k].date == DateRangeOf(c).value[k]
    ensures r.Returns? && |r.value| > 0 ==> r.value[0].date == c.fromDate && r.value[|r.value| - 1].date == c.toDate
  {
    match DateRangeOf(c)
    case Throws => Throws
    case Returns(range) => Resolve(InputsOf(c, fetch, fuel, response, extraResponse), range, |range|)
  }

  /** The loop of `_get_exchange_rates_data_from_api` over the days of `range`,
      appending one entry per day. */
  method ResolveDays(inp: Inputs, range: seq<string>) returns (r: Outcome<seq<Entry>>)
    ensures r == Resolve(inp, range, |range|)
  {
    var data: seq<Entry> := [];
    var k := 0;
    while k < |range|
      invariant 0 <= k <= |range| && |data| == k
      invariant Resolve(inp, range, k) == Returns(data)
    {
      var day := range[k];
      var e: DayEval;
      if day in inp.dates && |inp.rates| > 0 {
        var indexInRange := IndexOf(inp.dates, day);
        e := RateFromObservations(inp.client, indexInRange, inp.rates, inp.extra);
      } else if k != 0 && |data| > 0 {
        e := Rate(data[k - 1].dailyExchangeRate);
      } else {
        e := Backfill(inp.client, inp.fetch, day, inp.fuel);
      }
      assert e == DayStep(inp, range, k, data);
      var dailyExchangeRate := 0.0;
      match e {
        case Fatal =>
          ResolveThrowsOnward(inp, range, k + 1, |range|);
          return Throws;
        case LookupError =>
        case Rate(v) => dailyExchangeRate := v;
      }
      ResolveStep(inp, range, k, data);
      data := data + [Entry(day, dailyExchangeRate)];
      k := k + 1;
    }
    return Returns(data);
  }

  /** `_get_exchange_rates_data_from_api`: read the dates and observations out of
      the responses, expand the client's window into days, then resolve them. */
  method ExchangeRatesData(c: Client, fetch: Fetch, fuel: nat, response: Response, extraResponse: Option<Response>)
    returns (r: Outcome<seq<Entry>>)
    ensures r == Series(c, fetch, fuel, response, extraResponse)
  {
    var dates: seq<string> := [];
    var rates: map<nat, seq<real>> := map[];
    var extra: map<nat, seq<real>> := map[];
    if response.content.Some? {
      dates := response.content.value.dates;
      rates := response.content.value.observations;
    }
    if extraResponse.Some? && Truthy(extraResponse.value) && extraResponse.value.content.Some? {
      extra := extraResponse.value.content.value.observations;
    }
    var inp := Inputs(c, fetch, fuel, dates, rates, extra);
    assert inp == InputsOf(c, fetch, fuel, response, extraResponse);
    var window := DateRangeOf(c);
    if window.Throws? {
      return Throws;
    }
    r := ResolveDays(inp, window.value);
  }

  // ---------------------------------------------------------------------------
  // The entry point

  /** What `get_daily_exchange_rates` computes: one query in direct mode, two
      otherwise; an empty list unless every query succeeded with status 200. */
  function DailyExchangeRates(c: Client, fetch: Fetch, fuel: nat): (r: Outcome<seq<Entry>>)
    ensures !(forall q | q in LegQueries(c, c.fromDate, c.toDate) :: Succeeded(fetch(q))) ==> r == Returns([])
    ensures r.Returns? && |r.value| > 0 ==> r.value[0].date == c.fromDate && r.value[|r.value| - 1].date == c.toDate
  {
    var qs := LegQueries(c, c.fromDate, c.toDate);
    if IsDirect(c) then
      var response := fetch(qs[0]);
      if Succeeded(response) then Series(c, fetch, fuel, response.value, None) else Returns([])
    else
      var fromResponse, toResponse := fetch(qs[0]), fetch(qs[1]);
      if Succeeded(fromResponse) && Succeeded(toResponse) then Series(c, fetch, fuel, fromResponse.value, toResponse)
      else Returns([])
  }

  /** `get_daily_exchange_rates`. */
  method GetDailyExchangeRates(c: Client, fetch: Fetch, fuel: nat) returns (r: Outcome<seq<Entry>>)
    ensures r == DailyExchangeRates(c, fetch, fuel)
  {
    r := Returns([]);
    if c.fromCurrency == Reference || c.toCurrency == Reference {
      var toCurrency := if c.fromCurrency == Reference then c.toCurrency else c.fromCurrency;
      var response := fetch(Query(SeriesUrl(toCurrency), c.fromDate, c.toDate));
      if response.Some? && Truthy(response.value) && response.value.status == 200 {
        r := ExchangeRatesData(c, fetch, fuel, response.value, None);
      }
    } else {
      var fromResponse := fetch(Query(SeriesUrl(c.fromCurrency), c.fromDate, c.toDate));
      var toResponse := fetch(Query(SeriesUrl(c.toCurrency), c.fromDate, c.toDate));
      if Succeeded(fromResponse) && Succeeded(toResponse) {
        r := ExchangeRatesData(c, fetch, fuel, fromResponse.value, toResponse);
      }
    }
  }
}
