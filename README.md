# Daily ECB exchange rates: a Dafny model

This project models the core of a small currency-exchange service. The service
answers "what was the rate from currency A to currency B on each day from date X
to date Y". It asks the European Central Bank's statistical data service for
daily reference rates. Every series there is quoted against the euro, and there
are no observations on weekends and holidays. The service turns those sparse
observations into one rate per calendar day.

Modules:

- `Dates` (`dates.dfy`) models `utils/basic_utils.py`. Dates are
  `(year, month, day)` in the proleptic Gregorian calendar of Python's `datetime`.
  Their ordinal is the one of `date.toordinal()`. The text form is the
  `YYYY-MM-DD` calendar date of ISO 8601 (extended format, section 4.1.2.2 of
  ISO 8601:2004). The module has parsing, formatting, the previous day and the
  inclusive range of days.
- `Validation` (`validation.dfy`) models the request serializer in
  `apps/currency/serializers.py`. Today's date and the set of currency choices
  are parameters.
- `EcbClient` (`ecb_client.dfy`) models `EuropeanCentralBankClient` in
  `utils/ecb_client.py`:
  - the series URL;
  - direct or triangulated mode;
  - the per-day rate formula;
  - the walk back for a first day that has no observation;
  - the resolution loop, an imperative method proved against the function
    `Resolve`;
  - the entry point.

  The upstream service is a parameter `fetch`. It maps a query (series URL,
  `startPeriod`, `endPeriod`) to a decoded response, or to `None` when the
  request helper returned nothing.
- `EcbProperties` (`ecb_properties.dfy`) holds the lemmas about the client:
  - which series each mode queries;
  - the rate of an observed day in each mode, and the cross-rate meaning of it;
  - carry-forward, the 0 sentinel and first-day backfill;
  - where the backward walk stops;
  - the shape of the returned series;
  - two worked examples.

A day's evaluation ends in one of three ways (`DayEval`):

- a rate;
- a lookup error, which stands for the `IndexError`/`KeyError` that the loop
  catches and records as 0;
- `Fatal`, an exception that nothing catches: `ZeroDivisionError`,
  `RecursionError`, the `OverflowError` of the day before 0001-01-01, or a
  `ValueError` from an unparsable date.

The loop's result is `Outcome`: either the list of entries, or `Throws`.

Some behaviours of the code that the model keeps, and that are easy to miss:

- An observed day is found through the primary leg's date list only. Its
  position `i` indexes both legs' observations. The model does not look for
  the same date in the second leg.
- Backfill runs for any day that has no observation while the list being
  built is empty. Only position 0 can be such a day.
- The entry point returns `[]` as soon as any one query of the main window
  fails to return status 200, in either mode.
- The main window requires status 200 exactly. Each backfill step instead
  accepts any truthy response (status below 400 or from 600 up) that has
  content.

## Model

| member | source | states |
|---|---|---|
| `Dates.ParseDateTime` | utils/basic_utils.py:10-11 | `str_to_datetime`: when it succeeds, the result is midnight of a valid date whose `YYYY-MM-DD` text is the input itself |
| `Dates.ParseDate` | utils/basic_utils.py:6-7 | `str_to_date` succeeds exactly when `str_to_datetime` does, on the same calendar date, and that date formats back to the input |
| `Dates.DatetimeToStr` | utils/basic_utils.py:14-15 | `datetime_to_str` of a valid date parses back to that date (the round trip with `str_to_date`) |
| `Dates.FormatParses` | utils/basic_utils.py:6-15 | every valid date formats to text that `str_to_datetime` parses to that date at midnight, and that `str_to_date` parses to that date |
| `Dates.PreviousDay` | utils/basic_utils.py:24-25 | `previous_day` succeeds exactly when the text parses to a date other than 0001-01-01; the result is a valid date whose next day is the parsed date, one ordinal lower (across month, year and leap-day boundaries) |
| `Dates.Ordinal` | utils/basic_utils.py:19 | the day count behind `end_date - start_date`: every date from day 1 of a month on has ordinal at least 1, day 1 being 0001-01-01 |
| `Dates.OrdinalBounds` | utils/basic_utils.py:19 | every valid date's ordinal lies between that of 0001-01-01 (1) and that of 9999-12-31 |
| `Dates.PrevDay` | utils/basic_utils.py:25 | `d - timedelta(days=1)`: any day it gives is before `d`, and it fails only in year 1 |
| `Dates.Format` | utils/basic_utils.py:15 | `strftime('%Y-%m-%d')` and `str(date)`: ten characters with `-` at positions 4 and 7 (`FormatParses` gives the round trip) |
| `Dates.DateRangeTexts` | utils/basic_utils.py:18-21 | a non-empty range starts with the text of the start date and ends with the text of the end date |
| `Dates.PrevDayFacts` | utils/basic_utils.py:25 | subtracting one day fails only at 0001-01-01; otherwise it gives a valid date, one ordinal lower, whose next day is the original |
| `Dates.NextDayFacts` | utils/basic_utils.py:20 | adding one day raises the ordinal by exactly one and keeps a date valid, except after 9999-12-31 |
| `Dates.BeforeIffOrdinal` | utils/basic_utils.py:19 | Python's date comparison agrees with the ordinal order, and equal ordinals mean equal dates |
| `Dates.AddDaysFacts` | utils/basic_utils.py:20 | `start + timedelta(days=k)` is a valid date exactly k ordinals after `start` while it stays within the calendar |
| `Dates.DateRange` | utils/basic_utils.py:18-21 | the range has (end - start) in days + 1 elements, and none when end is before start |
| `Dates.DateRangeAt` | utils/basic_utils.py:20 | element k is the text of `start + k days`, equals `datetime_to_str` of that day, and parses back to it |
| `Dates.DateRangeEnds` | utils/basic_utils.py:18-21 | for start <= end the range has end - start + 1 elements, starts with the text of `start` and ends with the text of `end` |
| `Dates.DateRangeConsecutive` | utils/basic_utils.py:20 | each element of the range is the calendar day after the one before it |
| `Dates.DateRangeAscending` | utils/basic_utils.py:20 | the dates of the range strictly ascend, so no day appears twice |
| `Dates.LeapDayRange` | utils/basic_utils.py:18-21 | from 2024-02-28 to 2024-03-01 the range is the three texts through the leap day |
| `Validation.ValidateChoice` | apps/currency/serializers.py:9-10 | a currency is accepted exactly when it is one of the choices, and is then returned unchanged |
| `Validation.ValidateFromDate` | apps/currency/serializers.py:14-18 | a from-date is refused exactly when it is after today ("Incorrect from date"); otherwise it is returned unchanged |
| `Validation.ValidateToDate` | apps/currency/serializers.py:20-24 | a to-date is refused exactly when it is after today ("Incorrect to date"); otherwise it is returned unchanged |
| `Validation.ValidateAttrs` | apps/currency/serializers.py:26-33 | the attributes pass exactly when from-date <= to-date and the currencies differ; from-date after to-date is refused first; passing attributes come back unchanged |
| `Validation.IsValid` | apps/currency/serializers.py:8-33 | `is_valid()`: an accepted request is returned unchanged; a refused one carries at least one error, and either only field errors or the one whole-object error |
| `Validation.IsValidIff` | apps/currency/serializers.py:8-33 | a request is accepted exactly when both currencies are choices, neither date is after today, from-date <= to-date (equal dates pass) and the currencies differ; an accepted request is returned unchanged |
| `Validation.AcceptedWindow` | apps/currency/serializers.py:14-33 | an accepted request's window ends no later than today and has at least one day |
| `Validation.FromAfterToRefused` | apps/currency/serializers.py:27-28 | a from-date after the to-date is refused whatever the other fields are |
| `EcbClient.SeriesUrl` | utils/ecb_client.py:47-58 | the URL is the base URL, then `D.`, then the currency, then `.EUR.SP00.A`; the currency can be read back from between the fixed parts |
| `EcbClient.LegQueries` | utils/ecb_client.py:144-158 | one query in direct mode and two in triangulated mode |
| `EcbClient.First` | utils/ecb_client.py:62-64 | `exr_rates[str(index)][0]` exists exactly when the key is present and its observation is not empty, and is then that first element |
| `EcbClient.RateFromObservations` | utils/ecb_client.py:60-64 | a non-empty second map gives second / primary; otherwise the raw value when the from-currency is EUR, and 1 / value when not; a missing key or empty observation is a lookup error; a zero divisor raises |
| `EcbClient.Truthy` | utils/ecb_client.py:75 | a `requests` response is truthy unless its status is 400-599, so every 2xx and 3xx response is truthy |
| `EcbClient.Usable` | utils/ecb_client.py:75 | `response and response.content`: a status-200 response with content passes it |
| `EcbClient.Succeeded` | utils/ecb_client.py:149 | `response and response.status_code == 200` holds exactly for a response with status 200 |
| `EcbClient.DayAvailable` | utils/ecb_client.py:75 | a day is usable for backfill exactly when every one of its one-day leg queries came back truthy and with content |
| `EcbClient.DayRate` | utils/ecb_client.py:76-94 | a usable day's rate is a lookup error without observation 0 of the primary leg. In direct mode it is the raw value when the from-currency is EUR, and otherwise its inverse, raising on a zero value. In triangulated mode: a non-empty to-leg without observation 0 is a lookup error; with both observations 0 the rate is to over from; an empty to-leg gives 1 / from; a zero from-value raises |
| `EcbClient.Backfill` | utils/ecb_client.py:66-96 | `_get_previous_day_exchange_rate`: unparsable text raises; a walk that does not raise yields the rate of an earlier day within the recursion bound whose legs all came back |
| `EcbClient.BackfillFrom` | utils/ecb_client.py:66-96 | without recursion budget, or from 0001-01-01, the walk raises; otherwise a result that is not an exception is the rate of an earlier day within the bound whose legs all came back |
| `EcbClient.StopDayWithin` | utils/ecb_client.py:66-96 | the walk from a valid date stops, if at all, at a valid day among the `fuel` days before it |
| `EcbClient.DayStep` | utils/ecb_client.py:117-130 | one loop iteration: only an observed day or the first day can fail to give a rate; an unobserved first day that does not raise gets the rate of an earlier day whose legs all came back |
| `EcbClient.DateRangeOf` | utils/ecb_client.py:20-24 | `_date_range`: it raises unless both client dates parse; a non-empty range starts with the client's from-date text and ends with its to-date text |
| `EcbClient.Series` | utils/ecb_client.py:98-140 | reads the dates and observations out of the responses as lines 103-112 do (`InputsOf`), then resolves the window: a failing window raises; a returned series has one entry per day of the window, dated in order, from the from-date to the to-date |
| `EcbClient.DailyExchangeRates` | utils/ecb_client.py:142-160 | the result is `[]` unless every query of the main window returned status 200; a non-empty result runs from the from-date to the to-date |
| `EcbClient.IndexOf` | utils/ecb_client.py:119 | `list.index`: the first position at which the day occurs |
| `EcbClient.Resolve` | utils/ecb_client.py:114-138 | after n days, unless a day raised, there are n entries and each carries the range's day at its position |
| `EcbClient.ResolveStep` | utils/ecb_client.py:115-138 | a day handled without an escaping exception appends exactly one entry for that day |
| `EcbClient.ResolveThrowsOnward` | utils/ecb_client.py:115-138 | once a day raises, the whole loop raises |
| `EcbClient.ResolveDays` | utils/ecb_client.py:114-140 | the loop appends one entry per day as `Resolve` specifies, and stops at the first exception it does not catch |
| `EcbClient.ExchangeRatesData` | utils/ecb_client.py:98-140 | `_get_exchange_rates_data_from_api` reads the dates and observations from the responses, expands the window and resolves it |
| `EcbClient.GetDailyExchangeRates` | utils/ecb_client.py:142-160 | `get_daily_exchange_rates` chooses direct or triangulated mode, queries the main window and resolves it only when every query returned status 200 |
| `EcbProperties.SeriesUrlInjective` | utils/ecb_client.py:47-58 | different currencies name different series |
| `EcbProperties.LegSelection` | utils/ecb_client.py:51-58 | direct mode holds exactly when either side is EUR; each query asks for the requested window and names a side of the pair, never the EUR series; in triangulated mode the from-side is queried first |
| `EcbProperties.DirectRateIsCrossRate` | utils/ecb_client.py:64 | in direct mode the formula is the cross rate of the two sides' quotes against EUR, with EUR's own quote 1 |
| `EcbProperties.TriangulatedRateIsCrossRate` | utils/ecb_client.py:61-62 | with both legs observed, the rate is the to-side quote over the from-side quote |
| `EcbProperties.EmptySecondLegFallsBack` | utils/ecb_client.py:61-64 | an empty second-leg map makes a triangulated pair use the direct formula, 1 / from-side value |
| `EcbProperties.SwappedPairInverts` | utils/ecb_client.py:60-64 | swapping the pair (and, when triangulating, its legs) gives the inverse rate |
| `EcbProperties.BackfillOfText` | utils/ecb_client.py:66-68 | the walk back from a valid date's text is the walk from that date; from 0001-01-01 it raises |
| `EcbClient.StopDay` | utils/ecb_client.py:66-96 | the walk back stops only at a day whose one-day queries all come back with content |
| `EcbProperties.StopDayNearest` | utils/ecb_client.py:66-96 | walking back one day at a time, the walk stops at the nearest earlier accepted day when that day lies within the recursion bound |
| `EcbProperties.StopDayNone` | utils/ecb_client.py:66-96 | when no day within the recursion bound is accepted, the walk stops nowhere |
| `EcbProperties.BackfillFindsNearest` | utils/ecb_client.py:66-96 | when the nearest earlier day whose one-day queries all come back lies within the recursion bound, the walk yields observation 0 of that day |
| `EcbProperties.NewYearBackfill` | utils/ecb_client.py:66-96 | from 2024-01-01, with 2023-12-30 and 2023-12-31 unavailable and 2023-12-29 available, the walk crosses the year end and yields the rate of 2023-12-29 |
| `EcbProperties.BackfillExhausted` | utils/ecb_client.py:66-96 | when none of the bounded number of earlier days comes back, the walk raises |
| `EcbProperties.ResolveAt` | utils/ecb_client.py:115-138 | each entry's rate is what its day's step gave against the entries before it, with a lookup error recorded as 0 |
| `EcbProperties.ResolveThrowsIff` | utils/ecb_client.py:115-138 | the loop raises exactly when some day raises an exception other than `IndexError`/`KeyError`; a lookup error never stops later days |
| `EcbProperties.DirectObservedDay` | utils/ecb_client.py:118-122 | an observed day in direct mode gets the raw observation at its position in the primary date list when the from-currency is EUR, its inverse otherwise, and 0 when that position has no observation |
| `EcbProperties.TriangulatedObservedDay` | utils/ecb_client.py:118-122 | an observed day with a non-empty second leg gets second / primary, both at the day's position in the primary date list, and 0 when either leg lacks that position |
| `EcbProperties.CarryForward` | utils/ecb_client.py:124-126 | a later day without an observation copies the previous entry's rate, the 0 sentinel included |
| `EcbProperties.FirstDayBackfill` | utils/ecb_client.py:128-130 | an unobserved first day gets the rate of the walk back, or 0 after a lookup error |
| `EcbProperties.SeriesCoversWindow` | utils/ecb_client.py:114-138 | for a window with from <= to, the series has one entry per calendar day, in order, from the from-date to the to-date |
| `EcbProperties.EmptyResultIff` | utils/ecb_client.py:142-160 | for a valid window, the result is `[]` exactly when some query of the main window did not return status 200 |
| `EcbProperties.ClientFor` | apps/currency/views.py:20 | `EuropeanCentralBankClient(**serializer.data)`: the client keeps the request's currencies, and its date texts parse back to the request's dates |
| `EcbProperties.AcceptedRequestWindow` | apps/currency/views.py:17-21 | an accepted request hands the client a window it can expand, with at least one day, and two different currencies |
| `EcbProperties.WeekendExample` | utils/ecb_client.py:114-138 | a Friday observation of 1.10 for USD to EUR gives 1/1.10 on Friday, Saturday and Sunday |
| `EcbProperties.TriangulationExample` | utils/ecb_client.py:118-122 | USD 1.10 and JPY 160.0 against EUR give a USD to JPY rate of 160.0 / 1.10 |

## Left out

- The HTTP call (`requests.get`) is left out. The upstream is the parameter `fetch`. `fetch` may return `None`, the value of `_get_request` when its `except requests.JSONDecodeError` branch runs. `requests.get` does not decode the body, so in practice that branch does not fire.
- Other exceptions that `requests.get` raises (connection errors, timeouts) escape `_get_request` uncaught (utils/ecb_client.py:34-39). `fetch` cannot express them, so the model has no such failure.
- JSON decoding and the navigation of the JSON envelope are left out. A response's content is given already decoded: a date list and an observation map keyed by position. A `KeyError` from a malformed envelope outside the per-day loop is not modelled. A status-200 body that is not JSON makes `response.json()` (utils/ecb_client.py:76, 88, 106, 111) raise `JSONDecodeError`. That exception is a `ValueError`, not an `IndexError` or `KeyError`, so it escapes uncaught and aborts the whole request. The model has no such failure.
- Floating point is left out. Rates are `real`, so IEEE rounding is absent.
- Division by a zero observation is modelled as the uncaught `ZeroDivisionError` it is (`Fatal`). There is no positivity precondition.
- The walk back has no bound in the source. `fuel` stands for the interpreter's recursion limit. Running out of it raises, as `RecursionError` does.
- BackfillFrom: each recursive step of the source formats the earlier day and parses it again. The model parses only the first day and walks on dates. `FormatParses` proves that the skipped round trip is the identity for valid dates.
- Dates.ParseDateTime: accepts only the zero-padded ten-character form written with ASCII digits. `strptime` with `%Y-%m-%d` also accepts one-digit months and days, a space before a one-digit day, and non-ASCII decimal digits (such as Arabic-Indic ones) wherever its pattern matches `\d`, for example in the year and in the day's second digit. Those forms are refused by the model. The client's own dates come from ISO formatting and `strftime`, which produce only the modelled form.
- Dates.ParseDate: inherits the refusals of `Dates.ParseDateTime` (one-digit months and days, a space before a one-digit day, non-ASCII decimal digits). For those texts the model gives `None` where `str_to_date` returns a date.
- Dates.PreviousDay: inherits the refusals of `Dates.ParseDateTime`. For those texts the model gives `None` where `previous_day` parses the text and steps back one day.
- Dates.Format, Dates.DatetimeToStr: always pad the year to four digits. For years below 1000, the platform's `strftime` may not pad. Such dates are not modelled separately.
- `datetime.now()` is not modelled. The validator takes today's date as a parameter, and time zones are not modelled.
- The contents of `CURRENCIES_CHOICES` are not shown (`apps/currency/choices.py` is not part of this model). The choices are a parameter set.
- The DRF field parsing of the request body is left out. The model's request already holds dates.
- The Django and DRF plumbing is left out: `apps/currency/views.py` (status codes, the error body for an empty result), `apps/currency/urls.py` and the JSON and CSV renderers.
- Concurrency is left out. The service runs one request at a time, synchronously.
