/** The request check of the daily-rate endpoint (`GetDailyCurrencyExchangeRateSerializer`):
    both currencies from the enumerated choices, neither date after today, the
    from-date not after the to-date, and two different currencies. Today's date
    and the set of choices are parameters. */
module Validation {
  import opened Dates

  /** The four fields of a request, after the field types have parsed them. */
  datatype Request = Request(fromCurrency: string, toCurrency: string, fromDate: Date, toDate: Date)

  /** An error tied to one field, or one raised by the whole-object check. */
  datatype Error = FieldError(field: string, message: string) | NonFieldError(message: string)

  datatype Result<T> = Ok(value: T) | Invalid(errors: seq<Error>)

  const IncorrectFromDate := "Incorrect from date"
  const IncorrectToDate := "Incorrect to date"
  const FromAfterTo := "The from date cannot be after the to date."
  const SameCurrency := "The from currency cannot be the same as to currency."

  /** A `ChoiceField`: the value must be one of the choices. */
  function ValidateChoice(field: string, value: string, choices: set<string>): (r: Result<string>)
    ensures r.Ok? <==> value in choices
    ensures r.Ok? ==> r.value == value
    ensures r.Invalid? ==> |r.errors| == 1 && r.errors[0].FieldError? && r.errors[0].field == field
  {
    if value in choices then Ok(value)
    else Invalid([FieldError(field, "\"" + value + "\" is not a valid choice.")])
  }

  /** `validate_from_date`: a from-date after today is refused; any other is returned as is. */
  function ValidateFromDate(value: Date, today: Date): (r: Result<Date>)
    ensures r.Ok? <==> !Before(today, value)
    ensures r.Ok? ==> r.value == value
    ensures r.Invalid? ==> r.errors == [FieldError("from_date", IncorrectFromDate)]
  {
    if Before(today, value) then Invalid([FieldError("from_date", IncorrectFromDate)]) else Ok(value)
  }

  /** `validate_to_date`: a to-date after today is refused; any other is returned as is. */
  function ValidateToDate(value: Date, today: Date): (r: Result<Date>)
    ensures r.Ok? <==> !Before(today, value)
    ensures r.Ok? ==> r.value == value
    ensures r.Invalid? ==> r.errors == [FieldError("to_date", IncorrectToDate)]
  {
    if Before(today, value) then Invalid([FieldError("to_date", IncorrectToDate)]) else Ok(value)
  }

  /** `validate`: the from-date after the to-date is refused first, then equal
      currencies; attributes that pass are returned unchanged. */
  function ValidateAttrs(attrs: Request): (r: Result<Request>)
    ensures r.Ok? <==> !Before(attrs.toDate, attrs.fromDate) && attrs.fromCurrency != attrs.toCurrency
    ensures r.Ok? ==> r.value == attrs
    ensures Before(attrs.toDate, attrs.fromDate) ==> r == Invalid([NonFieldError(FromAfterTo)])
    ensures !Before(attrs.toDate, attrs.fromDate) && attrs.fromCurrency == attrs.toCurrency ==> r == Invalid([NonFieldError(SameCurrency)])
  {
    if Before(attrs.toDate, attrs.fromDate) then Invalid([NonFieldError(FromAfterTo)])
    else if attrs.fromCurrency == attrs.toCurrency then Invalid([NonFieldError(SameCurrency)])
    else Ok(attrs)
  }

  function ErrorsOf<T>(r: Result<T>): seq<Error> {
    if r.Invalid? then r.errors else []
  }

  /** Errors that are all tied to a field. */
  predicate FieldErrorsOnly(es: seq<Error>) {
    forall i | 0 <= i < |es| :: es[i].FieldError?
  }

  lemma FieldErrorsJoin(a: seq<Error>, b: seq<Error>)
    requires FieldErrorsOnly(a) && FieldErrorsOnly(b)
    ensures FieldErrorsOnly(a + b)
  {
    forall i | 0 <= i < |a + b|
      ensures (a + b)[i].FieldError?
    {
      if i >= |a| {
        assert (a + b)[i] == b[i - |a|];
      }
    }
  }

  /** `is_valid()`: every field is checked in declaration order and their errors
      are collected; the whole-object check runs only when no field failed. */
  function IsValid(req: Request, today: Date, choices: set<string>): (r: Result<Request>)
    ensures r.Ok? ==> r.value == req
    ensures r.Invalid? ==> r.errors != []
    ensures r.Invalid? ==> |r.errors| == 1 || FieldErrorsOnly(r.errors)
  {
    var fromCurrency := ErrorsOf(ValidateChoice("from_currency", req.fromCurrency, choices));
    var toCurrency := ErrorsOf(ValidateChoice("to_currency", req.toCurrency, choices));
    var fromDate := ErrorsOf(ValidateFromDate(req.fromDate, today));
    var toDate := ErrorsOf(ValidateToDate(req.toDate, today));
    var fieldErrors := fromCurrency + toCurrency + fromDate + toDate;
    assert FieldErrorsOnly(fieldErrors) by {
      FieldErrorsJoin(fromCurrency, toCurrency);
      FieldErrorsJoin(fromCurrency + toCurrency, fromDate);
      FieldErrorsJoin(fromCurrency + toCurrency + fromDate, toDate);
    }
    if fieldErrors != [] then Invalid(fieldErrors) else ValidateAttrs(req)
  }

  /** A request is accepted exactly when both currencies are choices, neither
      date is after today, the from-date is not after the to-date (equal dates
      pass) and the currencies differ; an accepted request comes back unchanged. */
  lemma IsValidIff(req: Request, today: Date, choices: set<string>)
    ensures IsValid(req, today, choices).Ok? <==>
      && req.fromCurrency in choices && req.toCurrency in choices
      && !Before(today, req.fromDate) && !Before(today, req.toDate)
      && !Before(req.toDate, req.fromDate)
      && req.fromCurrency != req.toCurrency
    ensures IsValid(req, today, choices).Ok? ==> IsValid(req, today, choices).value == req
  {
    var a := ValidateChoice("from_currency", req.fromCurrency, choices);
    var b := ValidateChoice("to_currency", req.toCurrency, choices);
    var c := ValidateFromDate(req.fromDate, today);
    var d := ValidateToDate(req.toDate, today);
    assert ErrorsOf(a) + ErrorsOf(b) + ErrorsOf(c) + ErrorsOf(d) == [] <==> a.Ok? && b.Ok? && c.Ok? && d.Ok? by {
      if a.Invalid? { assert (ErrorsOf(a) + ErrorsOf(b) + ErrorsOf(c) + ErrorsOf(d))[0] == a.errors[0]; }
      if b.Invalid? { assert |ErrorsOf(a) + ErrorsOf(b) + ErrorsOf(c) + ErrorsOf(d)| >= |b.errors|; }
    }
  }

  /** An accepted request names a window of days that ends no later than today,
      so its range of days is not empty. */
  lemma AcceptedWindow(req: Request, today: Date, choices: set<string>)
    requires Valid(req.fromDate) && Valid(req.toDate) && Valid(today)
    requires IsValid(req, today, choices).Ok?
    ensures Ordinal(req.fromDate) <= Ordinal(req.toDate) <= Ordinal(today)
    ensures |DateRange(req.fromDate, req.toDate)| == Ordinal(req.toDate) - Ordinal(req.fromDate) + 1 >= 1
  {
    IsValidIff(req, today, choices);
    BeforeIffOrdinal(req.toDate, req.fromDate);
    BeforeIffOrdinal(today, req.toDate);
  }

  /** The from-date after the to-date is refused even when every field passes. */
  lemma FromAfterToRefused(req: Request, today: Date, choices: set<string>)
    requires Before(req.toDate, req.fromDate)
    ensures IsValid(req, today, choices).Invalid?
  {
    IsValidIff(req, today, choices);
  }
}
