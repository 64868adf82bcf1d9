/**
 * The `POST /api/calculate-mortgage` handler (index.js:18-205) as one pure
 * function: the validation chain, then the calculation, then the JSON body of
 * the answer, `{ paymentSchedule, paymentAmount }` or `{ error }`.
 */
module MortgageApi {
  import opened Wrappers
  import opened MortgageTypes
  import opened Amortization
  import opened Validator
  import opened Calculator

  /** The handler's decision: the payment, or the rejection of its first failing guard. */
  function Handle(req: Request): (r: Result<Payment, Rejection>)
    ensures r.Success? <==> Validate(req).Success?
    ensures r.Success? ==> Admissible(Validate(req).value)
    ensures r.Failure? ==> r == Failure(Validate(req).error)
    ensures r.Failure? ==> r.error != UnrecognizedSchedule
  {
    match Validate(req)
    case Failure(e) => Failure(e)
    case Success(loan) =>
      AdmissibleIsComputable(loan);
      SchedulePayment(loan)
  }

  /**
   * The answer as sent. A 400 answer carries the message of the guard
   * validation stopped at, which is never the defensive schedule message; a
   * 200 answer echoes the schedule of an admissible loan. Since messages are
   * distinct (`MessagesDistinct`), the text names its guard.
   */
  function CalculateMortgage(req: Request): (r: Result<Payment, string>)
    ensures r.Failure? <==> Validate(req).Failure?
    ensures r.Failure? ==> r.error == Validate(req).error.Message()
    ensures r.Failure? ==> r.error != UnrecognizedSchedule.Message()
    ensures r.Success? ==> var loan := Validate(req).value;
      Admissible(loan) && r.value.paymentSchedule == loan.paymentSchedule
    ensures r.Success? ==> r == Success(Handle(req).value)
  {
    match Handle(req)
    case Success(p) => Success(p)
    case Failure(e) =>
      MessagesDistinct(e, UnrecognizedSchedule);
      Failure(e.Message())
  }

  /**
   * Presence is checked first: a body missing any of the five fields gets
   * "Missing required fields" whatever the other fields hold, and no other
   * body gets that rejection.
   */
  lemma MissingFieldsFirst(req: Request)
    ensures Handle(req) == Failure(MissingFields) <==> AnyMissing(req)
    ensures AnyMissing(req) ==> CalculateMortgage(req) == Failure(MissingFields.Message())
  {
    if Decode(req).Success? {
      var loan := Decode(req).value;
      CheckFromFails(loan, 0);
    }
  }

  /**
   * The type checks come next: with every field present, the must-be-numbers
   * message is the answer exactly when one of the four numeric fields is not a
   * number, and the must-be-a-string message exactly when they all are but the
   * schedule is not a string.
   */
  lemma TypeChecksSecond(req: Request)
    ensures Handle(req) == Failure(NotNumbers) <==> !AnyMissing(req) && !AllNumbers(req)
    ensures Handle(req) == Failure(ScheduleNotString)
        <==> !AnyMissing(req) && AllNumbers(req) && !req.paymentSchedule.Text?
  {
    if Decode(req).Success? {
      CheckFromFails(Decode(req).value, 0);
    }
  }

  /** Every rejection has its own message, so the text of a 400 answer names its guard. */
  lemma MessagesDistinct(a: Rejection, b: Rejection)
    ensures a.Message() == b.Message() <==> a == b
  {
    MessageShape(a);
    MessageShape(b);
  }

  // MessageShape, MessageLength, MessageLast and RejectionOfShape exist only to
  // prove MessagesDistinct cheaply: comparing the long literals directly is
  // too costly for the verifier, while a length and a last character are not.

  /**
   * Each message is identified by its length and its last character: reading
   * them back gives the rejection.
   */
  lemma MessageShape(a: Rejection)
    ensures |a.Message()| == MessageLength(a) && a.Message()[|a.Message()| - 1] == MessageLast(a)
    ensures RejectionOfShape(MessageLength(a), MessageLast(a)) == a
  {
    match a
    case MissingFields =>
    case NotNumbers =>
    case ScheduleNotString =>
    case PriceNotPositive =>
    case DownPaymentNotPositive =>
    case DownPaymentAbovePrice =>
    case RateOutOfRange =>
    case UnknownSchedule =>
    case PeriodOutOfRange =>
    case InsuredPeriodTooLong =>
    case PeriodNotListed =>
    case BelowFivePercent =>
    case BelowMiddleBandMinimum =>
    case BelowTwentyPercent =>
    case UnrecognizedSchedule =>
  }

  function MessageLength(a: Rejection): nat
  {
    match a
    case MissingFields => 23
    case NotNumbers => 86
    case ScheduleNotString => 32
    case PriceNotPositive => 36
    case DownPaymentNotPositive => 34
    case DownPaymentAbovePrice => 55
    case RateOutOfRange => 44
    case UnknownSchedule => 85
    case PeriodOutOfRange => 52
    case InsuredPeriodTooLong => 70
    case PeriodNotListed => 83
    case BelowFivePercent => 37
    case BelowMiddleBandMinimum => 135
    case BelowTwentyPercent => 70
    case UnrecognizedSchedule => 24
  }

  function MessageLast(a: Rejection): char
  {
    match a
    case MissingFields => 's'
    case NotNumbers => 's'
    case ScheduleNotString => 'g'
    case PriceNotPositive => '0'
    case DownPaymentNotPositive => '0'
    case DownPaymentAbovePrice => 'e'
    case RateOutOfRange => '0'
    case UnknownSchedule => 'y'
    case PeriodOutOfRange => 's'
    case InsuredPeriodTooLong => 's'
    case PeriodNotListed => 's'
    case BelowFivePercent => '%'
    case BelowMiddleBandMinimum => 'K'
    case BelowTwentyPercent => 'n'
    case UnrecognizedSchedule => 'e'
  }

  /** The rejection whose message has the given length and last character. */
  function RejectionOfShape(length: nat, last: char): Rejection
  {
    if length == 23 then MissingFields
    else if length == 86 then NotNumbers
    else if length == 32 then ScheduleNotString
    else if length == 36 then PriceNotPositive
    else if length == 34 then DownPaymentNotPositive
    else if length == 55 then DownPaymentAbovePrice
    else if length == 44 then RateOutOfRange
    else if length == 85 then UnknownSchedule
    else if length == 52 then PeriodOutOfRange
    else if length == 83 then PeriodNotListed
    else if length == 37 then BelowFivePercent
    else if length == 135 then BelowMiddleBandMinimum
    else if length == 24 then UnrecognizedSchedule
    else if last == 's' then InsuredPeriodTooLong
    else BelowTwentyPercent
  }

  /**
   * A well-typed body is rejected by guard `i` exactly when `i` is the first
   * of the handler's guards it breaks.
   */
  lemma FirstBrokenGuardDecides(req: Request, i: nat)
    requires i < RuleCount
    requires Decode(req).Success?
    ensures Handle(req) == Failure(RuleRejection(i)) <==> FirstBroken(Decode(req).value, 0, i)
  {
    CheckRulesReports(Decode(req).value, i);
  }

  /**
   * The insured-loan cap runs before the enumeration: a well-typed body that
   * passes the earlier guards, has under 20% down and more than 25 years is
   * refused with the 25-year CMHC message, never the enumeration message.
   */
  lemma InsuredCapBeforeEnumeration(req: Request)
    requires Decode(req).Success?
    requires var loan := Decode(req).value;
      forall j :: 0 <= j < 6 ==> !Broken(j, loan)
    requires var loan := Decode(req).value;
      loan.downPayment < loan.propertyPrice * 0.2 && loan.amortizationPeriod > 25.0
    ensures Handle(req) == Failure(InsuredPeriodTooLong)
    ensures CalculateMortgage(req) == Failure(InsuredPeriodTooLong.Message())
  {
    var loan := Decode(req).value;
    assert Broken(6, loan);
    CheckRulesReports(loan, 6);
  }

  /**
   * Every accepted body holds a loan with 0 < downPayment <= propertyPrice,
   * 0 < annualInterestRate <= 100, an allowed schedule, an enumerated period,
   * the minimum down payment of its price band, and at least 20% down when
   * the period exceeds 25 years.
   */
  lemma AcceptedInvariants(req: Request)
    requires Handle(req).Success?
    ensures Decode(req).Success?
    ensures var loan := Decode(req).value;
      && 0.0 < loan.downPayment <= loan.propertyPrice
      && 0.0 < loan.annualInterestRate <= 100.0
      && loan.paymentSchedule in AllowedSchedules
      && loan.amortizationPeriod in AmortizationPeriods
      && loan.downPayment >= MinimumDownPayment(loan.propertyPrice)
      && (loan.amortizationPeriod > 25.0 ==> loan.downPayment >= 0.2 * loan.propertyPrice)
  {
  }

  /**
   * The payment of an accepted body: the schedule is echoed; the amount is
   * never negative and is zero only when nothing is borrowed; a monthly or
   * bi-weekly amount clears the insured principal in exactly the schedule's
   * number of periods at its own rate; and the accelerated bi-weekly amount is
   * half the monthly one.
   */
  lemma AcceptedPayment(req: Request)
    requires Handle(req).Success?
    ensures var loan, pay := Decode(req).value, Handle(req).value;
      && pay.paymentSchedule == loan.paymentSchedule
      && pay.paymentAmount >= 0.0
      && (pay.paymentAmount > 0.0 <==> loan.downPayment < loan.propertyPrice)
      && (loan.paymentSchedule == Monthly ==>
            Balance(InsuredPrincipal(loan), loan.annualInterestRate / 1200.0, pay.paymentAmount,
                    12 * WholeYears(loan.amortizationPeriod)) == 0.0)
      && (loan.paymentSchedule == BiWeekly ==>
            Balance(InsuredPrincipal(loan), loan.annualInterestRate / 2600.0, pay.paymentAmount,
                    26 * WholeYears(loan.amortizationPeriod)) == 0.0)
      && (loan.paymentSchedule == AcceleratedBiWeekly ==>
            pay.paymentAmount * 2.0 == MonthlyPayment(loan))
  {
    var loan := Decode(req).value;
    var principal := InsuredPrincipal(loan);
    assert MonthlyRate(loan.annualInterestRate) == loan.annualInterestRate / 1200.0;
    assert BiweeklyRate(loan.annualInterestRate) == loan.annualInterestRate / 2600.0;
    assert principal > 0.0 <==> loan.downPayment < loan.propertyPrice;
  }

  /**
   * Accelerated bi-weekly against monthly for the same body: both are
   * accepted or both refused alike, and when accepted the accelerated amount
   * is exactly half the monthly one.
   */
  lemma AcceleratedIsHalfMonthly(price: JsonValue, down: JsonValue, rate: JsonValue, years: JsonValue)
    ensures var monthly := Handle(Request(price, down, rate, years, Text(Monthly)));
      var accelerated := Handle(Request(price, down, rate, years, Text(AcceleratedBiWeekly)));
      && (accelerated.Success? <==> monthly.Success?)
      && (accelerated.Success? ==> accelerated.value.paymentAmount * 2.0 == monthly.value.paymentAmount)
      && (accelerated.Failure? ==> accelerated.error == monthly.error)
  {
    var m := Request(price, down, rate, years, Text(Monthly));
    var a := Request(price, down, rate, years, Text(AcceleratedBiWeekly));
    if Decode(m).Success? {
      var lm, la := Decode(m).value, Decode(a).value;
      assert la == lm.(paymentSchedule := AcceleratedBiWeekly);
      forall j | 0 <= j < RuleCount ensures Broken(j, la) == Broken(j, lm) {
      }
      SameGuardsSameVerdict(lm, la);
    }
  }

  /** Two loans that break the same guards get the same verdict from the rules. */
  lemma SameGuardsSameVerdict(a: Loan, b: Loan)
    requires forall j :: 0 <= j < RuleCount ==> Broken(j, a) == Broken(j, b)
    ensures CheckRules(a).Success? <==> CheckRules(b).Success?
    ensures CheckRules(a).Failure? ==> CheckRules(b).Failure? && CheckRules(a).error == CheckRules(b).error
  {
    CheckFromPasses(a, 0);
    CheckFromPasses(b, 0);
    if CheckRules(a).Failure? {
      CheckFromFails(a, 0);
      var i :| FirstBroken(a, 0, i) && CheckFrom(a, 0).error == RuleRejection(i);
      assert FirstBroken(b, 0, i);
      CheckFromReachesFirst(b, 0, i);
    }
  }
}
