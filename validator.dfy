/**
 * The handler's validation chain (index.js:27-136): guards tested in a fixed
 * order, the first one that fails deciding the single rejection of the 400
 * answer.
 *
 * It has two stages. `Decode` runs the presence and type checks on the raw
 * body and yields a typed `Loan`. `CheckRules` then walks the table of range
 * and business rules (`Broken`, `RuleRejection`) in the order the handler
 * tests them and stops at the first rule the loan breaks.
 */
module Validator {
  import opened Wrappers
  import opened MortgageTypes

  /** Some field is absent from the body (`=== undefined`); `null` counts as present. */
  predicate AnyMissing(req: Request)
  {
    || req.propertyPrice.Undefined?
    || req.downPayment.Undefined?
    || req.annualInterestRate.Undefined?
    || req.amortizationPeriod.Undefined?
    || req.paymentSchedule.Undefined?
  }

  /** The four numeric fields all have `typeof` "number". */
  predicate AllNumbers(req: Request)
  {
    && req.propertyPrice.Number?
    && req.downPayment.Number?
    && req.annualInterestRate.Number?
    && req.amortizationPeriod.Number?
  }

  /**
   * Presence and type checks (index.js:27-52). Missing fields are reported
   * before wrong types, and wrong numeric types before a non-string schedule.
   * A decoded loan is exactly the body it came from.
   */
  function Decode(req: Request): (r: Result<Loan, Rejection>)
    ensures r == Failure(MissingFields) <==> AnyMissing(req)
    ensures r == Failure(NotNumbers) <==> !AnyMissing(req) && !AllNumbers(req)
    ensures r == Failure(ScheduleNotString)
        <==> !AnyMissing(req) && AllNumbers(req) && !req.paymentSchedule.Text?
    ensures r.Success? <==> AllNumbers(req) && req.paymentSchedule.Text?
    ensures r.Success? ==> req == RequestOf(r.value)
  {
    if AnyMissing(req) then Failure(MissingFields)
    else if !AllNumbers(req) then Failure(NotNumbers)
    else if !req.paymentSchedule.Text? then Failure(ScheduleNotString)
    else Success(Loan(req.propertyPrice.n, req.downPayment.n, req.annualInterestRate.n,
                      req.amortizationPeriod.n, req.paymentSchedule.s))
  }

  /** The number of guards after the type checks (index.js:54-136). */
  const RuleCount: nat := 11

  /** The rejection of guard `i`, guards numbered in the order the handler tests them. */
  function RuleRejection(i: nat): Rejection
    requires i < RuleCount
  {
    if i == 0 then PriceNotPositive
    else if i == 1 then DownPaymentNotPositive
    else if i == 2 then DownPaymentAbovePrice
    else if i == 3 then RateOutOfRange
    else if i == 4 then UnknownSchedule
    else if i == 5 then PeriodOutOfRange
    else if i == 6 then InsuredPeriodTooLong
    else if i == 7 then PeriodNotListed
    else if i == 8 then BelowFivePercent
    else if i == 9 then BelowMiddleBandMinimum
    else BelowTwentyPercent
  }

  /**
   * Whether `loan` breaks guard `i`. Guard 9 is the nested middle-band test of
   * index.js:119-128 with its two conditions joined.
   */
  predicate Broken(i: nat, loan: Loan)
    requires i < RuleCount
  {
    var price, down := loan.propertyPrice, loan.downPayment;
    var rate, years := loan.annualInterestRate, loan.amortizationPeriod;
    if i == 0 then price <= 0.0
    else if i == 1 then down <= 0.0
    else if i == 2 then down > price
    else if i == 3 then rate <= 0.0 || rate > 100.0
    else if i == 4 then loan.paymentSchedule !in AllowedSchedules
    else if i == 5 then years < 5.0 || years > 30.0
    else if i == 6 then down < price * 0.2 && years > 25.0
    else if i == 7 then years !in AmortizationPeriods
    else if i == 8 then price <= 500000.0 && down < price * 0.05
    else if i == 9 then
      price > 500000.0 && price < 1000000.0
      && down < 500000.0 * 0.05 + (price - 500000.0) * 0.1
    else price >= 1000000.0 && down < price * 0.2
  }

  /** Guard `i` is the first one, counting from `from`, that `loan` breaks. */
  predicate FirstBroken(loan: Loan, from: nat, i: nat)
  {
    from <= i < RuleCount && Broken(i, loan)
    && forall j :: from <= j < i ==> !Broken(j, loan)
  }

  /** Runs the guards `from`, `from + 1`, ... in order and stops at the first failure. */
  function CheckFrom(loan: Loan, from: nat): Result<Loan, Rejection>
    requires from <= RuleCount
    decreases RuleCount - from
  {
    if from == RuleCount then Success(loan)
    else if Broken(from, loan) then Failure(RuleRejection(from))
    else CheckFrom(loan, from + 1)
  }

  /** The range and business rules of index.js:54-136, applied to a typed loan. */
  function CheckRules(loan: Loan): (r: Result<Loan, Rejection>)
    ensures r.Success? <==> Admissible(loan)
    ensures r.Success? ==> r.value == loan
  {
    CheckFromPasses(loan, 0);
    AdmissibleIffNoRuleBroken(loan);
    CheckFrom(loan, 0)
  }

  /** The full chain: presence, types, then the rules. */
  function Validate(req: Request): (r: Result<Loan, Rejection>)
    ensures r.Success? ==> req == RequestOf(r.value) && Admissible(r.value)
    ensures r.Failure? ==> !(exists loan :: req == RequestOf(loan) && Admissible(loan))
  {
    match Decode(req)
    case Failure(e) => Failure(e)
    case Success(loan) => CheckRules(loan)
  }

  // ---------------------------------------------------------------------------
  // The declarative reading of the rules

  /**
   * The least down payment a price allows: 5% up to $500K, 5% of the first
   * $500K plus 10% of the rest below $1M, and 20% from $1M up.
   */
  function MinimumDownPayment(price: real): (m: real)
    ensures price >= 0.0 ==> 0.05 * price <= m <= 0.2 * price
    ensures price > 0.0 ==> (m == 0.2 * price <==> price >= 1000000.0)
  {
    if price <= 500000.0 then 0.05 * price
    else if price < 1000000.0 then 0.05 * 500000.0 + 0.1 * (price - 500000.0)
    else 0.2 * price
  }

  /**
   * What every accepted loan satisfies: a positive down payment no larger than
   * the price, a rate in (0, 100], a known schedule, an enumerated period, at
   * most 25 years for an insured (under 20% down) loan, and the minimum down
   * payment of the price's band.
   */
  predicate Admissible(loan: Loan)
  {
    var price, down := loan.propertyPrice, loan.downPayment;
    && 0.0 < down <= price
    && 0.0 < loan.annualInterestRate <= 100.0
    && loan.paymentSchedule in AllowedSchedules
    && loan.amortizationPeriod in AmortizationPeriods
    && (down < 0.2 * price ==> loan.amortizationPeriod <= 25.0)
    && down >= MinimumDownPayment(price)
  }

  // ---------------------------------------------------------------------------
  // Lemmas

  /** Decoding the body built from a loan gives that loan back. */
  lemma DecodeRoundTrip(loan: Loan)
    ensures Decode(RequestOf(loan)) == Success(loan)
  {
  }

  /** Each guard has its own rejection, so a rejection names its guard. */
  lemma RuleRejectionsDistinct(i: nat, j: nat)
    requires i < RuleCount && j < RuleCount
    ensures RuleRejection(i) == RuleRejection(j) <==> i == j
  {
  }

  /** Walking the guards from `from` succeeds exactly when none of them is broken. */
  lemma {:induction false} CheckFromPasses(loan: Loan, from: nat)
    requires from <= RuleCount
    ensures CheckFrom(loan, from).Success?
        <==> forall j :: from <= j < RuleCount ==> !Broken(j, loan)
    ensures CheckFrom(loan, from).Success? ==> CheckFrom(loan, from).value == loan
    decreases RuleCount - from
  {
    if from < RuleCount {
      CheckFromPasses(loan, from + 1);
    }
  }

  /** A failure of the walk from `from` carries the rejection of the first broken guard. */
  lemma {:induction false} CheckFromFails(loan: Loan, from: nat)
    requires from <= RuleCount
    ensures CheckFrom(loan, from).Failure? ==>
      exists i :: FirstBroken(loan, from, i) && CheckFrom(loan, from).error == RuleRejection(i)
    decreases RuleCount - from
  {
    if from < RuleCount && !Broken(from, loan) {
      CheckFromFails(loan, from + 1);
      if CheckFrom(loan, from).Failure? {
        var i :| FirstBroken(loan, from + 1, i) && CheckFrom(loan, from + 1).error == RuleRejection(i);
        assert FirstBroken(loan, from, i);
      }
    } else if from < RuleCount {
      assert FirstBroken(loan, from, from);
    }
  }

  /** When guards `from` .. `i - 1` pass and guard `i` fails, the walk reports guard `i`. */
  lemma {:induction false} CheckFromReachesFirst(loan: Loan, from: nat, i: nat)
    requires FirstBroken(loan, from, i)
    ensures CheckFrom(loan, from) == Failure(RuleRejection(i))
    decreases i - from
  {
    if from < i {
      assert !Broken(from, loan);
      CheckFromReachesFirst(loan, from + 1, i);
    }
  }

  /**
   * The ordering theorem: the rules reject a loan with the rejection of guard
   * `i` exactly when guard `i` is the first one the loan breaks.
   */
  lemma CheckRulesReports(loan: Loan, i: nat)
    requires i < RuleCount
    ensures CheckRules(loan) == Failure(RuleRejection(i)) <==> FirstBroken(loan, 0, i)
  {
    if FirstBroken(loan, 0, i) {
      CheckFromReachesFirst(loan, 0, i);
    }
    if CheckRules(loan) == Failure(RuleRejection(i)) {
      CheckFromFails(loan, 0);
      var k :| FirstBroken(loan, 0, k) && CheckFrom(loan, 0).error == RuleRejection(k);
      RuleRejectionsDistinct(i, k);
    }
  }

  /** The declarative reading agrees with the guard table: admissible means no guard is broken. */
  lemma AdmissibleIffNoRuleBroken(loan: Loan)
    ensures Admissible(loan) <==> forall j :: 0 <= j < RuleCount ==> !Broken(j, loan)
  {
    if forall j :: 0 <= j < RuleCount ==> !Broken(j, loan) {
      assert !Broken(0, loan) && !Broken(1, loan) && !Broken(2, loan) && !Broken(3, loan);
      assert !Broken(4, loan) && !Broken(6, loan) && !Broken(7, loan);
      assert !Broken(8, loan) && !Broken(9, loan) && !Broken(10, loan);
    }
  }

  /** The body of a loan is accepted, unchanged, exactly when the loan is admissible. */
  lemma ValidateAcceptsAdmissible(loan: Loan)
    ensures Validate(RequestOf(loan)).Success? <==> Admissible(loan)
    ensures Admissible(loan) ==> Validate(RequestOf(loan)) == Success(loan)
  {
    DecodeRoundTrip(loan);
  }
}
