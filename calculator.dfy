/**
 * The calculation that follows a successful validation (index.js:139-198):
 * the CMHC insurance premium rate, the insured principal, the periodic rates
 * and payment counts of the two bases, and the choice of payment by schedule.
 */
module Calculator {
  import opened Wrappers
  import opened MortgageTypes
  import opened Amortization
  import opened Validator

  /**
   * The CMHC premium rate, tested the way the handler tests it: by comparing
   * the down payment with fractions of the price. Each tier is closed below
   * and open above, and anything outside the three tiers pays no premium.
   */
  function CmhcRate(price: real, down: real): (rate: real)
    ensures rate in {0.04, 0.031, 0.028, 0.0}
    ensures rate == 0.0 <==> down < price * 0.05 || down >= price * 0.2
  {
    if down >= price * 0.05 && down < price * 0.1 then 0.04
    else if down >= price * 0.1 && down < price * 0.15 then 0.031
    else if down >= price * 0.15 && down < price * 0.2 then 0.028
    else 0.0
  }

  /** The premium tiers by down-payment ratio: closed below, open above, and 0 outside [5%, 20%). */
  function PremiumForRatio(ratio: real): real
  {
    if 0.05 <= ratio < 0.10 then 0.04
    else if 0.10 <= ratio < 0.15 then 0.031
    else if 0.15 <= ratio < 0.20 then 0.028
    else 0.0
  }

  /** Comparing the down payment with a fraction of a positive price is comparing the ratio. */
  lemma CompareRatio(price: real, down: real, share: real)
    requires price > 0.0
    ensures down >= price * share <==> down / price >= share
  {
    var ratio := down / price;
    assert down == ratio * price;
    if ratio >= share {
      ScaleMonotone(price, share, ratio);
    } else {
      ScaleMonotone(price, ratio, share);
      assert price * ratio != price * share;
    }
  }

  /** The handler's product tests select the same tier as the ratio table. */
  lemma CmhcRateByRatio(price: real, down: real)
    requires price > 0.0
    ensures CmhcRate(price, down) == PremiumForRatio(down / price)
  {
    CompareRatio(price, down, 0.05);
    CompareRatio(price, down, 0.1);
    CompareRatio(price, down, 0.15);
    CompareRatio(price, down, 0.2);
  }

  /**
   * Every admissible loan has at least 5% down, so it lands in an insured
   * tier exactly when it has less than 20% down; a 30-year or a $1M-and-up
   * loan pays no premium.
   */
  lemma AdmissiblePremium(loan: Loan)
    requires Admissible(loan)
    ensures loan.downPayment >= loan.propertyPrice * 0.05
    ensures CmhcRate(loan.propertyPrice, loan.downPayment) > 0.0
        <==> loan.downPayment < loan.propertyPrice * 0.2
    ensures loan.amortizationPeriod == 30.0 ==> CmhcRate(loan.propertyPrice, loan.downPayment) == 0.0
    ensures loan.propertyPrice >= 1000000.0 ==> CmhcRate(loan.propertyPrice, loan.downPayment) == 0.0
  {
  }

  /** The amount borrowed, with the premium financed into it (index.js:162). */
  function InsuredPrincipal(loan: Loan): (principal: real)
    ensures var loaned := loan.propertyPrice - loan.downPayment;
      loaned >= 0.0 ==>
        && loaned <= principal <= 1.04 * loaned
        && (principal == loaned <==> loaned == 0.0 || CmhcRate(loan.propertyPrice, loan.downPayment) == 0.0)
  {
    var loaned := loan.propertyPrice - loan.downPayment;
    var premium := CmhcRate(loan.propertyPrice, loan.downPayment);
    PrincipalBounds(loaned, premium);
    loaned * (premium + 1.0)
  }

  lemma PrincipalBounds(loaned: real, premium: real)
    requires 0.0 <= premium <= 0.04
    ensures loaned >= 0.0 ==> loaned <= loaned * (premium + 1.0) <= 1.04 * loaned
    ensures loaned * (premium + 1.0) == loaned <==> loaned == 0.0 || premium == 0.0
  {
    assert loaned * (premium + 1.0) == loaned + loaned * premium;
    if loaned > 0.0 {
      SignOfProduct(premium, loaned);
    } else if loaned < 0.0 {
      SignOfProduct(premium, -loaned);
    }
  }

  /** The monthly rate: the annual percentage over 100, over 12 (index.js:165). */
  function MonthlyRate(annualRate: real): (rate: real)
    ensures rate * 1200.0 == annualRate
    ensures 0.0 < annualRate <= 100.0 ==> 0.0 < rate <= 1.0 / 12.0
  {
    annualRate / 100.0 / 12.0
  }

  /** The bi-weekly rate: the annual percentage over 100, over 26 (index.js:166). */
  function BiweeklyRate(annualRate: real): (rate: real)
    ensures rate * 2600.0 == annualRate
    ensures 0.0 < annualRate <= 100.0 ==> 0.0 < rate <= 1.0 / 26.0
  {
    annualRate / 100.0 / 26.0
  }

  /** An enumerated amortization period as a whole number of years. */
  function WholeYears(years: real): (y: nat)
    requires years in AmortizationPeriods
    ensures y as real == years && 5 <= y <= 30
  {
    years.Floor
  }

  /** The number of monthly payments (index.js:169). */
  function MonthlyPeriods(years: real): (n: nat)
    requires years in AmortizationPeriods
    ensures n as real == 12.0 * years && 60 <= n <= 360
  {
    WholeYears(years) * 12
  }

  /** The number of bi-weekly payments (index.js:170). */
  function BiweeklyPeriods(years: real): (n: nat)
    requires years in AmortizationPeriods
    ensures n as real == 26.0 * years && 130 <= n <= 780
  {
    WholeYears(years) * 26
  }

  /**
   * What the payment formula needs to be defined: a positive rate (otherwise
   * it divides zero by zero) and a whole, enumerated number of years.
   */
  predicate Computable(loan: Loan)
  {
    loan.annualInterestRate > 0.0 && loan.amortizationPeriod in AmortizationPeriods
  }

  /** The payment per month that clears the insured principal in 12 * years months (index.js:173-177). */
  function MonthlyPayment(loan: Loan): (pay: real)
    requires Computable(loan)
    ensures Balance(InsuredPrincipal(loan), MonthlyRate(loan.annualInterestRate), pay,
                    MonthlyPeriods(loan.amortizationPeriod)) == 0.0
    ensures pay > 0.0 <==> InsuredPrincipal(loan) > 0.0
  {
    var principal := InsuredPrincipal(loan);
    var rate := MonthlyRate(loan.annualInterestRate);
    var n := MonthlyPeriods(loan.amortizationPeriod);
    PaysOffExactly(principal, rate, n, AmortizedPayment(principal, rate, n));
    AmortizedPayment(principal, rate, n)
  }

  /**
   * The payment per fortnight that clears the insured principal in 26 * years
   * fortnights at the bi-weekly rate, computed on its own basis and not from
   * the monthly payment (index.js:180-184).
   */
  function BiweeklyPayment(loan: Loan): (pay: real)
    requires Computable(loan)
    ensures Balance(InsuredPrincipal(loan), BiweeklyRate(loan.annualInterestRate), pay,
                    BiweeklyPeriods(loan.amortizationPeriod)) == 0.0
    ensures pay > 0.0 <==> InsuredPrincipal(loan) > 0.0
  {
    var principal := InsuredPrincipal(loan);
    var rate := BiweeklyRate(loan.annualInterestRate);
    var n := BiweeklyPeriods(loan.amortizationPeriod);
    PaysOffExactly(principal, rate, n, AmortizedPayment(principal, rate, n));
    AmortizedPayment(principal, rate, n)
  }

  /**
   * The schedule selection (index.js:186-198): the monthly payment, the
   * bi-weekly payment, or half the monthly payment for accelerated bi-weekly.
   * Only a schedule outside the allowed three reaches the defensive error.
   */
  function SchedulePayment(loan: Loan): (r: Result<Payment, Rejection>)
    requires Computable(loan)
    ensures r.Success? <==> loan.paymentSchedule in AllowedSchedules
    ensures r.Failure? ==> r.error == UnrecognizedSchedule
    ensures r.Success? ==> r.value.paymentSchedule == loan.paymentSchedule
    ensures loan.paymentSchedule == Monthly ==> r == Success(Payment(Monthly, MonthlyPayment(loan)))
    ensures loan.paymentSchedule == BiWeekly ==> r == Success(Payment(BiWeekly, BiweeklyPayment(loan)))
    ensures loan.paymentSchedule == AcceleratedBiWeekly
        ==> r.Success? && r.value.paymentAmount * 2.0 == MonthlyPayment(loan)
  {
    var schedule := loan.paymentSchedule;
    if schedule == Monthly then Success(Payment(schedule, MonthlyPayment(loan)))
    else if schedule == BiWeekly then Success(Payment(schedule, BiweeklyPayment(loan)))
    else if schedule == AcceleratedBiWeekly then Success(Payment(schedule, MonthlyPayment(loan) / 2.0))
    else Failure(UnrecognizedSchedule)
  }

  /** Admissible loans can be computed and never reach the defensive schedule error. */
  lemma AdmissibleIsComputable(loan: Loan)
    requires Admissible(loan)
    ensures Computable(loan) && SchedulePayment(loan).Success?
  {
  }
}
