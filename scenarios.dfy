/**
 * The request bodies of the repository's API tests
 * (test/mortgageCalculator.test.js), stated against the model. Each refused
 * body gets the rejection whose `Message` is the string the test expects. The two
 * accepted bodies are pinned down up to the payment formula: their premium
 * tier, insured principal, periodic rate and number of periods.
 */
module Scenarios {
  import opened Wrappers
  import opened MortgageTypes
  import opened Amortization
  import opened Validator
  import opened Calculator
  import opened MortgageApi

  /** A body with all five fields present and well typed. */
  function Body(price: real, down: real, rate: real, years: real, schedule: string): Request
  {
    RequestOf(Loan(price, down, rate, years, schedule))
  }

  /** $300K with $40K down (13.3%) is insured at 3.1%, so $268,060 is amortized monthly over 300 months. */
  lemma InsuredMonthlyExample(req: Request)
    requires req == Body(300000.0, 40000.0, 5.0, 25.0, "monthly")
    ensures Handle(req).Success? && Handle(req).value.paymentSchedule == "monthly"
    ensures CmhcRate(300000.0, 40000.0) == 0.031
    ensures InsuredPrincipal(Decode(req).value) == 268060.0
    ensures MonthlyRate(5.0) == 5.0 / 1200.0 && MonthlyPeriods(25.0) == 300
    ensures Handle(req).value.paymentAmount == AmortizedPayment(268060.0, 5.0 / 1200.0, 300)
  {
    DecodeRoundTrip(Loan(300000.0, 40000.0, 5.0, 25.0, "monthly"));
  }

  /** $1.5M with 30% down pays no premium, so $1,050,000 is amortized over 650 fortnights. */
  lemma UninsuredBiweeklyExample(req: Request)
    requires req == Body(1500000.0, 450000.0, 5.0, 25.0, "bi-weekly")
    ensures Handle(req).Success? && Handle(req).value.paymentSchedule == "bi-weekly"
    ensures CmhcRate(1500000.0, 450000.0) == 0.0
    ensures InsuredPrincipal(Decode(req).value) == 1050000.0
    ensures BiweeklyRate(5.0) == 5.0 / 2600.0 && BiweeklyPeriods(25.0) == 650
    ensures Handle(req).value.paymentAmount == AmortizedPayment(1050000.0, 5.0 / 2600.0, 650)
  {
    DecodeRoundTrip(Loan(1500000.0, 450000.0, 5.0, 25.0, "bi-weekly"));
  }

  lemma MissingFieldsExample(req: Request)
    requires req == Request(Number(600000.0), Number(50000.0), Number(3.0), Undefined, Undefined)
    ensures CalculateMortgage(req) == Failure(MissingFields.Message())
  {
  }

  lemma WrongTypeExample(req: Request)
    requires req == Request(Number(300000.0), Text("hello"), Number(5.0), Number(25.0), Text("monthly"))
    ensures CalculateMortgage(req) == Failure(NotNumbers.Message())
  {
    assert Decode(req) == Failure(NotNumbers);
  }

  lemma DownPaymentAbovePriceExample(req: Request)
    requires req == Body(300000.0, 300001.0, 5.0, 25.0, "monthly")
    ensures CalculateMortgage(req) == Failure(DownPaymentAbovePrice.Message())
  {
    RejectedByGuard(Loan(300000.0, 300001.0, 5.0, 25.0, "monthly"), 2);
  }

  lemma UnknownScheduleExample(req: Request)
    requires req == Body(300000.0, 40000.0, 5.0, 25.0, "weekly")
    ensures CalculateMortgage(req) == Failure(UnknownSchedule.Message())
  {
    assert "weekly" !in AllowedSchedules;
    RejectedByGuard(Loan(300000.0, 40000.0, 5.0, 25.0, "weekly"), 4);
  }

  /** The same schedule on a middle-band price with enough down. */
  lemma UnknownScheduleMiddleBandExample(req: Request)
    requires req == Body(600000.0, 100000.0, 3.5, 25.0, "weekly")
    ensures CalculateMortgage(req) == Failure(UnknownSchedule.Message())
  {
    assert "weekly" !in AllowedSchedules;
    RejectedByGuard(Loan(600000.0, 100000.0, 3.5, 25.0, "weekly"), 4);
  }

  /** 30 years with 13.3% down: the cap fires although 30 is an enumerated period. */
  lemma InsuredCapExample(req: Request)
    requires req == Body(300000.0, 40000.0, 5.0, 30.0, "bi-weekly")
    ensures CalculateMortgage(req) == Failure(InsuredPeriodTooLong.Message())
  {
    RejectedByGuard(Loan(300000.0, 40000.0, 5.0, 30.0, "bi-weekly"), 6);
  }

  /** 23 years is within 5..30 and under the cap, so the enumeration rejects it. */
  lemma UnlistedPeriodExample(req: Request)
    requires req == Body(300000.0, 40000.0, 5.0, 23.0, "bi-weekly")
    ensures CalculateMortgage(req) == Failure(PeriodNotListed.Message())
  {
    RejectedByGuard(Loan(300000.0, 40000.0, 5.0, 23.0, "bi-weekly"), 7);
  }

  lemma BelowFivePercentExample(req: Request)
    requires req == Body(300000.0, 14900.0, 3.5, 25.0, "monthly")
    ensures CalculateMortgage(req) == Failure(BelowFivePercent.Message())
  {
    RejectedByGuard(Loan(300000.0, 14900.0, 3.5, 25.0, "monthly"), 8);
  }

  /** $700K needs 5% of $500K plus 10% of $200K, that is $45,000, down. */
  lemma BelowMiddleBandExample(req: Request)
    requires req == Body(700000.0, 20000.0, 3.5, 25.0, "monthly")
    ensures CalculateMortgage(req) == Failure(BelowMiddleBandMinimum.Message())
  {
    RejectedByGuard(Loan(700000.0, 20000.0, 3.5, 25.0, "monthly"), 9);
  }

  lemma BelowTwentyPercentExample(req: Request)
    requires req == Body(1200000.0, 239000.0, 3.5, 25.0, "monthly")
    ensures CalculateMortgage(req) == Failure(BelowTwentyPercent.Message())
  {
    RejectedByGuard(Loan(1200000.0, 239000.0, 3.5, 25.0, "monthly"), 10);
  }

  /** The body of a loan whose first broken guard is `i` gets guard `i`'s message. */
  lemma RejectedByGuard(loan: Loan, i: nat)
    requires i < RuleCount && FirstBroken(loan, 0, i)
    ensures Handle(RequestOf(loan)) == Failure(RuleRejection(i))
    ensures CalculateMortgage(RequestOf(loan)) == Failure(RuleRejection(i).Message())
  {
    DecodeRoundTrip(loan);
    CheckRulesReports(loan, i);
  }
}
