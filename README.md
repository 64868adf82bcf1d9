# BC mortgage calculator API, modelled in Dafny

This project models the one endpoint of the mortgage calculator service,
`POST /api/calculate-mortgage` (index.js:18-205). It takes a JSON body with
`propertyPrice`, `downPayment`, `annualInterestRate`, `amortizationPeriod` and
`paymentSchedule`. It answers either `400 { error }`, naming the first guard
the body fails, or `200 { paymentSchedule, paymentAmount }`, the amortized
payment per period.

The handler is a pure function of the body, so the model is one too:

- `wrappers.dfy`: `Result`, the 200/400 split.
- `mortgage_types.dfy`: the decoded body as tagged JSON values (`Request`),
  the typed loan (`Loan`) and the payment (`Payment`). It also holds the
  rejections, one per early return. Each rejection's `Message` is the literal
  `error` string of that return.
- `validator.dfy`: the validation chain.
  - `Decode` runs the presence and type checks.
  - `CheckRules` walks the eleven range and business guards in the handler's
    order (`Broken`, `RuleRejection`) and stops at the first broken one.
  - `Admissible` is the declarative reading of the guards: what an accepted
    loan satisfies.
- `amortization.dfy`: the payment formula, as exact real arithmetic. It also
  defines the balance recurrence the formula is meant to clear and proves that
  the formula's payment is the unique one that leaves nothing owed after
  exactly `n` periods.
- `calculator.dfy`: the CMHC premium tiers, the insured principal, the monthly
  and bi-weekly rates and payment counts, and the schedule selection.
  Accelerated bi-weekly is half the monthly payment.
- `mortgage_api.dfy`: the handler end to end (`Handle`, and `CalculateMortgage`
  with the message text), plus the properties of the whole chain: the order of
  the guards, what every accepted body satisfies, and what the amount paid
  means.
- `scenarios.dfy`: the request bodies of the repository's API tests, stated
  against the model.

## Model

| member | source | states |
|---|---|---|
| Validator.Decode | index.js:27-52 | Missing fields are reported before wrong number types, and those before a non-string schedule; each rejection happens exactly when its condition holds and the earlier ones pass. A body is decoded exactly when all four numbers are numbers and the schedule is a string, and the loan is that body. |
| Validator.DecodeRoundTrip | index.js:19-52 | Decoding the body built from any loan gives back that loan. |
| Validator.RuleRejectionsDistinct | index.js:54-136 | Each of the eleven guards has its own rejection, so a rejection identifies its guard. |
| Validator.CheckFromPasses | index.js:54-136 | Walking the guards from any position succeeds exactly when none of the remaining guards is broken, and then hands the loan on unchanged. |
| Validator.CheckFromFails | index.js:54-136 | A failed walk carries the rejection of a guard that is the first broken one from its starting position. |
| Validator.CheckFromReachesFirst | index.js:54-136 | If guard `i` is the first broken one from a position, the walk from there reports guard `i`. |
| Validator.CheckRules | index.js:54-136 | The guards accept a loan exactly when it is admissible, and then pass it through unchanged. |
| Validator.CheckRulesReports | index.js:54-136 | The ordering theorem: the guards reject with guard `i`'s rejection exactly when `i` is the first guard the loan breaks. |
| Validator.AdmissibleIffNoRuleBroken | index.js:54-136 | The declarative conditions (0 < down <= price, rate in (0, 100], allowed schedule, enumerated period, at most 25 years when under 20% down, band minimum down payment) hold exactly when no guard is broken. |
| Validator.MinimumDownPayment | index.js:110-136 | The band minimum down payment lies between 5% and 20% of the price, and equals 20% exactly from $1M up. |
| Validator.Validate | index.js:27-136 | An accepted body is exactly the body of an admissible loan. A rejected body is not the body of any admissible loan. |
| Validator.ValidateAcceptsAdmissible | index.js:27-136 | The body of a loan is accepted exactly when the loan is admissible, and the admissible loan comes back unchanged. |
| Calculator.CmhcRate | index.js:139-158 | The premium rate is one of 4%, 3.1%, 2.8% or 0, and it is 0 exactly when the down payment is under 5% or at least 20% of the price. |
| Calculator.CompareRatio | index.js:141-153 | For a positive price, comparing the down payment with a fraction of the price is the same as comparing the down-payment ratio with that fraction. |
| Calculator.CmhcRateByRatio | index.js:139-158 | The handler's product tests pick the same tier as the premium table indexed by the down-payment ratio. |
| Calculator.AdmissiblePremium | index.js:93-158 | Every admissible loan has at least 5% down and pays a premium exactly when it has under 20% down. A 30-year loan or a loan of $1M and up pays none. |
| Calculator.PrincipalBounds | index.js:162 | Financing a premium of at most 4% keeps the principal between the amount borrowed and 104% of it. The principal equals the amount borrowed exactly when nothing is borrowed or there is no premium. |
| Calculator.InsuredPrincipal | index.js:162 | The insured principal lies between the amount borrowed and 104% of it. It equals the amount borrowed exactly when that is zero or no premium is due. |
| Calculator.MonthlyRate | index.js:165 | The monthly rate times 1200 is the annual percentage. For an annual rate in (0, 100] it lies in (0, 1/12]. |
| Calculator.BiweeklyRate | index.js:166 | The bi-weekly rate times 2600 is the annual percentage. For an annual rate in (0, 100] it lies in (0, 1/26]. |
| Calculator.WholeYears | index.js:102-108 | An enumerated period is a whole number of years between 5 and 30. |
| Calculator.MonthlyPeriods | index.js:169 | The count of monthly payments is 12 times the years, between 60 and 360. |
| Calculator.BiweeklyPeriods | index.js:170 | The count of bi-weekly payments is 26 times the years, between 130 and 780. |
| Calculator.MonthlyPayment | index.js:173-177 | The monthly payment clears the insured principal at the monthly rate in exactly the monthly count of periods. It is positive exactly when the principal is. |
| Calculator.BiweeklyPayment | index.js:180-184 | The bi-weekly payment, on its own basis, clears the insured principal at the bi-weekly rate in exactly the bi-weekly count of periods. It is positive exactly when the principal is. |
| Calculator.SchedulePayment | index.js:186-198 | The schedule is answered exactly when it is one of the three allowed ones, and it is echoed back. "monthly" pays the monthly payment, "bi-weekly" the separately computed bi-weekly payment, and "accelerated bi-weekly" half the monthly payment. Anything else reaches the defensive "Invalid payment schedule" error. |
| Calculator.AdmissibleIsComputable | index.js:186-198 | For an admissible loan the formula is defined and the schedule selection never reaches its defensive error. |
| Amortization.PowGrowth | index.js:176-177 | Compounding a positive rate for `n` periods grows at least by `1 + n * rate` (Bernoulli), so the formula's denominator is positive. |
| Amortization.PaymentExceedsInterest | index.js:173-184 | The formula has the sign of the principal, and a positive principal pays more than one period's interest. |
| Amortization.AmortizedPayment | index.js:173-184 | The formula's payment is positive, zero or negative with the principal, and it exceeds the first period's interest on a positive loan. |
| Amortization.ClosedFormBase | index.js:173-184 | Before any period, the balance is in closed form. |
| Amortization.ClosedFormStep | index.js:173-184 | One period of interest and payment keeps the balance in closed form. |
| Amortization.BalanceClosedForm | index.js:173-184 | After `k` periods, the balance times the rate is the principal's compounded interest less the compounded payments. |
| Amortization.PayoffAlgebra | index.js:173-184 | A balance in closed form is zero exactly when the payment is the formula's payment. |
| Amortization.PaysOffExactly | index.js:173-184 | Paying the formula's amount every period leaves nothing owed after exactly `n` periods, and no other amount does. |
| MortgageApi.Handle | index.js:18-205 | The handler answers with a payment exactly when validation accepts the body, and only for an admissible loan. Every rejection is the one validation stopped at, never the unreachable schedule error. |
| MortgageApi.CalculateMortgage | index.js:18-205 | The answer is a 400 exactly when validation rejects the body. Its text is the message of the guard validation stopped at, never "Invalid payment schedule". A 200 answer echoes the schedule of an admissible loan and carries exactly the handler's payment, so the amount facts of `AcceptedPayment` hold for the answer as sent. |
| MortgageApi.MessagesDistinct | index.js:27-198 | Two rejections have the same error text exactly when they are the same rejection, so the text of a 400 answer identifies its guard. |
| MortgageApi.MessageShape | index.js:27-198 | Each error text has a known length and last character, and these two read back to its rejection. |
| MortgageApi.MissingFieldsFirst | index.js:27-36 | "Missing required fields" is the answer exactly when some field is absent, whatever the other fields hold. |
| MortgageApi.TypeChecksSecond | index.js:38-52 | With every field present, the must-be-numbers message is the answer exactly when one of the four numeric fields is not a number. The must-be-a-string message is the answer exactly when they all are numbers and the schedule is not a string. |
| MortgageApi.FirstBrokenGuardDecides | index.js:54-136 | A well-typed body is rejected with guard `i`'s message exactly when `i` is the first guard it breaks. |
| MortgageApi.InsuredCapBeforeEnumeration | index.js:92-108 | A body that passes the first six guards, has under 20% down and more than 25 years gets the 25-year CMHC message, not the enumeration message. |
| MortgageApi.AcceptedInvariants | index.js:54-136 | Every accepted body has 0 < downPayment <= propertyPrice, a rate in (0, 100], an allowed schedule, an enumerated period, the band minimum down payment, and 20% down beyond 25 years. |
| MortgageApi.AcceptedPayment | index.js:139-204 | An accepted body's schedule is echoed. Its amount is never negative and is zero exactly when the whole price is paid down. A monthly or bi-weekly amount clears the insured principal in exactly the schedule's number of periods at its own rate. The accelerated amount is half the monthly one. |
| MortgageApi.SameGuardsSameVerdict | index.js:54-136 | Two loans that break the same guards get the same verdict from the rules. |
| MortgageApi.AcceleratedIsHalfMonthly | index.js:189-195 | The same body with an accelerated bi-weekly schedule and with a monthly schedule is accepted or refused alike, with the same rejection. When accepted, the accelerated amount is half the monthly one. |
| Scenarios.InsuredMonthlyExample | test/mortgageCalculator.test.js:7-30 | $300K with $40K down, 5%, 25 years, monthly, is accepted. It is insured at 3.1%, and the amount is the formula's payment on $268,060 over 300 months at 5/1200 per month. |
| Scenarios.UninsuredBiweeklyExample | test/mortgageCalculator.test.js:33-56 | $1.5M with $450K down, 5%, 25 years, bi-weekly, is accepted. It pays no premium, and the amount is the formula's payment on $1,050,000 over 650 fortnights at 5/2600 each. |
| Scenarios.MissingFieldsExample | test/mortgageCalculator.test.js:59-77 | A body without amortizationPeriod and paymentSchedule gets "Missing required fields". |
| Scenarios.WrongTypeExample | test/mortgageCalculator.test.js:80-101 | A string down payment gets the must-be-numbers message. |
| Scenarios.DownPaymentAbovePriceExample | test/mortgageCalculator.test.js:104-123 | A down payment of $300,001 on $300K gets the less-than-or-equal message. |
| Scenarios.UnknownScheduleExample | test/mortgageCalculator.test.js:126-147 | A "weekly" schedule with $40K down on $300K gets the allowed-values message. |
| Scenarios.UnknownScheduleMiddleBandExample | test/mortgageCalculator.test.js:267-289 | A "weekly" schedule with $100K down on $600K gets the allowed-values message too. |
| Scenarios.InsuredCapExample | test/mortgageCalculator.test.js:150-171 | 30 years with 13.3% down gets the 25-year CMHC message. |
| Scenarios.UnlistedPeriodExample | test/mortgageCalculator.test.js:174-195 | 23 years gets the enumeration message. |
| Scenarios.BelowFivePercentExample | test/mortgageCalculator.test.js:198-217 | $14,900 down on $300K gets the 5% message. |
| Scenarios.BelowMiddleBandExample | test/mortgageCalculator.test.js:220-241 | $20K down on $700K, below the $45K band minimum, gets the middle-band message. |
| Scenarios.BelowTwentyPercentExample | test/mortgageCalculator.test.js:244-265 | $239K down on $1.2M gets the 20% message. |
| Scenarios.RejectedByGuard | index.js:54-136 | The body of a loan whose first broken guard is `i` is answered with guard `i`'s message. |

## Left out

- Express plumbing (index.js:1-16 and 207-213): the server, static files, JSON body parsing and status codes. The 200/400 split is `Result`.
- Floating point: all arithmetic is exact real arithmetic. Rounding in the guards' comparisons (`price * 0.2`, `500000 * 0.05 + (price - 500000) * 0.1`) can decide a boundary case differently in the original.
- Calculator.MonthlyPayment, Calculator.BiweeklyPayment and MortgageApi.AcceptedPayment hold in exact arithmetic only. For a very small positive rate (for example 1e-17), `1 + rate` rounds to 1 in double precision, so `Math.pow` returns 1 and the formula at index.js:173-184 divides by zero. The original then answers 200 with `paymentAmount` "Infinity", or "NaN" when nothing is borrowed. The model's amounts are finite and clear the loan.
- `Math.pow` is modelled by `Amortization.Pow`, exact exponentiation by the whole number of periods.
- `paymentAmount` is the exact real amount. The `toFixed(2)` rounding and the string it yields (index.js:203) are not modelled.
- Scenarios.InsuredMonthlyExample and Scenarios.UninsuredBiweeklyExample: they state that the amount is the formula's exact payment at the test's principal, rate and period count, not the rounded figures 1567.05 and 2831.42 the tests compare.
- Number literals too large for a double, which JSON parsing turns into `Infinity`, are not modelled: `Number` holds a finite real.
- The browser client (public/app.js) is not part of this model.
- A body with `downPayment` equal to `propertyPrice` passes every guard, and the payment formula then gives an amount of 0. MortgageApi.AcceptedPayment states that the amount of an accepted body is never negative, and is positive exactly when the down payment is below the price.
