/**
 * The shapes that flow through the `/api/calculate-mortgage` handler: the
 * request body as the handler sees it after JSON decoding, the typed loan
 * the validation chain produces, and the payment the handler answers with.
 */
module MortgageTypes {

  /**
   * One field of the decoded JSON body. `Undefined` is a field the body does
   * not contain; `Null`, booleans, strings, arrays and objects are present but
   * may have the wrong type. The model takes every JSON number to be
   * finite, so `Number` carries a real.
   */
  datatype JsonValue =
    | Undefined
    | Null
    | Boolean(b: bool)
    | Number(n: real)
    | Text(s: string)
    | Composite

  /** The five fields the handler destructures from the request body. */
  datatype Request = Request(
    propertyPrice: JsonValue,
    downPayment: JsonValue,
    annualInterestRate: JsonValue,
    amortizationPeriod: JsonValue,
    paymentSchedule: JsonValue)

  /**
   * The request once every field is known to have the right type. The
   * amortization period stays a (JavaScript) number, so 23.5 is representable
   * and is rejected by the rules rather than by the type.
   */
  datatype Loan = Loan(
    propertyPrice: real,
    downPayment: real,
    annualInterestRate: real,
    amortizationPeriod: real,
    paymentSchedule: string)

  /**
   * The reasons the handler answers 400, one per early return, each with the
   * literal `error` string of its JSON body.
   */
  datatype Rejection =
    | MissingFields
    | NotNumbers
    | ScheduleNotString
    | PriceNotPositive
    | DownPaymentNotPositive
    | DownPaymentAbovePrice
    | RateOutOfRange
    | UnknownSchedule
    | PeriodOutOfRange
    | InsuredPeriodTooLong
    | PeriodNotListed
    | BelowFivePercent
    | BelowMiddleBandMinimum
    | BelowTwentyPercent
    | UnrecognizedSchedule
  {
    /** The `error` string of the 400 answer. */
    function Message(): string
    {
      match this
      case MissingFields => MissingFieldsText
      case NotNumbers => NotNumbersText
      case ScheduleNotString => ScheduleNotStringText
      case PriceNotPositive => PriceNotPositiveText
      case DownPaymentNotPositive => DownPaymentNotPositiveText
      case DownPaymentAbovePrice => DownPaymentAbovePriceText
      case RateOutOfRange => RateOutOfRangeText
      case UnknownSchedule => UnknownScheduleText
      case PeriodOutOfRange => PeriodOutOfRangeText
      case InsuredPeriodTooLong => InsuredPeriodTooLongText
      case PeriodNotListed => PeriodNotListedText
      case BelowFivePercent => BelowFivePercentText
      case BelowMiddleBandMinimum => BelowMiddleBandMinimumText
      case BelowTwentyPercent => BelowTwentyPercentText
      case UnrecognizedSchedule => UnrecognizedScheduleText
    }
  }

  // The literal `error` strings of the handler's early returns, in the order it tests them.
  const MissingFieldsText: string := "Missing required fields"
  const NotNumbersText: string :=
    "propertyPrice, downPayment, annualInterestRate, and amortizationPeriod must be numbers"
  const ScheduleNotStringText: string := "paymentSchedule must be a string"
  const PriceNotPositiveText: string := "propertyPrice must be greater than 0"
  const DownPaymentNotPositiveText: string := "downPayment must be greater than 0"
  const DownPaymentAbovePriceText: string := "downPayment must be less than or equal to propertyPrice"
  const RateOutOfRangeText: string := "annualInterestRate must be between 0 and 100"
  const UnknownScheduleText: string :=
    "Invalid paymentSchedule. Allowed values are monthly, bi-weekly, accelerated bi-weekly"
  const PeriodOutOfRangeText: string := "Amortization period should be between 5 and 30 years"
  const InsuredPeriodTooLongText: string :=
    "The maximum amortization period on a CMHC insured mortgage is 25 years"
  const PeriodNotListedText: string :=
    "amortizationPeriod must be one of the following values: 5, 10, 15, 20, 25, 30 years"
  const BelowFivePercentText: string := "The minimum down payment should be 5%"
  const BelowMiddleBandMinimumText: string :=
    "For homes priced between $500K and $1 million, the down payment must be at least 5% of the first $500K and 10% of the amount over $500K"
  const BelowTwentyPercentText: string :=
    "For property price more than $1 million, please put more than 20% down"
  const UnrecognizedScheduleText: string := "Invalid payment schedule"

  /** The JSON body of a successful answer: the schedule echoed and the amount per period. */
  datatype Payment = Payment(paymentSchedule: string, paymentAmount: real)

  /** The request body that carries exactly the fields of `loan`. */
  function RequestOf(loan: Loan): Request
  {
    Request(Number(loan.propertyPrice), Number(loan.downPayment),
            Number(loan.annualInterestRate), Number(loan.amortizationPeriod),
            Text(loan.paymentSchedule))
  }

  const Monthly: string := "monthly"
  const BiWeekly: string := "bi-weekly"
  const AcceleratedBiWeekly: string := "accelerated bi-weekly"

  /** The schedules the handler accepts, in the order it lists them. */
  const AllowedSchedules: seq<string> := [Monthly, BiWeekly, AcceleratedBiWeekly]

  /** The amortization periods, in years, the handler accepts. */
  const AmortizationPeriods: seq<real> := [5.0, 10.0, 15.0, 20.0, 25.0, 30.0]
}
