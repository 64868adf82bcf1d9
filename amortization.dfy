/**
 * The standard amortizing-payment formula the handler applies twice
 * (index.js:173-184), and the loan balance it is meant to clear.
 *
 * `Math.pow` is modelled by `Pow`, exact real exponentiation by a natural
 * number; the handler only ever raises to a whole number of periods.
 */
module Amortization {

  /** `x` raised to the `n`-th power. */
  function Pow(x: real, n: nat): real
  {
    if n == 0 then 1.0 else x * Pow(x, n - 1)
  }

  /** Bernoulli's inequality: compounding a positive rate for `n` periods grows at least linearly. */
  lemma {:induction false} PowGrowth(rate: real, n: nat)
    requires rate > 0.0
    ensures Pow(1.0 + rate, n) >= 1.0 + (n as real) * rate
    ensures n > 0 ==> Pow(1.0 + rate, n) > 1.0
  {
    if n > 0 {
      SignOfProduct(rate, n as real);
      PowGrowth(rate, n - 1);
      var g := Pow(1.0 + rate, n - 1);
      var m := (n - 1) as real;
      ScaleMonotone(1.0 + rate, 1.0 + m * rate, g);
      SignOfProduct(m * rate, rate);
      assert (1.0 + rate) * (1.0 + m * rate) == 1.0 + (m + 1.0) * rate + (m * rate) * rate;
    }
  }

  /** Multiplying by a positive factor keeps an inequality. */
  lemma ScaleMonotone(c: real, x: real, y: real)
    requires c > 0.0 && x <= y
    ensures c * x <= c * y
  {
  }

  /** A product with a positive factor has the sign of the other factor. */
  lemma SignOfProduct(x: real, y: real)
    requires y > 0.0
    ensures x * y > 0.0 <==> x > 0.0
    ensures x * y == 0.0 <==> x == 0.0
    ensures x * y >= 0.0 <==> x >= 0.0
  {
  }

  /** A quotient by a positive divisor has the sign of the dividend. */
  lemma SignOfQuotient(x: real, d: real)
    requires d > 0.0
    ensures x / d > 0.0 <==> x > 0.0
    ensures x / d == 0.0 <==> x == 0.0
  {
    SignOfProduct(x / d, d);
    assert (x / d) * d == x;
  }

  /**
   * The payment per period that amortizes `principal` over `n` periods at
   * `rate` per period: principal * rate * (1+rate)^n / ((1+rate)^n - 1).
   * It has the sign of the principal, and a positive loan pays more than the
   * first period's interest.
   */
  function AmortizedPayment(principal: real, rate: real, n: nat): (pay: real)
    requires rate > 0.0 && n > 0
    ensures pay > 0.0 <==> principal > 0.0
    ensures pay == 0.0 <==> principal == 0.0
    ensures principal > 0.0 ==> pay > principal * rate
  {
    PowGrowth(rate, n);
    PaymentExceedsInterest(principal, rate, Pow(1.0 + rate, n));
    AnnuityPayment(principal, rate, Pow(1.0 + rate, n))
  }

  /** The formula with the growth factor (1+rate)^n already computed. */
  function AnnuityPayment(principal: real, rate: real, growth: real): real
    requires growth > 1.0
  {
    principal * rate * growth / (growth - 1.0)
  }

  /** growth / (growth - 1) > 1, scaled by the interest of one period. */
  lemma PaymentExceedsInterest(principal: real, rate: real, growth: real)
    requires rate > 0.0 && growth > 1.0
    ensures var pay := AnnuityPayment(principal, rate, growth);
      && (pay > 0.0 <==> principal > 0.0)
      && (pay == 0.0 <==> principal == 0.0)
      && (principal > 0.0 ==> pay > principal * rate)
  {
    var interest := principal * rate;
    var d := growth - 1.0;
    var pay := interest * growth / d;
    assert pay * d == interest * growth;
    assert (pay - interest) * d == interest;
    assert pay - interest == interest / d;
    SignOfQuotient(interest, d);
    SignOfProduct(principal, rate);
  }

  /**
   * The balance still owed after `k` periods when `principal` is borrowed at
   * `rate` per period and `pay` is paid at the end of every period.
   */
  function Balance(principal: real, rate: real, pay: real, k: nat): real
  {
    if k == 0 then principal else Balance(principal, rate, pay, k - 1) * (1.0 + rate) - pay
  }

  /**
   * The closed form of a balance `b` after the loan has grown by `growth`,
   * multiplied through by the rate: the interest the principal would have
   * earned on its own, less what the payments and their interest have repaid.
   */
  predicate ClosedForm(principal: real, rate: real, pay: real, b: real, growth: real)
  {
    b * rate == principal * rate * growth - pay * (growth - 1.0)
  }

  /** Every balance is in closed form. */
  lemma {:induction false} BalanceClosedForm(principal: real, rate: real, pay: real, k: nat)
    ensures ClosedForm(principal, rate, pay, Balance(principal, rate, pay, k), Pow(1.0 + rate, k))
  {
    if k == 0 {
      ClosedFormBase(principal, rate, pay);
    } else {
      BalanceClosedForm(principal, rate, pay, k - 1);
      ClosedFormStep(principal, rate, pay,
        Balance(principal, rate, pay, k - 1), Pow(1.0 + rate, k - 1),
        Balance(principal, rate, pay, k), Pow(1.0 + rate, k));
    }
  }

  /** Before any period the balance is the principal and the growth is 1. */
  lemma ClosedFormBase(principal: real, rate: real, pay: real)
    ensures ClosedForm(principal, rate, pay, Balance(principal, rate, pay, 0), Pow(1.0 + rate, 0))
  {
    assert Pow(1.0 + rate, 0) == 1.0 && Balance(principal, rate, pay, 0) == principal;
  }

  /** One period of the closed form: if it holds for balance `b` and growth `g`, it holds one period later. */
  lemma ClosedFormStep(principal: real, rate: real, pay: real, b: real, g: real, b': real, g': real)
    requires ClosedForm(principal, rate, pay, b, g)
    requires b' == b * (1.0 + rate) - pay && g' == (1.0 + rate) * g
    ensures ClosedForm(principal, rate, pay, b', g')
  {
    calc {
      b' * rate;
      (b * (1.0 + rate) - pay) * rate;
      (1.0 + rate) * (b * rate) - pay * rate;
      (1.0 + rate) * (principal * rate * g - pay * (g - 1.0)) - pay * rate;
      principal * rate * ((1.0 + rate) * g) - pay * ((1.0 + rate) * g - 1.0);
      principal * rate * g' - pay * (g' - 1.0);
    }
  }

  /**
   * The defining property of the formula: paying `AmortizedPayment` every
   * period leaves nothing owed after exactly `n` periods, and it is the only
   * payment that does.
   */
  lemma PaysOffExactly(principal: real, rate: real, n: nat, pay: real)
    requires rate > 0.0 && n > 0
    ensures Balance(principal, rate, pay, n) == 0.0 <==> pay == AmortizedPayment(principal, rate, n)
  {
    var b, growth := Balance(principal, rate, pay, n), Pow(1.0 + rate, n);
    BalanceClosedForm(principal, rate, pay, n);
    PowGrowth(rate, n);
    assert AmortizedPayment(principal, rate, n) == AnnuityPayment(principal, rate, growth);
    PayoffAlgebra(principal, rate, pay, b, growth);
  }

  /** The closed form is zero exactly at the amortized payment, since rate > 0 and growth > 1. */
  lemma PayoffAlgebra(principal: real, rate: real, pay: real, b: real, growth: real)
    requires rate > 0.0 && growth > 1.0
    requires ClosedForm(principal, rate, pay, b, growth)
    ensures b == 0.0 <==> pay == AnnuityPayment(principal, rate, growth)
  {
    var d := growth - 1.0;
    var amortized := principal * rate * growth / d;
    assert amortized * d == principal * rate * growth;
    assert b * rate == (amortized - pay) * d;
    SignOfProduct(b, rate);
    SignOfProduct(amortized - pay, d);
  }
}
