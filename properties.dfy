/**
 * Properties of the ledger's request handling that relate several calls or
 * characterise the validation chain independently of how it is written.
 */
module LedgerProperties {
  import opened Wrappers
  import opened Decimals
  import opened Accounts
  import opened App

  /** An amount is accepted exactly when it has at most two decimal places and is
      a whole number of cents between one cent and `MAX_AMOUNT`. */
  lemma AcceptedExactlyWholeCents(d: Decimal)
    ensures ValidateDecimal(d).Success? <==> d.exponent >= -2 && 1 <= Cents(d) <= 9999999900
  {
    if d.exponent >= -2 {
      ValueInCents(d);
    }
  }

  /** Every amount of whole cents within the limit has an accepted representation:
      its cents with exponent -2. */
  lemma EveryCentAmountAccepted(cents: int)
    requires 1 <= cents <= 9999999900
    ensures ValidateDecimal(Decimal(false, cents, -2)) == Success(Decimal(false, cents, -2))
    ensures Value(Decimal(false, cents, -2)) == cents as real / 100.0
  {
    var d := Decimal(false, cents, -2);
    ValueInCents(d);
    AcceptedExactlyWholeCents(d);
  }

  /** The decimal-places check looks at the representation, not the value: every
      accepted amount, written with trailing zeros down to three decimal places,
      denotes the same number and is rejected. */
  lemma ScaleNotValueDecides(d: Decimal)
    requires ValidateDecimal(d).Success?
    ensures d.exponent + 3 >= 1
    ensures Value(WithTrailingZeros(d, d.exponent + 3)) == Value(d)
    ensures ValidateDecimal(WithTrailingZeros(d, d.exponent + 3)) == Failure(TooManyDecimalPlaces)
  {
    var k := d.exponent + 3;
    TrailingZerosKeepValue(d, k);
    SignOfValue(d);
    assert d.coefficient * Pow10(k) > 0;
  }

  /** `1.50` is accepted and `1.500`, the same number, is not. */
  lemma OnePointFiveZeroZero()
    ensures Value(Decimal(false, 150, -2)) == Value(Decimal(false, 1500, -3)) == 1.5
    ensures ValidateDecimal(Decimal(false, 150, -2)).Success?
    ensures ValidateDecimal(Decimal(false, 1500, -3)) == Failure(TooManyDecimalPlaces)
  {
  }

  /** The order of the checks decides the error for amounts that fail several. */
  lemma BoundaryAmounts()
    ensures ValidateDecimal(Decimal(true, 1, -3)) == Failure(NegativeAmount)        // -0.001
    ensures ValidateDecimal(Decimal(false, 0, -3)) == Failure(ZeroAmount)           // 0.000
    ensures ValidateDecimal(Decimal(true, 0, -2)) == Failure(ZeroAmount)            // -0.00
    ensures ValidateDecimal(Decimal(false, 1, -3)) == Failure(TooManyDecimalPlaces) // 0.001
    ensures ValidateDecimal(Decimal(false, 12345, -3)) == Failure(TooManyDecimalPlaces) // 12.345
    ensures ValidateDecimal(Decimal(false, 100000000, 0)) == Failure(AmountTooLarge)
    ensures ValidateDecimal(Decimal(false, 1, 8)) == Failure(AmountTooLarge)        // 1E+8
    ensures ValidateDecimal(Decimal(false, 99999999, 0)).Success?
    ensures ValidateDecimal(Decimal(false, 0, 0)) == Failure(ZeroAmount)            // 0
  {
  }

  /** Deposit and withdraw run the same validation: whenever it fails, both handlers
      report the same error whatever the balances, and the balance is kept. */
  lemma ValidationShared(depositBalance: real, withdrawBalance: real, body: Body<AmountField>)
    ensures DepositResponse(depositBalance, body).Failure? && DepositResponse(depositBalance, body).error != InsufficientBalance
            <==> WithdrawResponse(withdrawBalance, body).Failure? && WithdrawResponse(withdrawBalance, body).error != InsufficientBalance
    ensures ValidateAmount(body).Failure? ==>
              DepositResponse(depositBalance, body) == WithdrawResponse(withdrawBalance, body)
    ensures ValidateAmount(body).Failure? ==>
              BalanceAfter(depositBalance, DepositResponse(depositBalance, body)) == depositBalance
              && BalanceAfter(withdrawBalance, WithdrawResponse(withdrawBalance, body)) == withdrawBalance
  {
  }

  /** Once an amount is validated, the only way a withdrawal can fail is an
      amount larger than the balance; deposits of validated amounts never fail. */
  lemma WithdrawFailsOnlyForFunds(balance: real, body: Body<AmountField>)
    requires ValidateAmount(body).Success?
    ensures WithdrawResponse(balance, body).Failure? <==> Value(ValidateAmount(body).value) > balance
    ensures WithdrawResponse(balance, body).Failure? ==> WithdrawResponse(balance, body).error == InsufficientBalance
    ensures DepositResponse(balance, body).Success?
  {
  }

  /** A handler never drives a non-negative balance below zero. */
  lemma ResponsesKeepNonNegative(balance: real, body: Body<AmountField>)
    requires balance >= 0.0
    ensures BalanceAfter(balance, DepositResponse(balance, body)) >= balance
    ensures BalanceAfter(balance, WithdrawResponse(balance, body)) >= 0.0
  {
  }

  /** The ledger walk-through: open with 100.00, deposit 50.00, fail to withdraw
      200.00, withdraw 150.00, and look up an account that was never opened. */
  method Walkthrough()
  {
    var manager := new AccountManager();
    var created := CreateAccountRoute(manager, Payload(Some(100.0)), 1234);
    assert created.Success?;
    var number := created.value.0;
    assert number in manager.accounts;

    var fifty := Payload(Some(Parsed(Decimal(false, 5000, -2))));
    var r := DepositRoute(manager, number, fifty);
    assert Pow10(2) == 100;
    assert r == Success(150.0);

    var twoHundred := Payload(Some(Parsed(Decimal(false, 20000, -2))));
    r := WithdrawRoute(manager, number, twoHundred);
    assert r == Failure(InsufficientBalance);
    r := BalanceRoute(manager, number);
    assert r == Success(150.0);

    var oneFifty := Payload(Some(Parsed(Decimal(false, 15000, -2))));
    r := WithdrawRoute(manager, number, oneFifty);
    assert r == Success(0.0);

    var tooPrecise := Payload(Some(Parsed(Decimal(false, 12345, -3))));
    r := DepositRoute(manager, number, tooPrecise);
    assert r == Failure(TooManyDecimalPlaces);
    r := BalanceRoute(manager, number);
    assert r == Success(0.0);

    assert number == DecimalString(1234);
    DecimalStringInjective(1234, 9999);
    r := BalanceRoute(manager, DecimalString(9999));
    assert r == Failure(AccountNotFound);
  }
}
