/**
 * The request handlers of the ledger service (app.py), without the HTTP layer.
 *
 * A JSON body is reduced to what a handler reads from it: whether a payload
 * arrived at all, and whether the one field the handler looks up ("amount" or
 * "balance") is present.  An amount is either text that does not parse as a
 * decimal or a finite decimal in Python's representation.
 */
module App {
  import opened Wrappers
  import opened Decimals
  import opened Accounts

  /** `MAX_AMOUNT`: the largest amount one deposit or withdrawal may move. */
  const MaxAmount: real := 99999999.0

  /** The errors a handler reports, one per early return. */
  datatype Error =
    | AccountNotFound
    | MissingPayload
    | MissingAmount
    | InvalidAmountFormat
    | NegativeAmount
    | ZeroAmount
    | TooManyDecimalPlaces
    | AmountTooLarge
    | InsufficientBalance

  /** The "amount" field after `Decimal(str(amount))`. */
  datatype AmountField = Unparseable | Parsed(d: Decimal)

  /** A request body as a handler sees it: no payload, or a payload in which
      the field the handler reads is present or absent. */
  datatype Body<T> = NoPayload | Payload(field: Option<T>)

  /** The checks on a parsed amount, in the handlers' order: sign, zero,
      number of decimal places (on the representation), maximum. */
  function ValidateDecimal(d: Decimal): (r: Result<Decimal, Error>)
    ensures r.Success? <==> 0.0 < Value(d) <= MaxAmount && d.exponent >= -2
    ensures r.Success? ==> r.value == d
    ensures r == Failure(NegativeAmount) <==> d.negative && d.coefficient > 0
    ensures r == Failure(ZeroAmount) <==> d.coefficient == 0
    ensures r == Failure(TooManyDecimalPlaces) <==> !d.negative && d.coefficient > 0 && d.exponent < -2
    ensures r == Failure(AmountTooLarge) <==> d.exponent >= -2 && Value(d) > MaxAmount
    ensures r.Failure? ==> r.error in {NegativeAmount, ZeroAmount, TooManyDecimalPlaces, AmountTooLarge}
  {
    SignOfValue(d);
    if Value(d) < 0.0 then Failure(NegativeAmount)
    else if Value(d) == 0.0 then Failure(ZeroAmount)
    else if d.exponent < -2 then Failure(TooManyDecimalPlaces)
    else if Value(d) > MaxAmount then Failure(AmountTooLarge)
    else Success(d)
  }

  /** The whole validation chain of the deposit and withdraw handlers after the
      account lookup: payload, "amount" key, parse, then the decimal checks. */
  function ValidateAmount(body: Body<AmountField>): (r: Result<Decimal, Error>)
    ensures body.NoPayload? ==> r == Failure(MissingPayload)
    ensures body == Payload(None) ==> r == Failure(MissingAmount)
    ensures body == Payload(Some(Unparseable)) ==> r == Failure(InvalidAmountFormat)
    ensures body.Payload? && body.field.Some? && body.field.value.Parsed? ==>
              r == ValidateDecimal(body.field.value.d)
    ensures r.Success? <==> body.Payload? && body.field.Some? && body.field.value.Parsed?
                            && ValidateDecimal(body.field.value.d).Success?
    ensures r.Success? ==> 0.0 < Value(r.value) <= MaxAmount && r.value.exponent >= -2
    ensures r.Failure? ==> r.error != AccountNotFound && r.error != InsufficientBalance
  {
    match body
    case NoPayload => Failure(MissingPayload)
    case Payload(None) => Failure(MissingAmount)
    case Payload(Some(Unparseable)) => Failure(InvalidAmountFormat)
    case Payload(Some(Parsed(d))) => ValidateDecimal(d)
  }

  /** What the deposit handler answers for an existing account: the new balance
      after adding the validated amount, or the first validation error. */
  function DepositResponse(balance: real, body: Body<AmountField>): (r: Result<real, Error>)
    ensures r.Success? <==> ValidateAmount(body).Success?
    ensures r.Success? ==> r.value == balance + Value(ValidateAmount(body).value) && r.value > balance
    ensures r.Failure? ==> r.error == ValidateAmount(body).error
  {
    match ValidateAmount(body)
    case Failure(e) => Failure(e)
    case Success(d) => Success(balance + Value(d))
  }

  /** What the withdraw handler answers for an existing account: the new balance
      after subtracting the validated amount, the first validation error, or
      insufficient balance when the account holds less than the amount. */
  function WithdrawResponse(balance: real, body: Body<AmountField>): (r: Result<real, Error>)
    ensures r.Success? <==> ValidateAmount(body).Success? && Value(ValidateAmount(body).value) <= balance
    ensures r.Success? ==> r.value == balance - Value(ValidateAmount(body).value)
    ensures r.Success? ==> 0.0 <= r.value < balance
    ensures r == Failure(InsufficientBalance) <==>
              ValidateAmount(body).Success? && Value(ValidateAmount(body).value) > balance
    ensures ValidateAmount(body).Failure? ==> r == Failure(ValidateAmount(body).error)
  {
    match ValidateAmount(body)
    case Failure(e) => Failure(e)
    case Success(d) =>
      if 0.0 < Value(d) <= balance then Success(balance - Value(d)) else Failure(InsufficientBalance)
  }

  /** The balance an account holds after a deposit or withdraw handler answered `r`. */
  function BalanceAfter(before: real, r: Result<real, Error>): real
  {
    if r.Success? then r.value else before
  }

  /** `POST /accounts`: a missing payload is an error; otherwise the "balance"
      field, 0 when absent and not checked otherwise, opens a new account. */
  method CreateAccountRoute(manager: AccountManager, body: Body<real>, draw: int)
    returns (r: Result<(string, real), Error>)
    requires manager.Valid()
    requires 1000 <= draw <= 9999
    modifies manager`accounts
    ensures manager.Valid()
    ensures body.NoPayload? <==> r.Failure?
    ensures r.Failure? ==> r.error == MissingPayload && manager.accounts == old(manager.accounts)
    ensures old(manager.AllNonNegative()) && (body.Payload? && body.field.Some? ==> body.field.value >= 0.0)
            ==> manager.AllNonNegative()
    ensures r.Success? ==>
              var (number, balance) := r.value;
              && number == DecimalString(draw)
              && balance == (if body.field.Some? then body.field.value else 0.0)
              && number in manager.accounts
              && manager.accounts[number].balance == balance
              && fresh(manager.accounts[number])
              && manager.accounts == old(manager.accounts)[number := manager.accounts[number]]
  {
    if body.NoPayload? {
      return Failure(MissingPayload);
    }
    var balance := if body.field.Some? then body.field.value else 0.0;
    var account := manager.CreateAccount(draw, balance);
    r := Success((account.accountNumber, account.balance));
  }

  /** `GET /accounts/<number>/balance`: the balance, or not found; changes nothing. */
  method BalanceRoute(manager: AccountManager, number: string) returns (r: Result<real, Error>)
    ensures number in manager.accounts <==> r.Success?
    ensures r.Success? ==> r.value == manager.accounts[number].balance
    ensures r.Failure? ==> r.error == AccountNotFound
  {
    var account := manager.GetAccount(number);
    if account.None? {
      return Failure(AccountNotFound);
    }
    var balance := account.value.GetBalance();
    r := Success(balance);
  }

  /** `POST /accounts/<number>/deposit`: an unknown account is reported before the
      body is looked at; otherwise the answer is `DepositResponse`, and only the
      addressed account's balance can change. */
  method DepositRoute(manager: AccountManager, number: string, body: Body<AmountField>)
    returns (r: Result<real, Error>)
    requires manager.Valid()
    modifies manager.accounts.Values
    ensures number !in manager.accounts ==> r == Failure(AccountNotFound)
    ensures number in manager.accounts ==>
              && r == DepositResponse(old(manager.accounts[number].balance), body)
              && manager.accounts[number].balance == BalanceAfter(old(manager.accounts[number].balance), r)
    ensures forall n | n in manager.accounts && n != number ::
              manager.accounts[n].balance == old(manager.accounts[n].balance)
    ensures old(manager.AllNonNegative()) ==> manager.AllNonNegative()
  {
    var found := manager.GetAccount(number);
    if found.None? {
      return Failure(AccountNotFound);
    }
    var account := found.value;
    match ValidateAmount(body)
    case Failure(e) =>
      r := Failure(e);
    case Success(d) =>
      account.Deposit(Value(d));
      var balance := account.GetBalance();
      r := Success(balance);
  }

  /** `POST /accounts/<number>/withdraw`: like the deposit handler, and a `false`
      from `Withdraw` on a validated amount is reported as insufficient balance. */
  method WithdrawRoute(manager: AccountManager, number: string, body: Body<AmountField>)
    returns (r: Result<real, Error>)
    requires manager.Valid()
    modifies manager.accounts.Values
    ensures number !in manager.accounts ==> r == Failure(AccountNotFound)
    ensures number in manager.accounts ==>
              && r == WithdrawResponse(old(manager.accounts[number].balance), body)
              && manager.accounts[number].balance == BalanceAfter(old(manager.accounts[number].balance), r)
    ensures forall n | n in manager.accounts && n != number ::
              manager.accounts[n].balance == old(manager.accounts[n].balance)
    ensures old(manager.AllNonNegative()) ==> manager.AllNonNegative()
  {
    var found := manager.GetAccount(number);
    if found.None? {
      return Failure(AccountNotFound);
    }
    var account := found.value;
    match ValidateAmount(body)
    case Failure(e) =>
      r := Failure(e);
    case Success(d) =>
      var ok := account.Withdraw(Value(d));
      if ok {
        var balance := account.GetBalance();
        r := Success(balance);
      } else {
        r := Failure(InsufficientBalance);
      }
  }
}
