# Bank ledger — a Dafny model

This project models the core of a small in-memory bank ledger service written
in Python with Flask. The service opens accounts with four-digit numbers and
answers balance inquiries, deposits and withdrawals.

- `account.py` holds the domain. An `Account` has an account number and a
  balance. `deposit` and `withdraw` change that balance in place, behind guards.
  An `AccountManager` files every account in a dictionary under its own number.
- `app.py` holds the request handlers. Before touching an account, the deposit
  and withdraw handlers run a fixed chain of early-return checks on the
  requested amount. The amount is a Python `Decimal`. One check looks at how
  the decimal is written (its exponent), not at its value.

Files:

- `wrappers.dfy`: `Option` and `Result`.
- `decimals.dfy`: a finite `Decimal` as Python stores it: a sign bit, a
  coefficient and an exponent. It gives the exact value of a decimal as a
  `real`, its value in cents, and the fact that trailing zeros do not change
  the value.
- `accounts.dfy`: the classes `Account` and `AccountManager`. Their methods
  state the new balance or the new dictionary. It also models `str()` of the
  drawn account number and proves that round trip.
- `app.dfy`: the handlers of `app.py`. `ValidateDecimal` and `ValidateAmount`
  are the validation chain as pure functions. `DepositResponse` and
  `WithdrawResponse` say what a handler answers for an existing account. The
  route methods run the handlers against the account manager and are proved
  against those functions.
- `properties.dfy`: lemmas that relate the functions above. It also holds a
  walk-through client that drives the routes through one account's life.

Modelling choices:

- Money is an exact `real`. The source keeps balances as Python floats and
  converts each validated `Decimal` with `float(d)`; the model does no rounding.
- `random.randint(1000, 9999)` becomes a `draw` argument that must lie in that
  range. `str()` of it is `DecimalString`.
- The process-wide singleton store becomes one `AccountManager` built by its
  constructor and passed to every handler.
- A request body is reduced to what a handler reads from it: no payload, or a
  payload where the one field the handler looks up is present or absent.
  A present "amount" either fails to parse or is a finite `Decimal`.
- `accountNumber` is a `const`. The source assigns it once in `__init__` and
  never again.
- The source's guards stay in the domain methods. `Account.Deposit` ignores
  amounts that are not positive. `Account.Withdraw` returns false for every
  amount outside `0 < amount <= balance`.

Two behaviours of the code shape what the model proves:

- `balance >= 0` is not an invariant of the store. `create_account` stores
  its initial balance unchecked (account.py:32, account.py:101). The model
  proves that `Deposit`, `Withdraw`, `DepositRoute` and `WithdrawRoute`
  preserve non-negativity. `CreateAccountRoute` preserves it only when the
  given balance is non-negative, and the model does not promise more.
- An account whose own number is `None` or `""` also gets a drawn number,
  because the source tests that argument for truth.

## Model

| member | source | states |
|---|---|---|
| Accounts.DecimalString | account.py:31 | `str()` of a drawn number is non-empty, all decimal digits, and starts with `0` only for zero |
| Accounts.ParseDecimalString | account.py:31 | reading the digits of `str(n)` back gives `n`, so the account number names the drawn integer |
| Accounts.DecimalStringInjective | account.py:31 | two drawn numbers give the same account number exactly when the draws are equal, which is the only way a later account can overwrite an earlier one |
| Accounts.FourDigitNumber | account.py:31 | every number in 1000..9999 is written with exactly four digits |
| Accounts.Account.constructor | account.py:21-32 | a given non-empty number is kept as is; a missing or empty number is replaced by the drawn one; the initial balance is stored unchecked |
| Accounts.Account.GetBalance | account.py:34-41 | returns the balance and changes nothing |
| Accounts.Account.Deposit | account.py:43-51 | adds a positive amount and ignores any other; the balance never decreases and stays non-negative if it was; only the balance field may change |
| Accounts.Account.Withdraw | account.py:53-66 | succeeds exactly when `0 < amount <= old balance`; on success subtracts the amount, on failure leaves the balance alone; a non-negative balance stays non-negative |
| Accounts.AccountManager.constructor | account.py:79-89 | the store starts empty and consistent |
| Accounts.AccountManager.CreateAccount | account.py:91-103 | a fresh account with a four-digit drawn number and the given balance is filed under its own number; every other entry is unchanged and an entry under the same number is replaced; key/number consistency is kept |
| Accounts.AccountManager.GetAccount | account.py:105-115 | returns the account filed under the number, or none when it is absent; a found account carries that number when the store is consistent |
| Decimals.SignOfValue | app.py:82-86 | a decimal is negative exactly when its sign bit is set and its coefficient is non-zero, and zero exactly when its coefficient is zero, so `-0.00` is zero |
| Decimals.TrailingZerosKeepValue | app.py:88 | appending trailing zeros (`1.5` to `1.500`) never changes the value |
| App.ValidateDecimal | app.py:82-92 | accepts exactly the amounts with `0 < value <= 99999999` and exponent at least -2; names the error each failing amount gets, by its representation, in the order negative, zero, decimal places, maximum |
| App.ValidateAmount | app.py:69-92 | a missing payload, a missing `amount` key and an unparseable amount are reported in that order before any check on the number; a parsed amount gets exactly the verdict of `ValidateDecimal`, its error included |
| App.DepositResponse | app.py:76-95 | a deposit succeeds exactly when the amount validates, with the old balance plus the amount; otherwise it reports the validation error |
| App.WithdrawResponse | app.py:116-136 | a withdrawal succeeds exactly when the amount validates and is at most the balance, with the old balance minus the amount; insufficient balance is reported exactly for a validated amount above the balance |
| App.CreateAccountRoute | app.py:28-42 | a missing payload is rejected with the store unchanged; otherwise a new account holding the given balance (0 when absent) is filed under its drawn number and returned; all balances stay non-negative when they were and the given balance is not negative |
| App.BalanceRoute | app.py:44-55 | reports the balance of a known account and not-found for an unknown one, changing nothing |
| App.DepositRoute | app.py:57-95 | an unknown account is reported before the body is read and nothing changes; for a known one the answer is `DepositResponse` of the old balance, the account ends with the reported balance or keeps its own, and every other account is unchanged |
| App.WithdrawRoute | app.py:97-136 | as for deposits, with `WithdrawResponse`; a `false` from `Withdraw` on a validated amount is reported as insufficient balance |
| LedgerProperties.AcceptedExactlyWholeCents | app.py:82-92 | an amount is accepted exactly when it has exponent at least -2 and is a whole number of cents from 1 to 9999999900 |
| LedgerProperties.EveryCentAmountAccepted | app.py:82-92 | every whole number of cents within the limit, written with two decimal places, is accepted with the value cents/100 |
| LedgerProperties.ScaleNotValueDecides | app.py:88 | every accepted amount, padded with zeros to three decimal places, has the same value and is rejected for too many decimal places |
| LedgerProperties.OnePointFiveZeroZero | app.py:88 | `1.50` is accepted and `1.500`, equal to it, is rejected |
| LedgerProperties.BoundaryAmounts | app.py:82-92 | `-0.001` is negative, `0.000` and `-0.00` are zero, `0.001` and `12.345` have too many decimal places, `100000000` and `1E+8` are too large, and `99999999` is accepted |
| LedgerProperties.ValidationShared | app.py:109-132 | deposit and withdraw report the same error for every body that fails validation, whatever the balances, and keep the balance |
| LedgerProperties.WithdrawFailsOnlyForFunds | app.py:134-136 | after validation, a withdrawal fails exactly when the amount exceeds the balance, always as insufficient balance, and a deposit cannot fail |
| LedgerProperties.ResponsesKeepNonNegative | app.py:94-136 | from a non-negative balance, a deposit never lowers it and a withdrawal never takes it below zero |

## Left out

- HTTP transport is not modelled: Flask routing, `request.get_json`, `jsonify`, status codes, CORS, `dotenv`, `BACKEND_URL` and `app.run` with its host and port.
- The error message texts are not modelled. The deposit and withdraw messages differ only in their "Deposit failed" and "Withdrawal failed" prefixes; the model keeps one error tag per check.
- Parsing text into a `Decimal` (`Decimal(str(amount))`) is Python library code. An amount is either unparseable or a finite decimal. So a JSON number `1.500` reaches the checks as the float text `1.5`, and only a string keeps its trailing zeros; the model starts after that conversion.
- `NaN`, `Infinity` and `-Infinity` amounts are not modelled. They all parse. `NaN` then raises an uncaught error at the sign check (app.py:82). `Infinity` raises one at the exponent check (app.py:88). `-Infinity` is below zero, so the handler reports a negative amount (app.py:82-83).
- Float arithmetic is not modelled. `float(d)` and float balances are replaced by exact reals, so the model has no rounding error.
- A payload that is valid JSON but not an object (a list, a string) is not modelled. For those, the `"amount" in data` test means something else in Python.
- The "balance" field of account creation is taken as a number. The source accepts any JSON value there unchecked, and a non-numeric balance makes later deposits (account.py:51) and withdrawals (account.py:63) raise.
- The randomness of `random.randint` is not modelled. The drawn number is an argument.
- The singleton mechanics of `AccountManager.__new__`, and any concurrency, are not modelled.
