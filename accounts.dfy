/**
 * The account domain of the ledger (account.py): an account with a number and a
 * balance that deposits and withdrawals change in place, and the manager that
 * owns every account in a dictionary keyed by account number.
 *
 * Money is an exact `real`.  Python's `random.randint(1000, 9999)` becomes a
 * `draw` parameter that the caller supplies in that range, and `str(n)` of an
 * integer becomes `DecimalString(n)`.
 */
module Accounts {
  import opened Wrappers

  predicate IsDigit(ch: char)
  {
    '0' <= ch <= '9'
  }

  predicate AllDigits(s: string)
  {
    forall i :: 0 <= i < |s| ==> IsDigit(s[i])
  }

  function DigitChar(n: nat): (ch: char)
    requires n < 10
    ensures IsDigit(ch)
  {
    ('0' as int + n) as char
  }

  function DigitValue(ch: char): (n: nat)
    requires IsDigit(ch)
    ensures n < 10 && DigitChar(n) == ch
  {
    ch as int - '0' as int
  }

  /** Python's `str(n)` for a non-negative integer: its decimal digits,
      with a leading zero only for zero itself. */
  function DecimalString(n: nat): (s: string)
    ensures |s| >= 1 && AllDigits(s)
    ensures s[0] == '0' <==> n == 0
  {
    if n < 10 then [DigitChar(n)] else DecimalString(n / 10) + [DigitChar(n % 10)]
  }

  /** The integer a string of decimal digits spells. */
  function ParseDigits(s: string): nat
    requires AllDigits(s)
  {
    if s == [] then 0 else 10 * ParseDigits(s[..|s| - 1]) + DigitValue(s[|s| - 1])
  }

  /** `int(str(n)) == n`: the account number names the drawn integer. */
  lemma {:induction false} ParseDecimalString(n: nat)
    ensures ParseDigits(DecimalString(n)) == n
  {
    var s := DecimalString(n);
    if n >= 10 {
      assert s[..|s| - 1] == DecimalString(n / 10);
      ParseDecimalString(n / 10);
    }
  }

  /** Two draws give the same account number exactly when they are equal. */
  lemma DecimalStringInjective(m: nat, n: nat)
    ensures DecimalString(m) == DecimalString(n) <==> m == n
  {
    if DecimalString(m) == DecimalString(n) {
      ParseDecimalString(m);
      ParseDecimalString(n);
    }
  }

  /** A drawn number in 1000..9999 is written with exactly four digits. */
  lemma FourDigitNumber(n: nat)
    requires 1000 <= n <= 9999
    ensures |DecimalString(n)| == 4 && AllDigits(DecimalString(n))
  {
    assert |DecimalString(n / 1000)| == 1;
    assert |DecimalString(n / 100)| == 2 by {
      assert (n / 100) / 10 == n / 1000;
    }
    assert |DecimalString(n / 10)| == 3 by {
      assert (n / 10) / 10 == n / 100;
    }
  }

  /** Python's truth test on the optional account number: `None` and `""` are false. */
  predicate Given(number: Option<string>)
  {
    number.Some? && number.value != ""
  }

  /** A bank account: a number fixed at creation and a balance changed in place. */
  class Account {
    const accountNumber: string
    var balance: real

    /** `Account(account_number, balance)`: an absent or empty number is replaced
        by the decimal string of the draw; the initial balance is not checked. */
    constructor (draw: int, number: Option<string> := None, initial: real := 0.0)
      requires 1000 <= draw <= 9999
      ensures accountNumber == if Given(number) then number.value else DecimalString(draw)
      ensures balance == initial
    {
      accountNumber := if Given(number) then number.value else DecimalString(draw);
      balance := initial;
    }

    /** `get_balance`: reports the balance and changes nothing. */
    method GetBalance() returns (b: real)
      ensures b == balance
    {
      b := balance;
    }

    /** `deposit`: a positive amount is added; any other amount is ignored. */
    method Deposit(amount: real)
      modifies this`balance
      ensures balance == if amount > 0.0 then old(balance) + amount else old(balance)
      ensures balance >= old(balance)
      ensures old(balance) >= 0.0 ==> balance >= 0.0
    {
      if amount > 0.0 {
        balance := balance + amount;
      }
    }

    /** `withdraw`: succeeds, and subtracts, exactly when `0 < amount <= balance`;
        a failure does not say which condition was violated. */
    method Withdraw(amount: real) returns (ok: bool)
      modifies this`balance
      ensures ok <==> 0.0 < amount <= old(balance)
      ensures balance == if ok then old(balance) - amount else old(balance)
      ensures balance <= old(balance)
      ensures old(balance) >= 0.0 ==> balance >= 0.0
    {
      if 0.0 < amount <= balance {
        balance := balance - amount;
        return true;
      }
      return false;
    }
  }

  /** The store of all accounts, keyed by account number. */
  class AccountManager {
    var accounts: map<string, Account>

    /** Every account is filed under its own number. */
    ghost predicate Valid()
      reads this
    {
      forall number | number in accounts :: accounts[number].accountNumber == number
    }

    /** No account holds a negative balance. */
    ghost predicate AllNonNegative()
      reads this, accounts.Values
    {
      forall number | number in accounts :: accounts[number].balance >= 0.0
    }

    /** The one store of the process, empty when it starts. */
    constructor ()
      ensures Valid() && accounts == map[]
    {
      accounts := map[];
    }

    /** `create_account`: a fresh account with a drawn number and the given balance,
        filed under its number; an account already filed under that number is
        replaced, and every other entry stays as it was. */
    method CreateAccount(draw: int, balance: real := 0.0) returns (account: Account)
      requires Valid()
      requires 1000 <= draw <= 9999
      modifies this`accounts
      ensures Valid()
      ensures fresh(account) && account.balance == balance
      ensures account.accountNumber == DecimalString(draw) && |account.accountNumber| == 4
      ensures accounts == old(accounts)[account.accountNumber := account]
      ensures old(AllNonNegative()) && balance >= 0.0 ==> AllNonNegative()
    {
      account := new Account(draw, initial := balance);
      FourDigitNumber(draw);
      accounts := accounts[account.accountNumber := account];
    }

    /** `get_account`: the account filed under the number, if any; changes nothing. */
    method GetAccount(number: string) returns (r: Option<Account>)
      ensures r.Some? <==> number in accounts
      ensures r.Some? ==> r.value == accounts[number]
      ensures r.Some? && Valid() ==> r.value.accountNumber == number
    {
      if number in accounts {
        r := Some(accounts[number]);
      } else {
        r := None;
      }
    }
  }
}
