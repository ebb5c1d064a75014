/**
  The service of internal/bank/service.go over the repository of internal/bank/repo.go, as objects: tables
  are changed statement by statement, and a failed transaction is rolled back. Each operation is proved to
  answer and to leave the tables as the request run alone does.
 */
module BankService {
  import opened Values
  import opened BankTables

  /** A row of the balances table as read into memory. */
  datatype Balance = Balance(accountId: int, amount: Int64)

  /** The repository: one database connection. */
  class Repo {
    var currencies: map<string, int>
    var accounts: map<int, Account>
    var balances: map<int, Int64>
    var keys: set<string>
    var rows: map<int, Row>

    constructor ()
      ensures State() == EMPTY_TABLES
    {
      currencies, accounts, balances, keys, rows := map[], map[], map[], {}, map[];
    }

    function State(): Tables
      reads this
    {
      Tables(currencies, accounts, balances, keys, rows)
    }

    /** Undoes a transaction. */
    method Rollback(to: Tables)
      modifies this
      ensures State() == to
    {
      currencies, accounts, balances, keys, rows := to.currencies, to.accounts, to.balances, to.keys, to.rows;
    }

    method InsertCurrency(id: string, decimals: int) returns (ok: bool)
      modifies this
      ensures ok <==> id !in old(currencies)
      ensures State() == old(State()).(currencies := if ok then old(currencies)[id := decimals] else old(currencies))
    {
      ok := id !in currencies;
      if ok {
        currencies := currencies[id := decimals];
      }
    }

    method CurrencyExists(id: string) returns (known: bool)
      ensures known <==> id in currencies
    {
      known := id in currencies;
    }

    method InsertAccount(id: int, account: Account) returns (ok: bool)
      modifies this
      ensures ok <==> id !in old(accounts)
      ensures State() == old(State()).(accounts := if ok then old(accounts)[id := account] else old(accounts))
    {
      ok := id !in accounts;
      if ok {
        accounts := accounts[id := account];
      }
    }

    method InsertZeroBalance(id: int) returns (ok: bool)
      modifies this
      ensures ok <==> id !in old(balances)
      ensures State() == old(State()).(balances := if ok then old(balances)[id := 0] else old(balances))
    {
      ok := id !in balances;
      if ok {
        balances := balances[id := 0];
      }
    }

    method GetAccountCurrencyID(id: int) returns (currency: string)
      ensures currency == AccountCurrency(State(), id)
    {
      currency := if id in accounts then accounts[id].currency else "";
    }

    /** Returns the number of rows inserted: 0 if the key is already there. */
    method InsertIdempotencyKey(key: string) returns (rowsChanged: int)
      modifies this
      ensures rowsChanged == if key in old(keys) then 0 else 1
      ensures State() == old(State()).(keys := old(keys) + {key})
    {
      rowsChanged := if key in keys then 0 else 1;
      keys := keys + {key};
    }

    method GetBalanceWithLock(id: int) returns (balance: Option<Balance>)
      ensures balance == if id in balances then Some(Balance(id, balances[id])) else None
    {
      balance := if id in balances then Some(Balance(id, balances[id])) else None;
    }

    method UpdateBalance(b: Balance)
      modifies this
      ensures State() == old(State()).(balances :=
        if b.accountId in old(balances) then old(balances)[b.accountId := b.amount] else old(balances))
    {
      if b.accountId in balances {
        balances := balances[b.accountId := b.amount];
      }
    }

    method InsertTransaction(id: int, row: Row) returns (ok: bool)
      modifies this
      ensures ok <==> id !in old(rows)
      ensures State() == old(State()).(rows := if ok then old(rows)[id := row] else old(rows))
    {
      ok := id !in rows;
      if ok {
        rows := rows[id := row];
      }
    }
  }

  /** The stage after `k` fails, so the whole request fails with that error and changes nothing. */
  lemma FailsAt(db: Tables, r: Request, k: nat, l: Locals, e: Error)
    requires k < Stages(r) && Run(db, r, k) == At(l) && Advance(db, r, k, l) == Failed(e)
    ensures Answered(db, r) == Failure(e) && After(db, r) == db
  {
    FailureLasts(db, r, k + 1, Stages(r));
  }

  class Service {
    const repo: Repo

    constructor (repo: Repo)
      ensures this.repo == repo
    {
      this.repo := repo;
    }

    method CreateCurrency(id: string, decimals: int) returns (answer: Answer)
      modifies repo
      ensures answer == Answered(old(repo.State()), Request.CreateCurrency(id, decimals))
      ensures repo.State() == After(old(repo.State()), Request.CreateCurrency(id, decimals))
    {
      ghost var db, r := repo.State(), Request.CreateCurrency(id, decimals);
      if !CurrencyIdMatches(id) {
        FailsAt(db, r, 0, START, ErrInvalidCurrencyID);
        return Failure(ErrInvalidCurrencyID);
      }
      if decimals < 0 {
        FailsAt(db, r, 0, START, ErrInvalidCurrencyDecimals);
        return Failure(ErrInvalidCurrencyDecimals);
      }
      SucceedsExactly(db, r);
      var ok := repo.InsertCurrency(id, decimals);
      if !ok {
        FailsAt(db, r, 1, START, ErrCurrencyAlreadyExists);
        return Failure(ErrCurrencyAlreadyExists);
      }
      return Success(Response.Done);
    }

    method CreateAccount(key: string, name: string, currency: string, newId: int) returns (answer: Answer)
      modifies repo
      ensures answer == Answered(old(repo.State()), Request.CreateAccount(key, name, currency, newId))
      ensures repo.State() == After(old(repo.State()), Request.CreateAccount(key, name, currency, newId))
    {
      ghost var db, r := repo.State(), Request.CreateAccount(key, name, currency, newId);
      if name == "" {
        FailsAt(db, r, 0, START, ErrAccountNameInvalid);
        return Failure(ErrAccountNameInvalid);
      }
      var known := repo.CurrencyExists(currency);
      if !known {
        FailsAt(db, r, 0, START, ErrCurrencyNotFound);
        return Failure(ErrCurrencyNotFound);
      }
      var before := repo.State();
      answer := CreateAccountTx(key, Account(name, currency), newId, r);
      if answer.Failure? {
        repo.Rollback(before);
      }
    }

    method CreateAccountTx(key: string, account: Account, newId: int, ghost r: Request) returns (answer: Answer)
      requires r == Request.CreateAccount(key, account.name, account.currency, newId)
      requires Run(repo.State(), r, 1) == At(START)
      modifies repo
      ensures answer == Answered(old(repo.State()), r)
      ensures if answer.Success? then repo.State() == After(old(repo.State()), r)
        else After(old(repo.State()), r) == old(repo.State())
    {
      ghost var db := repo.State();
      SucceedsExactly(db, r);
      var rowsChanged := repo.InsertIdempotencyKey(key);
      if rowsChanged == 0 {
        FailsAt(db, r, 1, START, ErrIdempotencyKeyExists);
        return Failure(ErrIdempotencyKeyExists);
      }
      assert Run(db, r, 2) == At(START);
      var ok := repo.InsertAccount(newId, account);
      if ok {
        ok := repo.InsertZeroBalance(newId);
      }
      if !ok {
        FailsAt(db, r, 2, START, UniqueViolation);
        return Failure(UniqueViolation);
      }
      return Success(AccountCreated(newId));
    }

    method Deposit(key: string, account: int, amount: Int64, rowId: int) returns (answer: Answer)
      modifies repo
      ensures answer == Answered(old(repo.State()), Request.Deposit(key, account, amount, rowId))
      ensures repo.State() == After(old(repo.State()), Request.Deposit(key, account, amount, rowId))
    {
      ghost var db, r := repo.State(), Request.Deposit(key, account, amount, rowId);
      if amount <= 0 {
        FailsAt(db, r, 0, START, ErrInvalidTransactionAmount);
        return Failure(ErrInvalidTransactionAmount);
      }
      var before := repo.State();
      answer := DepositTx(key, account, amount, rowId, r);
      if answer.Failure? {
        repo.Rollback(before);
      }
    }

    method DepositTx(key: string, account: int, amount: Int64, rowId: int, ghost r: Request) returns (answer: Answer)
      requires r == Request.Deposit(key, account, amount, rowId) && Run(repo.State(), r, 1) == At(START)
      modifies repo
      ensures answer == Answered(old(repo.State()), r)
      ensures if answer.Success? then repo.State() == After(old(repo.State()), r)
        else After(old(repo.State()), r) == old(repo.State())
    {
      ghost var db := repo.State();
      SucceedsExactly(db, r);
      var rowsChanged := repo.InsertIdempotencyKey(key);
      if rowsChanged == 0 {
        FailsAt(db, r, 1, START, ErrIdempotencyKeyExists);
        return Failure(ErrIdempotencyKeyExists);
      }
      assert Run(db, r, 2) == At(START);
      var found := repo.GetBalanceWithLock(account);
      if found.None? {
        FailsAt(db, r, 2, START, ErrAccountNotFound);
        return Failure(ErrAccountNotFound);
      }
      var balance := found.value;
      var balanceBefore := balance.amount;
      assert Run(db, r, 3) == At(START.(first := balanceBefore));
      balance := balance.(amount := Wrap(balance.amount + amount));
      var balanceAfter := balance.amount;
      repo.UpdateBalance(balance);
      var ok := repo.InsertTransaction(rowId, Row(account, TxDeposit, amount, None));
      if !ok {
        FailsAt(db, r, 3, START.(first := balanceBefore), UniqueViolation);
        return Failure(UniqueViolation);
      }
      return Success(BalanceMoved(balanceBefore, balanceAfter));
    }

    method Withdraw(key: string, account: int, amount: Int64, rowId: int) returns (answer: Answer)
      modifies repo
      ensures answer == Answered(old(repo.State()), Request.Withdraw(key, account, amount, rowId))
      ensures repo.State() == After(old(repo.State()), Request.Withdraw(key, account, amount, rowId))
    {
      ghost var db, r := repo.State(), Request.Withdraw(key, account, amount, rowId);
      if amount <= 0 {
        FailsAt(db, r, 0, START, ErrInvalidTransactionAmount);
        return Failure(ErrInvalidTransactionAmount);
      }
      var before := repo.State();
      answer := WithdrawTx(key, account, amount, rowId, r);
      if answer.Failure? {
        repo.Rollback(before);
      }
    }

    method WithdrawTx(key: string, account: int, amount: Int64, rowId: int, ghost r: Request) returns (answer: Answer)
      requires r == Request.Withdraw(key, account, amount, rowId) && Run(repo.State(), r, 1) == At(START)
      modifies repo
      ensures answer == Answered(old(repo.State()), r)
      ensures if answer.Success? then repo.State() == After(old(repo.State()), r)
        else After(old(repo.State()), r) == old(repo.State())
    {
      ghost var db := repo.State();
      SucceedsExactly(db, r);
      var rowsChanged := repo.InsertIdempotencyKey(key);
      if rowsChanged == 0 {
        FailsAt(db, r, 1, START, ErrIdempotencyKeyExists);
        return Failure(ErrIdempotencyKeyExists);
      }
      assert Run(db, r, 2) == At(START);
      var found := repo.GetBalanceWithLock(account);
      if found.None? {
        FailsAt(db, r, 2, START, ErrAccountNotFound);
        return Failure(ErrAccountNotFound);
      }
      var balance := found.value;
      var balanceBefore := balance.amount;
      balance := balance.(amount := Wrap(balance.amount - amount));
      if balance.amount < 0 {
        FailsAt(db, r, 2, START, ErrInsufficientBalance);
        return Failure(ErrInsufficientBalance);
      }
      assert Run(db, r, 3) == At(START.(first := balanceBefore));
      var balanceAfter := balance.amount;
      repo.UpdateBalance(balance);
      var ok := repo.InsertTransaction(rowId, Row(account, TxWithdrawal, Wrap(-(amount as int)), None));
      if !ok {
        FailsAt(db, r, 3, START.(first := balanceBefore), UniqueViolation);
        return Failure(UniqueViolation);
      }
      return Success(BalanceMoved(balanceBefore, balanceAfter));
    }

    method Transfer(key: string, from: int, to: int, amount: Int64, debitId: int, creditId: int)
      returns (answer: Answer)
      modifies repo
      ensures answer == Answered(old(repo.State()), Request.Transfer(key, from, to, amount, debitId, creditId))
      ensures repo.State() == After(old(repo.State()), Request.Transfer(key, from, to, amount, debitId, creditId))
    {
      ghost var db, r := repo.State(), Request.Transfer(key, from, to, amount, debitId, creditId);
      if amount == 0 {
        FailsAt(db, r, 0, START, ErrInvalidTransactionAmount);
        return Failure(ErrInvalidTransactionAmount);
      }
      assert Run(db, r, 1) == At(START);
      var fromCurrency := repo.GetAccountCurrencyID(from);
      if fromCurrency == "" {
        FailsAt(db, r, 1, START, ErrTransferFromAccountNotFound);
        return Failure(ErrTransferFromAccountNotFound);
      }
      ghost var l := START.(currency := fromCurrency);
      assert Run(db, r, 2) == At(l);
      var toCurrency := repo.GetAccountCurrencyID(to);
      if toCurrency == "" {
        FailsAt(db, r, 2, l, ErrTransferToAccountNotFound);
        return Failure(ErrTransferToAccountNotFound);
      }
      if fromCurrency != toCurrency {
        FailsAt(db, r, 2, l, ErrTransferCurrencyMismatch);
        return Failure(ErrTransferCurrencyMismatch);
      }
      var before := repo.State();
      answer := TransferTx(key, from, to, amount, debitId, creditId, r, l);
      if answer.Failure? {
        repo.Rollback(before);
      }
    }

    method TransferTx(key: string, from: int, to: int, amount: Int64, debitId: int, creditId: int, ghost r: Request,
                      ghost l: Locals)
      returns (answer: Answer)
      requires r == Request.Transfer(key, from, to, amount, debitId, creditId) && Run(repo.State(), r, 3) == At(l)
      modifies repo
      ensures answer == Answered(old(repo.State()), r)
      ensures if answer.Success? then repo.State() == After(old(repo.State()), r)
        else After(old(repo.State()), r) == old(repo.State())
    {
      ghost var db := repo.State();
      SucceedsExactly(db, r);
      var rowsChanged := repo.InsertIdempotencyKey(key);
      if rowsChanged == 0 {
        FailsAt(db, r, 3, l, ErrIdempotencyKeyExists);
        return Failure(ErrIdempotencyKeyExists);
      }
      assert Run(db, r, 4) == At(l);
      var foundFrom := repo.GetBalanceWithLock(from);
      if foundFrom.None? {
        FailsAt(db, r, 4, l, BalanceMissing(from));
        return Failure(BalanceMissing(from));
      }
      var fromBalance := foundFrom.value;
      if fromBalance.amount < amount {
        FailsAt(db, r, 4, l, ErrInsufficientBalance);
        return Failure(ErrInsufficientBalance);
      }
      ghost var l5 := l.(first := fromBalance.amount);
      assert Run(db, r, 5) == At(l5);
      var foundTo := repo.GetBalanceWithLock(to);
      if foundTo.None? {
        FailsAt(db, r, 5, l5, BalanceMissing(to));
        return Failure(BalanceMissing(to));
      }
      var toBalance := foundTo.value;
      ghost var l6 := l5.(second := toBalance.amount);
      assert Run(db, r, 6) == At(l6);
      var fromBefore, toBefore := fromBalance.amount, toBalance.amount;
      fromBalance := fromBalance.(amount := Wrap(fromBalance.amount - amount));
      toBalance := toBalance.(amount := Wrap(toBalance.amount + amount));
      var fromAfter, toAfter := fromBalance.amount, toBalance.amount;
      repo.UpdateBalance(fromBalance);
      repo.UpdateBalance(toBalance);
      var ok := repo.InsertTransaction(debitId, Row(from, TxTransfer, Wrap(-(amount as int)), None));
      if !ok {
        FailsAt(db, r, 6, l6, UniqueViolation);
        return Failure(UniqueViolation);
      }
      assert Run(db, r, 7) == At(l6);
      ok := repo.InsertTransaction(creditId, Row(to, TxTransfer, amount, Some(debitId)));
      if !ok {
        FailsAt(db, r, 7, l6, UniqueViolation);
        return Failure(UniqueViolation);
      }
      return Success(Transferred(fromBefore, fromAfter, toBefore, toAfter));
    }
  }
}
