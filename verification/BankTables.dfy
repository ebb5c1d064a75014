/**
  The bank's tables and what one request does to them when it runs alone.

  A request runs in stages, in the order of internal/bank/service.go: checks before the
  transaction, the idempotency key, locked reads, and inserts. `Advance` is one stage against the
  committed tables; `Effects` is what its commit writes. Ids drawn from the id provider are part of
  the request, and 64-bit arithmetic wraps as in Go.
 */
module BankTables {
  import opened Values

  // ----- 64-bit integers -----

  const TWO_64: int := 0x1_0000_0000_0000_0000

  predicate InRange(x: int) { -TWO_63 <= x < TWO_63 }

  type Int64 = x: int | InRange(x)

  function Wrap(x: int): (w: Int64)
    ensures w == x <==> InRange(x)
  {
    (x + TWO_63) % TWO_64 - TWO_63
  }

  // ----- tables -----

  datatype Account = Account(name: string, currency: string)

  datatype TxType = TxDeposit | TxWithdrawal | TxTransfer

  datatype Row = Row(account: int, kind: TxType, amount: Int64, parent: Option<int>)

  datatype Tables = Tables(
    currencies: map<string, int>,
    accounts: map<int, Account>,
    balances: map<int, Int64>,
    keys: set<string>,
    rows: map<int, Row>)

  const EMPTY_TABLES := Tables(map[], map[], map[], {}, map[])

  // ----- requests and answers -----

  datatype Request =
    | CreateCurrency(id: string, decimals: int)
    | CreateAccount(key: string, name: string, currency: string, newId: int)
    | Deposit(key: string, account: int, amount: Int64, rowId: int)
    | Withdraw(key: string, account: int, amount: Int64, rowId: int)
    | Transfer(key: string, from: int, to: int, amount: Int64, debitId: int, creditId: int)

  datatype Error =
    | ErrInvalidCurrencyID
    | ErrInvalidCurrencyDecimals
    | ErrCurrencyAlreadyExists
    | ErrAccountNameInvalid
    | ErrCurrencyNotFound
    | ErrIdempotencyKeyExists
    | ErrAccountNotFound
    | ErrInsufficientBalance
    | ErrInvalidTransactionAmount
    | ErrTransferFromAccountNotFound
    | ErrTransferToAccountNotFound
    | ErrTransferCurrencyMismatch
    | BalanceMissing(missing: int)
    | UniqueViolation

  datatype Response =
    | Done
    | AccountCreated(id: int)
    | BalanceMoved(before: Int64, after: Int64)
    | Transferred(fromBefore: Int64, fromAfter: Int64, toBefore: Int64, toAfter: Int64)

  datatype Answer = Success(response: Response) | Failure(error: Error)

  // ----- one stage -----

  /** What a running request has read so far. */
  datatype Locals = Locals(currency: string, first: Int64, second: Int64)

  datatype Progress = At(locals: Locals) | Failed(error: Error)

  const START := Locals("", 0, 0)

  predicate CurrencyIdMatches(id: string) {
    id != "" && forall i :: 0 <= i < |id| ==> 'a' <= id[i] <= 'z' || 'A' <= id[i] <= 'Z' || '0' <= id[i] <= '9'
  }

  /** The empty string stands for "no such account". */
  function AccountCurrency(db: Tables, account: int): string {
    if account in db.accounts then db.accounts[account].currency else ""
  }

  function InsertKey(db: Tables, key: string, l: Locals): Progress {
    if key in db.keys then Failed(ErrIdempotencyKeyExists) else At(l)
  }

  function Stages(r: Request): nat {
    match r
    case CreateCurrency(_, _) => 2
    case CreateAccount(_, _, _, _) => 3
    case Deposit(_, _, _, _) => 4
    case Withdraw(_, _, _, _) => 4
    case Transfer(_, _, _, _, _, _) => 8
  }

  function Advance(db: Tables, r: Request, stage: nat, l: Locals): Progress
    requires stage < Stages(r)
  {
    match r
    case CreateCurrency(id, decimals) =>
      if stage == 0 then
        if !CurrencyIdMatches(id) then Failed(ErrInvalidCurrencyID)
        else if decimals < 0 then Failed(ErrInvalidCurrencyDecimals)
        else At(l)
      else if id in db.currencies then Failed(ErrCurrencyAlreadyExists) else At(l)
    case CreateAccount(key, name, currency, newId) =>
      if stage == 0 then
        if name == "" then Failed(ErrAccountNameInvalid)
        else if currency !in db.currencies then Failed(ErrCurrencyNotFound)
        else At(l)
      else if stage == 1 then InsertKey(db, key, l)
      else if newId in db.accounts || newId in db.balances then Failed(UniqueViolation) else At(l)
    case Deposit(key, account, amount, rowId) =>
      if stage == 0 then if amount <= 0 then Failed(ErrInvalidTransactionAmount) else At(l)
      else if stage == 1 then InsertKey(db, key, l)
      else if stage == 2 then
        if account !in db.balances then Failed(ErrAccountNotFound) else At(l.(first := db.balances[account]))
      else if rowId in db.rows then Failed(UniqueViolation) else At(l)
    case Withdraw(key, account, amount, rowId) =>
      if stage == 0 then if amount <= 0 then Failed(ErrInvalidTransactionAmount) else At(l)
      else if stage == 1 then InsertKey(db, key, l)
      else if stage == 2 then
        if account !in db.balances then Failed(ErrAccountNotFound)
        else if Wrap(db.balances[account] - amount) < 0 then Failed(ErrInsufficientBalance)
        else At(l.(first := db.balances[account]))
      else if rowId in db.rows then Failed(UniqueViolation) else At(l)
    case Transfer(key, from, to, amount, debitId, creditId) =>
      if stage == 0 then if amount == 0 then Failed(ErrInvalidTransactionAmount) else At(l)
      else if stage == 1 then
        if AccountCurrency(db, from) == "" then Failed(ErrTransferFromAccountNotFound)
        else At(l.(currency := AccountCurrency(db, from)))
      else if stage == 2 then
        if AccountCurrency(db, to) == "" then Failed(ErrTransferToAccountNotFound)
        else if l.currency != AccountCurrency(db, to) then Failed(ErrTransferCurrencyMismatch)
        else At(l)
      else if stage == 3 then InsertKey(db, key, l)
      else if stage == 4 then
        if from !in db.balances then Failed(BalanceMissing(from))
        else if db.balances[from] < amount then Failed(ErrInsufficientBalance)
        else At(l.(first := db.balances[from]))
      else if stage == 5 then
        if to !in db.balances then Failed(BalanceMissing(to)) else At(l.(second := db.balances[to]))
      else if stage == 6 then if debitId in db.rows then Failed(UniqueViolation) else At(l)
      else if creditId in db.rows || creditId == debitId then Failed(UniqueViolation) else At(l)
  }

  // ----- commit -----

  function Effects(db: Tables, r: Request, l: Locals): Tables {
    match r
    case CreateCurrency(id, decimals) => db.(currencies := db.currencies[id := decimals])
    case CreateAccount(key, name, currency, newId) =>
      db.(keys := db.keys + {key}, accounts := db.accounts[newId := Account(name, currency)],
        balances := db.balances[newId := 0])
    case Deposit(key, account, amount, rowId) =>
      db.(keys := db.keys + {key}, balances := db.balances[account := Wrap(l.first + amount)],
          rows := db.rows[rowId := Row(account, TxDeposit, amount, None)])
    case Withdraw(key, account, amount, rowId) =>
      db.(keys := db.keys + {key}, balances := db.balances[account := Wrap(l.first - amount)],
          rows := db.rows[rowId := Row(account, TxWithdrawal, Wrap(-(amount as int)), None)])
    case Transfer(key, from, to, amount, debitId, creditId) =>
      db.(keys := db.keys + {key},
          balances := db.balances[from := Wrap(l.first - amount)][to := Wrap(l.second + amount)],
          rows := db.rows[debitId := Row(from, TxTransfer, Wrap(-(amount as int)), None)]
                         [creditId := Row(to, TxTransfer, amount, Some(debitId))])
  }

  function Respond(r: Request, l: Locals): Response {
    match r
    case CreateCurrency(_, _) => Done
    case CreateAccount(_, _, _, newId) => AccountCreated(newId)
    case Deposit(_, _, amount, _) => BalanceMoved(l.first, Wrap(l.first + amount))
    case Withdraw(_, _, amount, _) => BalanceMoved(l.first, Wrap(l.first - amount))
    case Transfer(_, _, _, amount, _, _) =>
      Transferred(l.first, Wrap(l.first - amount), l.second, Wrap(l.second + amount))
  }

  // ----- a request alone -----

  /** The first `k` stages, all against the same tables. */
  function Run(db: Tables, r: Request, k: nat): Progress
    requires k <= Stages(r)
  {
    if k == 0 then At(START)
    else
      var p := Run(db, r, k - 1);
      if p.Failed? then p else Advance(db, r, k - 1, p.locals)
  }

  /** The request runs without interruption: its answer and the tables after it. */
  function Answered(db: Tables, r: Request): Answer {
    match Run(db, r, Stages(r))
    case At(l) => Success(Respond(r, l))
    case Failed(e) => Failure(e)
  }

  function After(db: Tables, r: Request): Tables {
    match Run(db, r, Stages(r))
    case At(l) => Effects(db, r, l)
    case Failed(_) => db
  }

  /** A sequence of requests, one after the other. */
  function AfterAll(db: Tables, rs: seq<Request>): Tables {
    if rs == [] then db else After(AfterAll(db, rs[..|rs| - 1]), rs[|rs| - 1])
  }

  predicate Succeeds(db: Tables, r: Request) {
    Answered(db, r).Success?
  }

  /** Once a stage fails, the request fails with that error. */
  lemma {:induction false} FailureLasts(db: Tables, r: Request, k: nat, j: nat)
    requires k <= j <= Stages(r) && Run(db, r, k).Failed?
    ensures Run(db, r, j) == Run(db, r, k)
    decreases j
  {
    if k < j {
      FailureLasts(db, r, k, j - 1);
    }
  }

  /** A request that gets through a stage got through every earlier one. */
  lemma {:induction false} SuccessBefore(db: Tables, r: Request, k: nat, j: nat)
    requires k <= j <= Stages(r) && Run(db, r, j).At?
    ensures Run(db, r, k).At?
    decreases j
  {
    if k < j {
      SuccessBefore(db, r, k, j - 1);
    }
  }

  // ----- when a request succeeds -----

  /** The condition for success, said without stages. */
  ghost predicate Accepts(db: Tables, r: Request) {
    match r
    case CreateCurrency(id, decimals) => CurrencyIdMatches(id) && decimals >= 0 && id !in db.currencies
    case CreateAccount(key, name, currency, newId) =>
      name != "" && currency in db.currencies && key !in db.keys && newId !in db.accounts && newId !in db.balances
    case Deposit(key, account, amount, rowId) =>
      amount > 0 && key !in db.keys && account in db.balances && rowId !in db.rows
    case Withdraw(key, account, amount, rowId) =>
      amount > 0 && key !in db.keys && account in db.balances && Wrap(db.balances[account] - amount) >= 0
        && rowId !in db.rows
    case Transfer(key, from, to, amount, debitId, creditId) =>
      && amount != 0 && key !in db.keys && debitId !in db.rows && creditId !in db.rows && debitId != creditId
      && AccountCurrency(db, from) != "" && AccountCurrency(db, to) == AccountCurrency(db, from)
      && from in db.balances && to in db.balances && amount <= db.balances[from]
  }

  /** What a successful request has read when it commits. */
  ghost function Reads(db: Tables, r: Request): Locals
    requires Accepts(db, r)
  {
    match r
    case CreateCurrency(_, _) => START
    case CreateAccount(_, _, _, _) => START
    case Deposit(_, account, _, _) => START.(first := db.balances[account])
    case Withdraw(_, account, _, _) => START.(first := db.balances[account])
    case Transfer(_, from, to, _, _, _) => Locals(AccountCurrency(db, from), db.balances[from], db.balances[to])
  }

  /** The stages get through exactly when the condition holds, and then have read these values. */
  lemma SucceedsExactly(db: Tables, r: Request)
    ensures Run(db, r, Stages(r)).At? <==> Accepts(db, r)
    ensures Accepts(db, r) ==> Run(db, r, Stages(r)) == At(Reads(db, r))
  {
    match r
    case CreateCurrency(_, _) => RunUnfolds(db, r, 2);
    case CreateAccount(_, _, _, _) => RunUnfolds(db, r, 3);
    case Deposit(_, _, _, _) => RunUnfolds(db, r, 4);
    case Withdraw(_, _, _, _) => RunUnfolds(db, r, 4);
    case Transfer(_, _, _, _, _, _) =>
      RunUnfolds(db, r, 4);
      RunUnfolds(db, r, 8);
  }

  /** Four stages at a time. */
  lemma RunUnfolds(db: Tables, r: Request, k: nat)
    requires k <= Stages(r)
    ensures k >= 1 ==> Run(db, r, k) == if Run(db, r, k - 1).Failed? then Run(db, r, k - 1)
      else Advance(db, r, k - 1, Run(db, r, k - 1).locals)
    ensures k >= 2 ==> Run(db, r, k - 1) == if Run(db, r, k - 2).Failed? then Run(db, r, k - 2)
      else Advance(db, r, k - 2, Run(db, r, k - 2).locals)
    ensures k >= 3 ==> Run(db, r, k - 2) == if Run(db, r, k - 3).Failed? then Run(db, r, k - 3)
      else Advance(db, r, k - 3, Run(db, r, k - 3).locals)
    ensures k >= 4 ==> Run(db, r, k - 3) == if Run(db, r, k - 4).Failed? then Run(db, r, k - 4)
      else Advance(db, r, k - 4, Run(db, r, k - 4).locals)
  {
  }
}
