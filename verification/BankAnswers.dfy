/**
  What the answers of the bank mean, said of the tables before and after a request: which error is answered
  when, what a success says, and what it changes.
 */
module BankAnswers {
  import opened Values
  import opened BankTables
  import opened BankLedger
  import opened BankConcurrency
  import opened BankRuns

  // ----- which error -----

  /** Letters and digits of ASCII, at least one. */
  predicate LettersAndDigits(id: string) {
    |id| >= 1 && forall i :: 0 <= i < |id| ==>
      var c := id[i] as int; 48 <= c <= 57 || 65 <= c <= 90 || 97 <= c <= 122
  }

  /** No such account: an account without a currency has none either. */
  predicate Unknown(db: Tables, account: int) {
    account in db.accounts ==> db.accounts[account].currency == ""
  }

  /** Both accounts are known and have the same currency, and the key is new. */
  predicate Transferable(db: Tables, key: string, from: int, to: int) {
    !Unknown(db, from) && !Unknown(db, to) && db.accounts[from].currency == db.accounts[to].currency && key !in db.keys
  }

  /** The tables and the request call for this error; earlier checks come first. */
  predicate RefusedFor(db: Tables, r: Request, e: Error) {
    match r
    case CreateCurrency(id, decimals) => (
      match e
      case ErrInvalidCurrencyID => !LettersAndDigits(id)
      case ErrInvalidCurrencyDecimals => LettersAndDigits(id) && decimals < 0
      case ErrCurrencyAlreadyExists => LettersAndDigits(id) && decimals >= 0 && id in db.currencies
      case _ => false)
    case CreateAccount(key, name, currency, newId) => (
      match e
      case ErrAccountNameInvalid => name == ""
      case ErrCurrencyNotFound => name != "" && currency !in db.currencies
      case ErrIdempotencyKeyExists => name != "" && currency in db.currencies && key in db.keys
      case UniqueViolation =>
        name != "" && currency in db.currencies && key !in db.keys && (newId in db.accounts || newId in db.balances)
      case _ => false)
    case Deposit(key, account, amount, rowId) => (
      match e
      case ErrInvalidTransactionAmount => amount <= 0
      case ErrIdempotencyKeyExists => amount > 0 && key in db.keys
      case ErrAccountNotFound => amount > 0 && key !in db.keys && account !in db.balances
      case UniqueViolation => amount > 0 && key !in db.keys && account in db.balances && rowId in db.rows
      case _ => false)
    case Withdraw(key, account, amount, rowId) => (
      match e
      case ErrInvalidTransactionAmount => amount <= 0
      case ErrIdempotencyKeyExists => amount > 0 && key in db.keys
      case ErrAccountNotFound => amount > 0 && key !in db.keys && account !in db.balances
      case ErrInsufficientBalance =>
        amount > 0 && key !in db.keys && account in db.balances && Wrap(db.balances[account] - amount) < 0
      case UniqueViolation =>
        amount > 0 && key !in db.keys && account in db.balances && Wrap(db.balances[account] - amount) >= 0
        && rowId in db.rows
      case _ => false)
    case Transfer(key, from, to, amount, debitId, creditId) => (
      match e
      case ErrInvalidTransactionAmount => amount == 0
      case ErrTransferFromAccountNotFound => amount != 0 && Unknown(db, from)
      case ErrTransferToAccountNotFound => amount != 0 && !Unknown(db, from) && Unknown(db, to)
      case ErrTransferCurrencyMismatch =>
        amount != 0 && !Unknown(db, from) && !Unknown(db, to) && db.accounts[from].currency != db.accounts[to].currency
      case ErrIdempotencyKeyExists =>
        amount != 0 && !Unknown(db, from) && !Unknown(db, to) && db.accounts[from].currency == db.accounts[to].currency
        && key in db.keys
      case BalanceMissing(a) =>
        amount != 0 && Transferable(db, key, from, to) && a !in db.balances
        && (a == from || (a == to && from in db.balances && amount <= db.balances[from]))
      case ErrInsufficientBalance =>
        amount != 0 && Transferable(db, key, from, to) && from in db.balances && db.balances[from] < amount
      case UniqueViolation =>
        amount != 0 && Transferable(db, key, from, to) && from in db.balances && amount <= db.balances[from]
        && to in db.balances && (debitId in db.rows || creditId in db.rows || debitId == creditId)
      case _ => false)
  }

  /** Every error is answered exactly when it is called for. */
  lemma ErrorsExactly(db: Tables, r: Request, e: Error)
    ensures Answered(db, r) == Failure(e) <==> RefusedFor(db, r, e)
  {
    match r
    case CreateCurrency(id, _) =>
      RunUnfolds(db, r, 2);
      IdsMatch(id);
    case CreateAccount(_, _, _, _) => RunUnfolds(db, r, 3);
    case Deposit(_, _, _, _) => RunUnfolds(db, r, 4);
    case Withdraw(_, _, _, _) => RunUnfolds(db, r, 4);
    case Transfer(_, _, _, _, _, _) => TransferErrors(db, r, e);
  }

  lemma IdsMatch(id: string)
    ensures CurrencyIdMatches(id) <==> LettersAndDigits(id)
  {
  }

  lemma TransferErrors(db: Tables, r: Request, e: Error)
    requires r.Transfer?
    ensures Answered(db, r) == Failure(e) <==> RefusedFor(db, r, e)
  {
    RunUnfolds(db, r, 4);
    RunUnfolds(db, r, 8);
  }

  // ----- what a success says -----

  /** The response tells the truth about the tables before and after. */
  ghost predicate Truthful(db: Tables, r: Request, x: Response, db': Tables) {
    match r
    case CreateCurrency(_, _) => x == Done
    case CreateAccount(_, name, currency, _) =>
      && x.AccountCreated? && x.id !in db.accounts && x.id in db'.accounts
      && db'.accounts[x.id].name == name && db'.accounts[x.id].currency == currency
    case Deposit(_, account, _, _) => TruthfulPayment(db, account, x, db')
    case Withdraw(_, account, _, _) => TruthfulPayment(db, account, x, db')
    case Transfer(_, from, to, amount, _, _) =>
      && x.Transferred? && from in db.balances && to in db.balances && from in db'.balances && to in db'.balances
      && x.fromBefore == db.balances[from] && x.toBefore == db.balances[to] && x.toAfter == db'.balances[to]
      && x.fromAfter == if from != to then db'.balances[from] else Wrap(db.balances[from] - amount)
  }

  ghost predicate TruthfulPayment(db: Tables, account: int, x: Response, db': Tables) {
    && x.BalanceMoved? && account in db.balances && account in db'.balances
    && x.before == db.balances[account] && x.after == db'.balances[account]
  }

  lemma AnswersAreTruthful(db: Tables, r: Request, x: Response)
    requires Answered(db, r) == Success(x)
    ensures Truthful(db, r, x, After(db, r))
  {
    SucceedsExactly(db, r);
  }

  /** Between different accounts, a transfer answers with the balances of both, before and after. */
  lemma TransferAnswers(db: Tables, r: Request, fb: Int64, fa: Int64, tb: Int64, ta: Int64)
    requires r.Transfer? && r.from != r.to && Answered(db, r) == Success(Transferred(fb, fa, tb, ta))
    ensures r.from in db.balances && r.to in db.balances
    ensures r.from in After(db, r).balances && r.to in After(db, r).balances
    ensures fb == db.balances[r.from] && fa == After(db, r).balances[r.from]
    ensures tb == db.balances[r.to] && ta == After(db, r).balances[r.to]
  {
    AnswersAreTruthful(db, r, Transferred(fb, fa, tb, ta));
  }

  // ----- what a success changes -----

  /** One transaction row more, and the others as they were. */
  ghost predicate RowsAdded(rows: map<int, Row>, rows': map<int, Row>, added: set<int>) {
    && rows'.Keys == rows.Keys + added && rows.Keys !! added
    && forall i :: i in rows ==> rows'[i] == rows[i]
  }

  /** Balances elsewhere are as they were. */
  ghost predicate BalancesKept(db: Tables, db': Tables, moved: set<int>) {
    && db'.balances.Keys == db.balances.Keys
    && forall a :: a in db.balances && a !in moved ==> db'.balances[a] == db.balances[a]
  }

  /** Exactly what a successful request does to each table. */
  ghost predicate Changed(db: Tables, r: Request, db': Tables) {
    match r
    case CreateCurrency(id, decimals) =>
      && id !in db.currencies && db'.currencies == db.currencies[id := decimals]
      && db'.accounts == db.accounts && db'.balances == db.balances && db'.keys == db.keys && db'.rows == db.rows
    case CreateAccount(key, name, currency, newId) =>
      && newId !in db.accounts && newId !in db.balances
      && db'.accounts == db.accounts[newId := Account(name, currency)] && db'.balances == db.balances[newId := 0]
      && key !in db.keys && db'.keys == db.keys + {key}
      && db'.currencies == db.currencies && db'.rows == db.rows
    case Deposit(key, account, amount, rowId) =>
      && Paid(db, key, account, rowId, db')
      && db'.balances[account] == Wrap(db.balances[account] + amount)
      && db'.rows[rowId] == Row(account, TxDeposit, amount, None)
    case Withdraw(key, account, amount, rowId) =>
      && Paid(db, key, account, rowId, db')
      && db'.balances[account] == Wrap(db.balances[account] - amount) >= 0
      && db'.rows[rowId] == Row(account, TxWithdrawal, Wrap(-(amount as int)), None)
    case Transfer(key, from, to, amount, debitId, creditId) =>
      && db'.currencies == db.currencies && db'.accounts == db.accounts
      && key !in db.keys && db'.keys == db.keys + {key}
      && from in db.balances && to in db.balances && BalancesKept(db, db', {from, to})
      && (from != to ==> db'.balances[from] == Wrap(db.balances[from] - amount))
      && db'.balances[to] == Wrap(db.balances[to] + amount)
      && debitId != creditId && RowsAdded(db.rows, db'.rows, {debitId, creditId})
      && db'.rows[debitId] == Row(from, TxTransfer, Wrap(-(amount as int)), None)
      && db'.rows[creditId] == Row(to, TxTransfer, amount, Some(debitId))
  }

  /** One account, one key and one row are touched. */
  ghost predicate Paid(db: Tables, key: string, account: int, rowId: int, db': Tables) {
    && db'.currencies == db.currencies && db'.accounts == db.accounts
    && key !in db.keys && db'.keys == db.keys + {key}
    && account in db.balances && BalancesKept(db, db', {account})
    && RowsAdded(db.rows, db'.rows, {rowId})
  }

  lemma SuccessChanges(db: Tables, r: Request)
    requires Succeeds(db, r)
    ensures Changed(db, r, After(db, r))
  {
    AfterExactly(db, r);
    match r
    case CreateCurrency(_, _) =>
    case CreateAccount(_, _, _, _) =>
    case Deposit(_, _, _, _) => PaymentChanges(db, r);
    case Withdraw(_, _, _, _) => PaymentChanges(db, r);
    case Transfer(_, _, _, _, _, _) => TransferChanges(db, r);
  }

  lemma PaymentChanges(db: Tables, r: Request)
    requires (r.Deposit? || r.Withdraw?) && Accepts(db, r)
    ensures Changed(db, r, Effects(db, r, Reads(db, r)))
  {
    var db' := Effects(db, r, Reads(db, r));
    assert db'.rows.Keys == db.rows.Keys + {r.rowId} && db'.balances.Keys == db.balances.Keys;
  }

  lemma TransferChanges(db: Tables, r: Request)
    requires r.Transfer? && Accepts(db, r)
    ensures Changed(db, r, Effects(db, r, Reads(db, r)))
  {
    var db' := Effects(db, r, Reads(db, r));
    assert db'.rows.Keys == db.rows.Keys + {r.debitId, r.creditId} && db'.balances.Keys == db.balances.Keys;
  }

  // ----- the answers of every run -----

  /** What an entry of the log says about the tables before and after it. */
  ghost predicate Explained(db: Tables, e: Entry, db': Tables) {
    match e.answer
    case Success(x) => Truthful(db, e.request, x, db') && Changed(db, e.request, db')
    case Failure(error) => RefusedFor(db, e.request, error) && db' == db
  }

  lemma AnswerExplained(db: Tables, r: Request)
    ensures Explained(db, Entry(r, Answered(db, r)), After(db, r))
  {
    match Answered(db, r)
    case Success(x) =>
      AnswersAreTruthful(db, r, x);
      SuccessChanges(db, r);
    case Failure(e) =>
      ErrorsExactly(db, r, e);
      AfterExactly(db, r);
  }

  /**
    In every interleaving from empty tables, each answer tells the truth about the committed tables at the moment
    before it and the moment after it, and these differ exactly by what it did.
   */
  lemma EveryAnswerIsExplained(steps: seq<Step>, k: nat) returns (i: nat, j: nat)
    requires CanTake(FRESH, steps) && k < |TakeAll(FRESH, steps).log|
    ensures i <= |steps| && CanTake(FRESH, steps[..i]) && |TakeAll(FRESH, steps[..i]).log| == k
    ensures j <= |steps| && CanTake(FRESH, steps[..j]) && |TakeAll(FRESH, steps[..j]).log| == k + 1
    ensures Explained(CommittedAt(steps, i), TakeAll(FRESH, steps).log[k], CommittedAt(steps, j))
  {
    var log := TakeAll(FRESH, steps).log;
    var rs := Requests(log);
    i := LogPasses(FRESH, steps, k);
    CommittedIsHistory(steps, i);
    j := LogPasses(FRESH, steps, k + 1);
    CommittedIsHistory(steps, j);
    Serializable(EMPTY_TABLES, steps);
    SerialAnswer(EMPTY_TABLES, log, TakeAll(FRESH, steps).db, k);
    RequestAt(log, k);
    AnswerExplained(AfterAll(EMPTY_TABLES, rs[..k]), rs[k]);
    NextTables(rs, k);
  }

  lemma NextTables(rs: seq<Request>, k: nat)
    requires k < |rs|
    ensures AfterAll(EMPTY_TABLES, rs[..k + 1]) == After(AfterAll(EMPTY_TABLES, rs[..k]), rs[k])
  {
    assert rs[..k + 1] == rs[..k] + [rs[k]];
    AfterSnoc(EMPTY_TABLES, rs[..k], rs[k]);
  }
}
