/**
  What the tables promise after any number of requests: every reference is good, every balance is the
  sum of its transaction rows, no balance is negative, and money only enters by deposits and leaves by
  withdrawals. Where the code breaks a promise, the exact condition under which it keeps it.
 */
module BankLedger {
  import opened Values
  import opened BankTables
  import opened Sums

  // ----- referential soundness -----

  /** A transfer's credit row points to its own debit row, with the opposite amount in the same currency. */
  ghost predicate CreditOf(db: Tables, i: int, p: int) {
    && i in db.rows && p in db.rows
    && db.rows[i].kind == TxTransfer && db.rows[p].kind == TxTransfer && db.rows[p].parent == None
    && db.rows[p].amount == Wrap(-(db.rows[i].amount as int))
    && AccountCurrency(db, db.rows[i].account) == AccountCurrency(db, db.rows[p].account)
  }

  /** Each account has exactly one balance row and an existing, non-empty currency. */
  ghost predicate SoundAccounts(db: Tables) {
    && (forall a :: a in db.accounts <==> a in db.balances)
    && (forall c :: c in db.currencies ==> c != "")
    && (forall a :: a in db.accounts ==> db.accounts[a].currency in db.currencies)
    && (forall i :: i in db.rows ==> db.rows[i].account in db.accounts)
  }

  ghost predicate SoundRows(db: Tables) {
    && (forall i :: i in db.rows && db.rows[i].parent.Some? ==> CreditOf(db, i, db.rows[i].parent.value))
    && (forall i, j :: i in db.rows && j in db.rows && db.rows[i].parent.Some? ==>
          db.rows[i].parent == db.rows[j].parent ==> i == j)
    && (forall p :: p in db.rows && db.rows[p].kind == TxTransfer && db.rows[p].parent == None ==> HasCredit(db, p))
  }

  /** Some credit row points to row `p`; together with the rest of `SoundRows`, exactly one does. */
  ghost predicate HasCredit(db: Tables, p: int) {
    exists i :: i in db.rows && db.rows[i].parent == Some(p)
  }

  ghost predicate Sound(db: Tables) {
    SoundAccounts(db) && SoundRows(db)
  }

  /** What a request does, said without stages. */
  lemma AfterExactly(db: Tables, r: Request)
    ensures After(db, r) == if Accepts(db, r) then Effects(db, r, Reads(db, r)) else db
    ensures Succeeds(db, r) <==> Accepts(db, r)
  {
    SucceedsExactly(db, r);
  }

  lemma SoundAccountsAfter(db: Tables, r: Request)
    requires SoundAccounts(db) && Accepts(db, r)
    ensures SoundAccounts(Effects(db, r, Reads(db, r)))
  {
  }

  lemma CreditsAfter(db: Tables, r: Request)
    requires Sound(db) && Accepts(db, r)
    ensures var db' := Effects(db, r, Reads(db, r));
      forall i :: i in db'.rows && db'.rows[i].parent.Some? ==> CreditOf(db', i, db'.rows[i].parent.value)
  {
    var db' := Effects(db, r, Reads(db, r));
    forall i | i in db'.rows && db'.rows[i].parent.Some?
      ensures CreditOf(db', i, db'.rows[i].parent.value)
    {
      if i in db.rows {
        assert CreditOf(db, i, db.rows[i].parent.value);
      }
    }
  }

  lemma SoundRowsAfter(db: Tables, r: Request)
    requires Sound(db) && Accepts(db, r)
    ensures SoundRows(Effects(db, r, Reads(db, r)))
  {
    var db' := Effects(db, r, Reads(db, r));
    CreditsAfter(db, r);
    forall i, j | i in db'.rows && j in db'.rows && db'.rows[i].parent.Some? && db'.rows[i].parent == db'.rows[j].parent
      ensures i == j
    {
      assert i in db.rows ==> CreditOf(db, i, db.rows[i].parent.value);
      assert j in db.rows ==> CreditOf(db, j, db.rows[j].parent.value);
    }
    DebitsAfter(db, r);
  }

  lemma DebitsAfter(db: Tables, r: Request)
    requires Sound(db) && Accepts(db, r)
    ensures var db' := Effects(db, r, Reads(db, r));
      forall p :: p in db'.rows && db'.rows[p].kind == TxTransfer && db'.rows[p].parent == None ==> HasCredit(db', p)
  {
    var db' := Effects(db, r, Reads(db, r));
    forall p | p in db'.rows && db'.rows[p].kind == TxTransfer && db'.rows[p].parent == None
      ensures HasCredit(db', p)
    {
      if p in db.rows {
        assert HasCredit(db, p);
        var i :| i in db.rows && db.rows[i].parent == Some(p);
        assert i in db'.rows && db'.rows[i].parent == Some(p);
      } else {
        assert r.Transfer? && p == r.debitId && db'.rows[r.creditId].parent == Some(p);
      }
    }
  }

  /** Every request keeps the tables sound. */
  lemma SoundAfter(db: Tables, r: Request)
    requires Sound(db)
    ensures Sound(After(db, r))
  {
    AfterExactly(db, r);
    if Accepts(db, r) {
      SoundAccountsAfter(db, r);
      SoundRowsAfter(db, r);
    }
  }

  lemma {:induction false} SoundAfterAll(db: Tables, rs: seq<Request>)
    requires Sound(db)
    ensures Sound(AfterAll(db, rs))
    decreases |rs|
  {
    if rs != [] {
      SoundAfterAll(db, rs[..|rs| - 1]);
      SoundAfter(AfterAll(db, rs[..|rs| - 1]), rs[|rs| - 1]);
    }
  }

  /** The empty currency means exactly "no such account", and a transfer never misses a balance row. */
  lemma LookupsAreExact(db: Tables, r: Request, a: int)
    requires Sound(db)
    ensures AccountCurrency(db, a) == "" <==> a !in db.accounts
    ensures r.Transfer? ==> Answered(db, r) != Failure(BalanceMissing(a))
  {
    if r.Transfer? {
      RunUnfolds(db, r, 4);
      RunUnfolds(db, r, 8);
    }
  }

  // ----- the ledger -----

  function RowAmount(rows: map<int, Row>, a: int): int -> int {
    i => if i in rows && rows[i].account == a then rows[i].amount as int else 0
  }

  /** The sum of all transaction rows of an account. */
  ghost function LedgerSum(rows: map<int, Row>, a: int): int {
    Sum(rows.Keys, RowAmount(rows, a))
  }

  lemma LedgerInsert(rows: map<int, Row>, i: int, row: Row, a: int)
    requires i !in rows
    ensures LedgerSum(rows[i := row], a) == LedgerSum(rows, a) + if row.account == a then row.amount as int else 0
  {
    var rows' := rows[i := row];
    SumTake(rows'.Keys, RowAmount(rows', a), i);
    assert rows'.Keys - {i} == rows.Keys;
    SumSame(rows.Keys, RowAmount(rows', a), RowAmount(rows, a));
  }

  /** Every balance is the sum of its rows. */
  ghost predicate Balanced(db: Tables) {
    forall a :: a in db.balances ==> db.balances[a] == LedgerSum(db.rows, a)
  }

  /** The new balances are the old ones plus the amounts of the new rows, without overflow. */
  ghost predicate Regular(db: Tables, r: Request)
    requires Accepts(db, r)
  {
    match r
    case CreateCurrency(_, _) => true
    case CreateAccount(_, _, _, newId) => true
    case Deposit(_, account, amount, _) => InRange(db.balances[account] + amount)
    case Withdraw(_, account, amount, _) => InRange(db.balances[account] - amount)
    case Transfer(_, from, to, amount, _, _) =>
      from != to && InRange(db.balances[from] + Wrap(-(amount as int))) && InRange(db.balances[to] + amount)
  }

  lemma WrapNeg(x: Int64, b: Int64)
    ensures InRange(b + Wrap(-(x as int))) ==> Wrap(b - x) == b + Wrap(-(x as int))
    ensures Wrap(b - x) == b + Wrap(-(x as int)) ==> InRange(b + Wrap(-(x as int)))
  {
  }

  /** A new account has no rows. */
  lemma NoRows(db: Tables, a: int)
    requires Sound(db) && a !in db.accounts
    ensures LedgerSum(db.rows, a) == 0
  {
    forall i | i in db.rows.Keys
      ensures RowAmount(db.rows, a)(i) == 0
    {
    }
    SumZero(db.rows.Keys, RowAmount(db.rows, a));
  }

  /** The ledger of every account after a request. */
  ghost function Credited(db: Tables, r: Request, a: int): int {
    match r
    case CreateCurrency(_, _) => 0
    case CreateAccount(_, _, _, _) => 0
    case Deposit(_, account, amount, _) => if a == account then amount as int else 0
    case Withdraw(_, account, amount, _) => if a == account then Wrap(-(amount as int)) as int else 0
    case Transfer(_, from, to, amount, _, _) =>
      (if a == from then Wrap(-(amount as int)) as int else 0) + (if a == to then amount as int else 0)
  }

  lemma LedgerInsertTwo(rows: map<int, Row>, d: int, debit: Row, c: int, credit: Row, a: int)
    requires d !in rows && c !in rows && c != d
    ensures LedgerSum(rows[d := debit][c := credit], a) == LedgerSum(rows, a)
      + (if debit.account == a then debit.amount as int else 0)
        + (if credit.account == a then credit.amount as int else 0)
  {
    LedgerInsert(rows, d, debit, a);
    LedgerInsert(rows[d := debit], c, credit, a);
  }

  lemma LedgerAfter(db: Tables, r: Request, a: int)
    requires Accepts(db, r)
    ensures LedgerSum(Effects(db, r, Reads(db, r)).rows, a) == LedgerSum(db.rows, a) + Credited(db, r, a)
  {
    if r.Deposit? {
      LedgerInsert(db.rows, r.rowId, Row(r.account, TxDeposit, r.amount, None), a);
    } else if r.Withdraw? {
      LedgerInsert(db.rows, r.rowId, Row(r.account, TxWithdrawal, Wrap(-(r.amount as int)), None), a);
    } else if r.Transfer? {
      LedgerInsertTwo(db.rows, r.debitId, Row(r.from, TxTransfer, Wrap(-(r.amount as int)), None),
                      r.creditId, Row(r.to, TxTransfer, r.amount, Some(r.debitId)), a);
    }
  }

  /** The balance of `a` moves by exactly what its new rows say. */
  ghost predicate Exact(db: Tables, r: Request, a: int)
    requires Accepts(db, r)
  {
    a in db.balances ==>
      var db' := Effects(db, r, Reads(db, r));
      a in db'.balances && db'.balances[a] == db.balances[a] + Credited(db, r, a)
  }

  lemma SettledExactly(db: Tables, r: Request, a: int)
    requires Sound(db) && Balanced(db) && Accepts(db, r)
    ensures var db' := Effects(db, r, Reads(db, r));
      a in db'.balances ==> (db'.balances[a] == LedgerSum(db'.rows, a) <==> Exact(db, r, a))
  {
    LedgerAfter(db, r, a);
    if a !in db.accounts {
      NoRows(db, a);
    }
  }

  lemma RegularTransferIsExact(db: Tables, r: Request)
    requires r.Transfer? && Accepts(db, r)
    ensures Exact(db, r, r.from) && Exact(db, r, r.to) <==> Regular(db, r)
  {
    WrapNeg(r.amount, db.balances[r.from]);
  }

  lemma RegularIsExact(db: Tables, r: Request)
    requires Accepts(db, r)
    ensures (forall a :: Exact(db, r, a)) <==> Regular(db, r)
  {
    if r.Deposit? || r.Withdraw? {
      assert Exact(db, r, r.account) <==> Regular(db, r);
    } else if r.Transfer? {
      RegularTransferIsExact(db, r);
    }
  }

  /**
    Which requests keep every balance equal to the sum of its rows: exactly those that do not overflow
    and, among transfers, those between two different accounts.
   */
  lemma BalancedExactly(db: Tables, r: Request)
    requires Sound(db) && Balanced(db) && Accepts(db, r)
    ensures Balanced(After(db, r)) <==> Regular(db, r)
  {
    AfterExactly(db, r);
    RegularIsExact(db, r);
    forall a
      ensures var db' := Effects(db, r, Reads(db, r));
        a in db'.balances ==> (db'.balances[a] == LedgerSum(db'.rows, a) <==> Exact(db, r, a))
    {
      SettledExactly(db, r, a);
    }
    SettledMeansBalanced(db, r);
  }

  lemma SettledMeansBalanced(db: Tables, r: Request)
    requires Accepts(db, r)
    requires forall a :: var db' := Effects(db, r, Reads(db, r));
      a in db'.balances ==> (db'.balances[a] == LedgerSum(db'.rows, a) <==> Exact(db, r, a))
    ensures Balanced(Effects(db, r, Reads(db, r))) <==> forall a :: Exact(db, r, a)
  {
    var db' := Effects(db, r, Reads(db, r));
    assert forall a :: a in db.balances ==> a in db'.balances;
  }

  // ----- balances below zero -----

  ghost predicate NonNegative(db: Tables) {
    forall a :: a in db.balances ==> db.balances[a] >= 0
  }

  /** No balance leaves the range from zero to the largest 64-bit integer. */
  ghost predicate Covered(db: Tables, r: Request)
    requires Accepts(db, r)
  {
    match r
    case Deposit(_, account, amount, _) => db.balances[account] + amount < TWO_63
    case Transfer(_, from, to, amount, _, _) =>
      0 <= db.balances[to] + amount < TWO_63 && (from == to || db.balances[from] - amount < TWO_63)
    case _ => true
  }

  /** Which requests keep all balances non-negative; a negative transfer can take money the receiver does not have. */
  lemma NonNegativeExactly(db: Tables, r: Request)
    requires NonNegative(db) && Accepts(db, r)
    ensures NonNegative(After(db, r)) <==> Covered(db, r)
  {
    AfterExactly(db, r);
    var db' := Effects(db, r, Reads(db, r));
    match r
    case CreateCurrency(_, _) =>
    case CreateAccount(_, _, _, _) =>
    case Deposit(_, account, _, _) => assert account in db'.balances;
    case Withdraw(_, account, _, _) => assert account in db'.balances;
    case Transfer(_, _, _, _, _, _) => TransferStaysCovered(db, r);
  }

  lemma TransferStaysCovered(db: Tables, r: Request)
    requires r.Transfer? && NonNegative(db) && Accepts(db, r)
    ensures NonNegative(Effects(db, r, Reads(db, r))) <==> Covered(db, r)
  {
    var db' := Effects(db, r, Reads(db, r));
    assert r.from in db'.balances && r.to in db'.balances;
    assert db'.balances[r.to] == Wrap(db.balances[r.to] + r.amount);
    assert r.from != r.to ==> db'.balances[r.from] == Wrap(db.balances[r.from] - r.amount);
  }

  // ----- conservation -----

  function Holding(db: Tables, currency: string): int -> int {
    a => if a in db.balances && AccountCurrency(db, a) == currency then db.balances[a] as int else 0
  }

  /** All the money held in a currency. */
  ghost function Total(db: Tables, currency: string): int {
    Sum(db.balances.Keys, Holding(db, currency))
  }

  /** What a successful request brings into a currency: deposits in, withdrawals out, nothing else. */
  ghost function Inflow(db: Tables, r: Request, currency: string): int {
    match r
    case Deposit(_, account, amount, _) => if AccountCurrency(db, account) == currency then amount as int else 0
    case Withdraw(_, account, amount, _) => if AccountCurrency(db, account) == currency then -(amount as int) else 0
    case _ => 0
  }

  /** Changing one balance of an existing account. */
  lemma TotalSet(db: Tables, a: int, b: Int64, currency: string)
    requires a in db.balances
    ensures Total(db.(balances := db.balances[a := b]), currency)
      == Total(db, currency) + if AccountCurrency(db, a) == currency then b - db.balances[a] else 0
  {
    var db' := db.(balances := db.balances[a := b]);
    assert db'.balances.Keys == db.balances.Keys;
    SumChange(db.balances.Keys, Holding(db, currency), Holding(db', currency), a);
  }

  /** Totals depend only on accounts and balances. */
  lemma TotalSame(db: Tables, db': Tables, currency: string)
    requires db'.accounts == db.accounts && db'.balances == db.balances
    ensures Total(db', currency) == Total(db, currency)
  {
    SumSame(db.balances.Keys, Holding(db, currency), Holding(db', currency));
  }

  lemma TotalMoves(db: Tables, db': Tables, a: int, b: Int64, currency: string)
    requires a in db.balances && db'.accounts == db.accounts && db'.balances == db.balances[a := b]
    ensures Total(db', currency)
      == Total(db, currency) + if AccountCurrency(db, a) == currency then b - db.balances[a] else 0
  {
    TotalSet(db, a, b, currency);
    TotalSame(db.(balances := db.balances[a := b]), db', currency);
  }

  lemma TotalNewAccount(db: Tables, r: Request, currency: string)
    requires r.CreateAccount? && Sound(db) && Accepts(db, r)
    ensures Total(Effects(db, r, Reads(db, r)), currency) == Total(db, currency)
  {
    var db' := Effects(db, r, Reads(db, r));
    SumTake(db'.balances.Keys, Holding(db', currency), r.newId);
    assert db'.balances.Keys - {r.newId} == db.balances.Keys;
    SumSame(db.balances.Keys, Holding(db, currency), Holding(db', currency));
  }

  lemma TotalSetTwo(db: Tables, a: int, x: Int64, b: int, y: Int64, currency: string)
    requires a in db.balances && b in db.balances && AccountCurrency(db, a) == AccountCurrency(db, b)
    ensures Total(db.(balances := db.balances[a := x][b := y]), currency) == Total(db, currency) +
      if AccountCurrency(db, b) != currency then 0
      else if a == b then y - db.balances[b]
      else x - db.balances[a] + y - db.balances[b]
  {
    var db1 := db.(balances := db.balances[a := x]);
    TotalSet(db, a, x, currency);
    TotalSet(db1, b, y, currency);
    assert db1.(balances := db1.balances[b := y]) == db.(balances := db.balances[a := x][b := y]);
  }

  lemma TotalTransfer(db: Tables, r: Request, currency: string)
    requires r.Transfer? && Accepts(db, r)
    ensures var db', first := Effects(db, r, Reads(db, r)), Wrap(db.balances[r.from] - r.amount);
      Total(db', currency) == Total(db, currency) +
        if AccountCurrency(db, r.to) != currency then 0
        else if r.from == r.to then Wrap(db.balances[r.to] + r.amount) - db.balances[r.to]
        else first - db.balances[r.from] + Wrap(db.balances[r.to] + r.amount) - db.balances[r.to]
  {
    var first, second := Wrap(db.balances[r.from] - r.amount), Wrap(db.balances[r.to] + r.amount);
    TotalSetTwo(db, r.from, first, r.to, second, currency);
    TotalSame(db.(balances := db.balances[r.from := first][r.to := second]), Effects(db, r, Reads(db, r)), currency);
  }

  /**
    A transfer between non-negative balances conserves the money in its currency exactly if it overflows nowhere and
    moves between two accounts.
   */
  lemma TransferConservesExactly(db: Tables, r: Request)
    requires NonNegative(db) && r.Transfer? && Accepts(db, r)
    ensures Total(After(db, r), AccountCurrency(db, r.to)) == Total(db, AccountCurrency(db, r.to)) <==>
      r.from != r.to && InRange(db.balances[r.from] - r.amount) && InRange(db.balances[r.to] + r.amount)
  {
    AfterExactly(db, r);
    TotalTransfer(db, r, AccountCurrency(db, r.to));
    WrapsCancel(db.balances[r.from], db.balances[r.to], r.amount);
  }

  /** What one balance loses the other gains exactly if neither wraps around. */
  lemma WrapsCancel(first: Int64, second: Int64, amount: Int64)
    requires first >= 0 && second >= 0 && amount != 0 && amount <= first
    ensures Wrap(first - amount) - first + Wrap(second + amount) - second == 0 <==>
      InRange(first - amount) && InRange(second + amount)
    ensures Wrap(second + amount) != second
  {
    assert InRange(first) && InRange(second) && InRange(amount);
    if first - amount >= TWO_63 {
      WrapAbove(first - amount);
    } else if second + amount >= TWO_63 {
      WrapAbove(second + amount);
    }
  }

  lemma WrapAbove(x: int)
    requires TWO_63 <= x < TWO_63 + TWO_64
    ensures Wrap(x) == x - TWO_64
  {
    assert x + TWO_63 == TWO_64 + (x - TWO_63);
  }

  // ----- whole histories -----

  /** Everything the bank promises about its tables. */
  ghost predicate Good(db: Tables) {
    Sound(db) && Balanced(db) && NonNegative(db)
  }

  /**
    A caller's own check: if the request is accepted, no sum overflows, no balance gets negative, and a transfer has
    two accounts.
   */
  ghost predicate Fits(db: Tables, r: Request) {
    Accepts(db, r) ==> Regular(db, r) && Covered(db, r)
  }

  /** From good tables, a request leads to good tables if and only if it fits. */
  lemma GoodExactly(db: Tables, r: Request)
    requires Good(db)
    ensures Good(After(db, r)) <==> Fits(db, r)
  {
    AfterExactly(db, r);
    SoundAfter(db, r);
    if Accepts(db, r) {
      BalancedExactly(db, r);
      NonNegativeExactly(db, r);
    }
  }

  lemma FittingTransfer(db: Tables, r: Request, currency: string)
    requires r.Transfer? && NonNegative(db) && Accepts(db, r) && Regular(db, r) && Covered(db, r)
    ensures Total(Effects(db, r, Reads(db, r)), currency) == Total(db, currency)
  {
    TotalTransfer(db, r, currency);
  }

  lemma TotalAfter(db: Tables, r: Request, currency: string)
    requires Good(db) && Accepts(db, r) && Regular(db, r) && Covered(db, r)
    ensures Total(After(db, r), currency) == Total(db, currency) + Inflow(db, r, currency)
  {
    AfterExactly(db, r);
    match r
    case CreateCurrency(_, _) => TotalSame(db, Effects(db, r, Reads(db, r)), currency);
    case CreateAccount(_, _, _, _) => TotalNewAccount(db, r, currency);
    case Deposit(_, _, _, _) => FittingPayment(db, r, currency);
    case Withdraw(_, _, _, _) => FittingPayment(db, r, currency);
    case Transfer(_, _, _, _, _, _) => FittingTransfer(db, r, currency);
  }

  lemma FittingPayment(db: Tables, r: Request, currency: string)
    requires (r.Deposit? || r.Withdraw?) && Accepts(db, r) && Regular(db, r)
    ensures Total(Effects(db, r, Reads(db, r)), currency) == Total(db, currency) + Inflow(db, r, currency)
  {
    var b := db.balances[r.account] + if r.Deposit? then r.amount as int else -(r.amount as int);
    assert Wrap(b) == b;
    TotalMoves(db, Effects(db, r, Reads(db, r)), r.account, Wrap(b), currency);
  }

  ghost predicate AllFit(db: Tables, rs: seq<Request>) {
    forall k :: 0 <= k < |rs| ==> Fits(AfterAll(db, rs[..k]), rs[k])
  }

  /** What all the successful requests brought into a currency. */
  ghost function Inflows(db: Tables, rs: seq<Request>, currency: string): int {
    if rs == [] then 0
    else
      var before := AfterAll(db, rs[..|rs| - 1]);
      Inflows(db, rs[..|rs| - 1], currency)
        + if Accepts(before, rs[|rs| - 1]) then Inflow(before, rs[|rs| - 1], currency) else 0
  }

  lemma GoodStep(db: Tables, r: Request, currency: string)
    requires Good(db) && Fits(db, r)
    ensures Good(After(db, r))
    ensures Total(After(db, r), currency) == Total(db, currency) + if Accepts(db, r) then Inflow(db, r, currency) else 0
  {
    GoodExactly(db, r);
    if Accepts(db, r) {
      TotalAfter(db, r, currency);
    } else {
      AfterExactly(db, r);
    }
  }

  /** The last request of a history comes after a history that fits, and fits itself. */
  lemma FitSnoc(db: Tables, rs: seq<Request>, r: Request)
    ensures AllFit(db, rs + [r]) <==> AllFit(db, rs) && Fits(AfterAll(db, rs), r)
  {
    var all := rs + [r];
    assert all[..|rs|] == rs;
    assert forall k :: 0 <= k < |rs| ==> all[..k] == rs[..k] && all[k] == rs[k];
  }

  /**
    After any history that fits, the tables are good, and each currency holds what it held plus deposits minus
    withdrawals.
   */
  lemma {:induction false} GoodHistory(db: Tables, rs: seq<Request>, currency: string)
    requires Good(db) && AllFit(db, rs)
    ensures Good(AfterAll(db, rs))
    ensures Total(AfterAll(db, rs), currency) == Total(db, currency) + Inflows(db, rs, currency)
    decreases |rs|
  {
    if rs != [] {
      var earlier, r := rs[..|rs| - 1], rs[|rs| - 1];
      assert rs == earlier + [r];
      FitSnoc(db, earlier, r);
      GoodHistory(db, earlier, currency);
      GoodStep(AfterAll(db, earlier), r, currency);
    }
  }

  /** The tables are good after each request of the history, the first `k` of them having been handled. */
  ghost predicate GoodThroughout(db: Tables, rs: seq<Request>) {
    forall k :: 0 <= k <= |rs| ==> Good(AfterAll(db, rs[..k]))
  }

  lemma GoodSnoc(db: Tables, rs: seq<Request>, r: Request)
    ensures GoodThroughout(db, rs + [r]) <==> GoodThroughout(db, rs) && Good(AfterAll(db, rs + [r]))
  {
    var all := rs + [r];
    assert all[..|all|] == all;
    assert forall k :: 0 <= k <= |rs| ==> all[..k] == rs[..k];
    if GoodThroughout(db, all) {
      assert Good(AfterAll(db, all[..|all|]));
      forall k | 0 <= k <= |rs|
        ensures Good(AfterAll(db, rs[..k]))
      {
        assert Good(AfterAll(db, all[..k]));
      }
    }
  }

  /**
    A history keeps every promise at every moment if and only if each of its accepted requests fits when its turn
    comes.
   */
  lemma {:induction false} HistoryExactly(db: Tables, rs: seq<Request>)
    requires Good(db)
    ensures GoodThroughout(db, rs) <==> AllFit(db, rs)
    decreases |rs|
  {
    if rs == [] {
      assert rs[..0] == [];
    } else {
      var earlier, r := rs[..|rs| - 1], rs[|rs| - 1];
      assert rs == earlier + [r];
      HistoryExactly(db, earlier);
      FitSnoc(db, earlier, r);
      GoodSnoc(db, earlier, r);
      AfterSnoc(db, earlier, r);
      if GoodThroughout(db, earlier) {
        assert Good(AfterAll(db, earlier[..|earlier|])) && earlier[..|earlier|] == earlier;
        GoodExactly(AfterAll(db, earlier), r);
      }
    }
  }

  // ----- histories that need no check -----

  function Deposits(rs: seq<Request>): int {
    if rs == [] then 0
    else Deposits(rs[..|rs| - 1]) + Deposited(rs[|rs| - 1])
  }

  /** Positive transfers between different accounts, and deposits that together fit into 64 bits. */
  ghost predicate Plain(rs: seq<Request>) {
    && Deposits(rs) < TWO_63
    && forall r :: r in rs && r.Transfer? ==> r.from != r.to && r.amount > 0
  }

  lemma PlainSnoc(rs: seq<Request>, r: Request)
    requires Plain(rs + [r])
    ensures Plain(rs) && Deposits(rs) + Deposited(r) < TWO_63
    ensures r.Transfer? ==> r.from != r.to && r.amount > 0
  {
    DepositsSnoc(rs, r);
    assert r in rs + [r];
  }

  /** What successful requests have brought in is bounded by the successful deposits. */
  lemma {:induction false} InflowsBelowDeposits(db: Tables, rs: seq<Request>, currency: string)
    ensures Inflows(db, rs, currency) <= Deposits(Winners(db, rs))
    decreases |rs|
  {
    if rs != [] {
      var earlier, r := rs[..|rs| - 1], rs[|rs| - 1];
      InflowsBelowDeposits(db, earlier, currency);
      InflowBound(AfterAll(db, earlier), r, currency);
      DepositsSnoc(Winners(db, earlier), r);
    }
  }

  lemma InflowBound(db: Tables, r: Request, currency: string)
    ensures Succeeds(db, r) <==> Accepts(db, r)
    ensures Accepts(db, r) ==> Inflow(db, r, currency) <= Deposited(r)
  {
    AfterExactly(db, r);
  }

  function Deposited(r: Request): int {
    if r.Deposit? && r.amount > 0 then r.amount as int else 0
  }

  lemma DepositsSnoc(rs: seq<Request>, r: Request)
    ensures Deposits(rs + [r]) == Deposits(rs) + Deposited(r)
  {
    assert (rs + [r])[..|rs|] == rs;
  }

  /** In good tables no two balances of a currency together exceed all the money in it. */
  lemma HoldingsFit(db: Tables, a: int, b: int)
    requires Good(db) && a in db.balances && b in db.balances && AccountCurrency(db, a) == AccountCurrency(db, b)
    ensures db.balances[a] <= Total(db, AccountCurrency(db, a))
    ensures a != b ==> db.balances[a] + db.balances[b] <= Total(db, AccountCurrency(db, a))
  {
    SumCovers(db.balances.Keys, Holding(db, AccountCurrency(db, a)), a, b);
  }

  lemma PlainFits(db: Tables, r: Request, paid: int)
    requires Good(db) && Accepts(db, r)
    requires r.Transfer? ==> r.from != r.to && r.amount > 0
    requires forall c :: Total(db, c) <= paid
    requires paid + Deposited(r) < TWO_63
    ensures Fits(db, r)
  {
    if r.Deposit? {
      HoldingsFit(db, r.account, r.account);
    } else if r.Transfer? {
      HoldingsFit(db, r.from, r.to);
      assert Wrap(-(r.amount as int)) == -(r.amount as int);
    }
  }

  lemma EmptyIsGood()
    ensures Good(EMPTY_TABLES) && forall c :: Total(EMPTY_TABLES, c) == 0
  {
  }

  /** What a plain history has paid in bounds what every currency holds. */
  lemma PaidIn(rs: seq<Request>, currency: string)
    requires AllFit(EMPTY_TABLES, rs)
    ensures Good(AfterAll(EMPTY_TABLES, rs))
    ensures Total(AfterAll(EMPTY_TABLES, rs), currency) <= Deposits(Winners(EMPTY_TABLES, rs))
  {
    EmptyIsGood();
    GoodHistory(EMPTY_TABLES, rs, currency);
    InflowsBelowDeposits(EMPTY_TABLES, rs, currency);
  }

  /**
    From empty tables, if the requests that succeed are plain, then everything fits at every step, so all promises
    hold without any further check. What is refused, improper transfers and retries included, does not matter.
   */
  lemma {:induction false} PlainHistory(rs: seq<Request>)
    requires Plain(Winners(EMPTY_TABLES, rs))
    ensures AllFit(EMPTY_TABLES, rs)
    decreases |rs|
  {
    if rs != [] {
      var earlier, r := rs[..|rs| - 1], rs[|rs| - 1];
      assert rs == earlier + [r];
      FitSnoc(EMPTY_TABLES, earlier, r);
      AfterExactly(AfterAll(EMPTY_TABLES, earlier), r);
      if Accepts(AfterAll(EMPTY_TABLES, earlier), r) {
        PlainSnoc(Winners(EMPTY_TABLES, earlier), r);
        PlainHistory(earlier);
        PlainNext(earlier, r);
      } else {
        PlainHistory(earlier);
      }
    }
  }

  lemma PlainNext(rs: seq<Request>, r: Request)
    requires AllFit(EMPTY_TABLES, rs) && Accepts(AfterAll(EMPTY_TABLES, rs), r)
    requires Deposits(Winners(EMPTY_TABLES, rs)) + Deposited(r) < TWO_63
    requires r.Transfer? ==> r.from != r.to && r.amount > 0
    ensures Fits(AfterAll(EMPTY_TABLES, rs), r)
  {
    forall c
      ensures Total(AfterAll(EMPTY_TABLES, rs), c) <= Deposits(Winners(EMPTY_TABLES, rs))
    {
      PaidIn(rs, c);
    }
    PaidIn(rs, "");
    PlainFits(AfterAll(EMPTY_TABLES, rs), r, Deposits(Winners(EMPTY_TABLES, rs)));
  }

  // ----- idempotency keys -----

  predicate Keyed(r: Request) { !r.CreateCurrency? }

  lemma {:induction false} KeysGrow(db: Tables, rs: seq<Request>, k: nat)
    requires k <= |rs|
    ensures AfterAll(db, rs[..k]).keys <= AfterAll(db, rs).keys
    decreases |rs|
  {
    if k == |rs| {
      assert rs[..k] == rs;
    } else {
      assert rs[..|rs| - 1][..k] == rs[..k];
      KeysGrow(db, rs[..|rs| - 1], k);
    }
  }

  /**
    After a request with a key has succeeded, and whatever happened since, no request of any kind succeeds with that
    key.
   */
  lemma KeyWorksOnce(db: Tables, rs: seq<Request>, i: nat, j: nat)
    requires i < j < |rs| && Keyed(rs[i]) && Keyed(rs[j]) && rs[i].key == rs[j].key
    requires Succeeds(AfterAll(db, rs[..i]), rs[i])
    ensures !Succeeds(AfterAll(db, rs[..j]), rs[j])
    ensures AfterAll(db, rs[..j + 1]) == AfterAll(db, rs[..j])
  {
    KeyTaken(AfterAll(db, rs[..i]), rs[i]);
    assert rs[..i + 1] == rs[..i] + [rs[i]] && rs[..j + 1] == rs[..j] + [rs[j]];
    AfterSnoc(db, rs[..i], rs[i]);
    AfterSnoc(db, rs[..j], rs[j]);
    assert rs[..j][..i + 1] == rs[..i + 1];
    KeysGrow(db, rs[..j], i + 1);
    KeyRefused(AfterAll(db, rs[..j]), rs[j]);
  }

  lemma KeyTaken(db: Tables, r: Request)
    requires Keyed(r) && Succeeds(db, r)
    ensures r.key in After(db, r).keys
  {
    AfterExactly(db, r);
  }

  lemma KeyRefused(db: Tables, r: Request)
    requires Keyed(r) && r.key in db.keys
    ensures !Succeeds(db, r) && After(db, r) == db
  {
    AfterExactly(db, r);
  }

  /** The requests of a history that succeed, in order. */
  ghost function Winners(db: Tables, rs: seq<Request>): seq<Request> {
    if rs == [] then []
    else
      var earlier := Winners(db, rs[..|rs| - 1]);
      if Succeeds(AfterAll(db, rs[..|rs| - 1]), rs[|rs| - 1]) then earlier + [rs[|rs| - 1]] else earlier
  }

  ghost predicate AllSucceed(db: Tables, rs: seq<Request>) {
    forall k :: 0 <= k < |rs| ==> Succeeds(AfterAll(db, rs[..k]), rs[k])
  }

  lemma AfterSnoc(db: Tables, rs: seq<Request>, r: Request)
    ensures AfterAll(db, rs + [r]) == After(AfterAll(db, rs), r)
  {
    assert (rs + [r])[..|rs|] == rs;
  }

  lemma SucceedSnoc(db: Tables, rs: seq<Request>, r: Request)
    requires AllSucceed(db, rs) && Succeeds(AfterAll(db, rs), r)
    ensures AllSucceed(db, rs + [r])
  {
    forall k | 0 <= k <= |rs|
      ensures Succeeds(AfterAll(db, (rs + [r])[..k]), (rs + [r])[k])
    {
      if k < |rs| {
        assert (rs + [r])[..k] == rs[..k];
      } else {
        assert (rs + [r])[..k] == rs;
      }
    }
  }

  /**
    Removing every failed request, a repeated key or otherwise, leaves the same tables, and all that remain succeed.
   */
  lemma {:induction false} FailuresLeaveNoTrace(db: Tables, rs: seq<Request>)
    ensures AfterAll(db, Winners(db, rs)) == AfterAll(db, rs)
    ensures AllSucceed(db, Winners(db, rs))
    decreases |rs|
  {
    if rs != [] {
      var r, earlier := rs[|rs| - 1], Winners(db, rs[..|rs| - 1]);
      FailuresLeaveNoTrace(db, rs[..|rs| - 1]);
      if Succeeds(AfterAll(db, rs[..|rs| - 1]), r) {
        AfterSnoc(db, earlier, r);
        SucceedSnoc(db, earlier, r);
      }
    }
  }

  /** The history without the requests at the positions in `drop`. */
  function Without(rs: seq<Request>, drop: set<int>): seq<Request> {
    if rs == [] then []
    else Without(rs[..|rs| - 1], drop) + if |rs| - 1 in drop then [] else [rs[|rs| - 1]]
  }

  /** Removing any failed requests, such as the retries of a key that was used before, leaves the same tables. */
  lemma {:induction false} RetriesLeaveNoTrace(db: Tables, rs: seq<Request>, drop: set<int>)
    requires forall i :: 0 <= i < |rs| && i in drop ==> !Succeeds(AfterAll(db, rs[..i]), rs[i])
    ensures AfterAll(db, Without(rs, drop)) == AfterAll(db, rs)
    decreases |rs|
  {
    if rs != [] {
      var last := |rs| - 1;
      assert forall i :: 0 <= i < last ==> rs[..last][..i] == rs[..i];
      RetriesLeaveNoTrace(db, rs[..last], drop);
      if last !in drop {
        AfterSnoc(db, Without(rs[..last], drop), rs[last]);
      } else {
        assert Without(rs, drop) == Without(rs[..last], drop);
      }
    }
  }

  /** The keys in use are exactly those of the requests that succeeded: a failed request leaves its key unused. */
  lemma {:induction false} KeysExactly(rs: seq<Request>, key: string)
    ensures key in AfterAll(EMPTY_TABLES, rs).keys <==> exists k :: 0 <= k < |rs| && UsesKey(rs, k, key)
    decreases |rs|
  {
    if rs != [] {
      var last := |rs| - 1;
      var earlier := rs[..last];
      KeysExactly(earlier, key);
      assert forall k :: 0 <= k < last ==> earlier[..k] == rs[..k] && earlier[k] == rs[k];
      assert forall k :: 0 <= k < last ==> (UsesKey(earlier, k, key) <==> UsesKey(rs, k, key));
      AfterExactly(AfterAll(EMPTY_TABLES, earlier), rs[last]);
      assert UsesKey(rs, last, key) <==>
        Keyed(rs[last]) && rs[last].key == key && Accepts(AfterAll(EMPTY_TABLES, earlier), rs[last]);
    }
  }

  /** Request `k` of the history succeeds with this key. */
  ghost predicate UsesKey(rs: seq<Request>, k: nat, key: string)
    requires k < |rs|
  {
    Keyed(rs[k]) && rs[k].key == key && Succeeds(AfterAll(EMPTY_TABLES, rs[..k]), rs[k])
  }

  // ----- where the code breaks its promises -----

  /** A currency and two accounts in it. */
  const OPENING: seq<Request> := [
    CreateCurrency("EUR", 2),
    CreateAccount("a", "Ann", "EUR", 1),
    CreateAccount("b", "Bob", "EUR", 2)]

  lemma Opened()
    ensures AfterAll(EMPTY_TABLES, OPENING) ==
      Tables(map["EUR" := 2], map[1 := Account("Ann", "EUR"), 2 := Account("Bob", "EUR")], map[1 := 0, 2 := 0],
        {"a", "b"}, map[])
  {
    var r1, r2, r3 := OPENING[0], OPENING[1], OPENING[2];
    assert OPENING == [] + [r1] + [r2] + [r3];
    AfterSnoc(EMPTY_TABLES, [], r1);
    AfterExactly(EMPTY_TABLES, r1);
    AfterSnoc(EMPTY_TABLES, [] + [r1], r2);
    AfterExactly(AfterAll(EMPTY_TABLES, [] + [r1]), r2);
    AfterSnoc(EMPTY_TABLES, [] + [r1] + [r2], r3);
    AfterExactly(AfterAll(EMPTY_TABLES, [] + [r1] + [r2]), r3);
  }

  lemma OneMore(rs: seq<Request>, r: Request)
    requires Accepts(AfterAll(EMPTY_TABLES, rs), r)
    ensures var db := AfterAll(EMPTY_TABLES, rs);
      AfterAll(EMPTY_TABLES, rs + [r]) == Effects(db, r, Reads(db, r))
  {
    AfterSnoc(EMPTY_TABLES, rs, r);
    AfterExactly(AfterAll(EMPTY_TABLES, rs), r);
  }

  /** Account 1 holds `amount`. */
  lemma Funded(amount: Int64)
    requires amount > 0
    ensures AfterAll(EMPTY_TABLES, OPENING + [Deposit("c", 1, amount, 7)]) ==
      Tables(map["EUR" := 2], map[1 := Account("Ann", "EUR"), 2 := Account("Bob", "EUR")], map[1 := amount, 2 := 0],
        {"a", "b", "c"},
             map[7 := Row(1, TxDeposit, amount, None)])
  {
    Opened();
    OneMore(OPENING, Deposit("c", 1, amount, 7));
  }

  /** A transfer to the same account mints money: a deposit of 100 becomes 110. */
  lemma SelfTransferMints()
    ensures AfterAll(EMPTY_TABLES, OPENING + [Deposit("c", 1, 100, 7)] + [Transfer("d", 1, 1, 10, 8, 9)]).balances
      == map[1 := 110, 2 := 0]
  {
    Funded(100);
    OneMore(OPENING + [Deposit("c", 1, 100, 7)], Transfer("d", 1, 1, 10, 8, 9));
  }

  /** A negative transfer takes from the receiver what it does not have. */
  lemma NegativeTransferOverdraws()
    ensures AfterAll(EMPTY_TABLES, OPENING + [Deposit("c", 1, 100, 7)] + [Transfer("d", 1, 2, -5, 8, 9)]).balances
      == map[1 := 105, 2 := -5]
  {
    Funded(100);
    OneMore(OPENING + [Deposit("c", 1, 100, 7)], Transfer("d", 1, 2, -5, 8, 9));
  }

  /** A deposit on top of the largest balance wraps around to the smallest. */
  lemma DepositOverflows()
    ensures AfterAll(EMPTY_TABLES,
      OPENING + [Deposit("c", 1, 0x7fff_ffff_ffff_ffff, 7)] + [Deposit("d", 1, 1, 8)]).balances
      == map[1 := -0x8000_0000_0000_0000, 2 := 0]
  {
    Funded(0x7fff_ffff_ffff_ffff);
    OneMore(OPENING + [Deposit("c", 1, 0x7fff_ffff_ffff_ffff, 7)], Deposit("d", 1, 1, 8));
  }
}
