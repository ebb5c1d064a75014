/**
  Many requests at once: their stages interleave, each stage reads the last committed tables, and
  locks are held to the end of the transaction. Every run answers exactly as some serial order does.
 */
module BankConcurrency {
  import opened BankTables

  /** What a stage locks: a key or id being inserted, or a balance row read for update. */
  datatype Lock =
    | KeyLock(key: string)
    | CurrencyLock(currency: string)
    | AccountLock(account: int)
    | BalanceLock(owner: int)
    | RowLock(row: int)

  function Needs(r: Request, stage: nat): set<Lock> {
    match r
    case CreateCurrency(id, _) => if stage == 1 then {CurrencyLock(id)} else {}
    case CreateAccount(key, _, _, newId) =>
      if stage == 1 then {KeyLock(key)} else if stage == 2 then {AccountLock(newId)} else {}
    case Deposit(key, account, _, rowId) =>
      if stage == 1 then {KeyLock(key)} else if stage == 2 then {BalanceLock(account)}
      else if stage == 3 then {RowLock(rowId)} else {}
    case Withdraw(key, account, _, rowId) =>
      if stage == 1 then {KeyLock(key)} else if stage == 2 then {BalanceLock(account)}
      else if stage == 3 then {RowLock(rowId)} else {}
    case Transfer(key, from, to, _, debitId, creditId) =>
      if stage == 3 then {KeyLock(key)} else if stage == 4 then {BalanceLock(from)}
      else if stage == 5 then {BalanceLock(to)} else if stage == 6 then {RowLock(debitId)}
      else if stage == 7 then {RowLock(creditId)} else {}
  }

  /** The locks a request holds after its first `k` stages. */
  function Held(r: Request, k: nat): set<Lock> {
    if k == 0 then {} else Held(r, k - 1) + Needs(r, k - 1)
  }

  /** A request under way: how many stages it has passed and what it has read. */
  datatype Session = Session(request: Request, stage: nat, locals: Locals)

  datatype Entry = Entry(request: Request, answer: Answer)

  /** The committed tables, the requests under way, and the answers given so far in order. */
  datatype World = World(db: Tables, sessions: map<int, Session>, log: seq<Entry>)

  datatype Step =
    | Begin(id: int, request: Request)
    | Next(id: int)
    | Commit(id: int)
    | Abort(id: int)

  /** No other session holds a lock the next stage needs; otherwise the session waits. */
  ghost predicate Free(w: World, id: int) {
    && id in w.sessions
    && forall u :: u in w.sessions && u != id ==>
         Held(w.sessions[u].request, w.sessions[u].stage) !! Needs(w.sessions[id].request, w.sessions[id].stage)
  }

  ghost predicate Enabled(w: World, a: Step) {
    match a
    case Begin(id, r) => id !in w.sessions
    case Next(id) => Free(w, id) && w.sessions[id].stage < Stages(w.sessions[id].request)
    case Commit(id) => id in w.sessions && w.sessions[id].stage == Stages(w.sessions[id].request)
    case Abort(id) => id in w.sessions
  }

  /** A failing stage rolls the transaction back and answers with the error; an abort answers nothing. */
  ghost function Take(w: World, a: Step): World
    requires Enabled(w, a)
  {
    match a
    case Begin(id, r) => w.(sessions := w.sessions[id := Session(r, 0, START)])
    case Next(id) =>
      var x := w.sessions[id];
      (match Advance(w.db, x.request, x.stage, x.locals)
       case At(l) => w.(sessions := w.sessions[id := Session(x.request, x.stage + 1, l)])
       case Failed(e) => w.(sessions := w.sessions - {id}, log := w.log + [Entry(x.request, Failure(e))]))
    case Commit(id) =>
      var x := w.sessions[id];
      World(Effects(w.db, x.request, x.locals), w.sessions - {id},
            w.log + [Entry(x.request, Success(Respond(x.request, x.locals)))])
    case Abort(id) => w.(sessions := w.sessions - {id})
  }

  ghost predicate CanTake(w: World, steps: seq<Step>)
    decreases |steps|
  {
    steps != [] ==> Enabled(w, steps[0]) && CanTake(Take(w, steps[0]), steps[1..])
  }

  ghost function TakeAll(w: World, steps: seq<Step>): World
    requires CanTake(w, steps)
    decreases |steps|
  {
    if steps == [] then w else TakeAll(Take(w, steps[0]), steps[1..])
  }

  // ----- what locks protect -----

  /** From `db` to `db'`, nothing under these locks changes, and currencies and accounts are never lost or changed. */
  ghost predicate Protects(db: Tables, db': Tables, locks: set<Lock>) {
    && (forall c :: c in db.currencies ==> c in db'.currencies)
    && (forall a :: a in db.accounts ==> a in db'.accounts && db'.accounts[a] == db.accounts[a])
    && (forall a :: a in db.balances ==> a in db'.balances)
    && forall x :: x in locks ==> SameUnder(db, db', x)
  }

  ghost predicate SameUnder(db: Tables, db': Tables, x: Lock) {
    match x
    case KeyLock(key) => key in db'.keys <==> key in db.keys
    case CurrencyLock(c) => c in db'.currencies <==> c in db.currencies
    case AccountLock(a) => (a in db'.accounts <==> a in db.accounts) && (a in db'.balances <==> a in db.balances)
    case BalanceLock(a) => a in db.balances ==> a in db'.balances && db'.balances[a] == db.balances[a]
    case RowLock(i) => i in db'.rows <==> i in db.rows
  }

  /** A stage that succeeded would succeed again, with the same reads. */
  lemma StageStable(db: Tables, db': Tables, r: Request, stage: nat, l: Locals)
    requires stage < Stages(r) && Advance(db, r, stage, l).At? && Protects(db, db', Needs(r, stage))
    ensures Advance(db', r, stage, l) == Advance(db, r, stage, l)
  {
    assert forall x :: x in Needs(r, stage) ==> SameUnder(db, db', x);
  }

  /** So everything a session has read is what it would read now. */
  lemma {:induction false} RunStable(db: Tables, db': Tables, r: Request, k: nat)
    requires k <= Stages(r) && Run(db, r, k).At? && Protects(db, db', Held(r, k))
    ensures Run(db', r, k) == Run(db, r, k)
    decreases k
  {
    if k > 0 {
      RunStable(db, db', r, k - 1);
      StageStable(db, db', r, k - 1, Run(db, r, k - 1).locals);
    }
  }

  lemma {:induction false} HeldIncludes(r: Request, j: nat, k: nat)
    requires j < k
    ensures Needs(r, j) <= Held(r, k)
    decreases k
  {
    if j < k - 1 {
      HeldIncludes(r, j, k - 1);
    }
  }

  /** A commit changes nothing under locks that others hold. */
  lemma CommitProtects(db: Tables, r: Request, l: Locals, locks: set<Lock>)
    requires Run(db, r, Stages(r)) == At(l) && locks !! Held(r, Stages(r))
    ensures Protects(db, Effects(db, r, l), locks)
  {
    SucceedsExactly(db, r);
    forall x | x in locks
      ensures SameUnder(db, Effects(db, r, l), x)
    {
      forall j | 0 <= j < Stages(r)
        ensures x !in Needs(r, j)
      {
        HeldIncludes(r, j, Stages(r));
      }
      CommitSpares(db, r, l, x);
    }
  }

  lemma CommitSpares(db: Tables, r: Request, l: Locals, x: Lock)
    requires Accepts(db, r) && forall j :: 0 <= j < Stages(r) ==> x !in Needs(r, j)
    ensures SameUnder(db, Effects(db, r, l), x)
  {
    match r
    case CreateCurrency(_, _) => assert x !in Needs(r, 1);
    case CreateAccount(_, _, _, _) => assert x !in Needs(r, 1) && x !in Needs(r, 2);
    case Deposit(_, _, _, _) => assert x !in Needs(r, 1) && x !in Needs(r, 2) && x !in Needs(r, 3);
    case Withdraw(_, _, _, _) => assert x !in Needs(r, 1) && x !in Needs(r, 2) && x !in Needs(r, 3);
    case Transfer(_, _, _, _, _, _) =>
      assert x !in Needs(r, 3) && x !in Needs(r, 4) && x !in Needs(r, 5) && x !in Needs(r, 6) && x !in Needs(r, 7);
  }

  // ----- serializability -----

  function Requests(log: seq<Entry>): seq<Request> {
    if log == [] then [] else Requests(log[..|log| - 1]) + [log[|log| - 1].request]
  }

  /** The log is a serial execution from `start` that ends in `db` and gives every answer of the log. */
  ghost predicate Serial(start: Tables, log: seq<Entry>, db: Tables) {
    if log == [] then db == start
    else
      var last := |log| - 1;
      var before := AfterAll(start, Requests(log[..last]));
      && Serial(start, log[..last], before)
      && log[last].answer == Answered(before, log[last].request)
      && db == After(before, log[last].request)
  }

  /** Every session has read what it would read now, and no two sessions hold the same lock. */
  ghost predicate Consistent(w: World) {
    && (forall u :: u in w.sessions ==>
          && w.sessions[u].stage <= Stages(w.sessions[u].request)
          && Run(w.db, w.sessions[u].request, w.sessions[u].stage) == At(w.sessions[u].locals))
    && (forall u, v :: u in w.sessions && v in w.sessions && u != v ==>
          Held(w.sessions[u].request, w.sessions[u].stage) !! Held(w.sessions[v].request, w.sessions[v].stage))
  }

  ghost predicate WorldInv(start: Tables, w: World) {
    Consistent(w) && Serial(start, w.log, w.db)
  }

  lemma {:induction false} SerialEnds(start: Tables, log: seq<Entry>, db: Tables)
    requires Serial(start, log, db)
    ensures db == AfterAll(start, Requests(log))
    decreases |log|
  {
    if log != [] {
      var last := |log| - 1;
      assert Requests(log)[..last] == Requests(log[..last]) by {
        RequestsLength(log[..last]);
      }
      RequestsLength(log);
    }
  }

  lemma {:induction false} RequestsLength(log: seq<Entry>)
    ensures |Requests(log)| == |log|
  {
    if log != [] {
      RequestsLength(log[..|log| - 1]);
    }
  }

  lemma SerialExtends(start: Tables, log: seq<Entry>, db: Tables, e: Entry)
    requires Serial(start, log, db) && e.answer == Answered(db, e.request)
    ensures Serial(start, log + [e], After(db, e.request))
  {
    SerialEnds(start, log, db);
    assert (log + [e])[..|log|] == log;
  }

  /** A stage that gets through adds its locks, which nobody else holds. */
  lemma NextAdvances(w: World, id: int)
    requires Consistent(w) && Enabled(w, Next(id))
    requires Advance(w.db, w.sessions[id].request, w.sessions[id].stage, w.sessions[id].locals).At?
    ensures Consistent(Take(w, Next(id)))
  {
    var x, w' := w.sessions[id], Take(w, Next(id));
    assert Run(w.db, x.request, x.stage + 1) == At(w'.sessions[id].locals);
    assert Held(x.request, x.stage + 1) == Held(x.request, x.stage) + Needs(x.request, x.stage);
    forall u, v | u in w'.sessions && v in w'.sessions && u != v
      ensures Held(w'.sessions[u].request, w'.sessions[u].stage) !! Held(w'.sessions[v].request, w'.sessions[v].stage)
    {
      assert Held(w.sessions[u].request, w.sessions[u].stage) !! Held(w.sessions[v].request, w.sessions[v].stage);
    }
  }

  /** A failing stage is the failure the request would meet if it ran now without interruption. */
  lemma NextFails(start: Tables, w: World, id: int, e: Error)
    requires WorldInv(start, w) && Enabled(w, Next(id))
    requires Advance(w.db, w.sessions[id].request, w.sessions[id].stage, w.sessions[id].locals) == Failed(e)
    ensures Answered(w.db, w.sessions[id].request) == Failure(e)
    ensures WorldInv(start, Take(w, Next(id)))
  {
    var x := w.sessions[id];
    assert Run(w.db, x.request, x.stage + 1) == Failed(e);
    FailureLasts(w.db, x.request, x.stage + 1, Stages(x.request));
    SerialExtends(start, w.log, w.db, Entry(x.request, Failure(e)));
  }

  lemma NextKeeps(start: Tables, w: World, id: int)
    requires WorldInv(start, w) && Enabled(w, Next(id))
    ensures WorldInv(start, Take(w, Next(id)))
  {
    var p := Advance(w.db, w.sessions[id].request, w.sessions[id].stage, w.sessions[id].locals);
    if p.At? {
      NextAdvances(w, id);
    } else {
      NextFails(start, w, id, p.error);
    }
  }

  /** A commit is the whole request run now: the last stage's reads are still current. */
  lemma CommitKeeps(start: Tables, w: World, id: int)
    requires WorldInv(start, w) && Enabled(w, Commit(id))
    ensures WorldInv(start, Take(w, Commit(id)))
  {
    var x, w' := w.sessions[id], Take(w, Commit(id));
    SerialExtends(start, w.log, w.db, Entry(x.request, Success(Respond(x.request, x.locals))));
    forall u | u in w'.sessions
      ensures Run(w'.db, w.sessions[u].request, w.sessions[u].stage) == At(w.sessions[u].locals)
    {
      var y := w.sessions[u];
      CommitProtects(w.db, x.request, x.locals, Held(y.request, y.stage));
      RunStable(w.db, w'.db, y.request, y.stage);
    }
  }

  lemma {:induction false} StepsKeep(start: Tables, w: World, steps: seq<Step>)
    requires WorldInv(start, w) && CanTake(w, steps)
    ensures WorldInv(start, TakeAll(w, steps))
    decreases |steps|
  {
    if steps != [] {
      match steps[0] {
        case Begin(_, _) =>
        case Next(id) => NextKeeps(start, w, id);
        case Commit(id) => CommitKeeps(start, w, id);
        case Abort(_) =>
      }
      StepsKeep(start, Take(w, steps[0]), steps[1..]);
    }
  }

  /**
    Serializability: in every interleaving of any requests, with aborts anywhere, the committed tables are
    those of the answered requests run one after the other in the order of their answers, and every answer,
    success or error, is the answer of that serial run.
   */
  lemma Serializable(start: Tables, steps: seq<Step>)
    requires CanTake(World(start, map[], []), steps)
    ensures var w := TakeAll(World(start, map[], []), steps);
      Serial(start, w.log, w.db) && w.db == AfterAll(start, Requests(w.log))
  {
    StepsKeep(start, World(start, map[], []), steps);
    var w := TakeAll(World(start, map[], []), steps);
    SerialEnds(start, w.log, w.db);
  }
}
