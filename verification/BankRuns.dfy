/** The bank's promises for every concurrent run: serializability carries them over from serial histories. */
module BankRuns {
  import opened BankTables
  import opened BankLedger
  import opened BankConcurrency

  const FRESH := World(EMPTY_TABLES, map[], [])

  lemma {:induction false} RequestAt(log: seq<Entry>, k: nat)
    requires k < |log|
    ensures |Requests(log)| == |log| && Requests(log)[k] == log[k].request && Requests(log)[..k] == Requests(log[..k])
    decreases |log|
  {
    RequestsLength(log);
    var last := |log| - 1;
    RequestsLength(log[..last]);
    if k < last {
      RequestAt(log[..last], k);
      assert log[..last][..k] == log[..k];
    }
  }

  /** Every answer in the log is the answer of the serial run at its place. */
  lemma {:induction false} SerialAnswer(start: Tables, log: seq<Entry>, db: Tables, k: nat)
    requires Serial(start, log, db) && k < |log|
    ensures |Requests(log)| == |log|
    ensures log[k].answer == Answered(AfterAll(start, Requests(log)[..k]), Requests(log)[k])
    decreases |log|
  {
    RequestAt(log, k);
    var last := |log| - 1;
    if k < last {
      RequestAt(log[..last], k);
      assert log[..last][..k] == log[..k];
      SerialAnswer(start, log[..last], AfterAll(start, Requests(log[..last])), k);
    }
  }

  /** A successful request that carries an idempotency key. */
  predicate Won(e: Entry) {
    e.answer.Success? && Keyed(e.request)
  }

  /**
    In every interleaving from empty tables: references are sound at all times, no answer is "cannot find
    balance", and no two successful requests share an idempotency key.
   */
  lemma EveryRunIsSound(steps: seq<Step>)
    requires CanTake(FRESH, steps)
    ensures var w := TakeAll(FRESH, steps);
      && Sound(w.db)
      && (forall k, a :: 0 <= k < |w.log| ==> w.log[k].answer != Failure(BalanceMissing(a)))
      && (forall i, j :: 0 <= i < j < |w.log| && Won(w.log[i]) && Won(w.log[j]) ==>
        w.log[i].request.key != w.log[j].request.key)
  {
    var w := TakeAll(FRESH, steps);
    Serializable(EMPTY_TABLES, steps);
    EmptyIsGood();
    SoundAfterAll(EMPTY_TABLES, Requests(w.log));
    forall k, a | 0 <= k < |w.log|
      ensures w.log[k].answer != Failure(BalanceMissing(a))
    {
      NeverMissing(w.log, w.db, k, a);
    }
    forall i, j | 0 <= i < j < |w.log| && Won(w.log[i]) && Won(w.log[j])
      ensures w.log[i].request.key != w.log[j].request.key
    {
      KeyOnce(w.log, w.db, i, j);
    }
  }

  lemma NeverMissing(log: seq<Entry>, db: Tables, k: nat, a: int)
    requires Serial(EMPTY_TABLES, log, db) && k < |log|
    ensures log[k].answer != Failure(BalanceMissing(a))
  {
    SerialAnswer(EMPTY_TABLES, log, db, k);
    EmptyIsGood();
    SoundAfterAll(EMPTY_TABLES, Requests(log)[..k]);
    MissingNowhere(AfterAll(EMPTY_TABLES, Requests(log)[..k]), Requests(log)[k], a);
  }

  lemma MissingNowhere(db: Tables, r: Request, a: int)
    requires Sound(db)
    ensures Answered(db, r) != Failure(BalanceMissing(a))
  {
    if r.Transfer? {
      LookupsAreExact(db, r, a);
    } else {
      RunUnfolds(db, r, Stages(r));
    }
  }

  lemma KeyOnce(log: seq<Entry>, db: Tables, i: nat, j: nat)
    requires Serial(EMPTY_TABLES, log, db) && i < j < |log| && Won(log[i]) && Won(log[j])
    ensures log[i].request.key != log[j].request.key
  {
    SerialAnswer(EMPTY_TABLES, log, db, i);
    SerialAnswer(EMPTY_TABLES, log, db, j);
    RequestAt(log, i);
    RequestAt(log, j);
    if log[i].request.key == log[j].request.key {
      KeyWorksOnce(EMPTY_TABLES, Requests(log), i, j);
    }
  }

  /**
    The keys in use after a run are exactly those of its successful requests: refused and aborted ones leave theirs
    unused.
   */
  lemma KeysInUse(steps: seq<Step>, key: string)
    requires CanTake(FRESH, steps)
    ensures var w := TakeAll(FRESH, steps);
      key in w.db.keys <==> exists k :: 0 <= k < |w.log| && WonWith(w.log[k], key)
  {
    var w := TakeAll(FRESH, steps);
    Serializable(EMPTY_TABLES, steps);
    var rs := Requests(w.log);
    RequestsLength(w.log);
    KeysExactly(rs, key);
    forall k | 0 <= k < |rs|
      ensures UsesKey(rs, k, key) <==> WonWith(w.log[k], key)
    {
      SerialAnswer(EMPTY_TABLES, w.log, w.db, k);
      RequestAt(w.log, k);
    }
    if key in w.db.keys {
      var k :| 0 <= k < |rs| && UsesKey(rs, k, key);
      assert WonWith(w.log[k], key);
    }
    if k :| 0 <= k < |w.log| && WonWith(w.log[k], key) {
      assert UsesKey(rs, k, key);
    }
  }

  predicate WonWith(e: Entry, key: string) {
    Won(e) && e.request.key == key
  }

  /**
    A run leaves the same tables as its answered requests without any that failed, such as retries, one after the
    other.
   */
  lemma RunWithoutRetries(steps: seq<Step>, drop: set<int>)
    requires CanTake(FRESH, steps)
    requires forall k :: 0 <= k < |TakeAll(FRESH, steps).log| && k in drop ==>
      TakeAll(FRESH, steps).log[k].answer.Failure?
    ensures var w := TakeAll(FRESH, steps);
      w.db == AfterAll(EMPTY_TABLES, Without(Requests(w.log), drop))
  {
    var w := TakeAll(FRESH, steps);
    Serializable(EMPTY_TABLES, steps);
    var rs := Requests(w.log);
    RequestsLength(w.log);
    forall k | 0 <= k < |rs| && k in drop
      ensures !Succeeds(AfterAll(EMPTY_TABLES, rs[..k]), rs[k])
    {
      SerialAnswer(EMPTY_TABLES, w.log, w.db, k);
    }
    RetriesLeaveNoTrace(EMPTY_TABLES, rs, drop);
  }

  // ----- every serial history is a run -----

  lemma {:induction false} TakeConcat(w: World, first: seq<Step>, second: seq<Step>)
    requires CanTake(w, first) && CanTake(TakeAll(w, first), second)
    ensures CanTake(w, first + second) && TakeAll(w, first + second) == TakeAll(TakeAll(w, first), second)
    decreases |first|
  {
    if first == [] {
      assert first + second == second;
    } else {
      assert (first + second)[1..] == first[1..] + second;
      TakeConcat(Take(w, first[0]), first[1..], second);
    }
  }

  /** The request alone is under way, past its first `stage` stages. */
  ghost predicate Alone(w: World, r: Request, stage: nat) {
    stage <= Stages(r) && w.sessions.Keys == {0} && w.sessions[0].request == r && w.sessions[0].stage == stage
  }

  /** Nobody is under way, and the request was answered last. */
  ghost predicate AnsweredLast(w: World, w': World, r: Request) {
    w'.sessions == map[] && |w'.log| == |w.log| + 1 && w'.log[..|w.log|] == w.log && w'.log[|w.log|].request == r
  }

  lemma {:induction false} RunsAlone(w: World, r: Request, stage: nat) returns (steps: seq<Step>)
    requires Alone(w, r, stage)
    ensures CanTake(w, steps) && AnsweredLast(w, TakeAll(w, steps), r)
    decreases Stages(r) - stage
  {
    var step := if stage == Stages(r) then Commit(0) else Next(0);
    var w1 := Take(w, step);
    steps := [step];
    assert [step][1..] == [];
    if 0 in w1.sessions {
      var more := RunsAlone(w1, r, stage + 1);
      TakeConcat(w, [step], more);
      steps := [step] + more;
    }
  }

  lemma RunsOne(w: World, r: Request) returns (steps: seq<Step>)
    requires w.sessions == map[]
    ensures CanTake(w, steps) && AnsweredLast(w, TakeAll(w, steps), r)
  {
    var begin := Begin(0, r);
    assert [begin][1..] == [];
    var more := RunsAlone(Take(w, begin), r, 0);
    TakeConcat(w, [begin], more);
    steps := [begin] + more;
  }

  /** Every sequence of requests is the log of some run: nothing the service can do one by one is ruled out. */
  lemma {:induction false} SerialIsARun(rs: seq<Request>) returns (steps: seq<Step>)
    ensures CanTake(FRESH, steps) && TakeAll(FRESH, steps).sessions == map[]
    ensures Requests(TakeAll(FRESH, steps).log) == rs
    decreases |rs|
  {
    steps := [];
    if rs != [] {
      var earlier, r := rs[..|rs| - 1], rs[|rs| - 1];
      var before := SerialIsARun(earlier);
      var w := TakeAll(FRESH, before);
      var more := RunsOne(w, r);
      TakeConcat(FRESH, before, more);
      steps := before + more;
      assert rs == earlier + [r];
    }
  }

  // ----- the promises, at every moment of a run -----

  lemma {:induction false} TakeSplit(w: World, steps: seq<Step>, j: nat)
    requires CanTake(w, steps) && j <= |steps|
    ensures CanTake(w, steps[..j]) && CanTake(TakeAll(w, steps[..j]), steps[j..])
    ensures TakeAll(TakeAll(w, steps[..j]), steps[j..]) == TakeAll(w, steps)
    decreases j
  {
    if j == 0 {
      assert steps[..0] == [] && steps[0..] == steps;
    } else {
      assert steps[..j][1..] == steps[1..][..j - 1] && steps[1..][j - 1..] == steps[j..];
      TakeSplit(Take(w, steps[0]), steps[1..], j - 1);
    }
  }

  /** The log only grows. */
  lemma {:induction false} LogGrows(w: World, steps: seq<Step>)
    requires CanTake(w, steps)
    ensures w.log <= TakeAll(w, steps).log
    decreases |steps|
  {
    if steps != [] {
      assert w.log <= Take(w, steps[0]).log;
      LogGrows(Take(w, steps[0]), steps[1..]);
    }
  }

  /** Every length of the log up to its final one is its length at some moment. */
  lemma {:induction false} LogPasses(w: World, steps: seq<Step>, k: nat) returns (j: nat)
    requires CanTake(w, steps) && |w.log| <= k <= |TakeAll(w, steps).log|
    ensures j <= |steps| && CanTake(w, steps[..j]) && |TakeAll(w, steps[..j]).log| == k
    decreases |steps|
  {
    if |w.log| == k {
      j := 0;
      assert steps[..0] == [];
    } else {
      var i := LogPasses(Take(w, steps[0]), steps[1..], k);
      j := i + 1;
      assert steps[..j][1..] == steps[1..][..i];
    }
  }

  /** The committed tables after the first `j` steps. */
  ghost function CommittedAt(steps: seq<Step>, j: nat): Tables
    requires CanTake(FRESH, steps) && j <= |steps|
  {
    TakeSplit(FRESH, steps, j);
    TakeAll(FRESH, steps[..j]).db
  }

  /** They are those of the requests answered so far. */
  lemma CommittedIsHistory(steps: seq<Step>, j: nat)
    requires CanTake(FRESH, steps) && j <= |steps| && CanTake(FRESH, steps[..j])
    ensures var rs, k := Requests(TakeAll(FRESH, steps).log), |TakeAll(FRESH, steps[..j]).log|;
      k <= |rs| && CommittedAt(steps, j) == AfterAll(EMPTY_TABLES, rs[..k])
  {
    TakeSplit(FRESH, steps, j);
    var mid, w := TakeAll(FRESH, steps[..j]), TakeAll(FRESH, steps);
    LogGrows(mid, steps[j..]);
    Serializable(EMPTY_TABLES, steps[..j]);
    RequestsPrefix(mid.log, w.log);
  }

  lemma RequestsPrefix(log: seq<Entry>, log': seq<Entry>)
    requires log <= log'
    ensures |log| <= |Requests(log')| && Requests(log')[..|log|] == Requests(log)
  {
    RequestsLength(log');
    if |log| < |log'| {
      RequestAt(log', |log|);
      assert log'[..|log|] == log;
    } else {
      assert log == log';
    }
  }

  /**
    In every interleaving from empty tables: every committed state is good, that is sound, with each balance the sum of
    its rows and none negative, if and only if each accepted request fits the tables it is serialized after.
   */
  lemma RunExactly(steps: seq<Step>)
    requires CanTake(FRESH, steps)
    ensures (forall j :: 0 <= j <= |steps| ==> Good(CommittedAt(steps, j)))
      <==> AllFit(EMPTY_TABLES, Requests(TakeAll(FRESH, steps).log))
  {
    var rs := Requests(TakeAll(FRESH, steps).log);
    RequestsLength(TakeAll(FRESH, steps).log);
    EmptyIsGood();
    HistoryExactly(EMPTY_TABLES, rs);
    if GoodThroughout(EMPTY_TABLES, rs) {
      forall j | 0 <= j <= |steps|
        ensures Good(CommittedAt(steps, j))
      {
        TakeSplit(FRESH, steps, j);
        CommittedIsHistory(steps, j);
      }
    }
    if forall j :: 0 <= j <= |steps| ==> Good(CommittedAt(steps, j)) {
      forall k | 0 <= k <= |rs|
        ensures Good(AfterAll(EMPTY_TABLES, rs[..k]))
      {
        var j := LogPasses(FRESH, steps, k);
        CommittedIsHistory(steps, j);
      }
    }
  }

  /** In every run whose accepted requests fit, each currency holds exactly its deposits minus its withdrawals. */
  lemma RunConserves(steps: seq<Step>, currency: string)
    requires CanTake(FRESH, steps) && AllFit(EMPTY_TABLES, Requests(TakeAll(FRESH, steps).log))
    ensures var w := TakeAll(FRESH, steps);
      Good(w.db) && Total(w.db, currency) == Inflows(EMPTY_TABLES, Requests(w.log), currency)
  {
    Serializable(EMPTY_TABLES, steps);
    EmptyIsGood();
    GoodHistory(EMPTY_TABLES, Requests(TakeAll(FRESH, steps).log), currency);
  }

  /**
    No lost updates: in every interleaving from empty tables whose successful requests are plain, everything fits, so
    every committed state is good and each currency holds exactly its deposits minus its withdrawals. Nothing is asked
    of the requests that are refused.
   */
  lemma EveryPlainRunIsGood(steps: seq<Step>, currency: string)
    requires CanTake(FRESH, steps) && Plain(Winners(EMPTY_TABLES, Requests(TakeAll(FRESH, steps).log)))
    ensures forall j :: 0 <= j <= |steps| ==> Good(CommittedAt(steps, j))
    ensures var w := TakeAll(FRESH, steps); Total(w.db, currency) == Inflows(EMPTY_TABLES, Requests(w.log), currency)
  {
    PlainHistory(Requests(TakeAll(FRESH, steps).log));
    RunExactly(steps);
    RunConserves(steps, currency);
  }

  /**
    The currency check made before the transaction is still true whenever the transfer goes on, whatever has committed
    since.
   */
  lemma CurrencyCheckLasts(steps: seq<Step>, id: int)
    requires CanTake(FRESH, steps) && id in TakeAll(FRESH, steps).sessions
    ensures var w := TakeAll(FRESH, steps);
      var x := w.sessions[id];
      x.request.Transfer? && x.stage >= 3 ==>
        && AccountCurrency(w.db, x.request.from) != ""
        && AccountCurrency(w.db, x.request.to) == AccountCurrency(w.db, x.request.from)
  {
    var w := TakeAll(FRESH, steps);
    StepsKeep(EMPTY_TABLES, FRESH, steps);
    var x := w.sessions[id];
    if x.request.Transfer? && x.stage >= 3 {
      SuccessBefore(w.db, x.request, 3, x.stage);
      RunUnfolds(w.db, x.request, 3);
    }
  }
}
