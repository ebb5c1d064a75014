/**
  The migration runner of internal/bank_migrations: forward and backward loops that change the schema and
  the version table one transaction at a time, with the database failing at any migration.
 */
module Migrations {
  import opened Sums

  /** A migration creates one table, which may reference other tables. */
  datatype Migration = Migration(version: int, table: string, references: set<string>)

  /** The list of internal/bank_migrations/migrations.go. */
  const BANK_MIGRATIONS: seq<Migration> := [
    Migration(1, "currencies", {}),
    Migration(2, "accounts", {"currencies"}),
    Migration(3, "balances", {"accounts"}),
    Migration(4, "transactions", {"accounts", "transactions"}),
    Migration(5, "idempotency_keys", {})]

  /** The tables that exist, and what each references. */
  type Schema = map<string, set<string>>

  /** Versions are positive and increasing, tables are distinct, and each references only itself and earlier ones. */
  ghost predicate Ordered(ms: seq<Migration>) {
    && (forall i :: 0 <= i < |ms| ==> ms[i].version > 0)
    && (forall i, j :: 0 <= i < j < |ms| ==> ms[i].version < ms[j].version && ms[i].table != ms[j].table)
    && (forall i, t :: 0 <= i < |ms| && t in ms[i].references ==> exists j :: 0 <= j <= i && ms[j].table == t)
  }

  lemma BankMigrationsAreOrdered()
    ensures Ordered(BANK_MIGRATIONS)
  {
    var ms := BANK_MIGRATIONS;
    assert ms[0].table == "currencies" && ms[1].table == "accounts";
    assert ms[2].table == "balances" && ms[3].table == "transactions";
    assert |ms[0].table| == 10 && |ms[1].table| == 8 && |ms[2].table| == 8;
    assert |ms[3].table| == 12 && |ms[4].table| == 16;
    assert ms[1].table[0] != ms[2].table[0];
    forall i, t | 0 <= i < |ms| && t in ms[i].references
      ensures exists j :: 0 <= j <= i && ms[j].table == t
    {
      if t == "currencies" {
        assert ms[0].table == t;
      } else if t == "accounts" {
        assert ms[1].table == t;
      } else {
        assert ms[3].table == t;
      }
    }
  }

  // ----- states that are prefixes of the list -----

  function Versions(ms: seq<Migration>): set<int> {
    if ms == [] then {} else Versions(ms[..|ms| - 1]) + {ms[|ms| - 1].version}
  }

  function SchemaOf(ms: seq<Migration>): Schema {
    if ms == [] then map[] else SchemaOf(ms[..|ms| - 1])[ms[|ms| - 1].table := ms[|ms| - 1].references]
  }

  lemma {:induction false} VersionsOf(ms: seq<Migration>, v: int)
    ensures v in Versions(ms) <==> exists i :: 0 <= i < |ms| && ms[i].version == v
  {
    if ms != [] {
      VersionsOf(ms[..|ms| - 1], v);
      assert ms[|ms| - 1].version == v || v !in {ms[|ms| - 1].version};
      if v in Versions(ms[..|ms| - 1]) {
        var i :| 0 <= i < |ms| - 1 && ms[..|ms| - 1][i].version == v;
        assert ms[i].version == v;
      }
      if i :| 0 <= i < |ms| && ms[i].version == v {
        assert i < |ms| - 1 ==> ms[..|ms| - 1][i].version == v;
      }
    }
  }

  lemma {:induction false} TablesOf(ms: seq<Migration>, t: string)
    ensures t in SchemaOf(ms) <==> exists i :: 0 <= i < |ms| && ms[i].table == t
    ensures t in SchemaOf(ms) ==> exists i :: 0 <= i < |ms| && ms[i].table == t && ms[i].references == SchemaOf(ms)[t]
  {
    if ms != [] {
      var last := |ms| - 1;
      TablesOf(ms[..last], t);
      if ms[last].table == t {
        assert SchemaOf(ms)[t] == ms[last].references;
      } else if t in SchemaOf(ms) {
        var i :| 0 <= i < last && ms[..last][i].table == t && ms[..last][i].references == SchemaOf(ms[..last])[t];
        assert ms[i].table == t && ms[i].references == SchemaOf(ms)[t];
      } else {
        assert forall i :: 0 <= i < last ==> ms[..last][i] == ms[i];
      }
    }
  }

  // ----- single transactions -----

  datatype Database = Database(schema: Schema, applied: set<int>)

  datatype Outcome = Outcome(db: Database, ok: bool)

  /** A table can be created when its name is free and everything it references, but itself, exists. */
  predicate Creatable(db: Database, m: Migration) {
    && m.table !in db.schema
    && (forall t :: t in m.references && t != m.table ==> t in db.schema)
    && m.version !in db.applied
  }

  /** A table can be dropped when it exists and no other table references it. */
  predicate Droppable(db: Database, m: Migration) {
    && m.table in db.schema
    && (forall t :: t in db.schema && t != m.table ==> m.table !in db.schema[t])
  }

  function Create(db: Database, m: Migration): Database {
    Database(db.schema[m.table := m.references], db.applied + {m.version})
  }

  function Drop(db: Database, m: Migration): Database {
    Database(db.schema - {m.table}, db.applied - {m.version})
  }

  /** Every reference leads to a table that exists. */
  ghost predicate Closed(schema: Schema) {
    forall t, u :: t in schema && u in schema[t] ==> u in schema
  }

  /** The version found by asking for the last one, or 0 when there is none. */
  predicate IsLast(applied: set<int>, v: int) {
    if applied == {} then v == 0 else v in applied && forall w :: w in applied ==> w <= v
  }

  lemma HasLast(applied: set<int>)
    requires applied != {}
    ensures exists v :: v in applied && forall w :: w in applied ==> w <= v
  {
    var below := (v: int) => -v;
    var last := Least(applied, below);
    assert forall w :: w in applied ==> below(last) <= below(w);
  }

  // ----- the two loops -----

  /** The forward loop from position `i`; the database also fails, for its own reasons, at the versions in `faults`. */
  function UpLoop(db: Database, ms: seq<Migration>, i: nat, last: int, target: int, faults: set<int>): Outcome
    requires i <= |ms|
    decreases |ms| - i
  {
    if i == |ms| || ms[i].version > target then
      Outcome(db, true)
    else if ms[i].version <= last then
      UpLoop(db, ms, i + 1, last, target, faults)
    else if ms[i].version in faults || !Creatable(db, ms[i]) then
      Outcome(db, false)
    else
      UpLoop(Create(db, ms[i]), ms, i + 1, last, target, faults)
  }

  /** The backward loop over the first `i` migrations. */
  function DownLoop(db: Database, ms: seq<Migration>, i: nat, last: int, target: int, faults: set<int>): Outcome
    requires i <= |ms|
    decreases i
  {
    if i == 0 then
      Outcome(db, true)
    else if ms[i - 1].version > last then
      DownLoop(db, ms, i - 1, last, target, faults)
    else if ms[i - 1].version < target then
      Outcome(db, true)
    else if ms[i - 1].version in faults || !Droppable(db, ms[i - 1]) then
      Outcome(db, false)
    else
      DownLoop(Drop(db, ms[i - 1]), ms, i - 1, last, target, faults)
  }

  /** The database after the first `k` migrations. */
  function Prefix(ms: seq<Migration>, k: nat): Database
    requires k <= |ms|
  {
    Database(SchemaOf(ms[..k]), Versions(ms[..k]))
  }

  lemma InPrefix(ms: seq<Migration>, k: nat, v: int)
    requires k <= |ms|
    ensures v in Prefix(ms, k).applied <==> exists i :: 0 <= i < k && ms[i].version == v
  {
    VersionsOf(ms[..k], v);
    if i :| 0 <= i < k && ms[i].version == v {
      assert ms[..k][i].version == v;
    }
  }

  lemma TableInPrefix(ms: seq<Migration>, k: nat, t: string)
    requires k <= |ms|
    ensures t in Prefix(ms, k).schema <==> exists i :: 0 <= i < k && ms[i].table == t
    ensures t in Prefix(ms, k).schema ==>
      exists i :: 0 <= i < k && ms[i].table == t && ms[i].references == Prefix(ms, k).schema[t]
  {
    TablesOf(ms[..k], t);
    if i :| 0 <= i < k && ms[i].table == t {
      assert ms[..k][i].table == t;
    }
    if t in Prefix(ms, k).schema {
      var i :| 0 <= i < k && ms[..k][i].table == t && ms[..k][i].references == SchemaOf(ms[..k])[t];
      assert ms[i].table == t && ms[i].references == Prefix(ms, k).schema[t];
    }
  }

  lemma PrefixIsClosed(ms: seq<Migration>, k: nat)
    requires Ordered(ms) && k <= |ms|
    ensures Closed(Prefix(ms, k).schema)
  {
    var schema := Prefix(ms, k).schema;
    forall t, u | t in schema && u in schema[t]
      ensures u in schema
    {
      TableInPrefix(ms, k, t);
      var i :| 0 <= i < k && ms[i].table == t && ms[i].references == schema[t];
      var j :| 0 <= j <= i && ms[j].table == u;
      TableInPrefix(ms, k, u);
    }
  }

  lemma LastOfPrefix(ms: seq<Migration>, k: nat, last: int)
    requires Ordered(ms) && k <= |ms|
    requires IsLast(Prefix(ms, k).applied, last)
    ensures forall i :: 0 <= i < |ms| ==> (ms[i].version <= last <==> i < k)
  {
    InPrefix(ms, k, last);
    if k == 0 {
      assert ms[..k] == [];
    } else {
      InPrefix(ms, k, ms[k - 1].version);
    }
  }

  /** The next table can be created, and doing so gives the next prefix. */
  lemma CreateNext(ms: seq<Migration>, k: nat)
    requires Ordered(ms) && k < |ms|
    ensures Creatable(Prefix(ms, k), ms[k])
    ensures Create(Prefix(ms, k), ms[k]) == Prefix(ms, k + 1)
  {
    var db, m := Prefix(ms, k), ms[k];
    TableInPrefix(ms, k, m.table);
    InPrefix(ms, k, m.version);
    forall t | t in m.references && t != m.table
      ensures t in db.schema
    {
      var j :| 0 <= j <= k && ms[j].table == t;
      TableInPrefix(ms, k, t);
    }
    assert ms[..k + 1][..k] == ms[..k];
  }

  /** The last table can be dropped, and doing so gives the prefix before it. */
  lemma DropLast(ms: seq<Migration>, k: nat)
    requires Ordered(ms) && k < |ms|
    ensures Droppable(Prefix(ms, k + 1), ms[k])
    ensures Drop(Prefix(ms, k + 1), ms[k]) == Prefix(ms, k)
  {
    CreateNext(ms, k);
    var db, m := Prefix(ms, k), ms[k];
    PrefixIsClosed(ms, k);
    assert Drop(Create(db, m), m) == db;
  }

  // ----- where the loops stop -----

  /** How far a forward run gets from the prefix of length `k`. */
  function UpStop(ms: seq<Migration>, k: nat, target: int, faults: set<int>): (stop: nat)
    requires k <= |ms|
    ensures k <= stop <= |ms|
    ensures forall i :: k <= i < stop ==> ms[i].version <= target && ms[i].version !in faults
    ensures stop < |ms| ==> ms[stop].version > target || ms[stop].version in faults
    decreases |ms| - k
  {
    if k < |ms| && ms[k].version <= target && ms[k].version !in faults then UpStop(ms, k + 1, target, faults) else k
  }

  /** How far back a backward run gets. */
  function DownStop(ms: seq<Migration>, k: nat, target: int, faults: set<int>): (stop: nat)
    requires k <= |ms|
    ensures stop <= k
    ensures forall i :: stop <= i < k ==> ms[i].version >= target && ms[i].version !in faults
    ensures stop > 0 ==> ms[stop - 1].version < target || ms[stop - 1].version in faults
  {
    if k > 0 && ms[k - 1].version >= target && ms[k - 1].version !in faults
    then DownStop(ms, k - 1, target, faults)
    else k
  }

  predicate UpDone(ms: seq<Migration>, stop: nat, target: int) {
    stop >= |ms| || ms[stop].version > target
  }

  predicate DownDone(ms: seq<Migration>, stop: nat, target: int) {
    stop == 0 || stop > |ms| || ms[stop - 1].version < target
  }

  /**
    From position `i`, with the first `max(i, k)` migrations applied, the forward loop ends in the prefix where it
    stops.
   */
  lemma {:induction false} UpLoopMoves(ms: seq<Migration>, k: nat, i: nat, last: int, target: int, faults: set<int>)
    requires Ordered(ms) && k <= |ms| && i <= |ms|
    requires forall j :: 0 <= j < |ms| ==> (ms[j].version <= last <==> j < k)
    ensures var j := if i < k then k else i; var stop := UpStop(ms, j, target, faults);
      UpLoop(Prefix(ms, j), ms, i, last, target, faults) == Outcome(Prefix(ms, stop), UpDone(ms, stop, target))
    decreases |ms| - i
  {
    if i < |ms| && ms[i].version <= target && !(i >= k && ms[i].version in faults) {
      UpLoopMoves(ms, k, i + 1, last, target, faults);
      if i >= k {
        CreateNext(ms, i);
      }
    } else if i < k {
      assert UpStop(ms, k, target, faults) == k;
    }
  }

  lemma {:induction false} DownLoopMoves(ms: seq<Migration>, k: nat, i: nat, last: int, target: int, faults: set<int>)
    requires Ordered(ms) && k <= |ms| && i <= |ms|
    requires forall j :: 0 <= j < |ms| ==> (ms[j].version <= last <==> j < k)
    ensures var j := if i < k then i else k; var stop := DownStop(ms, j, target, faults);
      DownLoop(Prefix(ms, j), ms, i, last, target, faults) == Outcome(Prefix(ms, stop), DownDone(ms, stop, target))
    decreases i
  {
    if i > k {
      DownLoopMoves(ms, k, i - 1, last, target, faults);
    } else if i > 0 && ms[i - 1].version >= target && ms[i - 1].version !in faults {
      DownLoopDrops(ms, i, last, target, faults);
      DownLoopMoves(ms, k, i - 1, last, target, faults);
    } else if i > 0 {
      assert DownLoop(Prefix(ms, i), ms, i, last, target, faults) == Outcome(Prefix(ms, i), ms[i - 1].version < target);
    }
  }

  lemma DownLoopDrops(ms: seq<Migration>, i: nat, last: int, target: int, faults: set<int>)
    requires Ordered(ms) && 0 < i <= |ms| && target <= ms[i - 1].version <= last && ms[i - 1].version !in faults
    ensures DownLoop(Prefix(ms, i), ms, i, last, target, faults)
      == DownLoop(Prefix(ms, i - 1), ms, i - 1, last, target, faults)
  {
    DropLast(ms, i - 1);
  }

  // ----- calls -----

  /** One call of `Up` or `Down`; a call whose connection or version query fails does nothing. */
  datatype Call = Up(target: int, faults: set<int>) | Down(target: int, faults: set<int>) | NoConnection

  ghost predicate Called(ms: seq<Migration>, db: Database, c: Call, o: Outcome) {
    match c
    case Up(target, faults) => exists last :: IsLast(db.applied, last) && o == UpLoop(db, ms, 0, last, target, faults)
    case Down(target, faults) =>
      exists last :: IsLast(db.applied, last) && o == DownLoop(db, ms, |ms|, last, target, faults)
    case NoConnection => o == Outcome(db, false)
  }

  function Before(db: Database, os: seq<Outcome>, i: nat): Database
    requires i <= |os|
  {
    if i == 0 then db else os[i - 1].db
  }

  /** The outcomes `os` of the calls `cs` made one after the other. */
  ghost predicate CalledAll(ms: seq<Migration>, db: Database, cs: seq<Call>, os: seq<Outcome>) {
    && |os| == |cs|
    && (forall i :: 0 <= i < |cs| ==> Called(ms, Before(db, os, i), cs[i], os[i]))
  }

  function Stop(ms: seq<Migration>, k: nat, c: Call): (stop: nat)
    requires k <= |ms|
    ensures stop <= |ms|
  {
    match c
    case Up(target, faults) => UpStop(ms, k, target, faults)
    case Down(target, faults) => DownStop(ms, k, target, faults)
    case NoConnection => k
  }

  function Done(ms: seq<Migration>, stop: nat, c: Call): bool {
    match c
    case Up(target, _) => UpDone(ms, stop, target)
    case Down(target, _) => DownDone(ms, stop, target)
    case NoConnection => false
  }

  /** A call takes a prefix to a prefix, and fails exactly when a fault stops it short of its target. */
  lemma CallMoves(ms: seq<Migration>, k: nat, c: Call, o: Outcome)
    requires Ordered(ms) && k <= |ms|
    requires Called(ms, Prefix(ms, k), c, o)
    ensures o == Outcome(Prefix(ms, Stop(ms, k, c)), Done(ms, Stop(ms, k, c), c))
  {
    if !c.NoConnection? {
      var last :| && IsLast(Prefix(ms, k).applied, last)
                  && o == if c.Up? then UpLoop(Prefix(ms, k), ms, 0, last, c.target, c.faults)
                    else DownLoop(Prefix(ms, k), ms, |ms|, last, c.target, c.faults);
      LastOfPrefix(ms, k, last);
      UpLoopMoves(ms, k, 0, last, c.target, c.faults);
      DownLoopMoves(ms, k, |ms|, last, c.target, c.faults);
    }
  }

  lemma EmptyIsPrefix(ms: seq<Migration>)
    ensures Prefix(ms, 0) == Database(map[], {})
  {
    assert ms[..0] == [];
  }

  lemma CallKeepsPrefix(ms: seq<Migration>, before: nat, c: Call, o: Outcome) returns (k: nat)
    requires Ordered(ms) && before <= |ms|
    requires Called(ms, Prefix(ms, before), c, o)
    ensures k <= |ms| && o.db == Prefix(ms, k) && Closed(o.db.schema)
  {
    CallMoves(ms, before, c, o);
    k := Stop(ms, before, c);
    PrefixIsClosed(ms, k);
  }

  /** After every sequence of calls, whatever failed, the database is a prefix of the list and no reference dangles. */
  lemma {:induction false} AlwaysPrefix(ms: seq<Migration>, cs: seq<Call>, os: seq<Outcome>, i: nat) returns (k: nat)
    requires Ordered(ms)
    requires CalledAll(ms, Database(map[], {}), cs, os) && i < |cs|
    ensures k <= |ms| && os[i].db == Prefix(ms, k) && Closed(os[i].db.schema)
  {
    var before := 0;
    if i > 0 {
      before := AlwaysPrefix(ms, cs, os, i - 1);
    }
    EmptyIsPrefix(ms);
    assert Called(ms, Before(Database(map[], {}), os, i), cs[i], os[i]);
    k := CallKeepsPrefix(ms, before, cs[i], os[i]);
  }

  /** Where a forward run reaches its target, it has passed exactly the versions up to it. */
  lemma UpStopSplits(ms: seq<Migration>, k: nat, target: int, faults: set<int>)
    requires Ordered(ms) && k <= |ms| && UpDone(ms, UpStop(ms, k, target, faults), target)
    ensures forall i :: 0 <= i < |ms| ==> (i < UpStop(ms, k, target, faults) <==> i < k || ms[i].version <= target)
  {
  }

  /** A successful forward call adds exactly the missing versions up to the target. */
  lemma UpAddsMissing(ms: seq<Migration>, k: nat, c: Call, o: Outcome, v: int)
    requires Ordered(ms) && k <= |ms|
    requires c.Up? && Called(ms, Prefix(ms, k), c, o) && o.ok
    ensures v in o.db.applied <==> v in Prefix(ms, k).applied || (v in Versions(ms) && v <= c.target)
  {
    CallMoves(ms, k, c, o);
    InPrefix(ms, Stop(ms, k, c), v);
    InPrefix(ms, k, v);
    VersionsOf(ms, v);
    UpStopSplits(ms, k, c.target, c.faults);
  }

  /** A successful backward call leaves exactly the applied versions below the target. */
  lemma DownLeavesBelow(ms: seq<Migration>, k: nat, c: Call, o: Outcome, v: int)
    requires Ordered(ms) && k <= |ms|
    requires c.Down? && Called(ms, Prefix(ms, k), c, o) && o.ok
    ensures v in o.db.applied <==> v in Prefix(ms, k).applied && v < c.target
  {
    CallMoves(ms, k, c, o);
    InPrefix(ms, Stop(ms, k, c), v);
    InPrefix(ms, k, v);
  }

  /** Going down to a target just above the first `k` migrations undoes any forward call, finished or not. */
  lemma DownUndoesUp(ms: seq<Migration>, k: nat, up: Call, o: Outcome, down: Call, o': Outcome)
    requires Ordered(ms) && k <= |ms|
    requires up.Up? && Called(ms, Prefix(ms, k), up, o)
    requires down.Down? && down.faults == {} && Called(ms, o.db, down, o')
    requires forall i :: 0 <= i < |ms| ==> (ms[i].version < down.target <==> i < k)
    ensures o' == Outcome(Prefix(ms, k), true)
  {
    CallMoves(ms, k, up, o);
    var stop := Stop(ms, k, up);
    CallMoves(ms, stop, down, o');
    assert DownStop(ms, stop, down.target, {}) == k;
  }

  // ----- databases that are no prefix -----

  /**
    Tables that were there stay as they were, none dangles that did not before, and versions and tables come together.
   */
  ghost predicate Grown(ms: seq<Migration>, db: Database, db': Database, lo: int, hi: int) {
    && db.applied <= db'.applied
    && (forall t :: t in db.schema ==> t in db'.schema && db'.schema[t] == db.schema[t])
    && (Closed(db.schema) ==> Closed(db'.schema))
    && (forall v :: v in db'.applied && v !in db.applied ==> exists j :: Brings(ms, j, v, db', lo, hi))
    && (forall t :: t in db'.schema && t !in db.schema ==> exists j :: Creates(ms, j, t, db'))
  }

  /** Migration `j` has this version, within the limits, and its table is there. */
  ghost predicate Brings(ms: seq<Migration>, j: int, v: int, db: Database, lo: int, hi: int) {
    0 <= j < |ms| && ms[j].version == v && lo < v <= hi && ms[j].table in db.schema
  }

  ghost predicate Creates(ms: seq<Migration>, j: int, t: string, db: Database) {
    0 <= j < |ms| && ms[j].table == t && ms[j].version in db.applied
  }

  lemma GrownOne(ms: seq<Migration>, db: Database, i: nat, lo: int, hi: int)
    requires i < |ms| && lo < ms[i].version <= hi && Creatable(db, ms[i])
    ensures Grown(ms, db, Create(db, ms[i]), lo, hi)
  {
    var db' := Create(db, ms[i]);
    assert Brings(ms, i, ms[i].version, db', lo, hi) && Creates(ms, i, ms[i].table, db');
  }

  lemma GrownTwice(ms: seq<Migration>, db: Database, db1: Database, db2: Database, lo: int, hi: int)
    requires Grown(ms, db, db1, lo, hi) && Grown(ms, db1, db2, lo, hi)
    ensures Grown(ms, db, db2, lo, hi)
  {
    forall v | v in db2.applied && v !in db.applied
      ensures exists j :: Brings(ms, j, v, db2, lo, hi)
    {
      if v in db1.applied {
        var j :| Brings(ms, j, v, db1, lo, hi);
        assert Brings(ms, j, v, db2, lo, hi);
      }
    }
    forall t | t in db2.schema && t !in db.schema
      ensures exists j :: Creates(ms, j, t, db2)
    {
      if t in db1.schema {
        var j :| Creates(ms, j, t, db1);
        assert Creates(ms, j, t, db2);
      }
    }
  }

  lemma {:induction false} UpOnAnything(db: Database, ms: seq<Migration>, i: nat, last: int, target: int,
                                        faults: set<int>)
    requires i <= |ms|
    ensures Grown(ms, db, UpLoop(db, ms, i, last, target, faults).db, last, target)
    decreases |ms| - i
  {
    if i < |ms| && ms[i].version <= target {
      if ms[i].version <= last {
        UpOnAnything(db, ms, i + 1, last, target, faults);
      } else if ms[i].version !in faults && Creatable(db, ms[i]) {
        var db1 := Create(db, ms[i]);
        GrownOne(ms, db, i, last, target);
        UpOnAnything(db1, ms, i + 1, last, target, faults);
        GrownTwice(ms, db, db1, UpLoop(db1, ms, i + 1, last, target, faults).db, last, target);
      }
    }
  }

  /** Tables that stay are as they were, none dangles that did not before, and only versions within the limits go. */
  ghost predicate Shrunk(ms: seq<Migration>, db: Database, db': Database, lo: int, hi: int) {
    && db'.applied <= db.applied
    && (forall t :: t in db'.schema ==> t in db.schema && db.schema[t] == db'.schema[t])
    && (Closed(db.schema) ==> Closed(db'.schema))
    && (forall v :: v in db.applied && v !in db'.applied ==> exists j :: Removes(ms, j, v, db, lo, hi))
    && (forall t :: t in db.schema && t !in db'.schema ==> exists j :: Undoes(ms, j, t, db', lo, hi))
  }

  /** Migration `j` has this version, within the limits, and its table was there. */
  ghost predicate Removes(ms: seq<Migration>, j: int, v: int, db: Database, lo: int, hi: int) {
    0 <= j < |ms| && ms[j].version == v && lo <= v <= hi && ms[j].table in db.schema
  }

  ghost predicate Undoes(ms: seq<Migration>, j: int, t: string, db: Database, lo: int, hi: int) {
    0 <= j < |ms| && ms[j].table == t && lo <= ms[j].version <= hi && ms[j].version !in db.applied
  }

  lemma ShrunkOne(ms: seq<Migration>, db: Database, i: nat, lo: int, hi: int)
    requires i < |ms| && lo <= ms[i].version <= hi && Droppable(db, ms[i])
    ensures Shrunk(ms, db, Drop(db, ms[i]), lo, hi)
  {
    var db' := Drop(db, ms[i]);
    assert Removes(ms, i, ms[i].version, db, lo, hi) && Undoes(ms, i, ms[i].table, db', lo, hi);
  }

  lemma ShrunkTwice(ms: seq<Migration>, db: Database, db1: Database, db2: Database, lo: int, hi: int)
    requires Shrunk(ms, db, db1, lo, hi) && Shrunk(ms, db1, db2, lo, hi)
    ensures Shrunk(ms, db, db2, lo, hi)
  {
    forall v | v in db.applied && v !in db2.applied
      ensures exists j :: Removes(ms, j, v, db, lo, hi)
    {
      if v in db1.applied {
        var j :| Removes(ms, j, v, db1, lo, hi);
        assert Removes(ms, j, v, db, lo, hi);
      }
    }
    forall t | t in db.schema && t !in db2.schema
      ensures exists j :: Undoes(ms, j, t, db2, lo, hi)
    {
      if t !in db1.schema {
        var j :| Undoes(ms, j, t, db1, lo, hi);
        assert Undoes(ms, j, t, db2, lo, hi);
      }
    }
  }

  lemma {:induction false} DownOnAnything(db: Database, ms: seq<Migration>, i: nat, last: int, target: int,
                                          faults: set<int>)
    requires i <= |ms|
    ensures Shrunk(ms, db, DownLoop(db, ms, i, last, target, faults).db, target, last)
    decreases i
  {
    if i > 0 {
      if ms[i - 1].version > last {
        DownOnAnything(db, ms, i - 1, last, target, faults);
      } else if ms[i - 1].version >= target && ms[i - 1].version !in faults && Droppable(db, ms[i - 1]) {
        var db1 := Drop(db, ms[i - 1]);
        ShrunkOne(ms, db, i - 1, target, last);
        DownOnAnything(db1, ms, i - 1, last, target, faults);
        ShrunkTwice(ms, db, db1, DownLoop(db1, ms, i - 1, last, target, faults).db, target, last);
      }
    }
  }

  /**
    Whatever the database looks like before: `Up` overwrites no table, creates none whose references are missing, and
    records a version together with its table; `Down` drops no table that is still referenced; and a call that fails to
    connect changes nothing.
   */
  lemma CallOnAnything(ms: seq<Migration>, db: Database, c: Call, o: Outcome)
    requires Called(ms, db, c, o)
    ensures match c
      case Up(target, _) => exists last :: IsLast(db.applied, last) && Grown(ms, db, o.db, last, target)
      case Down(target, _) => exists last :: IsLast(db.applied, last) && Shrunk(ms, db, o.db, target, last)
      case NoConnection => o.db == db && !o.ok
  {
    match c
    case Up(target, faults) =>
      var last :| IsLast(db.applied, last) && o == UpLoop(db, ms, 0, last, target, faults);
      UpOnAnything(db, ms, 0, last, target, faults);
    case Down(target, faults) =>
      var last :| IsLast(db.applied, last) && o == DownLoop(db, ms, |ms|, last, target, faults);
      DownOnAnything(db, ms, |ms|, last, target, faults);
    case NoConnection =>
  }

  // ----- the runner -----

  class Runner {
    const migrations: seq<Migration>
    var schema: Schema
    var applied: set<int>

    constructor (migrations: seq<Migration>)
      ensures this.migrations == migrations
      ensures State() == Database(map[], {})
    {
      this.migrations := migrations;
      schema := map[];
      applied := {};
    }

    function State(): Database
      reads this
    {
      Database(schema, applied)
    }

    method GetMaxAppliedVersion() returns (version: int)
      ensures IsLast(applied, version)
    {
      if applied == {} {
        return 0;
      }
      HasLast(applied);
      version :| version in applied && forall w :: w in applied ==> w <= version;
    }

    /** The transaction of one forward step. */
    method CreateTx(m: Migration, fault: bool) returns (ok: bool)
      modifies this
      ensures ok <==> !fault && Creatable(old(State()), m)
      ensures State() == if ok then Create(old(State()), m) else old(State())
    {
      ok := !fault && Creatable(State(), m);
      if ok {
        schema := schema[m.table := m.references];
        applied := applied + {m.version};
      }
    }

    /** The transaction of one backward step. */
    method DropTx(m: Migration, fault: bool) returns (ok: bool)
      modifies this
      ensures ok <==> !fault && Droppable(old(State()), m)
      ensures State() == if ok then Drop(old(State()), m) else old(State())
    {
      ok := !fault && Droppable(State(), m);
      if ok {
        schema := schema - {m.table};
        applied := applied - {m.version};
      }
    }

    method Up(target: int, faults: set<int>) returns (ok: bool)
      modifies this
      ensures Called(migrations, old(State()), Call.Up(target, faults), Outcome(State(), ok))
    {
      var last := GetMaxAppliedVersion();
      for i := 0 to |migrations|
        invariant UpLoop(old(State()), migrations, 0, last, target, faults)
          == UpLoop(State(), migrations, i, last, target, faults)
      {
        var m := migrations[i];
        if m.version > target {
          return true;
        }
        if m.version <= last {
          continue;
        }
        ok := CreateTx(m, m.version in faults);
        if !ok {
          return false;
        }
      }
      ok := true;
    }

    method Down(target: int, faults: set<int>) returns (ok: bool)
      modifies this
      ensures Called(migrations, old(State()), Call.Down(target, faults), Outcome(State(), ok))
    {
      var last := GetMaxAppliedVersion();
      for i := |migrations| downto 0
        invariant DownLoop(old(State()), migrations, |migrations|, last, target, faults)
          == DownLoop(State(), migrations, i, last, target, faults)
      {
        var m := migrations[i];
        if m.version > last {
          continue;
        }
        if m.version < target {
          return true;
        }
        ok := DropTx(m, m.version in faults);
        if !ok {
          return false;
        }
      }
      ok := true;
    }
  }
}
