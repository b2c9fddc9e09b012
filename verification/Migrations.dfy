/** The migration runner (internal/db/migrations/migrations.go). Each migration is one
    transaction that changes the schema and records a name; any call can fail anywhere,
    and a commit can take effect while being reported as failed. */
module Migrations {
  import opened Wrappers

  datatype Migration<!S> = Migration(name: string, up: S -> S, down: S -> S)

  /** The schema and the migrations table: the recorded names by ascending id, or no table yet. */
  datatype Database<S> = Database(schema: S, table: Option<seq<string>>)

  datatype Transaction = BeginFails | ExecFails | RecordFails | CommitFails | CommitLost | Commits

  datatype Query = QueryFails | ScanFailsAt(row: nat) | RowsFail | Answers

  datatype Creation = Created | NotCreated | CreatedButLost

  // ---- What each call does

  function Initialized<S>(db: Database<S>, creation: Creation): Database<S> {
    if creation.NotCreated? || db.table.Some? then db else db.(table := Some([]))
  }

  /** The recorded names, unless the query, a scan or the end of the rows fails. */
  function Applied<S>(db: Database<S>, query: Query): Option<set<string>> {
    match (db.table, query)
    case (None, _) => None
    case (Some(_), QueryFails) => None
    case (Some(names), ScanFailsAt(row)) => if row < |names| then None else Some(set n | n in names)
    case (Some(_), RowsFail) => None
    case (Some(names), Answers) => Some(set n | n in names)
  }

  /** INSERT: names are unique. */
  function Recorded(table: Option<seq<string>>, name: string): Option<seq<string>> {
    match table
    case None => None
    case Some(names) => if name in names then None else Some(names + [name])
  }

  function Without(names: seq<string>, name: string): seq<string> {
    if names == [] then []
    else if names[|names| - 1] == name then Without(names[..|names| - 1], name)
    else Without(names[..|names| - 1], name) + [names[|names| - 1]]
  }

  function Erased(table: Option<seq<string>>, name: string): Option<seq<string>> {
    match table case None => None case Some(names) => Some(Without(names, name))
  }

  /** One transaction: all of it or none of it, and whether it is reported as done. */
  function Executed<S>(db: Database<S>, change: S -> S, table: Option<seq<string>>, tx: Transaction): (Database<S>, bool) {
    if table.None? || tx.BeginFails? || tx.ExecFails? || tx.RecordFails? || tx.CommitFails? then (db, false)
    else (Database(change(db.schema), table), tx.Commits?)
  }

  function ApplyOne<S>(db: Database<S>, m: Migration<S>, tx: Transaction): (Database<S>, bool) {
    Executed(db, m.up, Recorded(db.table, m.name), tx)
  }

  function RollbackOne<S>(db: Database<S>, m: Migration<S>, tx: Transaction): (Database<S>, bool) {
    Executed(db, m.down, Erased(db.table, m.name), tx)
  }

  type Transactions = nat -> Transaction

  /** Pending migrations from the i-th on, stopping at the first reported failure. */
  function MigrateFrom<S>(db: Database<S>, list: seq<Migration<S>>, applied: set<string>, i: nat, txs: Transactions): (Database<S>, bool)
    requires i <= |list|
    decreases |list| - i
  {
    if i == |list| then (db, true)
    else if list[i].name in applied then MigrateFrom(db, list, applied, i + 1, txs)
    else
      var (db', ok) := ApplyOne(db, list[i], txs(i));
      if ok then MigrateFrom(db', list, applied, i + 1, txs) else (db', false)
  }

  function Migrated<S>(db: Database<S>, list: seq<Migration<S>>, creation: Creation, query: Query, txs: Transactions): (Database<S>, bool) {
    var db' := Initialized(db, creation);
    if !creation.Created? then (db', false)
    else
      match Applied(db', query)
      case None => (db', false)
      case Some(applied) => MigrateFrom(db', list, applied, 0, txs)
  }

  /** One more than the position of the last migration in the list that has been applied. */
  function LastApplied<S>(list: seq<Migration<S>>, applied: set<string>): nat {
    if list == [] then 0
    else if list[|list| - 1].name in applied then |list|
    else LastApplied(list[..|list| - 1], applied)
  }

  function RolledBack<S>(db: Database<S>, list: seq<Migration<S>>, query: Query, tx: Transaction): (r: (Database<S>, bool)) {
    match Applied(db, query)
    case None => (db, false)
    case Some(applied) =>
      var n := LastApplied(list, applied);
      if 0 < n <= |list| then RollbackOne(db, list[n - 1], tx) else (db, false)
  }

  // ---- The source's form

  class Migrator<S> {
    var db: Database<S>

    constructor (db: Database<S>)
      ensures this.db == db
    {
      this.db := db;
    }

    method Initialize(creation: Creation) returns (ok: bool)
      modifies this
      ensures db == Initialized(old(db), creation) && ok == creation.Created?
    {
      if !creation.NotCreated? && db.table.None? { db := db.(table := Some([])); }
      ok := creation.Created?;
    }

    method GetAppliedMigrations(query: Query) returns (result: Option<map<string, bool>>)
      ensures match Applied(db, query)
              case None => result == None
              case Some(names) => result.Some? && result.value.Keys == names && forall n :: n in names ==> result.value[n]
    {
      if query.QueryFails? || db.table.None? { return None; }
      var rows := db.table.value;
      var applied: map<string, bool> := map[];
      var i := 0;
      while i < |rows|
        invariant 0 <= i <= |rows|
        invariant query.ScanFailsAt? ==> i <= query.row
        invariant applied.Keys == set n | n in rows[..i]
        invariant forall n :: n in applied ==> applied[n]
      {
        if query == ScanFailsAt(i) { return None; }
        applied := applied[rows[i] := true];
        i := i + 1;
        assert rows[..i] == rows[..i - 1] + [rows[i - 1]];
      }
      assert rows[..i] == rows;
      return if query.RowsFail? then None else Some(applied);
    }

    method ExecuteMigration(change: S -> S, recorded: Option<seq<string>>, tx: Transaction) returns (ok: bool)
      modifies this
      ensures (db, ok) == Executed(old(db), change, recorded, tx)
    {
      if tx.BeginFails? { return false; }
      var pending := db;  // inside the transaction; dropped by the deferred rollback
      if tx.ExecFails? { return false; }
      pending := pending.(schema := change(pending.schema));
      if tx.RecordFails? || recorded.None? { return false; }
      pending := pending.(table := recorded);
      if tx.CommitFails? { return false; }
      db := pending;
      ok := tx.Commits?;
    }

    method ApplyMigration(m: Migration<S>, tx: Transaction) returns (ok: bool)
      modifies this
      ensures (db, ok) == ApplyOne(old(db), m, tx)
    {
      ok := ExecuteMigration(m.up, Recorded(db.table, m.name), tx);
    }

    method RollbackMigration(m: Migration<S>, tx: Transaction) returns (ok: bool)
      modifies this
      ensures (db, ok) == RollbackOne(old(db), m, tx)
    {
      ok := ExecuteMigration(m.down, Erased(db.table, m.name), tx);
    }

    method Migrate(list: seq<Migration<S>>, creation: Creation, query: Query, txs: Transactions) returns (ok: bool)
      modifies this
      ensures (db, ok) == Migrated(old(db), list, creation, query, txs)
    {
      ok := Initialize(creation);
      if !ok { return; }
      var applied := GetAppliedMigrations(query);
      if applied.None? { return false; }
      ghost var start := db;
      var i := 0;
      while i < |list|
        invariant 0 <= i <= |list|
        invariant MigrateFrom(start, list, applied.value.Keys, 0, txs) == MigrateFrom(db, list, applied.value.Keys, i, txs)
      {
        if list[i].name !in applied.value || !applied.value[list[i].name] {
          ok := ApplyMigration(list[i], txs(i));
          if !ok { return; }
        }
        i := i + 1;
      }
      return true;
    }

    method Rollback(list: seq<Migration<S>>, query: Query, tx: Transaction) returns (ok: bool)
      modifies this
      ensures (db, ok) == RolledBack(old(db), list, query, tx)
    {
      var applied := GetAppliedMigrations(query);
      if applied.None? { return false; }
      var i := |list|;
      assert list[..i] == list;
      while i > 0
        invariant 0 <= i <= |list|
        invariant LastApplied(list, applied.value.Keys) == LastApplied(list[..i], applied.value.Keys)
      {
        assert list[..i][..i - 1] == list[..i - 1];
        if list[i - 1].name in applied.value && applied.value[list[i - 1].name] {
          ok := RollbackMigration(list[i - 1], tx);
          return;
        }
        i := i - 1;
      }
      return false;
    }
  }

  // ---- The prefix invariant

  function Names<S>(list: seq<Migration<S>>): seq<string> {
    if list == [] then [] else Names(list[..|list| - 1]) + [list[|list| - 1].name]
  }

  /** The schema after the given migrations, from the base schema. */
  function FoldUp<S>(base: S, list: seq<Migration<S>>): S {
    if list == [] then base else list[|list| - 1].up(FoldUp(base, list[..|list| - 1]))
  }

  ghost predicate Distinct<S>(list: seq<Migration<S>>) {
    forall i, j :: 0 <= i < j < |list| ==> list[i].name != list[j].name
  }

  /** Each Down takes back its Up where the list puts it; elsewhere it need not, as with
      CREATE TABLE IF NOT EXISTS over a table that is already there. */
  ghost predicate Invertible<S>(base: S, list: seq<Migration<S>>) {
    forall i :: 0 <= i < |list| ==>
      list[i].down(list[i].up(FoldUp(base, list[..i]))) == FoldUp(base, list[..i])
  }

  function Count<S>(db: Database<S>): nat {
    match db.table case None => 0 case Some(names) => |names|
  }

  /** The recorded names are those of the first `Count(db)` migrations of the list, in order. */
  ghost predicate NamesPrefix<S>(db: Database<S>, list: seq<Migration<S>>) {
    && Count(db) <= |list|
    && (db.table.Some? ==> db.table.value == Names(list[..Count(db)]))
  }

  /** The database has applied exactly the first `Count(db)` migrations of the list. */
  ghost predicate AtPrefix<S>(db: Database<S>, base: S, list: seq<Migration<S>>) {
    NamesPrefix(db, list) && db.schema == FoldUp(base, list[..Count(db)])
  }

  lemma {:induction false} NamesAt<S>(list: seq<Migration<S>>)
    ensures |Names(list)| == |list|
    ensures forall i :: 0 <= i < |list| ==> Names(list)[i] == list[i].name
  {
    if list == [] {
    } else {
      NamesAt(list[..|list| - 1]);
    }
  }

  /** Under distinct names, a migration is recorded exactly when it lies in the prefix. */
  lemma RecordedMeansBefore<S>(list: seq<Migration<S>>, k: nat, i: nat)
    requires Distinct(list) && k <= |list| && i < |list|
    ensures list[i].name in Names(list[..k]) <==> i < k
  {
    NamesAt(list[..k]);
    if i < k {
      assert Names(list[..k])[i] == list[i].name;
    }
  }

  lemma ApplyKeepsPrefix<S>(db: Database<S>, base: S, list: seq<Migration<S>>, tx: Transaction)
    requires Distinct(list) && NamesPrefix(db, list) && db.table.Some? && Count(db) < |list|
    ensures var (db', ok) := ApplyOne(db, list[Count(db)], tx);
            && NamesPrefix(db', list) && db'.table.Some?
            && (ok ==> Count(db') == Count(db) + 1)
            && Count(db) <= Count(db') <= Count(db) + 1
            && (AtPrefix(db, base, list) ==> AtPrefix(db', base, list))
  {
    var k := Count(db);
    RecordedMeansBefore(list, k, k);
    assert list[..k + 1][..k] == list[..k];
  }

  lemma {:induction false} MigrateFromKeepsPrefix<S>(db: Database<S>, base: S, list: seq<Migration<S>>, upto: nat,
                                                     k: nat, i: nat, txs: Transactions)
    requires Distinct(list) && NamesPrefix(db, list) && db.table.Some?
    requires i <= upto <= |list| && k <= |list| && Count(db) == if i < k then k else i
    ensures var (db', ok) := MigrateFrom(db, list[..upto], (set n | n in Names(list[..k])), i, txs);
            && NamesPrefix(db', list) && db'.table.Some?
            && Count(db) <= Count(db') && (ok ==> Count(db') == if upto < k then k else upto)
            && (AtPrefix(db, base, list) ==> AtPrefix(db', base, list))
    decreases upto - i
  {
    hide NamesPrefix, AtPrefix, ApplyOne, Distinct;
    if i == upto {
    } else {
      RecordedMeansBefore(list, k, i);
      if i < k {
        MigrateFromKeepsPrefix(db, base, list, upto, k, i + 1, txs);
      } else {
        ApplyKeepsPrefix(db, base, list, txs(i));
        var (db', ok) := ApplyOne(db, list[i], txs(i));
        if ok {
          MigrateFromKeepsPrefix(db', base, list, upto, k, i + 1, txs);
        }
      }
    }
  }

  /** Migrate with any initial part of the list, as an older program would call it: the
      prefix never shrinks, and a reported success means all of that part is applied. */
  lemma MigrateKeepsPrefix<S>(db: Database<S>, base: S, list: seq<Migration<S>>, upto: nat,
                              creation: Creation, query: Query, txs: Transactions)
    requires Distinct(list) && NamesPrefix(db, list) && upto <= |list|
    ensures var (db', ok) := Migrated(db, list[..upto], creation, query, txs);
            && NamesPrefix(db', list)
            && Count(db) <= Count(db') && (ok ==> Count(db') == if upto < Count(db) then Count(db) else upto)
            && (ok ==> db'.table.Some?)
            && (AtPrefix(db, base, list) ==> AtPrefix(db', base, list))
  {
    var db1 := Initialized(db, creation);
    assert list[..0] == [];
    if creation.Created? && Applied(db1, query).Some? {
      MigrateFromKeepsPrefix(db1, base, list, upto, Count(db1), 0, txs);
    }
  }

  lemma {:induction false} LastAppliedIs<S>(list: seq<Migration<S>>, k: nat, n: nat)
    requires Distinct(list) && k <= n <= |list|
    ensures LastApplied(list[..n], (set x | x in Names(list[..k]))) == k
  {
    if n == 0 {
    } else {
      RecordedMeansBefore(list, k, n - 1);
      if k < n {
        LastAppliedIs(list, k, n - 1);
        assert list[..n][..n - 1] == list[..n - 1];
      }
    }
  }

  lemma {:induction false} WithoutAbsent(names: seq<string>, name: string)
    requires name !in names
    ensures Without(names, name) == names
  {
    if names == [] {
    } else {
      WithoutAbsent(names[..|names| - 1], name);
    }
  }

  /** Rollback takes back exactly the last migration of the prefix, or nothing; the schema follows
      if each Down takes back its Up. */
  lemma RollbackKeepsPrefix<S>(db: Database<S>, base: S, list: seq<Migration<S>>, query: Query, tx: Transaction)
    requires Distinct(list) && NamesPrefix(db, list)
    ensures var (db', ok) := RolledBack(db, list, query, tx);
            && NamesPrefix(db', list)
            && Count(db') <= Count(db) <= Count(db') + 1
            && (ok ==> Count(db') + 1 == Count(db))
            && (Count(db) == 0 ==> db' == db && !ok)
            && (AtPrefix(db, base, list) && Invertible(base, list) ==> AtPrefix(db', base, list))
  {
    var k := Count(db);
    if Applied(db, query).Some? {
      assert list[..|list|] == list;
      LastAppliedIs(list, k, |list|);
      if k > 0 {
        RollbackOneKeepsPrefix(db, base, list, tx);
      }
      hide Invertible, RollbackOne, LastApplied;
    }
  }

  lemma RollbackOneKeepsPrefix<S>(db: Database<S>, base: S, list: seq<Migration<S>>, tx: Transaction)
    requires Distinct(list) && NamesPrefix(db, list) && db.table.Some? && Count(db) > 0
    ensures var (db', ok) := RollbackOne(db, list[Count(db) - 1], tx);
            && NamesPrefix(db', list)
            && Count(db') <= Count(db) <= Count(db') + 1 && (ok ==> Count(db') + 1 == Count(db))
            && (AtPrefix(db, base, list) && Invertible(base, list) ==> AtPrefix(db', base, list))
  {
    var k := Count(db);
    assert list[..k][..k - 1] == list[..k - 1];
    LastErased(list, k);
    if Invertible(base, list) {
      assert list[k - 1].down(list[k - 1].up(FoldUp(base, list[..k - 1]))) == FoldUp(base, list[..k - 1]);
    }
  }

  lemma LastErased<S>(list: seq<Migration<S>>, k: nat)
    requires Distinct(list) && 0 < k <= |list|
    ensures Without(Names(list[..k]), list[k - 1].name) == Names(list[..k - 1])
    ensures |Names(list[..k - 1])| == k - 1
  {
    assert list[..k][..k - 1] == list[..k - 1];
    RecordedMeansBefore(list, k - 1, k - 1);
    WithoutAbsent(Names(list[..k - 1]), list[k - 1].name);
    NamesAt(list[..k - 1]);
    assert Names(list[..k])[..k - 1] == Names(list[..k - 1]);
  }

  // ---- Whole runs

  datatype Call =
    | Migrate(upto: nat, creation: Creation, query: Query, txs: Transactions)
    | Rollback(query: Query, tx: Transaction)

  function Do<S>(db: Database<S>, list: seq<Migration<S>>, call: Call): (Database<S>, bool) {
    match call
    case Migrate(upto, creation, query, txs) =>
      Migrated(db, if upto <= |list| then list[..upto] else list, creation, query, txs)
    case Rollback(query, tx) => RolledBack(db, list, query, tx)
  }

  function DoAll<S>(db: Database<S>, list: seq<Migration<S>>, calls: seq<Call>): Database<S> {
    if calls == [] then db else Do(DoAll(db, list, calls[..|calls| - 1]), list, calls[|calls| - 1]).0
  }

  lemma CallKeepsPrefix<S>(db: Database<S>, base: S, list: seq<Migration<S>>, call: Call)
    requires Distinct(list) && NamesPrefix(db, list)
    ensures NamesPrefix(Do(db, list, call).0, list)
    ensures AtPrefix(db, base, list) && Invertible(base, list) ==> AtPrefix(Do(db, list, call).0, base, list)
  {
    match call
    case Migrate(upto, creation, query, txs) =>
      assert list[..|list|] == list;
      MigrateKeepsPrefix(db, base, list, if upto <= |list| then upto else |list|, creation, query, txs);
    case Rollback(query, tx) =>
      RollbackKeepsPrefix(db, base, list, query, tx);
  }

  /** Over every sequence of Migrate and Rollback calls, failing wherever they like, the
      recorded names are a prefix of the list, in order, whatever Up and Down do; and if each
      Down takes back its Up, the schema is exactly the base schema with that prefix applied. */
  lemma {:induction false} RunsKeepPrefix<S>(db: Database<S>, base: S, list: seq<Migration<S>>, calls: seq<Call>)
    requires Distinct(list) && NamesPrefix(db, list)
    ensures NamesPrefix(DoAll(db, list, calls), list)
    ensures AtPrefix(db, base, list) && Invertible(base, list) ==> AtPrefix(DoAll(db, list, calls), base, list)
  {
    if calls == [] {
    } else {
      RunsKeepPrefix(db, base, list, calls[..|calls| - 1]);
      CallKeepsPrefix(DoAll(db, list, calls[..|calls| - 1]), base, list, calls[|calls| - 1]);
    }
  }

  /** All of these names are recorded. */
  ghost predicate Records<S>(db: Database<S>, names: set<string>) {
    db.table.Some? && forall n :: n in names ==> n in db.table.value
  }

  function NamesFrom<S>(list: seq<Migration<S>>, i: nat): set<string> {
    set j | i <= j < |list| :: list[j].name
  }

  /** A loop that reports success leaves every name of the list recorded, and all there were. */
  lemma {:induction false} MigrateFromRecords<S>(db: Database<S>, list: seq<Migration<S>>, applied: set<string>, i: nat, txs: Transactions)
    requires i <= |list| && Records(db, applied) && MigrateFrom(db, list, applied, i, txs).1
    ensures var db' := MigrateFrom(db, list, applied, i, txs).0;
            Records(db', applied) && Records(db', NamesFrom(list, i)) && Records(db', set n | n in db.table.value)
    decreases |list| - i
  {
    if i == |list| {
    } else {
      var next := if list[i].name in applied then db else ApplyOne(db, list[i], txs(i)).0;
      assert Records(next, applied + {list[i].name} + (set n | n in db.table.value));
      MigrateFromRecords(next, list, applied, i + 1, txs);
      assert forall n :: n in NamesFrom(list, i) ==> n == list[i].name || n in NamesFrom(list, i + 1);
    }
  }

  /** After a successful Migrate another one changes nothing at all, from whatever database, with
      whatever list and whatever its transactions would have done; it succeeds exactly when the
      table can be read. */
  lemma MigrateTwice<S>(db: Database<S>, list: seq<Migration<S>>,
                        creation: Creation, query: Query, txs: Transactions,
                        creation': Creation, query': Query, txs': Transactions)
    requires Migrated(db, list, creation, query, txs).1
    ensures var once := Migrated(db, list, creation, query, txs).0;
            var (twice, ok) := Migrated(once, list, creation', query', txs');
            twice == once && (ok <==> creation'.Created? && Applied(once, query').Some?)
  {
    var start := Initialized(db, creation);
    var once := Migrated(db, list, creation, query, txs).0;
    MigrateFromRecords(start, list, Applied(start, query).value, 0, txs);
    if Applied(once, query').Some? {
      NothingPending(once, list, Applied(once, query').value, 0, txs');
    }
  }

  lemma {:induction false} NothingPending<S>(db: Database<S>, list: seq<Migration<S>>, applied: set<string>, i: nat, txs: Transactions)
    requires i <= |list| && NamesFrom(list, i) <= applied
    ensures MigrateFrom(db, list, applied, i, txs) == (db, true)
    decreases |list| - i
  {
    if i == |list| {
    } else {
      assert list[i].name in NamesFrom(list, i) && NamesFrom(list, i + 1) <= NamesFrom(list, i);
      NothingPending(db, list, applied, i + 1, txs);
    }
  }

  /** From a prefix of distinct names a successful Migrate reaches the whole list. */
  lemma MigrateCompletes<S>(db: Database<S>, base: S, list: seq<Migration<S>>, creation: Creation, query: Query, txs: Transactions)
    requires Distinct(list) && NamesPrefix(db, list)
    requires Migrated(db, list, creation, query, txs).1
    ensures var once := Migrated(db, list, creation, query, txs).0;
            once.table == Some(Names(list)) && (AtPrefix(db, base, list) ==> once.schema == FoldUp(base, list))
  {
    assert list[..|list|] == list;
    MigrateKeepsPrefix(db, base, list, |list|, creation, query, txs);
  }

  /** `n` successful rollbacks take back exactly the last `n` migrations; as many as were
      applied lead back to an empty table and, if each Down takes back its Up, to the base schema. */
  lemma {:induction false} RollbacksUndo<S>(db: Database<S>, base: S, list: seq<Migration<S>>, calls: seq<Call>)
    requires Distinct(list) && NamesPrefix(db, list)
    requires forall i :: 0 <= i < |calls| ==> calls[i].Rollback? && Do(DoAll(db, list, calls[..i]), list, calls[i]).1
    ensures var after := DoAll(db, list, calls);
            && NamesPrefix(after, list) && Count(after) + |calls| == Count(db)
            && (AtPrefix(db, base, list) && Invertible(base, list) ==>
                  AtPrefix(after, base, list) && (|calls| == Count(db) ==> after.schema == base))
  {
    if calls == [] {
    } else {
      var front := calls[..|calls| - 1];
      forall i | 0 <= i < |front| ensures front[i].Rollback? && Do(DoAll(db, list, front[..i]), list, front[i]).1 {
        assert front[..i] == calls[..i];
      }
      RollbacksUndo(db, base, list, front);
      var last := calls[|calls| - 1];
      RollbackKeepsPrefix(DoAll(db, list, front), base, list, last.query, last.tx);
    }
  }

  // ---- Repeated names

  predicate Pending<S>(list: seq<Migration<S>>, applied: set<string>, i: int) {
    0 <= i < |list| && list[i].name !in applied
  }

  ghost predicate PendingDistinct<S>(list: seq<Migration<S>>, applied: set<string>, from: nat) {
    forall i, j :: from <= i < j && Pending(list, applied, i) && Pending(list, applied, j) ==> list[i].name != list[j].name
  }

  ghost predicate PendingNew<S>(list: seq<Migration<S>>, applied: set<string>, from: nat, names: seq<string>) {
    forall i :: from <= i && Pending(list, applied, i) ==> list[i].name !in names
  }

  lemma {:induction false} MigrateFromExactly<S>(db: Database<S>, list: seq<Migration<S>>, applied: set<string>, i: nat, txs: Transactions)
    requires i <= |list| && db.table.Some? && forall n :: txs(n).Commits?
    ensures MigrateFrom(db, list, applied, i, txs).1
       <==> PendingDistinct(list, applied, i) && PendingNew(list, applied, i, db.table.value)
    decreases |list| - i
  {
    if i == |list| {
    } else {
      if !Pending(list, applied, i) {
        MigrateFromExactly(db, list, applied, i + 1, txs);
      } else if list[i].name !in db.table.value {
        var db' := ApplyOne(db, list[i], txs(i)).0;
        MigrateFromExactly(db', list, applied, i + 1, txs);
        OneApplied(list, applied, i, db.table.value);
      }
    }
  }

  lemma OneApplied<S>(list: seq<Migration<S>>, applied: set<string>, i: nat, names: seq<string>)
    requires Pending(list, applied, i) && list[i].name !in names
    ensures PendingDistinct(list, applied, i) && PendingNew(list, applied, i, names)
       <==> PendingDistinct(list, applied, i + 1) && PendingNew(list, applied, i + 1, names + [list[i].name])
  {
  }

  /** The recorded names are read once, before the loop: with every call succeeding, Migrate
      succeeds if and only if the pending migrations have distinct names. */
  lemma MigrateSucceedsExactly<S>(db: Database<S>, list: seq<Migration<S>>, txs: Transactions)
    requires forall n :: txs(n).Commits?
    ensures var applied := Applied(Initialized(db, Created), Answers).value;
            Migrated(db, list, Created, Answers, txs).1 <==> PendingDistinct(list, applied, 0)
  {
    var db' := Initialized(db, Created);
    MigrateFromExactly(db', list, Applied(db', Answers).value, 0, txs);
  }

  // ---- Rolling back with an older program's list

  lemma {:induction false} WithoutKeepsOthers(names: seq<string>, name: string)
    ensures forall n :: n in Without(names, name) <==> n in names && n != name
  {
    if names == [] {
    } else {
      WithoutKeepsOthers(names[..|names| - 1], name);
      assert forall n :: n in names <==> n in names[..|names| - 1] || n == names[|names| - 1];
    }
  }

  /** An older program knows only the first `upto` migrations. Its rollback keeps the prefix if
      and only if no later migration has been applied: otherwise it takes one out of the middle. */
  lemma OlderRollbackExactly<S>(db: Database<S>, base: S, list: seq<Migration<S>>, upto: nat)
    requires Distinct(list) && NamesPrefix(db, list) && 0 < upto <= |list|
    ensures var db' := RolledBack(db, list[..upto], Answers, Commits).0;
            && (NamesPrefix(db', list) <==> Count(db) <= upto)
            && (AtPrefix(db, base, list) && Invertible(base, list) ==> (AtPrefix(db', base, list) <==> Count(db) <= upto))
  {
    var k := Count(db);
    if Applied(db, Answers).Some? {
      if k <= upto {
        OlderListEnough(db, base, list, upto);
      } else {
        OlderListTooShort(db, list, upto);
      }
    }
  }

  lemma OlderListEnough<S>(db: Database<S>, base: S, list: seq<Migration<S>>, upto: nat)
    requires Distinct(list) && NamesPrefix(db, list)
    requires db.table.Some? && Count(db) <= upto <= |list|
    ensures var db' := RolledBack(db, list[..upto], Answers, Commits).0;
            NamesPrefix(db', list) && (AtPrefix(db, base, list) && Invertible(base, list) ==> AtPrefix(db', base, list))
  {
    OlderRollbackIs(db, list, upto);
    if Count(db) > 0 {
      RollbackOneKeepsPrefix(db, base, list, Commits);
    }
    hide NamesPrefix, AtPrefix, Invertible, RollbackOne, RolledBack;
  }

  lemma OlderRollbackIs<S>(db: Database<S>, list: seq<Migration<S>>, upto: nat)
    requires Distinct(list) && NamesPrefix(db, list)
    requires db.table.Some? && Count(db) <= upto <= |list|
    ensures RolledBack(db, list[..upto], Answers, Commits).0
         == if Count(db) == 0 then db else RollbackOne(db, list[Count(db) - 1], Commits).0
  {
    LastAppliedIs(list, Count(db), upto);
    hide RollbackOne, LastApplied;
  }

  lemma OlderListTooShort<S>(db: Database<S>, list: seq<Migration<S>>, upto: nat)
    requires Distinct(list) && NamesPrefix(db, list)
    requires db.table.Some? && 0 < upto < Count(db)
    ensures !NamesPrefix(RolledBack(db, list[..upto], Answers, Commits).0, list)
  {
    AllApplied(list, Count(db), upto);
    MiddleErased(list, Count(db), upto);
    hide LastApplied;
  }

  /** Without the middle one the names are no initial part of the list. */
  lemma MiddleErased<S>(list: seq<Migration<S>>, k: nat, upto: nat)
    requires Distinct(list) && 0 < upto < k <= |list|
    ensures forall c :: 0 <= c <= |list| ==> Without(Names(list[..k]), list[upto - 1].name) != Names(list[..c])
  {
    WithoutKeepsOthers(Names(list[..k]), list[upto - 1].name);
    RecordedMeansBefore(list, k, upto);
    forall c | 0 <= c <= |list| ensures Without(Names(list[..k]), list[upto - 1].name) != Names(list[..c]) {
      RecordedMeansBefore(list, c, upto);
      RecordedMeansBefore(list, c, upto - 1);
    }
  }

  lemma AllApplied<S>(list: seq<Migration<S>>, k: nat, upto: nat)
    requires Distinct(list) && 0 < upto <= k <= |list|
    ensures LastApplied(list[..upto], (set x | x in Names(list[..k]))) == upto
  {
    RecordedMeansBefore(list, k, upto - 1);
  }

  // ---- The hypothesis on Down is exact

  const ALL_COMMIT: Transactions := n => Commits

  /** What Migrate reaches when every call succeeds. */
  lemma MigrateReaches<S>(base: S, list: seq<Migration<S>>, upto: nat)
    requires Distinct(list) && upto <= |list|
    ensures var db := Migrated(Database(base, None), list[..upto], Created, Answers, ALL_COMMIT).0;
            db.table == Some(Names(list[..upto])) && db.schema == FoldUp(base, list[..upto])
  {
    var start := Database(base, None);
    assert list[..0] == [];
    MigrateKeepsPrefix(start, base, list, upto, Created, Answers, ALL_COMMIT);
    MigrateSucceedsExactly(start, list[..upto], ALL_COMMIT);
  }

  /** Rolling the last of `upto` migrations back leaves what its Down makes of its Up. */
  lemma RollbackReaches<S>(base: S, list: seq<Migration<S>>, upto: nat)
    requires Distinct(list) && 0 < upto <= |list|
    ensures RolledBack(Database(FoldUp(base, list[..upto]), Some(Names(list[..upto]))), list, Answers, Commits).0
         == Database(list[upto - 1].down(list[upto - 1].up(FoldUp(base, list[..upto - 1]))), Some(Names(list[..upto - 1])))
  {
    assert list[..|list|] == list;
    LastAppliedIs(list, upto, |list|);
    RollbackOneReaches(FoldUp(base, list[..upto]), list, upto);
    assert list[..upto][..upto - 1] == list[..upto - 1];
    hide RollbackOne;
  }

  lemma RollbackOneReaches<S>(schema: S, list: seq<Migration<S>>, upto: nat)
    requires Distinct(list) && 0 < upto <= |list|
    ensures RollbackOne(Database(schema, Some(Names(list[..upto]))), list[upto - 1], Commits).0
         == Database(list[upto - 1].down(schema), Some(Names(list[..upto - 1])))
  {
    LastErased(list, upto);
  }

  /** From an empty database, every run keeps the prefix if and only if each Down takes back its
      Up at the schema the list puts it on. */
  lemma RunsKeepPrefixExactly<S>(base: S, list: seq<Migration<S>>)
    requires Distinct(list)
    ensures Invertible(base, list) <==> forall calls :: AtPrefix(DoAll(Database(base, None), list, calls), base, list)
  {
    var start := Database(base, None);
    assert list[..0] == [];
    if Invertible(base, list) {
      forall calls ensures AtPrefix(DoAll(start, list, calls), base, list) {
        RunsKeepPrefix(start, base, list, calls);
      }
    } else {
      var i :| 0 <= i < |list| && list[i].down(list[i].up(FoldUp(base, list[..i]))) != FoldUp(base, list[..i]);
      BadDownShows(base, list, i);
    }
  }

  function UpThenDown(upto: nat): seq<Call> {
    [Call.Migrate(upto, Created, Answers, ALL_COMMIT), Call.Rollback(Answers, Commits)]
  }

  lemma UpThenDownReaches<S>(base: S, list: seq<Migration<S>>, upto: nat)
    requires Distinct(list) && 0 < upto <= |list|
    ensures DoAll(Database(base, None), list, UpThenDown(upto))
         == Database(list[upto - 1].down(list[upto - 1].up(FoldUp(base, list[..upto - 1]))), Some(Names(list[..upto - 1])))
  {
    hide Migrated, RolledBack;
    TwoCalls(Database(base, None), list, UpThenDown(upto)[0], UpThenDown(upto)[1]);
    MigrateReaches(base, list, upto);
    RollbackReaches(base, list, upto);
  }

  lemma BadDownShows<S>(base: S, list: seq<Migration<S>>, i: nat)
    requires Distinct(list) && i < |list|
    requires list[i].down(list[i].up(FoldUp(base, list[..i]))) != FoldUp(base, list[..i])
    ensures exists calls :: !AtPrefix(DoAll(Database(base, None), list, calls), base, list)
  {
    UpThenDownReaches(base, list, i + 1);
    NamesAt(list[..i]);
    var db := DoAll(Database(base, None), list, UpThenDown(i + 1));
    assert Count(db) == i;
    assert db.schema != FoldUp(base, list[..i]);
    assert !AtPrefix(db, base, list);
  }

  lemma TwoCalls<S>(db: Database<S>, list: seq<Migration<S>>, first: Call, second: Call)
    ensures DoAll(db, list, [first, second]) == Do(Do(db, list, first).0, list, second).0
  {
    assert [first, second][..1] == [first] && [first][..0] == [];
    assert DoAll(db, list, [first]) == Do(db, list, first).0;
  }

  // ---- What is reported

  /** A transaction is reported as done exactly if its commit says so and its record was possible;
      a commit that is lost changes the database all the same and is reported as a failure. */
  lemma ExecutedExactly<S>(db: Database<S>, change: S -> S, table: Option<seq<string>>, tx: Transaction)
    ensures var (db', ok) := Executed(db, change, table, tx);
            && (ok <==> tx == Commits && table.Some?)
            && ((tx == Commits || tx == CommitLost) && table.Some? ==> db' == Database(change(db.schema), table))
            && (!((tx == Commits || tx == CommitLost) && table.Some?) ==> db' == db)
  {
  }

  /** The names are read exactly if there is a table and neither the query, nor a scan of one of
      its rows, nor the end of the rows fails. */
  lemma AppliedExactly<S>(db: Database<S>, query: Query)
    ensures Applied(db, query).Some?
       <==> db.table.Some? && query != QueryFails && query != RowsFail && !(query.ScanFailsAt? && query.row < |db.table.value|)
    ensures Applied(db, query).Some? ==> forall n :: n in Applied(db, query).value <==> n in db.table.value
  {
  }

  /** Initialize creates an empty table where there is none, unless the call had no effect, and
      reports a lost creation as a failure. */
  lemma InitializedExactly<S>(db: Database<S>, creation: Creation)
    ensures Initialized(db, creation).schema == db.schema
    ensures db.table.Some? || creation == NotCreated ==> Initialized(db, creation) == db
    ensures db.table.None? && creation != NotCreated ==> Initialized(db, creation).table == Some([])
  {
  }

  /** Migrate reports a failure whenever one of its calls did, a lost one included: if it succeeds,
      the creation was reported and every transaction it ran was committed. */
  lemma {:induction false} SuccessMeansCommits<S>(db: Database<S>, list: seq<Migration<S>>, applied: set<string>, i: nat, txs: Transactions)
    requires i <= |list| && MigrateFrom(db, list, applied, i, txs).1
    ensures forall j :: i <= j && Pending(list, applied, j) ==> txs(j) == Commits
    decreases |list| - i
  {
    if i == |list| {
    } else if list[i].name in applied {
      SuccessMeansCommits(db, list, applied, i + 1, txs);
    } else {
      SuccessMeansCommits(ApplyOne(db, list[i], txs(i)).0, list, applied, i + 1, txs);
    }
  }
}
