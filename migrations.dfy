// The three one-off schema migrations over the SQLite file, and the small
// part of SQLite and of Python's sqlite3 module they rely on.

module Sqlite {
  import opened Wrappers

  /** A row maps column names to values; NULL is None. */
  type Row = map<string, Option<string>>

  datatype Table = Table(columns: seq<string>, rows: seq<Row>)

  /** `ALTER TABLE t ADD COLUMN c`: the column goes last and is NULL in
      every existing row. */
  function AddColumn(t: Table, c: string): (r: Table)
    ensures r.columns == t.columns + [c] && |r.rows| == |t.rows|
    ensures forall i :: 0 <= i < |r.rows| ==> r.rows[i] == t.rows[i][c := None]
  {
    Table(t.columns + [c], seq(|t.rows|, i requires 0 <= i < |t.rows| => t.rows[i][c := None]))
  }

  /** Adding several columns one after the other: every row keeps its
      other cells and holds NULL in each added column. */
  function AddColumns(t: Table, cs: seq<string>): (r: Table)
    ensures r.columns == t.columns + cs && |r.rows| == |t.rows|
    ensures forall i, k :: 0 <= i < |t.rows| && k in t.rows[i] && k !in cs ==>
      k in r.rows[i] && r.rows[i][k] == t.rows[i][k]
    ensures forall i, k :: 0 <= i < |t.rows| && k in cs ==> k in r.rows[i] && r.rows[i][k] == None
    decreases |cs|
  {
    if cs == [] then t
    else
      var init := cs[..|cs| - 1];
      assert cs == init + [cs[|cs| - 1]];
      AddColumn(AddColumns(t, init), cs[|cs| - 1])
  }

  /** `UPDATE t SET c = now WHERE c IS NULL`. */
  function FillNulls(t: Table, c: string, now: string): (r: Table)
    ensures r.columns == t.columns && |r.rows| == |t.rows|
    ensures forall i :: 0 <= i < |r.rows| ==> c in r.rows[i] && r.rows[i][c].Some?
    ensures forall i :: 0 <= i < |r.rows| && c in t.rows[i] && t.rows[i][c].Some? ==> r.rows[i] == t.rows[i]
    ensures forall i :: 0 <= i < |r.rows| && (c !in t.rows[i] || t.rows[i][c].None?) ==> r.rows[i] == t.rows[i][c := Some(now)]
  {
    Table(t.columns, seq(|t.rows|, i requires 0 <= i < |t.rows| =>
      if c in t.rows[i] && t.rows[i][c].Some? then t.rows[i] else t.rows[i][c := Some(now)]))
  }

  /** The database file. */
  class Database {
    var fileExists: bool
    var tables: map<string, Table>

    constructor (fileExists: bool, tables: map<string, Table>)
      ensures this.fileExists == fileExists && this.tables == tables
    {
      this.fileExists := fileExists;
      this.tables := tables;
    }
  }

  /** A `sqlite3` connection with Python's default transaction handling:
      schema statements run in autocommit mode, and a data-changing
      statement opens a transaction that lasts until commit or rollback.
      Any one statement can raise: the one numbered `failAt`, counting
      from 0 in execution order, does. */
  class Connection {
    const db: Database
    const failAt: Option<nat>
    /** The open transaction's view of the tables, if one is open. */
    var txn: Option<map<string, Table>>
    var open: bool
    var executed: nat

    constructor (db: Database, failAt: Option<nat>)
      ensures this.db == db && this.failAt == failAt
      ensures txn == None && open && executed == 0
    {
      this.db := db;
      this.failAt := failAt;
      txn := None;
      open := true;
      executed := 0;
    }

    /** What a statement on this connection sees. */
    function View(): map<string, Table>
      reads this, db
    {
      if txn.Some? then txn.value else db.tables
    }

    /** The next statement raises. */
    predicate Faults()
      reads this
    {
      failAt == Some(executed)
    }

    /** `PRAGMA table_info(t)`, reduced to the column names; a missing
        table gives no rows. None when the statement raises. */
    method TableInfo(table: string) returns (r: Option<seq<string>>)
      requires open
      modifies this`executed
      ensures executed == old(executed) + 1
      ensures r.None? <==> old(Faults())
      ensures r.Some? ==> r.value == if table in View() then View()[table].columns else []
    {
      var fault := Faults();
      executed := executed + 1;
      if fault {
        return None;
      }
      r := Some(if table in View() then View()[table].columns else []);
    }

    /** `ALTER TABLE t ADD COLUMN c`. It fails on a missing table or an
        existing column; outside a transaction it is committed at once. */
    method AddColumnTo(table: string, column: string) returns (ok: bool)
      requires open
      modifies this`executed, this`txn, db`tables
      ensures executed == old(executed) + 1
      ensures ok <==> !old(Faults()) && table in old(View()) && column !in old(View())[table].columns
      ensures ok ==> View() == old(View())[table := AddColumn(old(View())[table], column)]
      ensures !ok ==> View() == old(View())
      ensures txn.Some? <==> old(txn).Some?
      ensures old(txn).Some? ==> db.tables == old(db.tables)
    {
      var fault := Faults();
      executed := executed + 1;
      if fault || table !in View() || column in View()[table].columns {
        return false;
      }
      var updated := AddColumn(View()[table], column);
      if txn.Some? {
        txn := Some(txn.value[table := updated]);
      } else {
        db.tables := db.tables[table := updated];
      }
      ok := true;
    }

    /** `UPDATE t SET c = now WHERE c IS NULL`, which opens a transaction
        if none is open. It fails on a missing table or column. */
    method FillNullsIn(table: string, column: string, now: string) returns (ok: bool)
      requires open
      modifies this`executed, this`txn
      ensures executed == old(executed) + 1
      ensures ok <==> !old(Faults()) && table in old(View()) && column in old(View())[table].columns
      ensures ok ==> txn == Some(old(View())[table := FillNulls(old(View())[table], column, now)])
      ensures !ok ==> txn == old(txn)
    {
      var fault := Faults();
      executed := executed + 1;
      if fault || table !in View() || column !in View()[table].columns {
        return false;
      }
      txn := Some(View()[table := FillNulls(View()[table], column, now)]);
      ok := true;
    }

    /** `commit()`: the open transaction, if any, becomes the file's state. */
    method Commit() returns (ok: bool)
      requires open
      modifies this`executed, this`txn, db`tables
      ensures executed == old(executed) + 1
      ensures ok <==> !old(Faults())
      ensures ok ==> db.tables == old(View()) && txn == None
      ensures !ok ==> db.tables == old(db.tables) && txn == old(txn)
    {
      var fault := Faults();
      executed := executed + 1;
      if fault {
        return false;
      }
      if txn.Some? {
        db.tables := txn.value;
      }
      txn := None;
      ok := true;
    }

    /** `rollback()`: the open transaction is dropped; statements already
        committed in autocommit mode stay. */
    method Rollback()
      modifies this`txn
      ensures txn == None
    {
      txn := None;
    }

    /** `close()`: an uncommitted transaction is lost. */
    method Close()
      modifies this`open, this`txn
      ensures !open && txn == None
    {
      open := false;
      txn := None;
    }
  }
}

module Migrations {
  import opened Wrappers
  import opened Sqlite

  /** The columns of `wanted` absent from `columns`, in order. */
  function Missing(columns: seq<string>, wanted: seq<string>): (r: seq<string>)
    ensures forall x :: x in r <==> x in wanted && x !in columns
    ensures |r| <= |wanted|
    decreases |wanted|
  {
    if wanted == [] then []
    else
      var last := wanted[|wanted| - 1];
      assert wanted == wanted[..|wanted| - 1] + [last];
      Missing(columns, wanted[..|wanted| - 1]) + (if last in columns then [] else [last])
  }

  /** The table after the first j wanted columns have been considered. */
  ghost predicate AddedUpTo(tables: map<string, Table>, base: map<string, Table>, table: string, wanted: seq<string>, j: nat)
    requires j <= |wanted|
  {
    if table in base
    then tables == base[table := AddColumns(base[table], Missing(base[table].columns, wanted[..j]))]
    else tables == base
  }

  /** The table after the migration's ALTERs: its columns come first and
      in order, and it has exactly its own and the wanted columns, with
      the same rows. */
  function Migrated(t: Table, wanted: seq<string>): (r: Table)
    ensures t.columns <= r.columns && |r.rows| == |t.rows|
    ensures forall c :: c in r.columns <==> c in t.columns || c in wanted
    ensures forall i, k :: 0 <= i < |t.rows| && k in t.rows[i] && k in t.columns ==>
      k in r.rows[i] && r.rows[i][k] == t.rows[i][k]
    ensures forall i, k :: 0 <= i < |t.rows| && k in r.columns && k !in t.columns ==>
      k in r.rows[i] && r.rows[i][k] == None
  {
    AddColumns(t, Missing(t.columns, wanted))
  }

  predicate Distinct(xs: seq<string>) {
    forall i, j :: 0 <= i < j < |xs| ==> xs[i] != xs[j]
  }

  /** Considering one more wanted column appends it when it is missing. */
  lemma MissingStep(columns: seq<string>, wanted: seq<string>, j: nat)
    requires j < |wanted|
    ensures Missing(columns, wanted[..j + 1])
            == Missing(columns, wanted[..j]) + (if wanted[j] in columns then [] else [wanted[j]])
  {
    assert wanted[..j + 1][..j] == wanted[..j];
  }

  lemma AddColumnsSnoc(t: Table, cs: seq<string>, c: string)
    ensures AddColumns(t, cs + [c]) == AddColumn(AddColumns(t, cs), c)
  {
    assert (cs + [c])[..|cs|] == cs;
  }

  /** A wanted column the table already has changes nothing. */
  lemma {:induction false} SkipPresent(tables: map<string, Table>, base: map<string, Table>, table: string,
                                       wanted: seq<string>, j: nat)
    requires j < |wanted| && AddedUpTo(tables, base, table, wanted, j)
    requires table !in base || wanted[j] in base[table].columns
    ensures AddedUpTo(tables, base, table, wanted, j + 1)
  {
    if table in base {
      var cols := base[table].columns;
      MissingStep(cols, wanted, j);
      assert Missing(cols, wanted[..j + 1]) == Missing(cols, wanted[..j]) + [];
      assert Missing(cols, wanted[..j + 1]) == Missing(cols, wanted[..j]);
    }
  }

  /** A missing wanted column is not in the table yet, and adding it
      gives the table after j + 1 wanted columns. */
  lemma {:induction false} AddStep(tables: map<string, Table>, base: map<string, Table>, table: string,
                                   wanted: seq<string>, j: nat)
    requires j < |wanted| && Distinct(wanted) && AddedUpTo(tables, base, table, wanted, j)
    requires table in base && wanted[j] !in base[table].columns
    ensures table in tables && wanted[j] !in tables[table].columns
    ensures AddedUpTo(tables[table := AddColumn(tables[table], wanted[j])], base, table, wanted, j + 1)
  {
    var t0 := base[table];
    var before := Missing(t0.columns, wanted[..j]);
    MissingStep(t0.columns, wanted, j);
    assert wanted[j] !in wanted[..j] by {
      forall k | 0 <= k < j
        ensures wanted[..j][k] != wanted[j]
      {
      }
    }
    AddColumnsSnoc(t0, before, wanted[j]);
  }

  /** One `if c not in columns: ALTER TABLE ... ADD COLUMN c` block of a
      migration, with `columns` read once at the start. */
  method AddColumnIfMissing(conn: Connection, table: string, ghost base: map<string, Table>,
                            columns: seq<string>, wanted: seq<string>, j: nat) returns (ok: bool)
    requires conn.open && conn.txn == None
    requires j < |wanted| && Distinct(wanted)
    requires columns == if table in base then base[table].columns else []
    requires AddedUpTo(conn.db.tables, base, table, wanted, j)
    modifies conn`executed, conn`txn, conn.db`tables
    ensures conn.open && conn.txn == None
    ensures ok <==> wanted[j] in columns || (!old(conn.Faults()) && table in base)
    ensures ok ==> AddedUpTo(conn.db.tables, base, table, wanted, j + 1)
    ensures !ok ==> conn.db.tables == old(conn.db.tables)
    ensures conn.executed == if wanted[j] in columns then old(conn.executed) else old(conn.executed) + 1
  {
    if wanted[j] in columns {
      SkipPresent(conn.db.tables, base, table, wanted, j);
      return true;
    }
    ghost var tables := conn.db.tables;
    if table in base {
      AddStep(tables, base, table, wanted, j);
    }
    ok := conn.AddColumnTo(table, wanted[j]);
  }

  /** The rows of updated_at filled in only when the column was added. */
  function ProfileMigrated(t: Table, now: string): (r: Table)
    ensures t.columns <= r.columns && |r.rows| == |t.rows|
    ensures forall c :: c in r.columns <==> c in t.columns || c in ProfileColumns
    ensures "updated_at" !in t.columns ==>
      forall i :: 0 <= i < |r.rows| ==> "updated_at" in r.rows[i] && r.rows[i]["updated_at"] == Some(now)
  {
    if "updated_at" in t.columns then Migrated(t, ProfileColumns)
    else
      MissingStep(t.columns, ProfileColumns, 3);
      assert ProfileColumns[..4] == ProfileColumns;
      AddColumnsSnoc(t, Missing(t.columns, ProfileColumns[..3]), "updated_at");
      FillNulls(Migrated(t, ProfileColumns), "updated_at", now)
  }

  const ProfileColumns := ["full_name", "bio", "avatar_path", "updated_at"]
  const ImageColumns := ["image_path", "image_description"]
  const AudioColumns := ["audio_path", "audio_transcription"]

  /** Nothing is missing when every wanted column is present. */
  lemma {:induction false} NoneMissing(columns: seq<string>, wanted: seq<string>)
    requires forall x :: x in wanted ==> x in columns
    ensures Missing(columns, wanted) == []
    decreases |wanted|
  {
    if wanted != [] {
      var last := wanted[|wanted| - 1];
      assert last in wanted;
      NoneMissing(columns, wanted[..|wanted| - 1]);
    }
  }

  /** Adding the missing columns is idempotent: a second pass finds none. */
  lemma MigratedIdempotent(t: Table, wanted: seq<string>)
    ensures Missing(Migrated(t, wanted).columns, wanted) == []
    ensures Migrated(Migrated(t, wanted), wanted) == Migrated(t, wanted)
  {
    var cols := Migrated(t, wanted).columns;
    forall x | x in wanted
      ensures x in cols
    {
      if x !in t.columns {
        assert x in Missing(t.columns, wanted);
      }
    }
    NoneMissing(cols, wanted);
  }

  /** The profile migration run twice is the migration run once: the
      second run finds every column and backfills nothing. */
  lemma ProfileMigratedIdempotent(t: Table, now: string, later: string)
    ensures ProfileMigrated(ProfileMigrated(t, now), later) == ProfileMigrated(t, now)
  {
    MigratedIdempotent(t, ProfileColumns);
    var once := ProfileMigrated(t, now);
    assert "updated_at" in Migrated(t, ProfileColumns).columns;
    assert once.columns == Migrated(t, ProfileColumns).columns;
    MigratedIdempotent(once, ProfileColumns);
    assert Missing(once.columns, ProfileColumns) == [];
  }

  /** The run of `if c not in columns: ALTER TABLE ...` blocks of a
      migration, one per wanted column in the order written. It stops at
      the first ALTER that raises; `reached` counts the blocks that
      completed, whose columns are in the file by then. */
  method AddMissingColumns(conn: Connection, table: string, ghost base: map<string, Table>,
                           columns: seq<string>, wanted: seq<string>) returns (ok: bool, ghost reached: nat)
    requires conn.open && conn.txn == None && conn.db.tables == base
    requires wanted != [] && Distinct(wanted)
    requires columns == if table in base then base[table].columns else []
    modifies conn`executed, conn`txn, conn.db`tables
    ensures conn.open && conn.txn == None
    ensures reached <= |wanted| && AddedUpTo(conn.db.tables, base, table, wanted, reached)
    ensures ok ==> reached == |wanted| && table in base
    ensures table in base && conn.failAt.None? ==> ok
  {
    assert wanted[..0] == [];
    reached := 0;
    var j := 0;
    while j < |wanted|
      invariant j <= |wanted| && j == reached
      invariant conn.open && conn.txn == None
      invariant AddedUpTo(conn.db.tables, base, table, wanted, j)
      invariant j > 0 ==> table in base
    {
      var step := AddColumnIfMissing(conn, table, base, columns, wanted, j);
      if !step {
        return false, j;
      }
      j := j + 1;
      reached := j;
    }
    ok := true;
  }

  /** Once every block has run, the table is the migrated one. */
  lemma AllAdded(tables: map<string, Table>, base: map<string, Table>, table: string, wanted: seq<string>)
    requires table in base && AddedUpTo(tables, base, table, wanted, |wanted|)
    ensures tables == base[table := Migrated(base[table], wanted)]
  {
    assert wanted[..|wanted|] == wanted;
  }

  /** The migrated table has every wanted column. */
  lemma MigratedHasWanted(t: Table, wanted: seq<string>, c: string)
    requires c in wanted
    ensures c in Migrated(t, wanted).columns
  {
    if c !in t.columns {
      assert c in Missing(t.columns, wanted);
    }
  }

  /** Once every block has run, a wanted column `c` is in the table, and
      filling it gives the migrated table with `c` filled. */
  lemma AddedThenFill(tables: map<string, Table>, base: map<string, Table>, table: string,
                      wanted: seq<string>, c: string, now: string)
    requires c in wanted
    requires table in base && AddedUpTo(tables, base, table, wanted, |wanted|)
    ensures table in tables && c in tables[table].columns
    ensures tables == base[table := Migrated(base[table], wanted)]
    ensures tables[table := FillNulls(tables[table], c, now)]
            == base[table := FillNulls(Migrated(base[table], wanted), c, now)]
  {
    AllAdded(tables, base, table, wanted);
    MigratedHasWanted(base[table], wanted, c);
  }

  /** Once every block of migrate_profile.py has run, the users table is
      its profile migration, after the fill of updated_at when the run
      added that column. */
  lemma ProfileOutcome(tables: map<string, Table>, base: map<string, Table>, now: string)
    requires "users" in base && AddedUpTo(tables, base, "users", ProfileColumns, |ProfileColumns|)
    ensures "users" in tables && "updated_at" in tables["users"].columns
    ensures "updated_at" in base["users"].columns ==>
      tables == base["users" := ProfileMigrated(base["users"], now)]
    ensures "updated_at" !in base["users"].columns ==>
      tables["users" := FillNulls(tables["users"], "updated_at", now)]
      == base["users" := ProfileMigrated(base["users"], now)]
  {
    assert ProfileColumns[3] == "updated_at";
    AddedThenFill(tables, base, "users", ProfileColumns, "updated_at", now);
  }

  /** The `try` block of migrate_profile.py: read the columns, add the
      missing ones, fill updated_at in the run that adds it, commit. */
  method ProfileSteps(c: Connection, ghost base: map<string, Table>, now: string)
    returns (ok: bool, ghost reached: nat)
    requires c.open && c.txn == None && c.db.tables == base
    modifies c`executed, c`txn, c.db`tables
    ensures c.open && reached <= |ProfileColumns|
    ensures !ok ==> AddedUpTo(c.db.tables, base, "users", ProfileColumns, reached)
    ensures ok ==> "users" in base && c.txn == None
    ensures ok ==> c.db.tables == base["users" := ProfileMigrated(base["users"], now)]
    ensures "users" in base && c.failAt.None? ==> ok
  {
    assert ProfileColumns[..0] == [];
    reached := 0;
    var info := c.TableInfo("users");
    if info.None? {
      return false, 0;
    }
    var columns := info.value;
    ok, reached := AddMissingColumns(c, "users", base, columns, ProfileColumns);
    if !ok {
      return;
    }
    ProfileOutcome(c.db.tables, base, now);
    ok := FillAndCommit(c, columns, now, base["users" := ProfileMigrated(base["users"], now)]);
  }

  /** The end of the `try` block, once every ALTER has run: fill updated_at
      in the run that added it, then commit, which makes the tables
      `migrated`. A failure leaves the committed tables as they were. */
  method FillAndCommit(c: Connection, columns: seq<string>, now: string, ghost migrated: map<string, Table>)
    returns (ok: bool)
    requires c.open && c.txn == None
    requires "users" in c.db.tables && "updated_at" in c.db.tables["users"].columns
    requires "updated_at" in columns ==> c.db.tables == migrated
    requires "updated_at" !in columns ==>
      c.db.tables["users" := FillNulls(c.db.tables["users"], "updated_at", now)] == migrated
    modifies c`executed, c`txn, c.db`tables
    ensures c.open
    ensures !ok ==> c.db.tables == old(c.db.tables)
    ensures ok ==> c.txn == None && c.db.tables == migrated
    ensures c.failAt.None? ==> ok
  {
    if "updated_at" !in columns {
      ok := c.FillNullsIn("users", "updated_at", now);
      if !ok {
        return;
      }
    }
    ok := c.Commit();
  }

  /** `migrate` in migrate_profile.py. Without the file nothing happens.
      Otherwise the connection always ends closed with no transaction. On
      success the users table has its missing profile columns appended,
      with updated_at filled in the run that adds it. On a failure the
      rollback only drops that fill: the columns already added stay. */
  method MigrateProfile(db: Database, failAt: Option<nat>, now: string)
    returns (conn: Option<Connection>, completed: bool)
    modifies db
    ensures !old(db.fileExists) ==> conn.None? && !completed && db.tables == old(db.tables)
    ensures old(db.fileExists) ==> conn.Some? && conn.value.db == db && !conn.value.open && conn.value.txn == None
    ensures completed ==> "users" in old(db.tables)
    ensures completed ==> db.tables == old(db.tables)["users" := ProfileMigrated(old(db.tables)["users"], now)]
    ensures !completed ==> exists j :: 0 <= j <= |ProfileColumns| && AddedUpTo(db.tables, old(db.tables), "users", ProfileColumns, j)
    ensures old(db.fileExists) && "users" in old(db.tables) && failAt.None? ==> completed
  {
    if !db.fileExists {
      assert ProfileColumns[..0] == [];
      assert AddedUpTo(db.tables, old(db.tables), "users", ProfileColumns, 0);
      return None, false;
    }
    var c := new Connection(db, failAt);
    conn := Some(c);
    ghost var reached;
    completed, reached := ProfileSteps(c, db.tables, now);
    if !completed {
      c.Rollback();
    }
    c.Close();
  }

  /** The `try` block shared by the two notes migrations: read the
      columns of `table`, add the missing wanted ones, commit. */
  method NotesSteps(c: Connection, ghost base: map<string, Table>, wanted: seq<string>)
    returns (ok: bool, ghost reached: nat)
    requires wanted != [] && Distinct(wanted)
    requires c.open && c.txn == None && c.db.tables == base
    modifies c`executed, c`txn, c.db`tables
    ensures c.open && c.txn == None
    ensures reached <= |wanted| && AddedUpTo(c.db.tables, base, "notes", wanted, reached)
    ensures ok ==> "notes" in base && c.db.tables == base["notes" := Migrated(base["notes"], wanted)]
    ensures "notes" in base && c.failAt.None? ==> ok
  {
    assert wanted[..0] == [];
    reached := 0;
    var info := c.TableInfo("notes");
    if info.None? {
      return false, 0;
    }
    var columns := info.value;
    ok, reached := AddMissingColumns(c, "notes", base, columns, wanted);
    if !ok {
      return;
    }
    assert wanted[..|wanted|] == wanted;
    ok := c.Commit();
  }

  /** `migrate_database` in migrate_db.py: the two image columns. On a
      failure the exception is only reported: no rollback, and the
      connection is left open. */
  method MigrateImages(db: Database, failAt: Option<nat>)
    returns (conn: Option<Connection>, completed: bool)
    modifies db
    ensures !old(db.fileExists) ==> conn.None? && !completed && db.tables == old(db.tables)
    ensures old(db.fileExists) ==> conn.Some? && conn.value.db == db && conn.value.txn == None
    ensures old(db.fileExists) ==> (conn.value.open <==> !completed)
    ensures completed ==> "notes" in old(db.tables)
    ensures completed ==> db.tables == old(db.tables)["notes" := Migrated(old(db.tables)["notes"], ImageColumns)]
    ensures !completed ==> exists j :: 0 <= j <= |ImageColumns| && AddedUpTo(db.tables, old(db.tables), "notes", ImageColumns, j)
    ensures old(db.fileExists) && "notes" in old(db.tables) && failAt.None? ==> completed
  {
    if !db.fileExists {
      assert ImageColumns[..0] == [];
      assert AddedUpTo(db.tables, old(db.tables), "notes", ImageColumns, 0);
      return None, false;
    }
    var c := new Connection(db, failAt);
    conn := Some(c);
    ghost var reached;
    completed, reached := NotesSteps(c, db.tables, ImageColumns);
    if completed {
      c.Close();
    }
  }

  /** `migrate` in migrate_audio.py: the two audio columns, with rollback
      on failure and close on every path. */
  method MigrateAudio(db: Database, failAt: Option<nat>)
    returns (conn: Option<Connection>, completed: bool)
    modifies db
    ensures !old(db.fileExists) ==> conn.None? && !completed && db.tables == old(db.tables)
    ensures old(db.fileExists) ==> conn.Some? && conn.value.db == db && !conn.value.open && conn.value.txn == None
    ensures completed ==> "notes" in old(db.tables)
    ensures completed ==> db.tables == old(db.tables)["notes" := Migrated(old(db.tables)["notes"], AudioColumns)]
    ensures !completed ==> exists j :: 0 <= j <= |AudioColumns| && AddedUpTo(db.tables, old(db.tables), "notes", AudioColumns, j)
    ensures old(db.fileExists) && "notes" in old(db.tables) && failAt.None? ==> completed
  {
    if !db.fileExists {
      assert AudioColumns[..0] == [];
      assert AddedUpTo(db.tables, old(db.tables), "notes", AudioColumns, 0);
      return None, false;
    }
    var c := new Connection(db, failAt);
    conn := Some(c);
    ghost var reached;
    completed, reached := NotesSteps(c, db.tables, AudioColumns);
    if !completed {
      c.Rollback();
    }
    c.Close();
  }
}
