/**
 * Version 1 of the client's store: the tables its CREATE statements make,
 * the meta row they write, the DROP statements, the version and the name
 * of the table whose presence marks an initialised store.
 */
module SchemaV1 {
  import opened Sql

  /** An identifier-keyed table of (identifier TEXT, timestamp INTEGER), both NOT NULL. */
  function DedupTable(name: string): TableDef {
    TableDef(name, [Column("identifier", TextType, true), Column("timestamp", IntegerType, true)], "identifier")
  }

  const CallLogs: TableDef := DedupTable("call_logs")
  const Messages: TableDef := DedupTable("messages")
  const Notifications: TableDef := DedupTable("notifications")
  const ClientMeta: TableDef :=
    TableDef("client_meta", [Column("key", TextType, true), Column("value", TextType, true)], "key")

  const CreateStatements: seq<Statement> := [
    CreateTable(CallLogs),
    CreateTable(Messages),
    CreateTable(Notifications),
    CreateTable(ClientMeta),
    InsertInto("client_meta", [Text("version"), Text("1")])
  ]

  const DropStatements: seq<Statement> := [
    DropTable("call_logs"),
    DropTable("messages"),
    DropTable("notifications"),
    DropTable("client_meta")
  ]

  const Version: string := "1"

  const MetaTable: string := "client_meta"
}

/**
 * The schema the client uses, `current`, and properties of its statements
 * run against the store.
 */
module Database {
  import opened Wrappers
  import opened Sql
  import Current = SchemaV1

  const CurrentVersion: string := Current.Version

  /** The names of the tables a statement list creates. */
  function CreatedNames(sts: seq<Statement>): set<string> {
    set i | 0 <= i < |sts| && sts[i].CreateTable? :: sts[i].def.name
  }

  /** The names of the tables a statement list drops. */
  function DroppedNames(sts: seq<Statement>): set<string> {
    set i | 0 <= i < |sts| && sts[i].DropTable? :: sts[i].table
  }

  /** The four tables of an initialised store, the meta table holding the version row. */
  const Initialised: Db := map[
    "call_logs" := Table(Current.CallLogs, map[]),
    "messages" := Table(Current.Messages, map[]),
    "notifications" := Table(Current.Notifications, map[]),
    "client_meta" := Table(Current.ClientMeta, map[Text("version") := [Text("version"), Text("1")]])
  ]

  /** Running the CREATE set on a store without those tables adds exactly the four tables and the meta row. */
  lemma CreateInitialises(db: Db)
    requires db.Keys !! Initialised.Keys
    ensures ExecAll(db, Current.CreateStatements) == Some(db + Initialised)
  {
    var sts := Current.CreateStatements;
    var d1 := db["call_logs" := Table(Current.CallLogs, map[])];
    var d2 := d1["messages" := Table(Current.Messages, map[])];
    var d3 := d2["notifications" := Table(Current.Notifications, map[])];
    var d4 := d3["client_meta" := Table(Current.ClientMeta, map[])];
    var d5 := d4["client_meta" := Table(Current.ClientMeta, map[Text("version") := [Text("version"), Text("1")]])];
    assert Exec(db, sts[0]) == Some(d1);
    assert Exec(d1, sts[1]) == Some(d2);
    assert Exec(d2, sts[2]) == Some(d3);
    assert Exec(d3, sts[3]) == Some(d4);
    assert Exec(d4, sts[4]) == Some(d5);
    assert ExecAll(d5, sts[5..]) == Some(d5);
    assert ExecAll(d4, sts[4..]) == Some(d5);
    assert ExecAll(d3, sts[3..]) == Some(d5);
    assert ExecAll(d2, sts[2..]) == Some(d5);
    assert ExecAll(d1, sts[1..]) == Some(d5);
    assert d5 == db + Initialised;
  }

  /** The CREATE set is not re-runnable: with any of its tables present it fails. */
  lemma CreateFailsWhenPresent(db: Db, name: string)
    requires name in db && name in Initialised
    ensures ExecAll(db, Current.CreateStatements) == None
  {
    var sts := Current.CreateStatements;
    if "call_logs" in db {
      assert Exec(db, sts[0]) == None;
    } else {
      var d1 := db["call_logs" := Table(Current.CallLogs, map[])];
      assert Exec(db, sts[0]) == Some(d1);
      assert ExecAll(db, sts) == ExecAll(d1, sts[1..]);
      if "messages" in db {
        assert Exec(d1, sts[1]) == None;
      } else {
        var d2 := d1["messages" := Table(Current.Messages, map[])];
        assert Exec(d1, sts[1]) == Some(d2);
        assert ExecAll(d1, sts[1..]) == ExecAll(d2, sts[2..]);
        if "notifications" in db {
          assert Exec(d2, sts[2]) == None;
          assert ExecAll(d2, sts[2..]) == None;
        } else {
          var d3 := d2["notifications" := Table(Current.Notifications, map[])];
          assert Exec(d2, sts[2]) == Some(d3);
          assert ExecAll(d2, sts[2..]) == ExecAll(d3, sts[3..]);
          assert "client_meta" in d3;
          assert Exec(d3, sts[3]) == None;
          assert ExecAll(d3, sts[3..]) == None;
        }
      }
    }
  }

  /** CREATE makes exactly call_logs, messages, notifications and client_meta, each keyed by its first column. */
  lemma CreateMakesFourTables()
    ensures CreatedNames(Current.CreateStatements) == {"call_logs", "messages", "notifications", "client_meta"}
    ensures Initialised.Keys == CreatedNames(Current.CreateStatements)
    ensures forall name | name in Initialised ::
      var def := Initialised[name].def;
      def.name == name && |def.columns| == 2 && def.primaryKey == def.columns[0].name
      && def.columns[0].notNull && def.columns[1].notNull
  {
    var sts := Current.CreateStatements;
    assert sts[0].def.name == "call_logs" && sts[1].def.name == "messages";
    assert sts[2].def.name == "notifications" && sts[3].def.name == "client_meta";
    assert !sts[4].CreateTable?;
  }

  /** The meta row CREATE writes is ("version", "1"), the current version. */
  lemma MetaRowIsVersion()
    ensures Current.CreateStatements[|Current.CreateStatements| - 1]
         == InsertInto(Current.MetaTable, [Text("version"), Text(CurrentVersion)])
    ensures Initialised[Current.MetaTable].rows == map[Text("version") := [Text("version"), Text(CurrentVersion)]]
  {
  }

  /** DROP names exactly the tables CREATE makes. */
  lemma DropMirrorsCreate()
    ensures DroppedNames(Current.DropStatements) == CreatedNames(Current.CreateStatements)
  {
    CreateMakesFourTables();
    var sts := Current.DropStatements;
    assert sts[0].table == "call_logs" && sts[1].table == "messages";
    assert sts[2].table == "notifications" && sts[3].table == "client_meta";
  }

  /** Dropping after creating gives back the store CREATE started from. */
  lemma DropUndoesCreate(db: Db)
    requires db.Keys !! Initialised.Keys
    ensures ExecAll((db + Initialised), Current.DropStatements) == Some(db)
  {
    var sts := Current.DropStatements;
    var d0 := db + Initialised;
    var d1 := d0 - {"call_logs"};
    var d2 := d1 - {"messages"};
    var d3 := d2 - {"notifications"};
    var d4 := d3 - {"client_meta"};
    assert Exec(d0, sts[0]) == Some(d1);
    assert Exec(d1, sts[1]) == Some(d2);
    assert Exec(d2, sts[2]) == Some(d3);
    assert Exec(d3, sts[3]) == Some(d4);
    assert ExecAll(d4, sts[4..]) == Some(d4);
    assert ExecAll(d3, sts[3..]) == Some(d4);
    assert ExecAll(d2, sts[2..]) == Some(d4);
    assert ExecAll(d1, sts[1..]) == Some(d4);
    assert d4 == db;
  }

  /** The first-run marker is one of the tables CREATE makes, and `current` is version 1. */
  lemma MetaTableIsCreated()
    ensures Current.MetaTable in CreatedNames(Current.CreateStatements)
    ensures CurrentVersion == Current.Version == "1"
  {
    CreateMakesFourTables();
  }

  /** In an initialised store a dedup table holds at most one row per identifier: inserting a present one fails. */
  lemma DedupInsertRejectsDuplicate(db: Db, name: string, id: string, timestamp: int)
    requires name in db && db[name].def == Current.DedupTable(name)
    requires Text(id) in db[name].rows
    ensures Exec(db, InsertInto(name, [Text(id), Integer(timestamp)])) == None
  {
    assert KeyIndex(db[name].def.columns, db[name].def.primaryKey) == Some(0);
  }

  /** Inserting a new identifier into a dedup table records exactly it, and nothing else changes. */
  lemma DedupInsertRecords(db: Db, name: string, id: string, timestamp: int)
    requires name in db && db[name].def == Current.DedupTable(name)
    requires Text(id) !in db[name].rows
    ensures Exec(db, InsertInto(name, [Text(id), Integer(timestamp)]))
         == Some(db[name := db[name].(rows := db[name].rows[Text(id) := [Text(id), Integer(timestamp)]])])
  {
    assert KeyIndex(db[name].def.columns, db[name].def.primaryKey) == Some(0);
  }

  /** A dedup-table INSERT that binds no value puts NULL in NOT NULL columns and always fails. */
  lemma DedupInsertOfUnboundFails(db: Db, name: string)
    requires name in db && db[name].def == Current.DedupTable(name)
    ensures Exec(db, InsertInto(name, [Null, Null])) == None
  {
    assert db[name].def.columns[0].notNull;
  }
}
