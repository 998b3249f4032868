/**
 * The storage engine as far as the client relies on it. A table is a map
 * from primary-key value to row; a statement either succeeds with a new
 * store or fails and leaves it alone. Only what the client's statements
 * exercise is here: CREATE TABLE with a primary key and NOT NULL columns,
 * INSERT of a full row, DROP TABLE, a lookup by key, and text the engine
 * refuses to parse. Parameters left unbound are NULL, as in SQLite.
 */
module Sql {
  import opened Wrappers

  datatype ColumnType = TextType | IntegerType

  datatype Column = Column(name: string, kind: ColumnType, notNull: bool)

  /** A table's declaration: its name, columns in order, and the column that is its primary key. */
  datatype TableDef = TableDef(name: string, columns: seq<Column>, primaryKey: string)

  datatype Value = Null | Text(text: string) | Integer(number: int)

  datatype Statement =
    | CreateTable(def: TableDef)
    | InsertInto(table: string, values: seq<Value>)
    | DropTable(table: string)
    | Unparsable

  /** A table's rows, each filed under the value of its primary-key column. */
  datatype Table = Table(def: TableDef, rows: map<Value, seq<Value>>)

  /** The tables of a store by name. */
  type Db = map<string, Table>

  /** The position of the column named `key`, if there is one. */
  function KeyIndex(columns: seq<Column>, key: string): (r: Option<nat>)
    ensures r.Some? ==> r.value < |columns| && columns[r.value].name == key
    ensures r.None? ==> forall i | 0 <= i < |columns| :: columns[i].name != key
  {
    if columns == [] then None
    else if columns[0].name == key then Some(0)
    else match KeyIndex(columns[1..], key)
      case None => None
      case Some(i) => Some(i + 1)
  }

  /** A row of the right width with a value in every NOT NULL column. */
  predicate Fits(def: TableDef, values: seq<Value>) {
    |values| == |def.columns| && forall i | 0 <= i < |values| :: def.columns[i].notNull ==> values[i] != Null
  }

  /** Every row is filed under its own primary-key value, so no key has two rows. */
  predicate WellKeyed(t: Table) {
    KeyIndex(t.def.columns, t.def.primaryKey).Some?
    && forall key | key in t.rows ::
         Fits(t.def, t.rows[key]) && t.rows[key][KeyIndex(t.def.columns, t.def.primaryKey).value] == key
  }

  function InsertRow(t: Table, values: seq<Value>): Option<Table> {
    if !Fits(t.def, values) then None
    else match KeyIndex(t.def.columns, t.def.primaryKey)
      case None => None
      case Some(k) => if values[k] in t.rows then None else Some(t.(rows := t.rows[values[k] := values]))
  }

  /** The effect of one statement; `None` is the engine's error. */
  function Exec(db: Db, st: Statement): Option<Db> {
    match st
    case CreateTable(def) =>
      if def.name in db || KeyIndex(def.columns, def.primaryKey).None? then None
      else Some(db[def.name := Table(def, map[])])
    case InsertInto(name, values) =>
      if name !in db then None
      else (match InsertRow(db[name], values)
        case None => None
        case Some(t) => Some(db[name := t]))
    case DropTable(name) =>
      if name in db then Some(db - {name}) else None
    case Unparsable => None
  }

  /** Statements run in order, stopping at the first error. */
  function ExecAll(db: Db, sts: seq<Statement>): Option<Db>
    decreases |sts|
  {
    if sts == [] then Some(db)
    else match Exec(db, sts[0])
      case None => None
      case Some(db') => ExecAll(db', sts[1..])
  }

  /** `SELECT * FROM name WHERE key = ?`: `Some(found)`, or `None` when the table is missing. */
  function Lookup(db: Db, name: string, key: Value): Option<bool> {
    if name in db then Some(key in db[name].rows) else None
  }

  /** A row is found by its key right after it is inserted, and no other table or row changes. */
  lemma InsertThenLookup(db: Db, name: string, values: seq<Value>, k: nat)
    requires name in db && KeyIndex(db[name].def.columns, db[name].def.primaryKey) == Some(k)
    requires Exec(db, InsertInto(name, values)).Some?
    ensures k < |values| && values[k] !in db[name].rows
    ensures var db' := Exec(db, InsertInto(name, values)).value;
      && Lookup(db', name, values[k]) == Some(true)
      && db'.Keys == db.Keys
      && (forall other | other in db && other != name :: db'[other] == db[other])
      && db'[name].rows == db[name].rows[values[k] := values]
  {
  }

  /** A key already present cannot be inserted again. */
  lemma InsertDuplicateFails(db: Db, name: string, values: seq<Value>, k: nat)
    requires name in db && KeyIndex(db[name].def.columns, db[name].def.primaryKey) == Some(k)
    requires k < |values| && values[k] in db[name].rows
    ensures Exec(db, InsertInto(name, values)) == None
  {
  }

  /** A NULL in a NOT NULL column, or a row of the wrong width, is refused. */
  lemma InsertUnfitFails(db: Db, name: string, values: seq<Value>)
    requires name in db && !Fits(db[name].def, values)
    ensures Exec(db, InsertInto(name, values)) == None
  {
  }

  /** Inserting keeps every row filed under its own key. */
  lemma InsertKeepsWellKeyed(db: Db, name: string, values: seq<Value>)
    requires name in db && WellKeyed(db[name])
    requires Exec(db, InsertInto(name, values)).Some?
    ensures WellKeyed(Exec(db, InsertInto(name, values)).value[name])
  {
  }
}
