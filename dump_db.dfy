/**
 * The SQLite dump file as the seed and dump code sees it through `dbx`: named
 * tables of rows, each row a map from column name to value. The file format
 * itself is not modelled; the connection is an object whose tables the dump
 * code rewrites in place.
 */
module DumpDatabase {
  import opened Wrappers
  import opened RecordStore

  type Row = map<string, Value>

  /** A table: its declared columns and its rows in insertion order. */
  datatype Table = Table(columns: set<string>, rows: seq<Row>)

  /** The primary key of a row as stored in its `id` column. */
  function RowId(r: Row): string {
    if "id" in r && r["id"].Text? then r["id"].s else ""
  }

  /** `INSERT INTO name (...) VALUES (...)`. */
  function InsertInto(tables: map<string, Table>, f: Faults, name: string, row: Row): (r: Result<map<string, Table>, Error>)
    ensures r.Ok? <==>
              name in tables && !f.Fails(Insert, name, RowId(row)) && row.Keys <= tables[name].columns &&
              forall k :: 0 <= k < |tables[name].rows| ==> RowId(tables[name].rows[k]) != RowId(row)
    ensures r.Ok? ==> r.value == tables[name := Table(tables[name].columns, tables[name].rows + [row])]
  {
    if name !in tables then Err(MissingTable(name))
    else if f.Fails(Insert, name, RowId(row)) then Err(Fault(Insert, name))
    else if !(row.Keys <= tables[name].columns) then Err(UnknownColumn(name))
    else if exists k :: 0 <= k < |tables[name].rows| && RowId(tables[name].rows[k]) == RowId(row) then
      Err(DuplicateId(RowId(row)))
    else Ok(tables[name := Table(tables[name].columns, tables[name].rows + [row])])
  }

  /** An open connection to a dump file. */
  class DumpDb {
    var tables: map<string, Table>
    var open: bool
    const faults: Faults

    constructor(tables: map<string, Table>, faults: Faults)
      ensures this.tables == tables && this.faults == faults && open
    {
      this.tables := tables;
      this.faults := faults;
      open := true;
    }

    /** `SELECT * FROM name`. */
    function SelectAll(name: string): (r: Result<seq<Row>, Error>)
      reads this
      ensures r.Ok? <==> name in tables
      ensures r.Ok? ==> r.value == tables[name].rows
    {
      if name in tables then Ok(tables[name].rows) else Err(MissingTable(name))
    }

    /** `DROP TABLE name`; when the drop fails the table stays. */
    method DropTable(name: string) returns (err: Option<Error>)
      modifies this
      ensures faults.Fails(Op.DropTable, name, "") ==> err.Some? && tables == old(tables)
      ensures !faults.Fails(Op.DropTable, name, "") ==> err == None && tables == old(tables) - {name}
      ensures open == old(open)
    {
      if faults.Fails(Op.DropTable, name, "") {
        err := Some(Fault(Op.DropTable, name));
      } else {
        tables := tables - {name};
        err := None;
      }
    }

    /** `CREATE TABLE name (...)`: fails when a table of that name still exists. */
    method CreateTable(name: string, columns: set<string>) returns (err: Option<Error>)
      modifies this
      ensures name in old(tables) ==> err == Some(TableExists(name)) && tables == old(tables)
      ensures name !in old(tables) && faults.Fails(Op.CreateTable, name, "") ==>
                err == Some(Fault(Op.CreateTable, name)) && tables == old(tables)
      ensures name !in old(tables) && !faults.Fails(Op.CreateTable, name, "") ==>
                err == None && tables == old(tables)[name := Table(columns, [])]
      ensures open == old(open)
    {
      if name in tables {
        err := Some(TableExists(name));
      } else if faults.Fails(Op.CreateTable, name, "") {
        err := Some(Fault(Op.CreateTable, name));
      } else {
        tables := tables[name := Table(columns, [])];
        err := None;
      }
    }

    method Insert(name: string, row: Row) returns (err: Option<Error>)
      modifies this
      ensures InsertInto(old(tables), faults, name, row).Ok? ==>
                err == None && tables == InsertInto(old(tables), faults, name, row).value
      ensures InsertInto(old(tables), faults, name, row).Err? ==>
                err == Some(InsertInto(old(tables), faults, name, row).error) && tables == old(tables)
      ensures open == old(open)
    {
      var r := InsertInto(tables, faults, name, row);
      if r.Ok? {
        tables := r.value;
        err := None;
      } else {
        err := Some(r.error);
      }
    }

    method Close()
      modifies this
      ensures !open && tables == old(tables)
    {
      open := false;
    }
  }
}
