/**
 * `seedCollection` and `dumpCollection` (internals/seed/utils.go): every row
 * of a dump table seeded in turn, and every record of a collection dumped in
 * turn, both stopping at the first error.
 */
module SeedCollections {
  import opened Wrappers
  import opened RecordStore
  import opened DumpDatabase
  import opened SeedUtils
  import opened SeedModels

  /** Where a run of seeds stops: the store it leaves and the error it stopped at, if any. */
  datatype Outcome = Outcome(store: Store, err: Option<Error>)

  /** The items seeded in order; the first failure stops the run, the saves before it stay. */
  function SeedAll(st: Store, f: Faults, k: Kind, items: seq<Item>): Outcome
    decreases |items|
  {
    if items == [] then Outcome(st, None)
    else
      match SeedStep(st, f, k, items[0])
      case Err(e) => Outcome(st, Some(e))
      case Ok(st') => SeedAll(st', f, k, items[1..])
  }

  /** `seedCollection`: the dump table read and scanned, then every row seeded. */
  function SeedTable(st: Store, f: Faults, tables: map<string, Table>, k: Kind): Outcome {
    if TableName(k) !in tables then Outcome(st, Some(MissingTable(TableName(k))))
    else
      match ScanAll(k, tables[TableName(k)].rows)
      case Err(e) => Outcome(st, Some(e))
      case Ok(items) => SeedAll(st, f, k, items)
  }

  method SeedCollection(app: App, db: DumpDb, k: Kind) returns (err: Option<Error>)
    modifies app
    ensures SeedTable(old(app.store), app.faults, db.tables, k) == Outcome(app.store, err)
  {
    var rows := db.SelectAll(TableName(k));
    if rows.Err? {
      return Some(rows.error);
    }
    var scanned := ScanAll(k, rows.value);
    if scanned.Err? {
      return Some(scanned.error);
    }
    err := SeedItems(app, k, scanned.value);
  }

  /** The loop of `seedCollection`: each item seeded in order until one fails. */
  method SeedItems(app: App, k: Kind, items: seq<Item>) returns (err: Option<Error>)
    modifies app
    ensures SeedAll(old(app.store), app.faults, k, items) == Outcome(app.store, err)
  {
    ghost var st0 := app.store;
    var i := 0;
    while i < |items|
      invariant 0 <= i <= |items|
      invariant SeedAll(st0, app.faults, k, items) == SeedAll(app.store, app.faults, k, items[i..])
    {
      ghost var step := SeedStep(app.store, app.faults, k, items[i]);
      SeedAllUnfold(app.store, app.faults, k, items, i);
      err := Seed(app, k, items[i]);
      if err.Some? {
        assert step.Err?;
        return;
      }
      assert step.Ok? && app.store == step.value;
      i := i + 1;
    }
    assert items[i..] == [];
    err := None;
  }

  lemma SeedAllUnfold(st: Store, f: Faults, k: Kind, items: seq<Item>, i: int)
    requires 0 <= i < |items|
    ensures SeedStep(st, f, k, items[i]).Err? ==>
              SeedAll(st, f, k, items[i..]) == Outcome(st, Some(SeedStep(st, f, k, items[i]).error))
    ensures SeedStep(st, f, k, items[i]).Ok? ==>
              SeedAll(st, f, k, items[i..]) == SeedAll(SeedStep(st, f, k, items[i]).value, f, k, items[i + 1..])
  {
    assert items[i..][0] == items[i] && items[i..][1..] == items[i + 1..];
  }

  /** The record of kind `k` holding the item is in the store. */
  ghost predicate Stored(st: Store, k: Kind, item: Item) {
    TableName(k) in st.tables &&
    exists j :: 0 <= j < |st.tables[TableName(k)]| && Holds(st.tables[TableName(k)][j], k, item)
  }

  /** Seeding one item leaves the records of every other id in place. */
  lemma SeedStepKeeps(st: Store, f: Faults, k: Kind, item: Item, other: Item)
    requires Stored(st, k, other) && other.id != item.id
    requires SeedStep(st, f, k, item).Ok?
    ensures Stored(SeedStep(st, f, k, item).value, k, other)
  {
    var coll := TableName(k);
    var rec := WithValues(UpsertRecordById(st, f, coll, item.id).value, item);
    var saved := if HasIcon(k) && item.icon.Some? then Record(rec.id, rec.fields["icon" := Upload(item.icon.value.0, item.icon.value.1)])
                 else rec;
    assert SeedStep(st, f, k, item) == SaveRecord(st, f, coll, saved);
    var j :| 0 <= j < |st.tables[coll]| && Holds(st.tables[coll][j], k, other);
    var st' := SeedStep(st, f, k, item).value;
    assert st.tables[coll][j] in st'.tables[coll];
    StoredOf(st', k, other, st.tables[coll][j]);
  }

  lemma StoredOf(st: Store, k: Kind, item: Item, r: Record)
    requires TableName(k) in st.tables && r in st.tables[TableName(k)] && Holds(r, k, item)
    ensures Stored(st, k, item)
  {
    var j :| 0 <= j < |st.tables[TableName(k)]| && st.tables[TableName(k)][j] == r;
  }

  /** A run that completes leaves in place a record that no later item shares an id with. */
  lemma {:induction false} SeedAllKeeps(st: Store, f: Faults, k: Kind, items: seq<Item>, other: Item)
    requires Stored(st, k, other)
    requires forall i :: 0 <= i < |items| ==> items[i].id != other.id
    requires SeedAll(st, f, k, items).err == None
    ensures Stored(SeedAll(st, f, k, items).store, k, other)
    decreases |items|
  {
    if items != [] {
      SeedStepKeeps(st, f, k, items[0], other);
      SeedAllKeeps(SeedStep(st, f, k, items[0]).value, f, k, items[1..], other);
    }
  }

  /**
   * A run over items with distinct ids that completes stores every one of
   * them: each item's record carries its scanned values and icon name.
   */
  lemma {:induction false} SeedAllStoresEach(st: Store, f: Faults, k: Kind, items: seq<Item>)
    requires forall i :: 0 <= i < |items| ==> items[i].values.Keys == Columns(k).Keys
    requires forall i, j :: 0 <= i < j < |items| ==> items[i].id != items[j].id
    requires SeedAll(st, f, k, items).err == None
    ensures forall i :: 0 <= i < |items| ==> Stored(SeedAll(st, f, k, items).store, k, items[i])
    decreases |items|
  {
    if items != [] {
      var st' := SeedStep(st, f, k, items[0]).value;
      SeedStores(st, f, k, items[0]);
      SeedAllKeeps(st', f, k, items[1..], items[0]);
      SeedAllStoresEach(st', f, k, items[1..]);
      forall i | 0 <= i < |items| ensures Stored(SeedAll(st, f, k, items).store, k, items[i]) {
        if i > 0 {
          assert items[i] == items[1..][i - 1];
        }
      }
    }
  }

  /** A run keeps every collection's ids unique. */
  lemma {:induction false} SeedAllValid(st: Store, f: Faults, k: Kind, items: seq<Item>)
    requires Valid(st)
    ensures Valid(SeedAll(st, f, k, items).store)
    decreases |items|
  {
    if items != [] && SeedStep(st, f, k, items[0]).Ok? {
      SeedAllValid(SeedStep(st, f, k, items[0]).value, f, k, items[1..]);
    }
  }

  // ---- Dumping a collection ----

  /** Where a run of dumps stops: the dump tables it leaves and the error it stopped at, if any. */
  datatype DumpOutcome = DumpOutcome(tables: map<string, Table>, err: Option<Error>)

  function DumpAll(tables: map<string, Table>, files: map<string, seq<byte>>, f: Faults, dbf: Faults, k: Kind, rs: seq<Record>)
    : DumpOutcome
    decreases |rs|
  {
    if rs == [] then DumpOutcome(tables, None)
    else
      match DumpStep(tables, files, f, dbf, k, rs[0])
      case Err(e) => DumpOutcome(tables, Some(e))
      case Ok(tables') => DumpAll(tables', files, f, dbf, k, rs[1..])
  }

  /** `dumpCollection`: every record of the kind's collection written to its dump table. */
  function DumpTable(st: Store, f: Faults, tables: map<string, Table>, dbf: Faults, k: Kind): DumpOutcome {
    match FindAll(st, TableName(k))
    case Err(e) => DumpOutcome(tables, Some(e))
    case Ok(rs) => DumpAll(tables, st.files, f, dbf, k, rs)
  }

  method DumpCollection(app: App, db: DumpDb, k: Kind) returns (err: Option<Error>)
    modifies db
    ensures DumpTable(app.store, app.faults, old(db.tables), db.faults, k) == DumpOutcome(db.tables, err)
    ensures db.open == old(db.open)
  {
    var found := FindAll(app.store, TableName(k));
    if found.Err? {
      return Some(found.error);
    }
    err := DumpRecords(db, app.store.files, app.faults, k, found.value);
  }

  /** The loop of `dumpCollection`: each record dumped in order until one fails. */
  method DumpRecords(db: DumpDb, files: map<string, seq<byte>>, f: Faults, k: Kind, records: seq<Record>)
    returns (err: Option<Error>)
    modifies db
    ensures DumpAll(old(db.tables), files, f, db.faults, k, records) == DumpOutcome(db.tables, err)
    ensures db.open == old(db.open)
  {
    ghost var t0 := db.tables;
    var i := 0;
    while i < |records|
      invariant 0 <= i <= |records|
      invariant DumpAll(t0, files, f, db.faults, k, records) == DumpAll(db.tables, files, f, db.faults, k, records[i..])
      invariant db.open == old(db.open)
    {
      ghost var step := DumpStep(db.tables, files, f, db.faults, k, records[i]);
      DumpAllUnfold(db.tables, files, f, db.faults, k, records, i);
      err := Dump(db, files, f, k, records[i]);
      if err.Some? {
        assert step.Err?;
        return;
      }
      assert step.Ok? && db.tables == step.value;
      i := i + 1;
    }
    assert records[i..] == [];
    err := None;
  }

  lemma DumpAllUnfold(tables: map<string, Table>, files: map<string, seq<byte>>, f: Faults, dbf: Faults,
                      k: Kind, rs: seq<Record>, i: int)
    requires 0 <= i < |rs|
    ensures DumpStep(tables, files, f, dbf, k, rs[i]).Err? ==>
              DumpAll(tables, files, f, dbf, k, rs[i..]) ==
              DumpOutcome(tables, Some(DumpStep(tables, files, f, dbf, k, rs[i]).error))
    ensures DumpStep(tables, files, f, dbf, k, rs[i]).Ok? ==>
              DumpAll(tables, files, f, dbf, k, rs[i..]) ==
              DumpAll(DumpStep(tables, files, f, dbf, k, rs[i]).value, files, f, dbf, k, rs[i + 1..])
  {
    assert rs[i..][0] == rs[i] && rs[i..][1..] == rs[i + 1..];
  }

  /** The row `Dump` writes for a record whose icon, if it has one, can be read. */
  function DumpedRow(files: map<string, seq<byte>>, f: Faults, k: Kind, r: Record): (row: Row)
    requires HasIcon(k) ==> GetFileContent(files, f, TableName(k), r, "icon").Ok?
    ensures RowId(row) == r.id && row.Keys == RowColumns(k)
  {
    if HasIcon(k) then DumpRow(k, r, Some(GetFileContent(files, f, TableName(k), r, "icon").value))
    else DumpRow(k, r, None)
  }

  /** A dump of one record that succeeds appends the record's row to the kind's table. */
  lemma DumpStepAppends(tables: map<string, Table>, files: map<string, seq<byte>>, f: Faults, dbf: Faults, k: Kind, r: Record)
    requires DumpStep(tables, files, f, dbf, k, r).Ok?
    ensures HasIcon(k) ==> GetFileContent(files, f, TableName(k), r, "icon").Ok?
    ensures TableName(k) in tables
    ensures DumpStep(tables, files, f, dbf, k, r).value ==
              tables[TableName(k) := Table(tables[TableName(k)].columns,
                                           tables[TableName(k)].rows + [DumpedRow(files, f, k, r)])]
  {
  }

  /** The rows a dump run appends, up to the record it stops at. */
  ghost function Appended(tables: map<string, Table>, files: map<string, seq<byte>>, f: Faults, dbf: Faults,
                          k: Kind, rs: seq<Record>): (rows: seq<Row>)
    ensures |rows| <= |rs|
    decreases |rs|
  {
    if rs == [] || DumpStep(tables, files, f, dbf, k, rs[0]).Err? then []
    else
      DumpStepAppends(tables, files, f, dbf, k, rs[0]);
      [DumpedRow(files, f, k, rs[0])] + Appended(DumpStep(tables, files, f, dbf, k, rs[0]).value, files, f, dbf, k, rs[1..])
  }

  /** Each appended row carries its record's id and exactly the table's columns. */
  lemma {:induction false} AppendedRows(tables: map<string, Table>, files: map<string, seq<byte>>, f: Faults, dbf: Faults,
                                        k: Kind, rs: seq<Record>)
    ensures var rows := Appended(tables, files, f, dbf, k, rs);
            forall i :: 0 <= i < |rows| ==> RowId(rows[i]) == rs[i].id && rows[i].Keys == RowColumns(k)
    decreases |rs|
  {
    if rs != [] && DumpStep(tables, files, f, dbf, k, rs[0]).Ok? {
      DumpStepAppends(tables, files, f, dbf, k, rs[0]);
      var t1 := DumpStep(tables, files, f, dbf, k, rs[0]).value;
      AppendedRows(t1, files, f, dbf, k, rs[1..]);
      var first := DumpedRow(files, f, k, rs[0]);
      RowsAfterStep(Appended(tables, files, f, dbf, k, rs), first, Appended(t1, files, f, dbf, k, rs[1..]), rs, k);
    }
  }

  /** The step of `AppendedRows`: the first row is the first record's, the others line up with the other records. */
  lemma RowsAfterStep(rows: seq<Row>, first: Row, rest: seq<Row>, rs: seq<Record>, k: Kind)
    requires rs != [] && rows == [first] + rest && |rest| <= |rs| - 1
    requires RowId(first) == rs[0].id && first.Keys == RowColumns(k)
    requires forall i :: 0 <= i < |rest| ==> RowId(rest[i]) == rs[1..][i].id && rest[i].Keys == RowColumns(k)
    ensures forall i :: 0 <= i < |rows| ==> RowId(rows[i]) == rs[i].id && rows[i].Keys == RowColumns(k)
  {
    forall i | 0 < i < |rows| ensures RowId(rows[i]) == rs[i].id && rows[i].Keys == RowColumns(k) {
      assert rows[i] == rest[i - 1] && rs[i] == rs[1..][i - 1];
    }
  }

  /**
   * A dump run that completes appends one row per record, in order, to the
   * kind's table and keeps its columns.
   */
  lemma {:induction false} DumpAllAppends(tables: map<string, Table>, files: map<string, seq<byte>>, f: Faults, dbf: Faults,
                                          k: Kind, rs: seq<Record>)
    requires TableName(k) in tables
    requires DumpAll(tables, files, f, dbf, k, rs).err == None
    ensures TableName(k) in DumpAll(tables, files, f, dbf, k, rs).tables
    ensures DumpAll(tables, files, f, dbf, k, rs).tables[TableName(k)] ==
              Table(tables[TableName(k)].columns, tables[TableName(k)].rows + Appended(tables, files, f, dbf, k, rs))
    decreases |rs|
  {
    if rs != [] {
      var t1, row := DumpAllStep(tables, files, f, dbf, k, rs);
      DumpAllAppends(t1, files, f, dbf, k, rs[1..]);
      AppendsAfterStep(DumpAll(tables, files, f, dbf, k, rs), tables[TableName(k)], row, Appended(t1, files, f, dbf, k, rs[1..]),
                       DumpAll(t1, files, f, dbf, k, rs[1..]), t1[TableName(k)], TableName(k));
    } else {
      assert tables[TableName(k)].rows + [] == tables[TableName(k)].rows;
    }
  }

  /** The step of `DumpAllAppends`: the row appended first goes before the rows appended by the rest of the run. */
  lemma AppendsAfterStep(d: DumpOutcome, t: Table, row: Row, rest: seq<Row>, d1: DumpOutcome, t1: Table, name: string)
    requires d == d1 && t1 == Table(t.columns, t.rows + [row])
    requires name in d1.tables && d1.tables[name] == Table(t1.columns, t1.rows + rest)
    ensures name in d.tables && d.tables[name] == Table(t.columns, t.rows + ([row] + rest))
  {
    assert t.rows + [row] + rest == t.rows + ([row] + rest);
  }

  /** The first record of a completed dump run: its row appended, and the run goes on from there. */
  lemma DumpAllStep(tables: map<string, Table>, files: map<string, seq<byte>>, f: Faults, dbf: Faults,
                    k: Kind, rs: seq<Record>) returns (t1: map<string, Table>, row: Row)
    requires rs != [] && DumpAll(tables, files, f, dbf, k, rs).err == None
    ensures TableName(k) in tables
    ensures t1 == tables[TableName(k) := Table(tables[TableName(k)].columns, tables[TableName(k)].rows + [row])]
    ensures DumpAll(tables, files, f, dbf, k, rs) == DumpAll(t1, files, f, dbf, k, rs[1..])
    ensures Appended(tables, files, f, dbf, k, rs) == [row] + Appended(t1, files, f, dbf, k, rs[1..])
  {
    var step := DumpStep(tables, files, f, dbf, k, rs[0]);
    assert step.Ok?;
    DumpStepAppends(tables, files, f, dbf, k, rs[0]);
    t1 := step.value;
    row := DumpedRow(files, f, k, rs[0]);
    AppendedStep(tables, files, f, dbf, k, rs);
  }

  /** The rows appended by a run whose first dump succeeds: that record's row, then the rest of the run's. */
  lemma AppendedStep(tables: map<string, Table>, files: map<string, seq<byte>>, f: Faults, dbf: Faults,
                     k: Kind, rs: seq<Record>)
    requires rs != [] && DumpStep(tables, files, f, dbf, k, rs[0]).Ok?
    requires HasIcon(k) ==> GetFileContent(files, f, TableName(k), rs[0], "icon").Ok?
    ensures Appended(tables, files, f, dbf, k, rs) ==
              [DumpedRow(files, f, k, rs[0])] + Appended(DumpStep(tables, files, f, dbf, k, rs[0]).value, files, f, dbf, k, rs[1..])
  {
  }

  /** A dump run that completes appends a row for every record. */
  lemma {:induction false} AppendedAll(tables: map<string, Table>, files: map<string, seq<byte>>, f: Faults, dbf: Faults,
                                       k: Kind, rs: seq<Record>)
    requires DumpAll(tables, files, f, dbf, k, rs).err == None
    ensures |Appended(tables, files, f, dbf, k, rs)| == |rs|
    decreases |rs|
  {
    if rs != [] {
      AppendedAll(DumpStep(tables, files, f, dbf, k, rs[0]).value, files, f, dbf, k, rs[1..]);
    }
  }

  /** A dump run, complete or not, changes no table but the kind's own. */
  lemma {:induction false} DumpAllOthers(tables: map<string, Table>, files: map<string, seq<byte>>, f: Faults, dbf: Faults,
                                         k: Kind, rs: seq<Record>)
    ensures DumpAll(tables, files, f, dbf, k, rs).tables.Keys == tables.Keys
    ensures forall t :: t in tables && t != TableName(k) ==> DumpAll(tables, files, f, dbf, k, rs).tables[t] == tables[t]
    decreases |rs|
  {
    if rs != [] && DumpStep(tables, files, f, dbf, k, rs[0]).Ok? {
      DumpStepAppends(tables, files, f, dbf, k, rs[0]);
      DumpAllOthers(DumpStep(tables, files, f, dbf, k, rs[0]).value, files, f, dbf, k, rs[1..]);
    }
  }
}
