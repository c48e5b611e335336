/**
 * The dictionary entity kinds (internals/seed/models.go): for each kind, the
 * dump table it is written to, the columns of that table, how a dump row is
 * scanned, how `Seed` writes a scanned row onto its record and how `Dump`
 * writes a record as a row.
 *
 * The nine Go types differ only in their field lists, so one generic `Seed`
 * and one generic `Dump` are driven by each kind's column table (`Columns`),
 * which lists exactly the fields that kind's Go methods set and insert.
 */
module SeedModels {
  import opened Wrappers
  import opened RecordStore
  import opened DumpDatabase
  import opened SeedUtils
  import JsonArray
  import Utf8
  import opened Lists
  import C = Collections

  datatype Kind = Special | Element | CharacterRole | ArtifactSet | ArtifactType | DomainOfBlessing | WeaponType | Weapon | Character

  /** The dump table of a kind; it is also the name of the collection its records live in. */
  function TableName(k: Kind): string {
    match k
    case Special => C.SPECIALS
    case Element => C.ELEMENTS
    case CharacterRole => C.CHARACTER_ROLES
    case ArtifactSet => C.ARTIFACT_SETS
    case ArtifactType => C.ARTIFACT_TYPES
    case DomainOfBlessing => C.DOMAINS_OF_BLESSING
    case WeaponType => C.WEAPON_TYPES
    case Weapon => C.WEAPONS
    case Character => C.CHARACTERS
  }

  /** No two kinds share a table. */
  lemma TableNameInjective(a: Kind, b: Kind)
    requires TableName(a) == TableName(b)
    ensures a == b
  {
  }

  /** How a column is stored: text, integer, boolean, or a JSON array of strings in a text column. */
  datatype ColType = TextCol | IntCol | BoolCol | JsonCol

  /** The fields besides the id and the icon that a kind's `Seed` sets and its `Dump` inserts. */
  function Columns(k: Kind): map<string, ColType> {
    match k
    case Special => map["name" := TextCol, "substat" := BoolCol, "order" := IntCol]
    case Element => map["name" := TextCol, "color" := TextCol, "inverseTextColor" := BoolCol]
    case CharacterRole => map["name" := TextCol]
    case ArtifactSet => map["name" := TextCol, "rarity" := TextCol]
    case ArtifactType => map["name" := TextCol, "specials" := JsonCol, "order" := IntCol]
    case DomainOfBlessing => map["name" := TextCol, "artifactSets" := JsonCol]
    case WeaponType => map["name" := TextCol]
    case Weapon => map["name" := TextCol, "rarity" := IntCol, "weaponType" := TextCol, "special" := TextCol]
    case Character =>
      map["name" := TextCol, "rarity" := IntCol, "element" := TextCol, "weaponType" := TextCol, "special" := TextCol]
  }

  /** Kinds with an icon file: their rows carry `iconFilename` and `iconContent`. */
  predicate HasIcon(k: Kind) {
    !(k.Special? || k.CharacterRole? || k.DomainOfBlessing?)
  }

  /** The column definitions each `create*Table` passes to `CREATE TABLE`. */
  function Schema(k: Kind): map<string, string> {
    match k
    case Special =>
      map["id" := "TEXT not NULL PRIMARY KEY", "name" := "TEXT not NULL", "substat" := "BOOL not NULL",
          "order" := "INTEGER not NULL"]
    case Element =>
      map["id" := "TEXT not NULL PRIMARY KEY", "name" := "TEXT not NULL", "color" := "TEXT not NULL",
          "inverseTextColor" := "BOOL not NULL", "iconFilename" := "TEXT not NULL", "iconContent" := "BLOB not NULL"]
    case CharacterRole =>
      map["id" := "TEXT not NULL PRIMARY KEY", "name" := "TEXT not NULL"]
    case ArtifactSet =>
      map["id" := "TEXT not NULL PRIMARY KEY", "name" := "TEXT not NULL", "rarity" := "TEXT not NULL",
          "iconFilename" := "TEXT not NULL", "iconContent" := "BLOB not NULL"]
    case ArtifactType =>
      map["id" := "TEXT not NULL PRIMARY KEY", "name" := "TEXT not NULL", "specials" := "TEXT not NULL",
          "order" := "INTEGER not NULL", "iconFilename" := "TEXT not NULL", "iconContent" := "BLOB not NULL"]
    case DomainOfBlessing =>
      map["id" := "TEXT not NULL PRIMARY KEY", "name" := "TEXT not NULL", "artifactSets" := "TEXT not NULL"]
    case WeaponType =>
      map["id" := "TEXT not NULL PRIMARY KEY", "name" := "TEXT not NULL", "iconFilename" := "TEXT not NULL",
          "iconContent" := "BLOB not NULL"]
    case Weapon =>
      map["id" := "TEXT not NULL PRIMARY KEY", "name" := "TEXT not NULL", "rarity" := "INTEGER not NULL",
          "weaponType" := "TEXT not NULL", "special" := "TEXT default ''", "iconFilename" := "TEXT not NULL",
          "iconContent" := "BLOB not NULL"]
    case Character =>
      map["id" := "TEXT not NULL PRIMARY KEY", "name" := "TEXT not NULL", "rarity" := "INTEGER not NULL",
          "element" := "TEXT default ''", "weaponType" := "TEXT not NULL", "special" := "TEXT not NULL",
          "iconFilename" := "TEXT not NULL", "iconContent" := "BLOB not NULL"]
  }

  /** The only columns that may be left empty: a weapon's special and a character's element. */
  predicate Optional(k: Kind, c: string) {
    (k == Weapon && c == "special") || (k == Character && c == "element")
  }

  /** The SQL declaration a column of this type gets. */
  function Declaration(t: ColType, optional: bool): string {
    match t
    case TextCol => if optional then "TEXT default ''" else "TEXT not NULL"
    case IntCol => "INTEGER not NULL"
    case BoolCol => "BOOL not NULL"
    case JsonCol => "TEXT not NULL"
  }

  /** The columns of a row `Dump` inserts for a kind. */
  function RowColumns(k: Kind): set<string> {
    {"id"} + Columns(k).Keys + (if HasIcon(k) then {"iconFilename", "iconContent"} else {})
  }

  /** The table has exactly the columns `Dump` inserts. */
  lemma SchemaColumns(k: Kind)
    ensures Schema(k).Keys == RowColumns(k)
  {
    match k
    case Special =>
    case Element =>
    case CharacterRole =>
    case ArtifactSet =>
    case ArtifactType =>
    case DomainOfBlessing =>
    case WeaponType =>
    case Weapon =>
    case Character =>
  }

  /**
   * Every data column is declared with its type, and only the two optional
   * columns are declared without NOT NULL.
   */
  lemma SchemaDeclarations(k: Kind)
    ensures forall c :: c in Columns(k) ==> c in Schema(k) && Schema(k)[c] == Declaration(Columns(k)[c], Optional(k, c))
  {
    match k
    case Special =>
    case Element =>
    case CharacterRole =>
    case ArtifactSet =>
    case ArtifactType =>
    case DomainOfBlessing =>
    case WeaponType =>
    case Weapon =>
    case Character =>
  }

  /** The data columns never clash with the id, the icon columns or the record's icon field. */
  lemma ColumnsReserved(k: Kind)
    ensures "id" !in Columns(k) && "iconFilename" !in Columns(k) && "iconContent" !in Columns(k) && "icon" !in Columns(k)
  {
  }

  // ---- Scanning a dump row into the kind's Go struct ----

  /** A scanned row: the id, the typed data columns and, for icon kinds, the icon's file name and bytes. */
  datatype Item = Item(id: string, values: map<string, Value>, icon: Option<(string, seq<byte>)>)

  predicate HasType(v: Value, t: ColType) {
    match t
    case TextCol => v.Text?
    case IntCol => v.Number?
    case BoolCol => v.Flag?
    case JsonCol => v.Texts?
  }

  function ZeroValue(t: ColType): (v: Value)
    ensures HasType(v, t)
  {
    match t
    case TextCol => Text("")
    case IntCol => Number(0)
    case BoolCol => Flag(false)
    case JsonCol => Texts([])
  }

  /** One struct field filled from its column: a missing column leaves the zero value, a JSON list is read from text or from UTF-8 bytes, a value of another type fails. */
  function ScanValue(row: Row, c: string, t: ColType): (r: Option<Value>)
    ensures r.Some? ==> HasType(r.value, t)
  {
    if c !in row then Some(ZeroValue(t))
    else
      match (t, row[c])
      case (TextCol, Text(s)) => Some(Text(s))
      case (IntCol, Number(n)) => Some(Number(n))
      case (BoolCol, Flag(b)) => Some(Flag(b))
      case (JsonCol, Text(s)) => ScanJson(s)
      case (JsonCol, Blob(bs)) =>
        (match Utf8.Decode(bs)
         case Some(s) => ScanJson(s)
         case None => None)
      case _ => None
  }

  /** `JSONArray.Scan` of the text of a JSON column. */
  function ScanJson(s: string): (r: Option<Value>)
    ensures r.Some? ==> r.value.Texts?
  {
    match JsonArray.Unmarshal(s)
    case Some(xs) => Some(Texts(xs))
    case None => None
  }

  function ScanText(row: Row, c: string): Option<string> {
    if c !in row then Some("") else if row[c].Text? then Some(row[c].s) else None
  }

  function ScanBlob(row: Row, c: string): Option<seq<byte>> {
    if c !in row then Some([]) else if row[c].Blob? then Some(row[c].bytes) else None
  }

  predicate ScansAll(k: Kind, row: Row) {
    forall c :: c in Columns(k) ==> ScanValue(row, c, Columns(k)[c]).Some?
  }

  /** One row of `select * from <table>` scanned into the kind's struct. */
  function Scan(k: Kind, row: Row): (r: Result<Item, Error>)
    ensures r.Ok? ==> r.value.values.Keys == Columns(k).Keys
    ensures r.Ok? ==> forall c :: c in Columns(k) ==> HasType(r.value.values[c], Columns(k)[c])
    ensures r.Ok? ==> (r.value.icon.Some? <==> HasIcon(k))
  {
    if ScanText(row, "id").None? || !ScansAll(k, row) then Err(ScanError(TableName(k)))
    else if HasIcon(k) && (ScanText(row, "iconFilename").None? || ScanBlob(row, "iconContent").None?) then
      Err(ScanError(TableName(k)))
    else
      var values := map c | c in Columns(k) :: ScanValue(row, c, Columns(k)[c]).value;
      var icon := if HasIcon(k) then Some((ScanText(row, "iconFilename").value, ScanBlob(row, "iconContent").value))
                  else None;
      Ok(Item(ScanText(row, "id").value, values, icon))
  }

  /** `All(&items)`: every row scanned, or the first scan error. */
  function ScanAll(k: Kind, rows: seq<Row>): (r: Result<seq<Item>, Error>)
    ensures r.Ok? ==> |r.value| == |rows|
    ensures r.Ok? ==> forall i :: 0 <= i < |rows| ==> Scan(k, rows[i]) == Ok(r.value[i])
    ensures r.Err? ==> exists i :: 0 <= i < |rows| && Scan(k, rows[i]).Err?
  {
    if rows == [] then Ok([])
    else
      match (Scan(k, rows[0]), ScanAll(k, rows[1..]))
      case (Ok(x), Ok(xs)) => Ok([x] + xs)
      case (Err(e), _) => Err(e)
      case (_, Err(e)) => Err(e)
  }

  // ---- Seed: one scanned row written onto its record ----

  /** `filesystem.NewFileFromBytes`: an empty file is refused. */
  function NewFileFromBytes(content: seq<byte>, name: string): (r: Result<Value, Error>)
    ensures r.Ok? <==> content != []
    ensures r.Ok? ==> r.value == Upload(name, content)
  {
    if content == [] then Err(EmptyFile) else Ok(Upload(name, content))
  }

  /** The record after `Seed`'s `record.Set` calls for the data columns. */
  function WithValues(r: Record, item: Item): (r': Record)
    ensures r'.id == r.id
    ensures forall c :: c in item.values ==> c in r'.fields && r'.fields[c] == item.values[c]
    ensures forall c :: c in r.fields && c !in item.values ==> c in r'.fields && r'.fields[c] == r.fields[c]
  {
    Record(r.id, r.fields + item.values)
  }

  /** `Seed`: find or construct the record by id, set the fields and the icon, save. */
  function SeedStep(st: Store, f: Faults, k: Kind, item: Item): Result<Store, Error> {
    match UpsertRecordById(st, f, TableName(k), item.id)
    case Err(e) => Err(e)
    case Ok(rec) =>
      var rec := WithValues(rec, item);
      if HasIcon(k) && item.icon.Some? then
        match NewFileFromBytes(item.icon.value.1, item.icon.value.0)
        case Err(e) => Err(e)
        case Ok(file) => SaveRecord(st, f, TableName(k), Record(rec.id, rec.fields["icon" := file]))
      else SaveRecord(st, f, TableName(k), rec)
  }

  /** The kind's `Seed` method on the live store. */
  method Seed(app: App, k: Kind, item: Item) returns (err: Option<Error>)
    modifies app
    ensures SeedStep(old(app.store), app.faults, k, item).Ok? ==>
              err == None && app.store == SeedStep(old(app.store), app.faults, k, item).value
    ensures SeedStep(old(app.store), app.faults, k, item).Err? ==>
              err == Some(SeedStep(old(app.store), app.faults, k, item).error) && app.store == old(app.store)
  {
    var found := UpsertRecordById(app.store, app.faults, TableName(k), item.id);
    if found.Err? {
      return Some(found.error);
    }
    var record := found.value;
    record := WithValues(record, item);
    if HasIcon(k) && item.icon.Some? {
      var file := NewFileFromBytes(item.icon.value.1, item.icon.value.0);
      if file.Err? {
        return Some(file.error);
      }
      record := Record(record.id, record.fields["icon" := file.value]);
    }
    err := app.Save(TableName(k), record);
  }

  // ---- Dump: one record written as a row ----

  /** A data column as `Dump` reads it from the record (`GetString`, `GetInt`, `GetBool`, or the UTF-8 bytes of the JSON text of `GetStringSlice`, which the driver stores as a BLOB). */
  function ReadColumn(r: Record, c: string, t: ColType): Value {
    match t
    case TextCol => Text(GetString(r, c))
    case IntCol => Number(GetInt(r, c))
    case BoolCol => Flag(GetBool(r, c))
    case JsonCol => Blob(Utf8.Encode(JsonArray.Marshal(GetStringSlice(r, c))))
  }

  /** The row `Dump` inserts for a record; `icon` is the file name and bytes `getFileContent` returned. */
  function DumpRow(k: Kind, r: Record, icon: Option<(string, seq<byte>)>): (row: Row)
    requires icon.Some? <==> HasIcon(k)
    ensures row.Keys == RowColumns(k)
    ensures RowId(row) == r.id
  {
    ColumnsReserved(k);
    var data := map c | c in Columns(k) :: ReadColumn(r, c, Columns(k)[c]);
    var iconCols := if HasIcon(k) then map["iconFilename" := Text(icon.value.0), "iconContent" := Blob(icon.value.1)]
                    else map[];
    data + iconCols + map["id" := Text(r.id)]
  }

  /** `Dump`: read the icon if the kind has one, then insert the row. */
  function DumpStep(tables: map<string, Table>, files: map<string, seq<byte>>, f: Faults, dbf: Faults, k: Kind, r: Record)
    : Result<map<string, Table>, Error>
  {
    if HasIcon(k) then
      match GetFileContent(files, f, TableName(k), r, "icon")
      case Err(e) => Err(e)
      case Ok(icon) => InsertInto(tables, dbf, TableName(k), DumpRow(k, r, Some(icon)))
    else InsertInto(tables, dbf, TableName(k), DumpRow(k, r, None))
  }

  /** The kind's `Dump` method, inserting into the open dump connection. */
  method Dump(db: DumpDb, files: map<string, seq<byte>>, f: Faults, k: Kind, r: Record) returns (err: Option<Error>)
    modifies db
    ensures DumpStep(old(db.tables), files, f, db.faults, k, r).Ok? ==>
              err == None && db.tables == DumpStep(old(db.tables), files, f, db.faults, k, r).value
    ensures DumpStep(old(db.tables), files, f, db.faults, k, r).Err? ==>
              err == Some(DumpStep(old(db.tables), files, f, db.faults, k, r).error) && db.tables == old(db.tables)
    ensures db.open == old(db.open)
  {
    var icon: Option<(string, seq<byte>)> := None;
    if HasIcon(k) {
      var content := GetFileContent(files, f, TableName(k), r, "icon");
      if content.Err? {
        return Some(content.error);
      }
      icon := Some(content.value);
    }
    err := db.Insert(TableName(k), DumpRow(k, r, icon));
  }

  /**
   * `create*Table` as seen from its result: the table comes back empty with
   * the kind's columns, unless a failed drop leaves the old table in the way
   * or the create itself fails.
   */
  function CreateFresh(tables: map<string, Table>, dbf: Faults, k: Kind): (r: Result<map<string, Table>, Error>)
    ensures r.Ok? <==>
              !(TableName(k) in tables && dbf.Fails(Op.DropTable, TableName(k), "")) &&
              !dbf.Fails(Op.CreateTable, TableName(k), "")
    ensures r.Ok? ==> r.value.Keys == tables.Keys + {TableName(k)}
    ensures r.Ok? ==> r.value[TableName(k)] == Table(RowColumns(k), [])
    ensures r.Ok? ==> forall t :: t in tables && t != TableName(k) ==> r.value[t] == tables[t]
  {
    var name := TableName(k);
    if name in tables && dbf.Fails(Op.DropTable, name, "") then Err(TableExists(name))
    else if dbf.Fails(Op.CreateTable, name, "") then Err(Fault(Op.CreateTable, name))
    else Ok(tables[name := Table(RowColumns(k), [])])
  }

  /** `create*Table`: drop the table, ignoring any error, then create it with the kind's columns. */
  method CreateTable(db: DumpDb, k: Kind) returns (err: Option<Error>)
    modifies db
    ensures CreateFresh(old(db.tables), db.faults, k).Ok? ==>
              err == None && db.tables == CreateFresh(old(db.tables), db.faults, k).value
    ensures CreateFresh(old(db.tables), db.faults, k).Err? ==>
              err == Some(CreateFresh(old(db.tables), db.faults, k).error) &&
              (db.tables == old(db.tables) || db.tables == old(db.tables) - {TableName(k)})
    ensures db.open == old(db.open)
  {
    SchemaColumns(k);
    var ignored := db.DropTable(TableName(k));
    err := db.CreateTable(TableName(k), Schema(k).Keys);
  }

  // ---- What a dump followed by a seed preserves ----

  /** The typed value of a data column as `Dump` reads it and the scan restores it. */
  function Typed(r: Record, c: string, t: ColType): Value {
    match t
    case TextCol => Text(GetString(r, c))
    case IntCol => Number(GetInt(r, c))
    case BoolCol => Flag(GetBool(r, c))
    case JsonCol => Texts(GetStringSlice(r, c))
  }

  /** A data column of the row `Dump` wrote holds the value read from the record. */
  lemma DumpRowColumn(k: Kind, r: Record, icon: Option<(string, seq<byte>)>, c: string)
    requires icon.Some? <==> HasIcon(k)
    requires c in Columns(k)
    ensures c in DumpRow(k, r, icon) && DumpRow(k, r, icon)[c] == ReadColumn(r, c, Columns(k)[c])
  {
    ColumnsReserved(k);
  }

  /** Scanning one column `Dump` wrote restores the typed value; a JSON list reads back in full. */
  lemma ScanReadColumn(row: Row, r: Record, c: string, t: ColType)
    requires c in row && row[c] == ReadColumn(r, c, t)
    ensures ScanValue(row, c, t) == Some(Typed(r, c, t))
  {
    if t == JsonCol {
      Utf8.DecodeEncode(JsonArray.Marshal(GetStringSlice(r, c)));
      JsonArray.UnmarshalMarshal(GetStringSlice(r, c));
    }
  }

  /** Scanning the row `Dump` wrote gives back the record's id, its typed columns and the icon. */
  lemma ScanDumpRow(k: Kind, r: Record, icon: Option<(string, seq<byte>)>)
    requires icon.Some? <==> HasIcon(k)
    ensures Scan(k, DumpRow(k, r, icon)) ==
              Ok(Item(r.id, map c | c in Columns(k) :: Typed(r, c, Columns(k)[c]), icon))
  {
    var row := DumpRow(k, r, icon);
    ScanDumpColumns(k, r, icon);
    ScanDumpIdIcon(k, r, icon);
    ScannedValues(k, row, r);
  }

  /** The id and icon columns of the row `Dump` wrote scan back to the record's id and the icon. */
  lemma ScanDumpIdIcon(k: Kind, r: Record, icon: Option<(string, seq<byte>)>)
    requires icon.Some? <==> HasIcon(k)
    ensures ScanText(DumpRow(k, r, icon), "id") == Some(r.id)
    ensures HasIcon(k) ==> ScanText(DumpRow(k, r, icon), "iconFilename") == Some(icon.value.0) &&
                           ScanBlob(DumpRow(k, r, icon), "iconContent") == Some(icon.value.1)
  {
    ColumnsReserved(k);
  }

  /** Columns that scan to the record's typed values give the map of those values. */
  lemma ScannedValues(k: Kind, row: Row, r: Record)
    requires forall c :: c in Columns(k) ==> ScanValue(row, c, Columns(k)[c]) == Some(Typed(r, c, Columns(k)[c]))
    ensures ScansAll(k, row)
    ensures (map c | c in Columns(k) :: ScanValue(row, c, Columns(k)[c]).value) ==
            (map c | c in Columns(k) :: Typed(r, c, Columns(k)[c]))
  {
  }

  /** Every data column of the row `Dump` wrote scans back to the record's typed value. */
  lemma ScanDumpColumns(k: Kind, r: Record, icon: Option<(string, seq<byte>)>)
    requires icon.Some? <==> HasIcon(k)
    ensures forall c :: c in Columns(k) ==>
              ScanValue(DumpRow(k, r, icon), c, Columns(k)[c]) == Some(Typed(r, c, Columns(k)[c]))
  {
    var row := DumpRow(k, r, icon);
    forall c | c in Columns(k)
      ensures ScanValue(row, c, Columns(k)[c]) == Some(Typed(r, c, Columns(k)[c]))
    {
      DumpRowColumn(k, r, icon, c);
      ScanReadColumn(row, r, c, Columns(k)[c]);
    }
  }

  /** A record whose data columns hold values of their declared types, lists without repeats or blanks. */
  ghost predicate WellTyped(k: Kind, r: Record) {
    forall c :: c in Columns(k) ==>
      c in r.fields && HasType(r.fields[c], Columns(k)[c]) &&
      (r.fields[c].Texts? ==> Distinct(r.fields[c].items) && "" !in r.fields[c].items)
  }

  /**
   * Round trip: dumping a well-typed record and seeding the row back onto it
   * leaves every data column as it was.
   */
  lemma DumpSeedRoundTrip(k: Kind, r: Record, icon: Option<(string, seq<byte>)>)
    requires icon.Some? <==> HasIcon(k)
    requires WellTyped(k, r)
    ensures Scan(k, DumpRow(k, r, icon)).Ok?
    ensures WithValues(r, Scan(k, DumpRow(k, r, icon)).value).fields == r.fields
  {
    ScanDumpRow(k, r, icon);
    TypedColumns(k, r);
  }

  /** Writing a well-typed record's typed columns back onto it changes nothing. */
  lemma TypedColumns(k: Kind, r: Record)
    requires WellTyped(k, r)
    ensures r.fields + (map c | c in Columns(k) :: Typed(r, c, Columns(k)[c])) == r.fields
  {
    var values := map c | c in Columns(k) :: Typed(r, c, Columns(k)[c]);
    forall c | c in Columns(k) ensures values[c] == r.fields[c] {
      TypedColumn(k, r, c);
    }
  }

  /** A well-typed column reads back as the value it holds. */
  lemma TypedColumn(k: Kind, r: Record, c: string)
    requires WellTyped(k, r) && c in Columns(k)
    ensures Typed(r, c, Columns(k)[c]) == r.fields[c]
  {
    if r.fields[c].Texts? {
      NonzeroUniquesKeeps(r.fields[c].items);
    }
  }

  /**
   * In this model's store, with the collection present, no lookup or save
   * failure and a non-empty icon, `Seed` succeeds. The store checks required
   * and unique fields only; PocketBase's check that a relation id names an
   * existing record is not modelled, so a dump with a dangling relation id
   * succeeds here where PocketBase's save would reject it.
   */
  lemma SeedSucceeds(st: Store, f: Faults, k: Kind, item: Item)
    requires TableName(k) in st.tables
    requires !f.Fails(Lookup, TableName(k), item.id) && !f.Fails(Save, TableName(k), item.id)
    requires HasIcon(k) && item.icon.Some? ==> item.icon.value.1 != []
    ensures SeedStep(st, f, k, item).Ok?
  {
    var coll := TableName(k);
    assert RequiredFields(coll) == [] && UniqueFields(coll) == [];
  }

  /** An icon kind given an empty icon file stops before saving. */
  lemma SeedEmptyIcon(st: Store, f: Faults, k: Kind, item: Item)
    requires HasIcon(k) && item.icon.Some? && item.icon.value.1 == []
    requires TableName(k) in st.tables && !f.Fails(Lookup, TableName(k), item.id)
    ensures SeedStep(st, f, k, item) == Err(EmptyFile)
  {
  }

  /**
   * After a successful `Seed` the collection holds a record with the item's id
   * carrying every scanned value, and an icon is stored under the record's
   * file path with its name in the `icon` field.
   */
  lemma SeedStores(st: Store, f: Faults, k: Kind, item: Item)
    requires item.values.Keys == Columns(k).Keys
    requires SeedStep(st, f, k, item).Ok?
    ensures var st' := SeedStep(st, f, k, item).value;
            TableName(k) in st'.tables &&
            exists j :: 0 <= j < |st'.tables[TableName(k)]| && Holds(st'.tables[TableName(k)][j], k, item)
  {
    var saved := SeedSaved(st, f, k, item);
    SavedHolds(k, item, saved);
    HeldIn(SeedStep(st, f, k, item).value.tables[TableName(k)], Persisted(TableName(k), saved), k, item);
  }

  /** The record the seed step saves holds the item once stored: the icon upload becomes its file name. */
  lemma SavedHolds(k: Kind, item: Item, saved: Record)
    requires item.values.Keys == Columns(k).Keys && saved.id == item.id
    requires forall c :: c in item.values ==> c in saved.fields && saved.fields[c] == item.values[c]
    requires HasIcon(k) && item.icon.Some? ==> "icon" in saved.fields && saved.fields["icon"] == Upload(item.icon.value.0, item.icon.value.1)
    ensures Holds(Persisted(TableName(k), saved), k, item)
  {
    ColumnsReserved(k);
    assert FileField(TableName(k)) == "icon";
  }

  /** A record that holds the item, listed in `rs`, is a witness for it. */
  lemma HeldIn(rs: seq<Record>, p: Record, k: Kind, item: Item)
    requires p in rs && Holds(p, k, item)
    ensures exists j :: 0 <= j < |rs| && Holds(rs[j], k, item)
  {
    var j :| 0 <= j < |rs| && rs[j] == p;
  }

  /** A seeded icon is written to the record's directory of the file storage, and nothing else is. */
  lemma SeedStoresIcon(st: Store, f: Faults, k: Kind, item: Item)
    requires item.values.Keys == Columns(k).Keys
    requires SeedStep(st, f, k, item).Ok?
    requires HasIcon(k) && item.icon.Some?
    ensures SeedStep(st, f, k, item).value.files ==
              st.files[BaseFilesPath(TableName(k), item.id) + "/" + item.icon.value.0 := item.icon.value.1]
  {
    var saved := SeedSaved(st, f, k, item);
    assert FileField(TableName(k)) == "icon";
  }

  /** The record a successful seed step hands to the save. */
  lemma SeedSaved(st: Store, f: Faults, k: Kind, item: Item) returns (saved: Record)
    requires item.values.Keys == Columns(k).Keys
    requires SeedStep(st, f, k, item).Ok?
    ensures SeedStep(st, f, k, item) == SaveRecord(st, f, TableName(k), saved)
    ensures saved.id == item.id
    ensures forall c :: c in item.values ==> c in saved.fields && saved.fields[c] == item.values[c]
    ensures HasIcon(k) && item.icon.Some? ==> "icon" in saved.fields && saved.fields["icon"] == Upload(item.icon.value.0, item.icon.value.1)
  {
    ColumnsReserved(k);
    var coll := TableName(k);
    var rec := WithValues(UpsertRecordById(st, f, coll, item.id).value, item);
    saved := if HasIcon(k) && item.icon.Some? then Record(rec.id, rec.fields["icon" := Upload(item.icon.value.0, item.icon.value.1)])
             else rec;
  }

  /** The record carries the item's id, its values and, for an icon, the icon's file name. */
  ghost predicate Holds(r: Record, k: Kind, item: Item) {
    r.id == item.id &&
    (forall c :: c in item.values ==> c in r.fields && r.fields[c] == item.values[c]) &&
    (HasIcon(k) && item.icon.Some? ==> "icon" in r.fields && r.fields["icon"] == Text(item.icon.value.0))
  }

  /** No value in the store is a pending upload. */
  ghost predicate NoUploads(st: Store) {
    forall c, i, fd :: c in st.tables && 0 <= i < |st.tables[c]| && fd in st.tables[c][i].fields ==>
      !st.tables[c][i].fields[fd].Upload?
  }

  /** Kinds without an icon never touch the file storage when seeded. */
  lemma SeedIconlessKeepsFiles(st: Store, f: Faults, k: Kind, item: Item)
    requires !HasIcon(k) && NoUploads(st)
    requires forall c :: c in item.values ==> !item.values[c].Upload?
    requires item.values.Keys == Columns(k).Keys
    ensures SeedStep(st, f, k, item).Ok? ==> SeedStep(st, f, k, item).value.files == st.files
  {
    ColumnsReserved(k);
    var found := UpsertRecordById(st, f, TableName(k), item.id);
    if found.Ok? {
      var rec := WithValues(found.value, item);
      assert found.value in st.tables[TableName(k)] || found.value == Record(item.id, map[]);
      assert FileField(TableName(k)) == "icon";
      assert "icon" in rec.fields ==> !rec.fields["icon"].Upload?;
      assert SeedStep(st, f, k, item) == SaveRecord(st, f, TableName(k), rec);
      assert WithUpload(st.files, TableName(k), rec) == st.files;
    }
  }

  /** Kinds without an icon never touch the file storage when dumped: the row has no icon columns. */
  lemma DumpIconlessRow(k: Kind, r: Record)
    requires !HasIcon(k)
    ensures "iconFilename" !in DumpRow(k, r, None) && "iconContent" !in DumpRow(k, r, None)
  {
    ColumnsReserved(k);
  }
}
