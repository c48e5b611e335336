/**
 * The part of PocketBase the seed and dump code relies on: collections of
 * records, the file storage that holds uploaded files, and the record lookups
 * and saves. The records of a collection are kept in insertion order, which is
 * the order `FindAllRecords` returns them in.
 *
 * Failures that depend on the environment (a disk error, a database that
 * refuses a write) are drawn from a `Faults` oracle; failures that follow from
 * the data (a missing collection, a missing row, a broken unique index) are
 * computed.
 */
module RecordStore {
  import opened Wrappers
  import opened Lists
  import Collections

  type byte = x: int | 0 <= x < 256

  /** A field value as the seed code reads and writes it. */
  datatype Value =
    | Text(s: string)
    | Number(n: int)
    | Flag(b: bool)
    | Texts(items: seq<string>)
    | Blob(bytes: seq<byte>)
      /** A `filesystem.File` set on a record and not yet saved. */
    | Upload(name: string, content: seq<byte>)

  datatype Record = Record(id: string, fields: map<string, Value>)

  /** The operations whose failure comes from the environment. */
  datatype Op = Lookup | Save | Read | ShortRead | Insert | DropTable | CreateTable | Connect | Copy | CreateFile | Write

  datatype Error =
    | NoRows
    | MissingCollection(name: string)
    | MissingTable(table: string)
    | MissingFile(path: string)
    | Fault(op: Op, place: string)
    | ReadCorruption
    | EmptyFile
    | Invalid(field: string)
    | DuplicateId(id: string)
    | UnknownColumn(table: string)
    | TableExists(table: string)
    | ScanError(table: string)

  /** The environment's failures: an operation on a place (collection, table or path) and a key. */
  datatype Faults = Faults(failing: set<(Op, string, string)>) {
    predicate Fails(op: Op, place: string, key: string) {
      (op, place, key) in failing
    }
  }

  datatype Store = Store(tables: map<string, seq<Record>>, files: map<string, seq<byte>>)

  ghost predicate UniqueIds(rs: seq<Record>) {
    forall i, j :: 0 <= i < j < |rs| ==> rs[i].id != rs[j].id
  }

  /** Within a collection no two records share an id. */
  ghost predicate Valid(st: Store) {
    forall c :: c in st.tables ==> UniqueIds(st.tables[c])
  }

  // Typed field access: a missing field or one of another type reads as the zero value.

  function GetString(r: Record, field: string): string {
    if field in r.fields && r.fields[field].Text? then r.fields[field].s else ""
  }

  function GetInt(r: Record, field: string): int {
    if field in r.fields && r.fields[field].Number? then r.fields[field].n else 0
  }

  function GetBool(r: Record, field: string): bool {
    field in r.fields && r.fields[field].Flag? && r.fields[field].b
  }

  /** `list.NonzeroUniques`: the non-empty strings of `xs`, each once, in first-occurrence order. */
  function NonzeroUniques(xs: seq<string>): (r: seq<string>)
    ensures Distinct(r) && "" !in r
    ensures forall x :: x in r <==> x in xs && x != ""
  {
    NonzeroUniquesFrom(xs, [])
  }

  function NonzeroUniquesFrom(xs: seq<string>, seen: seq<string>): (r: seq<string>)
    requires Distinct(seen) && "" !in seen
    ensures Distinct(r) && "" !in r
    ensures |r| >= |seen| && r[..|seen|] == seen
    ensures forall x :: x in r <==> x in seen || (x in xs && x != "")
    decreases |xs|
  {
    if xs == [] then seen
    else
      var seen' := if xs[0] == "" || xs[0] in seen then seen else seen + [xs[0]];
      var r := NonzeroUniquesFrom(xs[1..], seen');
      assert r[..|seen'|][..|seen|] == r[..|seen|];
      assert forall x :: x in xs <==> x == xs[0] || x in xs[1..] by {
        assert xs == [xs[0]] + xs[1..];
      }
      r
  }

  /** A list that already has no duplicates and no empty string is read back unchanged. */
  lemma {:induction false} NonzeroUniquesKeeps(xs: seq<string>)
    requires Distinct(xs) && "" !in xs
    ensures NonzeroUniques(xs) == xs
  {
    NonzeroUniquesFromKeeps(xs, []);
  }

  lemma {:induction false} NonzeroUniquesFromKeeps(xs: seq<string>, seen: seq<string>)
    requires Distinct(seen) && Distinct(seen + xs) && "" !in seen && "" !in xs
    ensures NonzeroUniquesFrom(xs, seen) == seen + xs
    decreases |xs|
  {
    if xs != [] {
      assert xs[0] == (seen + xs)[|seen|];
      assert xs[0] !in seen by {
        forall i | 0 <= i < |seen| ensures seen[i] != xs[0] {
          assert seen[i] == (seen + xs)[i];
        }
      }
      assert seen + xs == (seen + [xs[0]]) + xs[1..];
      NonzeroUniquesFromKeeps(xs[1..], seen + [xs[0]]);
    }
  }

  /** `record.GetStringSlice(field)`. */
  function GetStringSlice(r: Record, field: string): seq<string> {
    if field in r.fields && r.fields[field].Texts? then NonzeroUniques(r.fields[field].items) else []
  }

  /** The position of the record with id `id`, or -1. */
  function IndexOfId(rs: seq<Record>, id: string): (i: int)
    ensures -1 <= i < |rs|
    ensures i == -1 <==> forall k :: 0 <= k < |rs| ==> rs[k].id != id
    ensures i >= 0 ==> rs[i].id == id
  {
    FindIndex(rs, (r: Record) => r.id == id)
  }

  /** `app.FindCollectionByNameOrId(name)`. */
  function FindCollection(st: Store, name: string): Option<Error> {
    if name in st.tables then None else Some(MissingCollection(name))
  }

  /** `app.FindRecordById(collection, id)`. */
  function FindRecordById(st: Store, f: Faults, coll: string, id: string): (r: Result<Record, Error>)
    ensures r.Ok? ==> coll in st.tables && r.value in st.tables[coll] && r.value.id == id
    ensures r == Err(NoRows) <==>
              coll in st.tables && !f.Fails(Lookup, coll, id) &&
              forall k :: 0 <= k < |st.tables[coll]| ==> st.tables[coll][k].id != id
  {
    if coll !in st.tables then Err(MissingCollection(coll))
    else if f.Fails(Lookup, coll, id) then Err(Fault(Lookup, coll))
    else
      var i := IndexOfId(st.tables[coll], id);
      if i < 0 then Err(NoRows) else Ok(st.tables[coll][i])
  }

  /** `app.FindFirstRecordByData(collection, field, value)`: the first record whose text field equals `value`. */
  function FindFirstByData(st: Store, f: Faults, coll: string, field: string, value: string): (r: Result<Record, Error>)
    ensures r.Ok? ==> coll in st.tables && r.value in st.tables[coll] && GetString(r.value, field) == value
    ensures r == Err(NoRows) <==>
              coll in st.tables && !f.Fails(Lookup, coll, value) &&
              forall k :: 0 <= k < |st.tables[coll]| ==> GetString(st.tables[coll][k], field) != value
  {
    if coll !in st.tables then Err(MissingCollection(coll))
    else if f.Fails(Lookup, coll, value) then Err(Fault(Lookup, coll))
    else
      var i := FindIndex(st.tables[coll], (r: Record) => GetString(r, field) == value);
      if i < 0 then Err(NoRows) else Ok(st.tables[coll][i])
  }

  /** `app.FindAllRecords(collection)`, in insertion order. */
  function FindAll(st: Store, coll: string): Result<seq<Record>, Error> {
    if coll in st.tables then Ok(st.tables[coll]) else Err(MissingCollection(coll))
  }

  /** The directory of a record's files, `record.BaseFilesPath()`. */
  function BaseFilesPath(coll: string, id: string): string {
    coll + "/" + id
  }

  /** The field that holds a collection's single uploaded file. */
  function FileField(coll: string): string {
    if coll == Collections.DB_DUMPS then "dump" else "icon"
  }

  /** Fields whose validator rejects an empty value. */
  function RequiredFields(coll: string): seq<string> {
    if coll == Collections.APP_SETTINGS then ["key", "value"]
    else if coll == Collections.DB_DUMPS then ["hash", "dump"]
    else []
  }

  /** Fields with a unique index. */
  function UniqueFields(coll: string): seq<string> {
    if coll == Collections.APP_SETTINGS then ["key"]
    else if coll == Collections.DB_DUMPS then ["hash"]
    else []
  }

  predicate Blank(r: Record, field: string) {
    field !in r.fields || r.fields[field] == Text("") || r.fields[field] == Texts([])
  }

  /** The first required field left blank, if any. */
  function MissingRequired(coll: string, r: Record): Option<string> {
    var i := FindIndex(RequiredFields(coll), (fd: string) => Blank(r, fd));
    if i < 0 then None else Some(RequiredFields(coll)[i])
  }

  /** Another record of the table holds the same text in `field`. */
  predicate Clashes(rs: seq<Record>, r: Record, field: string) {
    exists k :: 0 <= k < |rs| && rs[k].id != r.id && GetString(rs[k], field) == GetString(r, field)
  }

  /** The first unique field whose value another record already holds, if any. */
  function UniqueClash(rs: seq<Record>, coll: string, r: Record): Option<string> {
    var i := FindIndex(UniqueFields(coll), (fd: string) => Clashes(rs, r, fd));
    if i < 0 then None else Some(UniqueFields(coll)[i])
  }

  /** The record as stored: its uploaded file is replaced by the file's name. */
  function Persisted(coll: string, r: Record): Record {
    var ff := FileField(coll);
    if ff in r.fields && r.fields[ff].Upload? then Record(r.id, r.fields[ff := Text(r.fields[ff].name)])
    else r
  }

  /** Storing a record rewrites only its file field. */
  lemma PersistedKeeps(coll: string, r: Record, field: string)
    requires field != FileField(coll)
    ensures Persisted(coll, r).id == r.id
    ensures GetString(Persisted(coll, r), field) == GetString(r, field)
  {
  }

  /** The file storage after the save writes the record's upload, if it has one. */
  function WithUpload(files: map<string, seq<byte>>, coll: string, r: Record): map<string, seq<byte>> {
    var ff := FileField(coll);
    if ff in r.fields && r.fields[ff].Upload? then
      files[BaseFilesPath(coll, r.id) + "/" + r.fields[ff].name := r.fields[ff].content]
    else files
  }

  /** The record replaces the one with its id, or is appended. */
  function Upsert(rs: seq<Record>, r: Record): (res: seq<Record>)
    ensures UniqueIds(rs) ==> UniqueIds(res)
    ensures r in res
    ensures forall k :: 0 <= k < |rs| && rs[k].id != r.id ==> rs[k] in res
    ensures UniqueIds(rs) ==> forall k :: 0 <= k < |res| ==> res[k] == r || (res[k] in rs && res[k].id != r.id)
  {
    var i := IndexOfId(rs, r.id);
    if i >= 0 then
      var res := rs[i := r];
      assert res[i] == r;
      assert forall k :: 0 <= k < |rs| && k != i ==> res[k] == rs[k];
      res
    else
      var res := rs + [r];
      assert res[|rs|] == r;
      assert forall k :: 0 <= k < |rs| ==> res[k] == rs[k];
      res
  }

  /** A record saved under an id the collection does not hold yet is appended, as stored. */
  lemma SaveFreshAppends(st: Store, f: Faults, coll: string, r: Record)
    requires SaveRecord(st, f, coll, r).Ok? && coll in st.tables && IndexOfId(st.tables[coll], r.id) < 0
    ensures coll in SaveRecord(st, f, coll, r).value.tables
    ensures SaveRecord(st, f, coll, r).value.tables[coll] == st.tables[coll] + [Persisted(coll, r)]
  {
    assert Persisted(coll, r).id == r.id;
  }

  /** `app.Save(record)`: validation, then the record and its upload are written. */
  function SaveRecord(st: Store, f: Faults, coll: string, r: Record): (res: Result<Store, Error>)
    ensures Valid(st) && res.Ok? ==> Valid(res.value)
    ensures res.Ok? ==> coll in st.tables && res.value.tables.Keys == st.tables.Keys
    ensures res.Ok? ==> Persisted(coll, r) in res.value.tables[coll]
    ensures res.Ok? ==> forall c :: c in st.tables && c != coll ==> res.value.tables[c] == st.tables[c]
    ensures res.Ok? ==> forall k :: 0 <= k < |st.tables[coll]| && st.tables[coll][k].id != r.id ==>
                          st.tables[coll][k] in res.value.tables[coll]
    ensures coll !in st.tables ==> res == Err(MissingCollection(coll))
    ensures res.Ok? ==> MissingRequired(coll, r).None? && UniqueClash(st.tables[coll], coll, r).None? &&
                        res.value.tables[coll] == Upsert(st.tables[coll], Persisted(coll, r))
  {
    if coll !in st.tables then Err(MissingCollection(coll))
    else if f.Fails(Save, coll, r.id) then Err(Fault(Save, coll))
    else if MissingRequired(coll, r).Some? then Err(Invalid(MissingRequired(coll, r).value))
    else if UniqueClash(st.tables[coll], coll, r).Some? then Err(Invalid(UniqueClash(st.tables[coll], coll, r).value))
    else
      var st' := Store(st.tables[coll := Upsert(st.tables[coll], Persisted(coll, r))], WithUpload(st.files, coll, r));
      assert Valid(st) ==> Valid(st') by {
        if Valid(st) {
          forall c | c in st'.tables ensures UniqueIds(st'.tables[c]) {
            if c != coll { assert st'.tables[c] == st.tables[c]; }
          }
        }
      }
      Ok(st')
  }

  /** The application: the record store and the environment's failures. */
  class App {
    var store: Store
    const faults: Faults

    constructor(store: Store, faults: Faults)
      ensures this.store == store && this.faults == faults
    {
      this.store := store;
      this.faults := faults;
    }

    /** `app.Save(record)` on the live store. */
    method Save(coll: string, r: Record) returns (err: Option<Error>)
      modifies this
      ensures SaveRecord(old(store), faults, coll, r).Ok? ==>
                err == None && store == SaveRecord(old(store), faults, coll, r).value
      ensures SaveRecord(old(store), faults, coll, r).Err? ==>
                err == Some(SaveRecord(old(store), faults, coll, r).error) && store == old(store)
    {
      var res := SaveRecord(store, faults, coll, r);
      if res.Ok? {
        store := res.value;
        err := None;
      } else {
        err := Some(res.error);
      }
    }
  }
}
