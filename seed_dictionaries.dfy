/**
 * The seed and dump commands (internals/seed/dictionaries.go): hashing a dump
 * file, loading the nine dictionary collections from a dump file inside one
 * transaction and recording the dump's hash as the dictionary version, and
 * writing the collections back out to a dump file that is then recorded in
 * the `_dbDumps` collection.
 *
 * The host file system is a map from paths to bytes. The SQLite file format
 * is not modelled: `decode` gives the tables a dump file holds and `encode`
 * the bytes a set of tables is written as; SHA-256 is the parameter `sha`.
 */
module SeedDictionaries {
  import opened Wrappers
  import opened Lists
  import opened RecordStore
  import opened DumpDatabase
  import opened HexDigest
  import opened SeedModels
  import opened SeedCollections
  import AppSettings
  import C = Collections

  type Disk = map<string, seq<byte>>

  /** The key under which the hash of the last seeded dump is kept. */
  const DICTIONARY_VERSION := "dictionaryVersion"

  /** The place whose `Connect` failure stands for `app.NewFilesystem` failing. */
  const FILESYSTEM := "storage"

  /** The order in which `Seed` loads, and `Dump` writes, the dictionary collections. */
  const SEED_ORDER: seq<Kind> :=
    [Special, Element, CharacterRole, ArtifactSet, ArtifactType, DomainOfBlessing, WeaponType, Weapon, Character]

  /** Where a kind comes in the order. */
  function OrderIndex(k: Kind): (i: nat)
    ensures i < |SEED_ORDER| && SEED_ORDER[i] == k
  {
    match k
    case Special => 0
    case Element => 1
    case CharacterRole => 2
    case ArtifactSet => 3
    case ArtifactType => 4
    case DomainOfBlessing => 5
    case WeaponType => 6
    case Weapon => 7
    case Character => 8
  }

  /** Every kind comes exactly once in the order. */
  lemma SeedOrderDistinct()
    ensures Distinct(SEED_ORDER)
  {
  }

  // ---- Hashing ----

  /** `GetSeedHash`: the file's bytes through SHA-256, printed as lowercase hexadecimal. */
  function GetSeedHash(disk: Disk, f: Faults, sha: seq<byte> -> Digest, path: string): (r: Result<string, Error>)
    ensures r.Ok? <==> path in disk && !f.Fails(Copy, path, "")
    ensures path !in disk ==> r == Err(MissingFile(path))
    ensures r.Ok? ==> |r.value| == 64 && forall i :: 0 <= i < |r.value| ==> IsHexDigit(r.value[i])
    ensures r.Ok? ==> UnHex(r.value) == Some(sha(disk[path]))
  {
    if path !in disk then Err(MissingFile(path))
    else if f.Fails(Copy, path, "") then Err(Fault(Copy, path))
    else
      UnHexHex(sha(disk[path]));
      Ok(Hex(sha(disk[path])))
  }

  /** Equal hashes come from files whose digests are equal. */
  lemma SameHashSameDigest(disk: Disk, f: Faults, sha: seq<byte> -> Digest, p: string, q: string)
    requires GetSeedHash(disk, f, sha, p).Ok? && GetSeedHash(disk, f, sha, q).Ok?
    requires GetSeedHash(disk, f, sha, p) == GetSeedHash(disk, f, sha, q)
    ensures sha(disk[p]) == sha(disk[q])
  {
    HexInjective(sha(disk[p]), sha(disk[q]));
  }

  /** The bytes of a string of 8-bit characters, as `WriteString` writes them. */
  function AsciiBytes(s: string): (bs: seq<byte>)
    requires forall i :: 0 <= i < |s| ==> s[i] as int < 256
    ensures |bs| == |s|
    ensures forall i :: 0 <= i < |s| ==> bs[i] == s[i] as int
  {
    if s == [] then [] else [s[0] as int] + AsciiBytes(s[1..])
  }

  /**
   * Bytes read one character per byte, each character with the byte's code.
   * For ASCII bytes, such as the hex text of a hash file, this agrees with
   * Go's `string(bytes)`; a byte of 128 or more gives one character here,
   * where Go keeps the bytes, whose text is their UTF-8.
   */
  function AsciiString(bs: seq<byte>): (s: string)
    ensures |s| == |bs|
    ensures forall i :: 0 <= i < |bs| ==> s[i] as int == bs[i]
  {
    if bs == [] then "" else [bs[0] as char] + AsciiString(bs[1..])
  }

  /** Reading back what was written gives the string again. */
  lemma AsciiRoundTrip(s: string)
    requires forall i :: 0 <= i < |s| ==> s[i] as int < 256
    ensures AsciiString(AsciiBytes(s)) == s
  {
    var t := AsciiString(AsciiBytes(s));
    assert forall i :: 0 <= i < |s| ==> t[i] == s[i];
  }

  /** What the `hash` command leaves behind: its standard output, the disk, and its error. */
  datatype HashRun = HashRun(stdout: string, disk: Disk, err: Option<Error>)

  /**
   * The `hash seed_file [dest_file]` command: the hash is printed and, when a
   * destination is named, written to it. Creating the destination truncates
   * it, so a failed write leaves it empty.
   */
  function HashCommand(disk: Disk, f: Faults, sha: seq<byte> -> Digest, args: seq<string>): (r: HashRun)
    requires |args| >= 1
    ensures GetSeedHash(disk, f, sha, args[0]).Err? ==>
              r == HashRun("", disk, Some(GetSeedHash(disk, f, sha, args[0]).error))
    ensures GetSeedHash(disk, f, sha, args[0]).Ok? ==> r.stdout == GetSeedHash(disk, f, sha, args[0]).value + "\n"
    ensures |args| == 1 ==> r.disk == disk
    ensures r.err == None && |args| > 1 ==>
              r.disk == disk[args[1] := AsciiBytes(GetSeedHash(disk, f, sha, args[0]).value)]
  {
    match GetSeedHash(disk, f, sha, args[0])
    case Err(e) => HashRun("", disk, Some(e))
    case Ok(hash) =>
      var out := hash + "\n";
      if |args| <= 1 then HashRun(out, disk, None)
      else if f.Fails(CreateFile, args[1], "") then HashRun(out, disk, Some(Fault(CreateFile, args[1])))
      else if f.Fails(Write, args[1], "") then HashRun(out, disk[args[1] := []], Some(Fault(Write, args[1])))
      else HashRun(out, disk[args[1] := AsciiBytes(hash)], None)
  }

  /**
   * A hash file written by the command reads back as the hash of the dump,
   * which is what the start-up check compares with the dictionary version.
   */
  lemma HashFileHoldsHash(disk: Disk, f: Faults, sha: seq<byte> -> Digest, args: seq<string>)
    requires |args| > 1
    requires HashCommand(disk, f, sha, args).err == None
    ensures args[1] in HashCommand(disk, f, sha, args).disk
    ensures AsciiString(HashCommand(disk, f, sha, args).disk[args[1]]) == Hex(sha(disk[args[0]]))
  {
    var hash := GetSeedHash(disk, f, sha, args[0]).value;
    assert forall i :: 0 <= i < |hash| ==> hash[i] as int < 256 by {
      assert forall i :: 0 <= i < |hash| ==> IsHexDigit(hash[i]);
    }
    AsciiRoundTrip(hash);
  }

  // ---- The dictionary version ----

  /** `UpdateDictionaryVersion`: the dump's hash upserted under `dictionaryVersion`. */
  function VersionUpdate(st: Store, f: Faults, disk: Disk, sha: seq<byte> -> Digest, path: string, freshId: string)
    : (r: Result<Store, Error>)
    ensures GetSeedHash(disk, f, sha, path).Err? ==> r == Err(GetSeedHash(disk, f, sha, path).error)
    ensures GetSeedHash(disk, f, sha, path).Ok? ==>
              r == AppSettings.Upsert(st, f, freshId, DICTIONARY_VERSION, Hex(sha(disk[path])))
  {
    match GetSeedHash(disk, f, sha, path)
    case Err(e) => Err(e)
    case Ok(hash) => AppSettings.Upsert(st, f, freshId, DICTIONARY_VERSION, hash)
  }

  method UpdateDictionaryVersion(app: App, disk: Disk, sha: seq<byte> -> Digest, path: string, freshId: string)
    returns (err: Option<Error>)
    modifies app
    ensures VersionUpdate(old(app.store), app.faults, disk, sha, path, freshId).Ok? ==>
              err == None && app.store == VersionUpdate(old(app.store), app.faults, disk, sha, path, freshId).value
    ensures VersionUpdate(old(app.store), app.faults, disk, sha, path, freshId).Err? ==>
              err == Some(VersionUpdate(old(app.store), app.faults, disk, sha, path, freshId).error) &&
              app.store == old(app.store)
  {
    var hash := GetSeedHash(disk, app.faults, sha, path);
    if hash.Err? {
      return Some(hash.error);
    }
    var setting;
    setting, err := AppSettings.UpsertAppSettings(app, freshId, DICTIONARY_VERSION, hash.value);
  }

  // ---- Seeding ----

  /** The tables of the dump file at `path`; SQLite creates an empty database when there is no file. */
  function DbFile(disk: Disk, decode: seq<byte> -> map<string, Table>, path: string): map<string, Table> {
    if path in disk then decode(disk[path]) else map[]
  }

  /** The kinds seeded in order; the first failure stops the run, keeping the saves before it. */
  function SeedKinds(st: Store, f: Faults, tables: map<string, Table>, ks: seq<Kind>): Outcome
    decreases |ks|
  {
    if ks == [] then Outcome(st, None)
    else
      var o := SeedTable(st, f, tables, ks[0]);
      if o.err.Some? then o else SeedKinds(o.store, f, tables, ks[1..])
  }

  /**
   * `Seed`: connect to the dump file, then, in one transaction, seed every
   * kind in order and record the version. Any failure rolls the store back.
   */
  function SeedRun(st: Store, f: Faults, disk: Disk, decode: seq<byte> -> map<string, Table>,
                   sha: seq<byte> -> Digest, path: string, freshId: string): (r: Result<Store, Error>)
    ensures f.Fails(Connect, path, "") ==> r == Err(Fault(Connect, path))
    ensures r.Ok? ==> SeedKinds(st, f, DbFile(disk, decode, path), SEED_ORDER).err == None
  {
    if f.Fails(Connect, path, "") then Err(Fault(Connect, path))
    else
      var o := SeedKinds(st, f, DbFile(disk, decode, path), SEED_ORDER);
      if o.err.Some? then Err(o.err.value)
      else VersionUpdate(o.store, f, disk, sha, path, freshId)
  }

  /**
   * The nine `seedCollection` calls of `Seed`'s transaction, in order, each
   * returning early on failure; the repeated calls are written as one loop
   * over the order.
   */
  method SeedKindsInOrder(app: App, db: DumpDb) returns (err: Option<Error>)
    modifies app
    ensures SeedKinds(old(app.store), app.faults, db.tables, SEED_ORDER) == Outcome(app.store, err)
  {
    ghost var st0 := app.store;
    var i := 0;
    while i < |SEED_ORDER|
      invariant 0 <= i <= |SEED_ORDER|
      invariant SeedKinds(st0, app.faults, db.tables, SEED_ORDER) == SeedKinds(app.store, app.faults, db.tables, SEED_ORDER[i..])
    {
      ghost var rest := SEED_ORDER[i..];
      assert rest[0] == SEED_ORDER[i] && rest[1..] == SEED_ORDER[i + 1..];
      err := SeedCollection(app, db, SEED_ORDER[i]);
      if err.Some? {
        return;
      }
      i := i + 1;
    }
    assert SEED_ORDER[i..] == [];
    err := None;
  }

  /** `Seed`'s `RunInTransaction`: the kinds, then the version; a failure restores the store. */
  method SeedTransaction(app: App, db: DumpDb, disk: Disk, sha: seq<byte> -> Digest, path: string, freshId: string)
    returns (err: Option<Error>)
    modifies app
    ensures var o := SeedKinds(old(app.store), app.faults, db.tables, SEED_ORDER);
            o.err.Some? ==> err == o.err && app.store == old(app.store)
    ensures var o := SeedKinds(old(app.store), app.faults, db.tables, SEED_ORDER);
            o.err.None? && VersionUpdate(o.store, app.faults, disk, sha, path, freshId).Err? ==>
              err == Some(VersionUpdate(o.store, app.faults, disk, sha, path, freshId).error) && app.store == old(app.store)
    ensures var o := SeedKinds(old(app.store), app.faults, db.tables, SEED_ORDER);
            o.err.None? && VersionUpdate(o.store, app.faults, disk, sha, path, freshId).Ok? ==>
              err == None && app.store == VersionUpdate(o.store, app.faults, disk, sha, path, freshId).value
  {
    var snapshot := app.store;
    err := SeedKindsInOrder(app, db);
    if err.Some? {
      app.store := snapshot;
      return;
    }
    err := UpdateDictionaryVersion(app, disk, sha, path, freshId);
    if err.Some? {
      app.store := snapshot;
    }
  }

  method Seed(app: App, disk: Disk, decode: seq<byte> -> map<string, Table>, sha: seq<byte> -> Digest,
              path: string, freshId: string) returns (err: Option<Error>, db: DumpDb?)
    modifies app
    ensures SeedRun(old(app.store), app.faults, disk, decode, sha, path, freshId).Ok? ==>
              err == None && app.store == SeedRun(old(app.store), app.faults, disk, decode, sha, path, freshId).value
    ensures SeedRun(old(app.store), app.faults, disk, decode, sha, path, freshId).Err? ==>
              err == Some(SeedRun(old(app.store), app.faults, disk, decode, sha, path, freshId).error) &&
              app.store == old(app.store)
    ensures db == null <==> app.faults.Fails(Connect, path, "")
    ensures db != null ==> fresh(db) && !db.open
  {
    if app.faults.Fails(Connect, path, "") {
      return Some(Fault(Connect, path)), null;
    }
    db := new DumpDb(DbFile(disk, decode, path), app.faults);
    err := SeedTransaction(app, db, disk, sha, path, freshId);
    db.Close();
  }

  // ---- Properties of seeding ----

  /** Seeding the kinds keeps record ids unique in every collection. */
  lemma {:induction false} SeedKindsValid(st: Store, f: Faults, tables: map<string, Table>, ks: seq<Kind>)
    requires Valid(st)
    ensures Valid(SeedKinds(st, f, tables, ks).store)
    decreases |ks|
  {
    if ks != [] {
      var k := ks[0];
      if TableName(k) in tables && ScanAll(k, tables[TableName(k)].rows).Ok? {
        SeedAllValid(st, f, k, ScanAll(k, tables[TableName(k)].rows).value);
      }
      SeedKindsValid(SeedTable(st, f, tables, k).store, f, tables, ks[1..]);
    }
  }

  /**
   * After a successful seed the dictionary version is the hash of the dump
   * file that was seeded.
   */
  lemma SeedSetsVersion(st: Store, f: Faults, disk: Disk, decode: seq<byte> -> map<string, Table>,
                        sha: seq<byte> -> Digest, path: string, freshId: string)
    requires Valid(st)
    requires SeedRun(st, f, disk, decode, sha, path, freshId).Ok?
    requires !f.Fails(Lookup, C.APP_SETTINGS, DICTIONARY_VERSION)
    ensures path in disk
    ensures var st' := SeedRun(st, f, disk, decode, sha, path, freshId).value;
            AppSettings.FindByKey(st', f, DICTIONARY_VERSION).Ok? &&
            GetString(AppSettings.FindByKey(st', f, DICTIONARY_VERSION).value, "value") == Hex(sha(disk[path]))
  {
    var o := SeedKinds(st, f, DbFile(disk, decode, path), SEED_ORDER);
    SeedKindsValid(st, f, DbFile(disk, decode, path), SEED_ORDER);
    AppSettings.UpsertThenFind(o.store, f, freshId, DICTIONARY_VERSION, Hex(sha(disk[path])));
  }

  // ---- Recording a dump ----

  /** The path with trailing slashes removed. */
  function TrimSlashes(p: string): (q: string)
    ensures |q| <= |p| && q == p[..|q|]
    ensures q != [] ==> q[|q| - 1] != '/'
  {
    if p != [] && p[|p| - 1] == '/' then TrimSlashes(p[..|p| - 1]) else p
  }

  /** The part of a path after its last slash. */
  function LastElement(p: string): (e: string)
    ensures '/' !in e
    ensures |e| <= |p| && e == p[|p| - |e|..]
  {
    if p == [] then []
    else if p[|p| - 1] == '/' then []
    else LastElement(p[..|p| - 1]) + [p[|p| - 1]]
  }

  /** `filepath.Base`: the last element of the path, `.` for an empty path and `/` for one made of slashes. */
  function BaseName(p: string): (b: string)
    ensures b != []
    ensures b == "/" || '/' !in b
  {
    if p == [] then "."
    else if TrimSlashes(p) == [] then "/"
    else LastElement(TrimSlashes(p))
  }

  /** `filesystem.NewFileFromPath`: the file read from the disk and named after the path's last element. */
  function NewFileFromPath(disk: Disk, f: Faults, path: string): (r: Result<Value, Error>)
    ensures r.Ok? <==> path in disk && !f.Fails(Read, path, "")
    ensures r.Ok? ==> r.value == Upload(BaseName(path), disk[path])
  {
    if path !in disk then Err(MissingFile(path))
    else if f.Fails(Read, path, "") then Err(Fault(Read, path))
    else Ok(Upload(BaseName(path), disk[path]))
  }

  /** The `_dbDumps` record `SaveDump` builds. */
  function DumpRecord(freshId: string, hash: string, file: Value, notes: string): Record {
    Record(freshId, map["hash" := Text(hash), "dump" := file, "notes" := Text(notes)])
  }

  /** `SaveDump`: a new `_dbDumps` record with the dump's hash, the dump file and the notes. */
  function SaveDump(st: Store, f: Faults, disk: Disk, sha: seq<byte> -> Digest, path: string, notes: string, freshId: string)
    : Result<Store, Error>
  {
    match GetSeedHash(disk, f, sha, path)
    case Err(e) => Err(e)
    case Ok(hash) =>
      if FindCollection(st, C.DB_DUMPS).Some? then Err(FindCollection(st, C.DB_DUMPS).value)
      else
        match NewFileFromPath(disk, f, path)
        case Err(e) => Err(e)
        case Ok(file) => SaveRecord(st, f, C.DB_DUMPS, DumpRecord(freshId, hash, file, notes))
  }

  /** The dumps collection exists and holds no record under `dumpId`. */
  predicate FreshDumpId(st: Store, dumpId: string) {
    C.DB_DUMPS in st.tables && forall k :: 0 <= k < |st.tables[C.DB_DUMPS]| ==> st.tables[C.DB_DUMPS][k].id != dumpId
  }

  /** A dump saved under a fresh id is appended to the dumps collection, carrying the dump file's digest. */
  lemma SaveDumpAppends(st: Store, f: Faults, disk: Disk, sha: seq<byte> -> Digest, path: string, notes: string,
                        dumpId: string) returns (p: Record)
    requires SaveDump(st, f, disk, sha, path, notes, dumpId).Ok? && FreshDumpId(st, dumpId)
    ensures path in disk && GetString(p, "hash") == Hex(sha(disk[path])) && GetString(p, "notes") == notes
    ensures var st1 := SaveDump(st, f, disk, sha, path, notes, dumpId).value;
            C.DB_DUMPS in st1.tables && st1.tables[C.DB_DUMPS] == st.tables[C.DB_DUMPS] + [p]
  {
    var rec := SaveDumpSaves(st, f, disk, sha, path, notes, dumpId);
    SaveFreshAppends(st, f, C.DB_DUMPS, rec);
    p := Persisted(C.DB_DUMPS, rec);
    PersistedKeeps(C.DB_DUMPS, rec, "hash");
    PersistedKeeps(C.DB_DUMPS, rec, "notes");
  }

  /** A successful `SaveDump` is the save of the dump record built from the file and its digest. */
  lemma SaveDumpSaves(st: Store, f: Faults, disk: Disk, sha: seq<byte> -> Digest, path: string, notes: string,
                      dumpId: string) returns (rec: Record)
    requires SaveDump(st, f, disk, sha, path, notes, dumpId).Ok?
    ensures path in disk && rec == DumpRecord(dumpId, Hex(sha(disk[path])), Upload(BaseName(path), disk[path]), notes)
    ensures SaveDump(st, f, disk, sha, path, notes, dumpId) == SaveRecord(st, f, C.DB_DUMPS, rec)
  {
    rec := DumpRecord(dumpId, GetSeedHash(disk, f, sha, path).value, NewFileFromPath(disk, f, path).value, notes);
  }

  method SaveDumpRecord(app: App, disk: Disk, sha: seq<byte> -> Digest, path: string, notes: string, freshId: string)
    returns (err: Option<Error>)
    modifies app
    ensures SaveDump(old(app.store), app.faults, disk, sha, path, notes, freshId).Ok? ==>
              err == None && app.store == SaveDump(old(app.store), app.faults, disk, sha, path, notes, freshId).value
    ensures SaveDump(old(app.store), app.faults, disk, sha, path, notes, freshId).Err? ==>
              err == Some(SaveDump(old(app.store), app.faults, disk, sha, path, notes, freshId).error) &&
              app.store == old(app.store)
  {
    var hash := GetSeedHash(disk, app.faults, sha, path);
    if hash.Err? {
      return Some(hash.error);
    }
    var missing := FindCollection(app.store, C.DB_DUMPS);
    if missing.Some? {
      return missing;
    }
    var file := NewFileFromPath(disk, app.faults, path);
    if file.Err? {
      return Some(file.error);
    }
    err := app.Save(C.DB_DUMPS, DumpRecord(freshId, hash.value, file.value, notes));
  }

  /**
   * A recorded dump holds the file's hash, the file's name and the notes, and
   * the file itself is copied into the record's directory of the storage.
   */
  lemma SaveDumpRecords(st: Store, f: Faults, disk: Disk, sha: seq<byte> -> Digest, path: string, notes: string, freshId: string)
    requires SaveDump(st, f, disk, sha, path, notes, freshId).Ok?
    ensures path in disk
    ensures var st' := SaveDump(st, f, disk, sha, path, notes, freshId).value;
            C.DB_DUMPS in st'.tables &&
            Record(freshId, map["hash" := Text(Hex(sha(disk[path]))), "dump" := Text(BaseName(path)), "notes" := Text(notes)])
              in st'.tables[C.DB_DUMPS]
    ensures var st' := SaveDump(st, f, disk, sha, path, notes, freshId).value;
            st'.files == st.files[BaseFilesPath(C.DB_DUMPS, freshId) + "/" + BaseName(path) := disk[path]]
  {
    var r := DumpRecord(freshId, Hex(sha(disk[path])), Upload(BaseName(path), disk[path]), notes);
    assert GetSeedHash(disk, f, sha, path) == Ok(Hex(sha(disk[path])));
    assert NewFileFromPath(disk, f, path) == Ok(Upload(BaseName(path), disk[path]));
    var res := SaveRecord(st, f, C.DB_DUMPS, r);
    assert SaveDump(st, f, disk, sha, path, notes, freshId) == res;
    DumpRecordPersisted(freshId, Hex(sha(disk[path])), BaseName(path), disk[path], notes);
  }

  /** The stored form of a dump record keeps the dump file's name, and its upload lands under the record's id. */
  lemma DumpRecordPersisted(freshId: string, hash: string, name: string, content: seq<byte>, notes: string)
    ensures var r := DumpRecord(freshId, hash, Upload(name, content), notes);
            Persisted(C.DB_DUMPS, r) == Record(freshId, map["hash" := Text(hash), "dump" := Text(name), "notes" := Text(notes)])
    ensures forall files: map<string, seq<byte>> {:trigger WithUpload(files, C.DB_DUMPS, DumpRecord(freshId, hash, Upload(name, content), notes))} ::
              WithUpload(files, C.DB_DUMPS, DumpRecord(freshId, hash, Upload(name, content), notes)) ==
              files[BaseFilesPath(C.DB_DUMPS, freshId) + "/" + name := content]
  {
    var r := DumpRecord(freshId, hash, Upload(name, content), notes);
    assert FileField(C.DB_DUMPS) == "dump";
    assert r.fields["dump" := Text(name)] == map["hash" := Text(hash), "dump" := Text(name), "notes" := Text(notes)];
  }

  /**
   * A dump whose hash is already recorded under another id is refused by the
   * unique index on `hash`.
   */
  lemma SaveDumpSameHash(st: Store, f: Faults, disk: Disk, sha: seq<byte> -> Digest, path: string, notes: string,
                         freshId: string, j: int)
    requires C.DB_DUMPS in st.tables && 0 <= j < |st.tables[C.DB_DUMPS]|
    requires path in disk && !f.Fails(Copy, path, "") && !f.Fails(Read, path, "") && !f.Fails(Save, C.DB_DUMPS, freshId)
    requires st.tables[C.DB_DUMPS][j].id != freshId
    requires GetString(st.tables[C.DB_DUMPS][j], "hash") == Hex(sha(disk[path]))
    ensures SaveDump(st, f, disk, sha, path, notes, freshId) == Err(Invalid("hash"))
  {
    var r := DumpRecord(freshId, Hex(sha(disk[path])), Upload(BaseName(path), disk[path]), notes);
    assert GetString(r, "hash") == Hex(sha(disk[path]));
    assert Clashes(st.tables[C.DB_DUMPS], r, "hash");
    assert MissingRequired(C.DB_DUMPS, r) == None by {
      assert Hex(sha(disk[path])) != "";
    }
  }

  // ---- Dumping ----

  /** One kind's table created afresh and filled with the kind's records. */
  function DumpKindStep(tables: map<string, Table>, st: Store, f: Faults, k: Kind): Result<map<string, Table>, Error> {
    match CreateFresh(tables, f, k)
    case Err(e) => Err(e)
    case Ok(created) =>
      var o := DumpTable(st, f, created, f, k);
      if o.err.Some? then Err(o.err.value) else Ok(o.tables)
  }

  /** The kinds dumped in order; the first failure ends the run. */
  function DumpKinds(tables: map<string, Table>, st: Store, f: Faults, ks: seq<Kind>): Result<map<string, Table>, Error>
    decreases |ks|
  {
    if ks == [] then Ok(tables)
    else
      match DumpKindStep(tables, st, f, ks[0])
      case Err(e) => Err(e)
      case Ok(t) => DumpKinds(t, st, f, ks[1..])
  }

  /** What `Dump` leaves behind: the disk, the store and the error it returns. */
  datatype Effect = Effect(disk: Disk, store: Store, err: Option<Error>)

  /**
   * `Dump`: with the file storage and a connection to the dump file, every
   * kind's table is recreated and filled in one transaction; only when that
   * commits is the dump file written, closed and recorded with `SaveDump`.
   */
  function DumpRun(st: Store, f: Faults, disk: Disk, decode: seq<byte> -> map<string, Table>,
                   encode: map<string, Table> -> seq<byte>, sha: seq<byte> -> Digest,
                   path: string, notes: string, freshId: string): Effect
  {
    if f.Fails(Connect, FILESYSTEM, "") then Effect(disk, st, Some(Fault(Connect, FILESYSTEM)))
    else if f.Fails(Connect, path, "") then Effect(disk, st, Some(Fault(Connect, path)))
    else
      match DumpKinds(DbFile(disk, decode, path), st, f, SEED_ORDER)
      case Err(e) => Effect(disk, st, Some(e))
      case Ok(tables) => Commit(st, f, disk, encode, sha, path, notes, freshId, tables)
  }

  /** After the transaction commits: the dump file holds the tables, and is recorded with `SaveDump`. */
  function Commit(st: Store, f: Faults, disk: Disk, encode: map<string, Table> -> seq<byte>, sha: seq<byte> -> Digest,
                  path: string, notes: string, freshId: string, tables: map<string, Table>): (e: Effect)
    ensures e.disk == disk[path := encode(tables)]
    ensures e.err == None <==> SaveDump(st, f, e.disk, sha, path, notes, freshId).Ok?
    ensures e.err == None ==> SaveDump(st, f, e.disk, sha, path, notes, freshId) == Ok(e.store)
    ensures e.err != None ==> e.store == st
  {
    var disk' := disk[path := encode(tables)];
    match SaveDump(st, f, disk', sha, path, notes, freshId)
    case Err(e) => Effect(disk', st, Some(e))
    case Ok(st') => Effect(disk', st', None)
  }

  /** A `create*Table` call followed by its `dumpCollection` call. */
  method DumpKind(app: App, db: DumpDb, k: Kind) returns (err: Option<Error>)
    requires db.faults == app.faults
    modifies db
    ensures err.Some? ==> DumpKindStep(old(db.tables), app.store, app.faults, k) == Err(err.value)
    ensures err.None? ==> DumpKindStep(old(db.tables), app.store, app.faults, k) == Ok(db.tables)
    ensures db.open == old(db.open)
  {
    err := SeedModels.CreateTable(db, k);
    if err.Some? {
      return;
    }
    err := DumpCollection(app, db, k);
  }

  /**
   * The nine `create*Table` and `dumpCollection` pairs of `Dump`'s
   * transaction, in order, each returning early on failure; the repeated
   * pairs are written as one loop over the order.
   */
  method DumpKindsInOrder(app: App, db: DumpDb) returns (err: Option<Error>)
    requires db.faults == app.faults
    modifies db
    ensures err.Some? ==> DumpKinds(old(db.tables), app.store, app.faults, SEED_ORDER) == Err(err.value)
    ensures err.None? ==> DumpKinds(old(db.tables), app.store, app.faults, SEED_ORDER) == Ok(db.tables)
    ensures db.open == old(db.open)
  {
    ghost var t0 := db.tables;
    var i := 0;
    while i < |SEED_ORDER|
      invariant 0 <= i <= |SEED_ORDER|
      invariant DumpKinds(t0, app.store, app.faults, SEED_ORDER) == DumpKinds(db.tables, app.store, app.faults, SEED_ORDER[i..])
      invariant db.open == old(db.open)
    {
      ghost var rest := SEED_ORDER[i..];
      assert rest[0] == SEED_ORDER[i] && rest[1..] == SEED_ORDER[i + 1..];
      err := DumpKind(app, db, SEED_ORDER[i]);
      if err.Some? {
        return;
      }
      i := i + 1;
    }
    assert SEED_ORDER[i..] == [];
    err := None;
  }

  method Dump(app: App, disk: Disk, decode: seq<byte> -> map<string, Table>, encode: map<string, Table> -> seq<byte>,
              sha: seq<byte> -> Digest, path: string, notes: string, freshId: string)
    returns (err: Option<Error>, disk': Disk, db: DumpDb?)
    modifies app
    ensures DumpRun(old(app.store), app.faults, disk, decode, encode, sha, path, notes, freshId) == Effect(disk', app.store, err)
    ensures db == null <==> app.faults.Fails(Connect, FILESYSTEM, "") || app.faults.Fails(Connect, path, "")
    ensures db != null ==> fresh(db)
    ensures db != null && DumpKinds(DbFile(disk, decode, path), old(app.store), app.faults, SEED_ORDER).Err? ==>
              db.open && db.tables == DbFile(disk, decode, path)
    ensures db != null && DumpKinds(DbFile(disk, decode, path), old(app.store), app.faults, SEED_ORDER).Ok? ==> !db.open
  {
    disk' := disk;
    if app.faults.Fails(Connect, FILESYSTEM, "") {
      return Some(Fault(Connect, FILESYSTEM)), disk', null;
    }
    if app.faults.Fails(Connect, path, "") {
      return Some(Fault(Connect, path)), disk', null;
    }
    db := new DumpDb(DbFile(disk, decode, path), app.faults);
    var snapshot := db.tables;
    err := DumpKindsInOrder(app, db);
    if err.Some? {
      db.tables := snapshot;
      return;
    }
    db.Close();
    disk' := disk[path := encode(db.tables)];
    err := SaveDumpRecord(app, disk', sha, path, notes, freshId);
  }

  // ---- Properties of dumping ----

  /** The dump table of a kind holds one row per record of its collection, in order, with the kind's columns. */
  ghost predicate DumpedTable(t: Table, st: Store, k: Kind) {
    FindAll(st, TableName(k)).Ok? &&
    t.columns == RowColumns(k) &&
    |t.rows| == |FindAll(st, TableName(k)).value| &&
    forall i :: 0 <= i < |t.rows| ==>
      RowId(t.rows[i]) == FindAll(st, TableName(k)).value[i].id && t.rows[i].Keys == RowColumns(k)
  }

  /** A completed step fills its kind's table and leaves every other table as it was. */
  lemma DumpKindStepTables(tables: map<string, Table>, st: Store, f: Faults, k: Kind)
    requires DumpKindStep(tables, st, f, k).Ok?
    ensures var t := DumpKindStep(tables, st, f, k).value;
            t.Keys == tables.Keys + {TableName(k)} && DumpedTable(t[TableName(k)], st, k) &&
            forall n :: n in tables && n != TableName(k) ==> t[n] == tables[n]
  {
    var created := CreateFresh(tables, f, k).value;
    var rs := FindAll(st, TableName(k)).value;
    DumpAllAppends(created, st.files, f, f, k, rs);
    AppendedRows(created, st.files, f, f, k, rs);
    AppendedAll(created, st.files, f, f, k, rs);
    DumpAllOthers(created, st.files, f, f, k, rs);
    assert [] + Appended(created, st.files, f, f, k, rs) == Appended(created, st.files, f, f, k, rs);
  }

  /** The tables of kinds the run does not reach are left as they were. */
  lemma {:induction false} DumpKindsOthers(tables: map<string, Table>, st: Store, f: Faults, ks: seq<Kind>, n: string)
    requires DumpKinds(tables, st, f, ks).Ok?
    requires n in tables && forall i :: 0 <= i < |ks| ==> TableName(ks[i]) != n
    ensures n in DumpKinds(tables, st, f, ks).value && DumpKinds(tables, st, f, ks).value[n] == tables[n]
    decreases |ks|
  {
    if ks != [] {
      DumpKindStepTables(tables, st, f, ks[0]);
      DumpKindsOthers(DumpKindStep(tables, st, f, ks[0]).value, st, f, ks[1..], n);
    }
  }

  /** A completed run over distinct kinds leaves each kind's table holding exactly its collection's records. */
  lemma {:induction false} DumpKindsTables(tables: map<string, Table>, st: Store, f: Faults, ks: seq<Kind>)
    requires Distinct(ks)
    requires DumpKinds(tables, st, f, ks).Ok?
    ensures forall i :: 0 <= i < |ks| ==>
              TableName(ks[i]) in DumpKinds(tables, st, f, ks).value &&
              DumpedTable(DumpKinds(tables, st, f, ks).value[TableName(ks[i])], st, ks[i])
    decreases |ks|
  {
    if ks != [] {
      var t1 := DumpKindStep(tables, st, f, ks[0]).value;
      var out := DumpKinds(tables, st, f, ks).value;
      DumpKindStepTables(tables, st, f, ks[0]);
      assert Distinct(ks[1..]);
      DumpKindsTables(t1, st, f, ks[1..]);
      forall i | 1 <= i < |ks| ensures TableName(ks[i]) != TableName(ks[0]) {
        if TableName(ks[i]) == TableName(ks[0]) { TableNameInjective(ks[i], ks[0]); }
      }
      assert forall i :: 0 <= i < |ks[1..]| ==> TableName(ks[1..][i]) != TableName(ks[0]);
      DumpKindsOthers(t1, st, f, ks[1..], TableName(ks[0]));
      forall i | 1 <= i < |ks|
        ensures TableName(ks[i]) in out && DumpedTable(out[TableName(ks[i])], st, ks[i])
      {
        assert ks[i] == ks[1..][i - 1];
      }
    }
  }

  /** A completed run over the dictionary kinds leaves every kind's table holding exactly its collection's records. */
  lemma DumpKindsEveryKind(tables: map<string, Table>, st: Store, f: Faults)
    requires DumpKinds(tables, st, f, SEED_ORDER).Ok?
    ensures forall k :: TableName(k) in DumpKinds(tables, st, f, SEED_ORDER).value &&
                        DumpedTable(DumpKinds(tables, st, f, SEED_ORDER).value[TableName(k)], st, k)
  {
    SeedOrderDistinct();
    DumpKindsTables(tables, st, f, SEED_ORDER);
    forall k ensures TableName(k) in DumpKinds(tables, st, f, SEED_ORDER).value &&
                     DumpedTable(DumpKinds(tables, st, f, SEED_ORDER).value[TableName(k)], st, k) {
      var i := OrderIndex(k);
    }
  }

  /**
   * A dump that completes ran the whole transaction, wrote the resulting
   * tables to the dump file, and recorded that file.
   */
  lemma DumpRunCommitted(st: Store, f: Faults, disk: Disk, decode: seq<byte> -> map<string, Table>,
                         encode: map<string, Table> -> seq<byte>, sha: seq<byte> -> Digest,
                         path: string, notes: string, freshId: string) returns (tables: map<string, Table>)
    requires DumpRun(st, f, disk, decode, encode, sha, path, notes, freshId).err == None
    ensures DumpKinds(DbFile(disk, decode, path), st, f, SEED_ORDER) == Ok(tables)
    ensures DumpRun(st, f, disk, decode, encode, sha, path, notes, freshId) ==
              Commit(st, f, disk, encode, sha, path, notes, freshId, tables)
  {
    tables := DumpKinds(DbFile(disk, decode, path), st, f, SEED_ORDER).value;
  }

  /**
   * A dump that completes writes a dump file in which every dictionary kind's
   * table holds exactly its collection's records.
   */
  lemma DumpWritesEveryKind(st: Store, f: Faults, disk: Disk, decode: seq<byte> -> map<string, Table>,
                            encode: map<string, Table> -> seq<byte>, sha: seq<byte> -> Digest,
                            path: string, notes: string, freshId: string)
    requires DumpRun(st, f, disk, decode, encode, sha, path, notes, freshId).err == None
    ensures path in DumpRun(st, f, disk, decode, encode, sha, path, notes, freshId).disk
    ensures var written := DumpRun(st, f, disk, decode, encode, sha, path, notes, freshId).disk[path];
            exists tables :: written == encode(tables) &&
              forall k :: TableName(k) in tables && DumpedTable(tables[TableName(k)], st, k)
  {
    var tables := DumpRunCommitted(st, f, disk, decode, encode, sha, path, notes, freshId);
    DumpKindsEveryKind(DbFile(disk, decode, path), st, f);
  }

  /** A commit that succeeds records the hash of the dump file it wrote under the fresh id. */
  lemma CommitRecordsHash(st: Store, f: Faults, disk: Disk, encode: map<string, Table> -> seq<byte>, sha: seq<byte> -> Digest,
                          path: string, notes: string, freshId: string, tables: map<string, Table>)
    requires Commit(st, f, disk, encode, sha, path, notes, freshId, tables).err == None
    ensures var e := Commit(st, f, disk, encode, sha, path, notes, freshId, tables);
            C.DB_DUMPS in e.store.tables &&
            exists j :: 0 <= j < |e.store.tables[C.DB_DUMPS]| &&
              e.store.tables[C.DB_DUMPS][j].id == freshId &&
              GetString(e.store.tables[C.DB_DUMPS][j], "hash") == Hex(sha(encode(tables)))
  {
    var e := Commit(st, f, disk, encode, sha, path, notes, freshId, tables);
    SaveDumpRecords(st, f, e.disk, sha, path, notes, freshId);
    var rec := Record(freshId, map["hash" := Text(Hex(sha(encode(tables)))), "dump" := Text(BaseName(path)), "notes" := Text(notes)]);
    var j :| 0 <= j < |e.store.tables[C.DB_DUMPS]| && e.store.tables[C.DB_DUMPS][j] == rec;
  }

  /** A dump that completes records the hash of the dump file it wrote under the fresh id. */
  lemma DumpRecordsHash(st: Store, f: Faults, disk: Disk, decode: seq<byte> -> map<string, Table>,
                        encode: map<string, Table> -> seq<byte>, sha: seq<byte> -> Digest,
                        path: string, notes: string, freshId: string)
    requires DumpRun(st, f, disk, decode, encode, sha, path, notes, freshId).err == None
    ensures var e := DumpRun(st, f, disk, decode, encode, sha, path, notes, freshId);
            path in e.disk && C.DB_DUMPS in e.store.tables &&
            exists j :: 0 <= j < |e.store.tables[C.DB_DUMPS]| &&
              e.store.tables[C.DB_DUMPS][j].id == freshId &&
              GetString(e.store.tables[C.DB_DUMPS][j], "hash") == Hex(sha(e.disk[path]))
  {
    var tables := DumpRunCommitted(st, f, disk, decode, encode, sha, path, notes, freshId);
    CommitRecordsHash(st, f, disk, encode, sha, path, notes, freshId, tables);
  }
}
