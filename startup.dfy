/**
 * What the server does at start-up (main.go): decide whether the bundled
 * dictionary dump must be seeded, and list the plan collections the client is
 * told about.
 *
 * The seed files sit next to the binary: `seed.db` (the dump), `seed.hash`
 * (its hash, as the `hash` command writes it) and `seed.note` (free text
 * stored with the dump record).
 */
module Startup {
  import opened Wrappers
  import opened Lists
  import opened RecordStore
  import opened HexDigest
  import opened DumpDatabase
  import opened SeedCollections
  import opened SeedDictionaries
  import AppSettings
  import Utf8
  import C = Collections

  const SEED_FILE := "./seed.db"
  const SEED_HASH := "./seed.hash"
  const SEED_NOTE := "./seed.note"

  // ---- Reading the seed files ----

  /** `os.ReadFile(path)`. */
  function ReadFile(disk: Disk, f: Faults, path: string): (r: Result<seq<byte>, Error>)
    ensures r.Ok? <==> path in disk && !f.Fails(Read, path, "")
    ensures r.Ok? ==> r.value == disk[path]
  {
    if path !in disk then Err(MissingFile(path))
    else if f.Fails(Read, path, "") then Err(Fault(Read, path))
    else Ok(disk[path])
  }

  /**
   * The note stored with the dump, empty when the file cannot be read. Go's
   * `string(note)` keeps the file's bytes, so a note file in UTF-8 gives the
   * text those bytes encode. A file that is not valid UTF-8 encodes no text of
   * Unicode scalar values; it is read here one character per byte.
   */
  function Note(disk: Disk, f: Faults): (note: string)
    ensures ReadFile(disk, f, SEED_NOTE).Err? ==> note == ""
    ensures ReadFile(disk, f, SEED_NOTE).Ok? && Utf8.Decode(disk[SEED_NOTE]).Some? ==>
              Utf8.Encode(note) == disk[SEED_NOTE]
  {
    match ReadFile(disk, f, SEED_NOTE)
    case Ok(bs) =>
      (match Utf8.Decode(bs)
       case Some(text) => Utf8.EncodeDecode(bs); text
       case None => AsciiString(bs))
    case Err(_) => ""
  }

  // ---- Is the store already up to date? ----

  /** The stored `dictionaryVersion` setting exists and its value is exactly `hash`. */
  predicate VersionMatches(st: Store, f: Faults, hash: string) {
    var setting := AppSettings.FindByKey(st, f, DICTIONARY_VERSION);
    setting.Ok? && GetString(setting.value, "value") == hash
  }

  /**
   * The records of the dump collection sorted newest first, at most one: the
   * collection keeps records in the order they were created, so that is the
   * last one.
   */
  function LatestDumps(st: Store, f: Faults): (r: Result<seq<Record>, Error>)
    ensures r.Ok? <==> C.DB_DUMPS in st.tables && !f.Fails(Lookup, C.DB_DUMPS, "")
    ensures r.Ok? ==> |r.value| <= 1
    ensures r.Ok? && st.tables[C.DB_DUMPS] != [] ==>
              r.value == [st.tables[C.DB_DUMPS][|st.tables[C.DB_DUMPS]| - 1]]
    ensures r.Ok? && st.tables[C.DB_DUMPS] == [] ==> r.value == []
  {
    if C.DB_DUMPS !in st.tables then Err(MissingCollection(C.DB_DUMPS))
    else if f.Fails(Lookup, C.DB_DUMPS, "") then Err(Fault(Lookup, C.DB_DUMPS))
    else
      var rs := st.tables[C.DB_DUMPS];
      if rs == [] then Ok([]) else Ok([rs[|rs| - 1]])
  }

  /** Some record among the latest dumps has `hash` as its hash. */
  predicate LatestDumpMatches(st: Store, f: Faults, hash: string) {
    var latest := LatestDumps(st, f);
    latest.Ok? && exists i :: 0 <= i < |latest.value| && GetString(latest.value[i], "hash") == hash
  }

  // ---- The start-up decision ----

  /**
   * `updateSeed`: read the seed hash (a failure is returned), stop when the
   * dictionary version or the latest dump already carries it, and otherwise
   * record the dump and then seed it. The dump record is saved outside the
   * seed's transaction, so it stays when seeding fails.
   */
  function UpdateSeedRun(st: Store, f: Faults, disk: Disk, decode: seq<byte> -> map<string, Table>,
                         sha: seq<byte> -> Digest, dumpId: string, settingId: string): Outcome
  {
    match ReadFile(disk, f, SEED_HASH)
    case Err(e) => Outcome(st, Some(e))
    case Ok(bs) =>
      var hash := AsciiString(bs);
      if VersionMatches(st, f, hash) || LatestDumpMatches(st, f, hash) then Outcome(st, None)
      else
        match SaveDump(st, f, disk, sha, SEED_FILE, Note(disk, f), dumpId)
        case Err(e) => Outcome(st, Some(e))
        case Ok(st1) =>
          match SeedRun(st1, f, disk, decode, sha, SEED_FILE, settingId)
          case Err(e) => Outcome(st1, Some(e))
          case Ok(st2) => Outcome(st2, None)
  }

  /** The loop over the latest dumps, looking for one whose hash is `hash`. */
  method AnyDumpHasHash(dumps: seq<Record>, hash: string) returns (found: bool)
    ensures found <==> exists i :: 0 <= i < |dumps| && GetString(dumps[i], "hash") == hash
  {
    for i := 0 to |dumps|
      invariant forall j :: 0 <= j < i ==> GetString(dumps[j], "hash") != hash
    {
      if GetString(dumps[i], "hash") == hash {
        return true;
      }
    }
    return false;
  }

  method UpdateSeed(app: App, disk: Disk, decode: seq<byte> -> map<string, Table>, sha: seq<byte> -> Digest,
                    dumpId: string, settingId: string) returns (err: Option<Error>)
    modifies app
    ensures UpdateSeedRun(old(app.store), app.faults, disk, decode, sha, dumpId, settingId) == Outcome(app.store, err)
  {
    var bs := ReadFile(disk, app.faults, SEED_HASH);
    if bs.Err? {
      return Some(bs.error);
    }
    var hash := AsciiString(bs.value);
    var note := Note(disk, app.faults);
    var setting := AppSettings.FindByKey(app.store, app.faults, DICTIONARY_VERSION);
    if setting.Ok? && GetString(setting.value, "value") == hash {
      return None;
    }
    var latest := LatestDumps(app.store, app.faults);
    if latest.Ok? && |latest.value| > 0 {
      var found := AnyDumpHasHash(latest.value, hash);
      if found {
        return None;
      }
    }
    err := SaveDumpRecord(app, disk, sha, SEED_FILE, note, dumpId);
    if err.Some? {
      return err;
    }
    var db;
    err, db := Seed(app, disk, decode, sha, SEED_FILE, settingId);
  }

  // ---- Properties of the start-up decision ----

  /** An unreadable hash file is reported and nothing is written. */
  lemma UnreadableHashChangesNothing(st: Store, f: Faults, disk: Disk, decode: seq<byte> -> map<string, Table>,
                                     sha: seq<byte> -> Digest, dumpId: string, settingId: string)
    requires SEED_HASH !in disk || f.Fails(Read, SEED_HASH, "")
    ensures var o := UpdateSeedRun(st, f, disk, decode, sha, dumpId, settingId);
            o.store == st && o.err.Some?
  {
  }

  /** The bytes of a digest's lowercase hex text, as the `hash` command writes them to the hash file. */
  function HashFileBytes(d: seq<byte>): (bs: seq<byte>)
    ensures |bs| == 2 * |d|
  {
    HexIsAscii(d);
    AsciiBytes(Hex(d))
  }

  /** Reading back a hash file the `hash` command wrote gives the dump's digest. */
  lemma HashFileText(d: seq<byte>)
    ensures AsciiString(HashFileBytes(d)) == Hex(d)
  {
    HexIsAscii(d);
    AsciiRoundTrip(Hex(d));
  }

  /** Every character of a hex digest is below 256, so it can be written byte for byte. */
  lemma HexIsAscii(d: seq<byte>)
    ensures forall i :: 0 <= i < |Hex(d)| ==> Hex(d)[i] as int < 256
  {
    var h := Hex(d);
    forall i | 0 <= i < |h| ensures h[i] as int < 256 {
      assert IsHexDigit(h[i]);
    }
  }

  /** The store an up-to-date hash file meets after it was already seeded: no second seed. */
  lemma SeededStoreIsUpToDate(st: Store, f: Faults, disk: Disk, decode: seq<byte> -> map<string, Table>,
                              sha: seq<byte> -> Digest, dumpId: string, settingId: string)
    requires SEED_FILE in disk && !f.Fails(Read, SEED_HASH, "")
    requires SEED_HASH in disk && disk[SEED_HASH] == HashFileBytes(sha(disk[SEED_FILE]))
    requires Valid(st) && !f.Fails(Lookup, C.APP_SETTINGS, DICTIONARY_VERSION)
    requires UpdateSeedRun(st, f, disk, decode, sha, dumpId, settingId).err == None
    ensures var st' := UpdateSeedRun(st, f, disk, decode, sha, dumpId, settingId).store;
            UpdateSeedRun(st', f, disk, decode, sha, dumpId, settingId) == Outcome(st', None)
  {
    HashFileText(sha(disk[SEED_FILE]));
    var st' := UpdateSeedRun(st, f, disk, decode, sha, dumpId, settingId).store;
    SeedLeavesMatch(st, f, disk, decode, sha, dumpId, settingId);
    MatchingHashStops(st', f, disk, decode, sha, dumpId, settingId, Hex(sha(disk[SEED_FILE])));
  }

  /** After a run that reports no error, the version or the latest dump carries the dump's digest. */
  lemma SeedLeavesMatch(st: Store, f: Faults, disk: Disk, decode: seq<byte> -> map<string, Table>,
                        sha: seq<byte> -> Digest, dumpId: string, settingId: string)
    requires SEED_FILE in disk && ReadFile(disk, f, SEED_HASH).Ok?
    requires AsciiString(ReadFile(disk, f, SEED_HASH).value) == Hex(sha(disk[SEED_FILE]))
    requires Valid(st) && !f.Fails(Lookup, C.APP_SETTINGS, DICTIONARY_VERSION)
    requires UpdateSeedRun(st, f, disk, decode, sha, dumpId, settingId).err == None
    ensures var st' := UpdateSeedRun(st, f, disk, decode, sha, dumpId, settingId).store;
            VersionMatches(st', f, Hex(sha(disk[SEED_FILE]))) || LatestDumpMatches(st', f, Hex(sha(disk[SEED_FILE])))
  {
    var hash := Hex(sha(disk[SEED_FILE]));
    if !(VersionMatches(st, f, hash) || LatestDumpMatches(st, f, hash)) {
      var st1 := SaveDump(st, f, disk, sha, SEED_FILE, Note(disk, f), dumpId).value;
      SeedSetsVersion(st1, f, disk, decode, sha, SEED_FILE, settingId);
    }
  }

  /** A store whose version or latest dump carries the hash file's text is left alone. */
  lemma MatchingHashStops(st: Store, f: Faults, disk: Disk, decode: seq<byte> -> map<string, Table>,
                          sha: seq<byte> -> Digest, dumpId: string, settingId: string, hash: string)
    requires ReadFile(disk, f, SEED_HASH).Ok? && AsciiString(ReadFile(disk, f, SEED_HASH).value) == hash
    requires VersionMatches(st, f, hash) || LatestDumpMatches(st, f, hash)
    ensures UpdateSeedRun(st, f, disk, decode, sha, dumpId, settingId) == Outcome(st, None)
  {
  }

  /**
   * A dump recorded under an id the collection does not hold yet becomes the
   * latest dump, and its hash is the dump file's digest.
   */
  lemma SaveDumpBecomesLatest(st: Store, f: Faults, disk: Disk, sha: seq<byte> -> Digest,
                              notes: string, dumpId: string)
    requires SaveDump(st, f, disk, sha, SEED_FILE, notes, dumpId).Ok?
    requires FreshDumpId(st, dumpId) && !f.Fails(Lookup, C.DB_DUMPS, "")
    ensures SEED_FILE in disk
    ensures LatestDumpMatches(SaveDump(st, f, disk, sha, SEED_FILE, notes, dumpId).value, f, Hex(sha(disk[SEED_FILE])))
  {
    var p := SaveDumpAppends(st, f, disk, sha, SEED_FILE, notes, dumpId);
    LatestIsAppended(SaveDump(st, f, disk, sha, SEED_FILE, notes, dumpId).value, f, st.tables[C.DB_DUMPS], p,
                     Hex(sha(disk[SEED_FILE])));
  }

  /**
   * The dump recorded at start-up carries the note file's text: when the file
   * is UTF-8, the latest dump's notes encode to exactly the file's bytes, as
   * Go stores them.
   */
  lemma SavedNoteKeepsFileBytes(st: Store, f: Faults, disk: Disk, sha: seq<byte> -> Digest, dumpId: string)
    requires SaveDump(st, f, disk, sha, SEED_FILE, Note(disk, f), dumpId).Ok?
    requires FreshDumpId(st, dumpId) && !f.Fails(Lookup, C.DB_DUMPS, "")
    requires ReadFile(disk, f, SEED_NOTE).Ok? && Utf8.Decode(disk[SEED_NOTE]).Some?
    ensures var latest := LatestDumps(SaveDump(st, f, disk, sha, SEED_FILE, Note(disk, f), dumpId).value, f);
            latest.Ok? && |latest.value| == 1 &&
            Utf8.Encode(GetString(latest.value[0], "notes")) == disk[SEED_NOTE]
  {
    var p := SaveDumpAppends(st, f, disk, sha, SEED_FILE, Note(disk, f), dumpId);
    var st1 := SaveDump(st, f, disk, sha, SEED_FILE, Note(disk, f), dumpId).value;
    assert LatestDumps(st1, f).value[0] == p;
  }

  /** The record appended last is the latest dump. */
  lemma LatestIsAppended(st: Store, f: Faults, rs: seq<Record>, p: Record, hash: string)
    requires C.DB_DUMPS in st.tables && st.tables[C.DB_DUMPS] == rs + [p] && !f.Fails(Lookup, C.DB_DUMPS, "")
    requires GetString(p, "hash") == hash
    ensures LatestDumpMatches(st, f, hash)
  {
    assert LatestDumps(st, f).value[0] == p;
  }

  /**
   * When the dump is recorded but seeding it fails, the next start finds the
   * recorded dump's hash and does not try to seed again: the store keeps the
   * dump record and none of the seed's writes.
   */
  lemma {:induction false} FailedSeedNotRetried(st: Store, f: Faults, disk: Disk, decode: seq<byte> -> map<string, Table>,
                                                sha: seq<byte> -> Digest, dumpId: string, settingId: string)
    requires SEED_FILE in disk && !f.Fails(Read, SEED_HASH, "")
    requires SEED_HASH in disk && disk[SEED_HASH] == HashFileBytes(sha(disk[SEED_FILE]))
    requires FreshDumpId(st, dumpId) && !f.Fails(Lookup, C.DB_DUMPS, "")
    requires SaveDump(st, f, disk, sha, SEED_FILE, Note(disk, f), dumpId).Ok?
    requires SeedRun(SaveDump(st, f, disk, sha, SEED_FILE, Note(disk, f), dumpId).value, f, disk, decode, sha, SEED_FILE, settingId).Err?
    ensures var o := UpdateSeedRun(st, f, disk, decode, sha, dumpId, settingId);
            UpdateSeedRun(o.store, f, disk, decode, sha, dumpId, settingId) == Outcome(o.store, None)
  {
    HashFileText(sha(disk[SEED_FILE]));
    var hash := Hex(sha(disk[SEED_FILE]));
    SaveDumpBecomesLatest(st, f, disk, sha, Note(disk, f), dumpId);
  }

  // ---- The plan collections advertised to the client ----

  /** A plan collection as the client receives it: the collection's id and name. */
  datatype PlanCollection = PlanCollection(id: string, name: string)

  /**
   * `loadCollectionsDictionary` over `names`: each collection that exists, in
   * the order of `names`; `ids` gives the id the store assigned to a collection.
   */
  function LoadedCollections(st: Store, ids: string -> string, names: seq<string>): (r: seq<PlanCollection>)
    ensures |r| <= |names|
    ensures forall i :: 0 <= i < |r| ==> r[i].name in st.tables && r[i].id == ids(r[i].name)
  {
    if names == [] then []
    else
      var last := names[|names| - 1];
      LoadedCollections(st, ids, names[..|names| - 1]) +
      (if last in st.tables then [PlanCollection(ids(last), last)] else [])
  }

  method LoadCollectionsDictionary(app: App, ids: string -> string) returns (r: seq<PlanCollection>)
    ensures r == LoadedCollections(app.store, ids, C.PLANS_COLLECTIONS)
  {
    r := [];
    for i := 0 to |C.PLANS_COLLECTIONS|
      invariant r == LoadedCollections(app.store, ids, C.PLANS_COLLECTIONS[..i])
    {
      var name := C.PLANS_COLLECTIONS[i];
      assert C.PLANS_COLLECTIONS[..i + 1][..i] == C.PLANS_COLLECTIONS[..i];
      if FindCollection(app.store, name).None? {
        r := r + [PlanCollection(ids(name), name)];
      }
    }
    assert C.PLANS_COLLECTIONS[..|C.PLANS_COLLECTIONS|] == C.PLANS_COLLECTIONS;
  }

  function Names(cs: seq<PlanCollection>): (r: seq<string>)
    ensures |r| == |cs| && forall i :: 0 <= i < |cs| ==> r[i] == cs[i].name
  {
    if cs == [] then [] else Names(cs[..|cs| - 1]) + [cs[|cs| - 1].name]
  }

  /** The names listed are exactly the existing collections among `names`, in the same order. */
  lemma {:induction false} LoadedCollectionsInOrder(st: Store, ids: string -> string, names: seq<string>)
    ensures Names(LoadedCollections(st, ids, names)) == Filter(names, (n: string) => n in st.tables)
  {
    var p := (n: string) => n in st.tables;
    if names != [] {
      var init := names[..|names| - 1];
      var last := names[|names| - 1];
      LoadedCollectionsInOrder(st, ids, init);
      assert names == init + [last];
      FilterAppend(init, [last], p);
      assert Filter([last], p) == (if p(last) then [last] else []) by {
        assert [last][1..] == [];
      }
      var r := LoadedCollections(st, ids, names);
      var ri := LoadedCollections(st, ids, init);
      assert Names(r) == Names(ri) + (if p(last) then [last] else []);
    }
  }

  /** At most the five plan collections are listed, and every existing one is. */
  lemma PlanCollectionsListed(st: Store, ids: string -> string)
    ensures |LoadedCollections(st, ids, C.PLANS_COLLECTIONS)| <= 5
    ensures forall n :: n in C.PLANS_COLLECTIONS && n in st.tables ==>
              PlanCollection(ids(n), n) in LoadedCollections(st, ids, C.PLANS_COLLECTIONS)
  {
    var r := LoadedCollections(st, ids, C.PLANS_COLLECTIONS);
    LoadedCollectionsInOrder(st, ids, C.PLANS_COLLECTIONS);
    forall n | n in C.PLANS_COLLECTIONS && n in st.tables
      ensures PlanCollection(ids(n), n) in r
    {
      var fs := Filter(C.PLANS_COLLECTIONS, (m: string) => m in st.tables);
      var i :| 0 <= i < |C.PLANS_COLLECTIONS| && C.PLANS_COLLECTIONS[i] == n;
      assert n in fs;
      var j :| 0 <= j < |fs| && fs[j] == n;
      assert Names(r)[j] == n;
      assert r[j] == PlanCollection(ids(n), n);
    }
  }
}
