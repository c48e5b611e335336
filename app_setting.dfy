/**
 * Key/value application settings (internals/models/app_setting.go): records of
 * the `_appSettings` collection with a unique text `key` and a text `value`,
 * looked up by key and written by an upsert.
 */
module AppSettings {
  import opened Wrappers
  import opened Lists
  import opened RecordStore
  import C = Collections

  /** `FindAppSettingsByKey`: the first setting whose key matches, `NoRows` when there is none. */
  function FindByKey(st: Store, f: Faults, key: string): (r: Result<Record, Error>)
    ensures r.Ok? ==> C.APP_SETTINGS in st.tables && r.value in st.tables[C.APP_SETTINGS] && GetString(r.value, "key") == key
    ensures r == Err(NoRows) <==>
              C.APP_SETTINGS in st.tables && !f.Fails(Lookup, C.APP_SETTINGS, key) &&
              forall k :: 0 <= k < |st.tables[C.APP_SETTINGS]| ==> GetString(st.tables[C.APP_SETTINGS][k], "key") != key
  {
    FindFirstByData(st, f, C.APP_SETTINGS, "key", key)
  }

  /** The record with its key and value set. */
  function WithKeyValue(r: Record, key: string, value: string): Record {
    Record(r.id, r.fields["key" := Text(key)]["value" := Text(value)])
  }

  /** `CreateAppSettings`: a new record (under the id the store hands out) with the key and value, saved. */
  function Create(st: Store, f: Faults, freshId: string, key: string, value: string): Result<Store, Error> {
    if FindCollection(st, C.APP_SETTINGS).Some? then Err(FindCollection(st, C.APP_SETTINGS).value)
    else SaveRecord(st, f, C.APP_SETTINGS, WithKeyValue(Record(freshId, map[]), key, value))
  }

  /** `UpsertAppSettings`: the record holding the key gets the new value; without one, a record is created. */
  function Upsert(st: Store, f: Faults, freshId: string, key: string, value: string): Result<Store, Error> {
    match FindByKey(st, f, key)
    case Err(NoRows) => Create(st, f, freshId, key, value)
    case Err(e) => Err(e)
    case Ok(rec) => SaveRecord(st, f, C.APP_SETTINGS, WithKeyValue(rec, key, value))
  }

  /** `CreateAppSettings` on the live store; the new record is returned even when the save fails. */
  method CreateAppSettings(app: App, freshId: string, key: string, value: string) returns (setting: Option<Record>, err: Option<Error>)
    modifies app
    ensures Create(old(app.store), app.faults, freshId, key, value).Ok? ==>
              err == None && app.store == Create(old(app.store), app.faults, freshId, key, value).value
    ensures Create(old(app.store), app.faults, freshId, key, value).Err? ==>
              err == Some(Create(old(app.store), app.faults, freshId, key, value).error) && app.store == old(app.store)
    ensures C.APP_SETTINGS in old(app.store.tables) ==> setting == Some(WithKeyValue(Record(freshId, map[]), key, value))
    ensures C.APP_SETTINGS !in old(app.store.tables) ==> setting == None
  {
    var missing := FindCollection(app.store, C.APP_SETTINGS);
    if missing.Some? {
      return None, missing;
    }
    var rec := Record(freshId, map[]);
    rec := WithKeyValue(rec, key, value);
    err := app.Save(C.APP_SETTINGS, rec);
    setting := Some(rec);
  }

  /** `UpsertAppSettings` on the live store. */
  method UpsertAppSettings(app: App, freshId: string, key: string, value: string) returns (setting: Option<Record>, err: Option<Error>)
    modifies app
    ensures Upsert(old(app.store), app.faults, freshId, key, value).Ok? ==>
              err == None && app.store == Upsert(old(app.store), app.faults, freshId, key, value).value
    ensures Upsert(old(app.store), app.faults, freshId, key, value).Err? ==>
              err == Some(Upsert(old(app.store), app.faults, freshId, key, value).error) && app.store == old(app.store)
    ensures FindByKey(old(app.store), app.faults, key).Err? && FindByKey(old(app.store), app.faults, key) != Err(NoRows) ==>
              setting == None
  {
    var found := FindByKey(app.store, app.faults, key);
    if found == Err(NoRows) {
      setting, err := CreateAppSettings(app, freshId, key, value);
      return;
    } else if found.Err? {
      return None, Some(found.error);
    }
    var record := found.value;
    record := WithKeyValue(record, key, value);
    err := app.Save(C.APP_SETTINGS, record);
    setting := Some(record);
  }

  // ---- Properties of the upsert ----

  /** No two settings share a key, as the unique index on `key` guarantees. */
  ghost predicate UniqueKeys(rs: seq<Record>) {
    forall i, j :: 0 <= i < j < |rs| ==> GetString(rs[i], "key") != GetString(rs[j], "key")
  }

  ghost predicate FreshId(st: Store, id: string) {
    C.APP_SETTINGS in st.tables ==> forall k :: 0 <= k < |st.tables[C.APP_SETTINGS]| ==> st.tables[C.APP_SETTINGS][k].id != id
  }

  /** What a successful upsert saved: the setting's record with the key and value, under its old id or the fresh one. */
  lemma UpsertSaves(st: Store, f: Faults, freshId: string, key: string, value: string)
      returns (saved: Record)
    requires Upsert(st, f, freshId, key, value).Ok?
    ensures Upsert(st, f, freshId, key, value) == SaveRecord(st, f, C.APP_SETTINGS, saved)
    ensures GetString(saved, "key") == key && GetString(saved, "value") == value
    ensures FindByKey(st, f, key) == Err(NoRows) ==> saved.id == freshId
    ensures FindByKey(st, f, key).Ok? ==> saved.id == FindByKey(st, f, key).value.id
  {
    match FindByKey(st, f, key)
    case Err(NoRows) =>
      saved := WithKeyValue(Record(freshId, map[]), key, value);
    case Ok(rec) =>
      saved := WithKeyValue(rec, key, value);
  }

  /**
   * After a successful upsert, looking the key up again (when the lookup does
   * not fail) finds a record holding the new value.
   */
  lemma UpsertThenFind(st: Store, f: Faults, freshId: string, key: string, value: string)
    requires Valid(st)
    requires Upsert(st, f, freshId, key, value).Ok?
    requires !f.Fails(Lookup, C.APP_SETTINGS, key)
    ensures var st' := Upsert(st, f, freshId, key, value).value;
            FindByKey(st', f, key).Ok? && GetString(FindByKey(st', f, key).value, "value") == value
  {
    var p := UpsertLeavesOneHolder(st, f, freshId, key, value);
    FindOnlyHolder(Upsert(st, f, freshId, key, value).value, f, key, p);
  }

  /** After a successful upsert, the saved record is the only setting holding the key. */
  lemma UpsertLeavesOneHolder(st: Store, f: Faults, freshId: string, key: string, value: string)
      returns (p: Record)
    requires Valid(st)
    requires Upsert(st, f, freshId, key, value).Ok?
    ensures var rs' := Upsert(st, f, freshId, key, value).value.tables[C.APP_SETTINGS];
            p in rs' && GetString(p, "key") == key && GetString(p, "value") == value &&
            forall k :: 0 <= k < |rs'| && rs'[k] != p ==> GetString(rs'[k], "key") != key
  {
    var saved := UpsertSaves(st, f, freshId, key, value);
    var st' := Upsert(st, f, freshId, key, value).value;
    var rs := st.tables[C.APP_SETTINGS];
    var rs' := st'.tables[C.APP_SETTINGS];
    assert UniqueClash(rs, C.APP_SETTINGS, saved).None?;
    assert !Clashes(rs, saved, "key") by {
      assert UniqueFields(C.APP_SETTINGS)[0] == "key";
    }
    p := Persisted(C.APP_SETTINGS, saved);
    PersistedKeeps(C.APP_SETTINGS, saved, "key");
    PersistedKeeps(C.APP_SETTINGS, saved, "value");
    forall k | 0 <= k < |rs'| && rs'[k] != p ensures GetString(rs'[k], "key") != key {
      var j :| 0 <= j < |rs| && rs[j] == rs'[k];
    }
  }

  /** A lookup that does not fail finds the only setting holding the key. */
  lemma FindOnlyHolder(st: Store, f: Faults, key: string, p: Record)
    requires C.APP_SETTINGS in st.tables && !f.Fails(Lookup, C.APP_SETTINGS, key)
    requires var rs := st.tables[C.APP_SETTINGS];
             p in rs && GetString(p, "key") == key && forall k :: 0 <= k < |rs| && rs[k] != p ==> GetString(rs[k], "key") != key
    ensures FindByKey(st, f, key) == Ok(p)
  {
    var found := FindByKey(st, f, key);
    assert found != Err(NoRows);
  }

  /** Each setting with another key is still stored after a successful upsert, provided the fresh id is unused. */
  lemma UpsertKeepsOtherKeys(st: Store, f: Faults, freshId: string, key: string, value: string, r: Record)
    requires Valid(st) && FreshId(st, freshId)
    requires Upsert(st, f, freshId, key, value).Ok?
    requires C.APP_SETTINGS in st.tables && r in st.tables[C.APP_SETTINGS] && GetString(r, "key") != key
    ensures r in Upsert(st, f, freshId, key, value).value.tables[C.APP_SETTINGS]
  {
    var saved := UpsertSaves(st, f, freshId, key, value);
    var rs := st.tables[C.APP_SETTINGS];
    var j :| 0 <= j < |rs| && rs[j] == r;
    OtherKeyOtherId(st, f, freshId, key, saved.id, j);
  }

  /** A setting with another key does not have the id an upsert of `key` saves under. */
  lemma OtherKeyOtherId(st: Store, f: Faults, freshId: string, key: string, id: string, j: int)
    requires Valid(st) && FreshId(st, freshId) && C.APP_SETTINGS in st.tables
    requires 0 <= j < |st.tables[C.APP_SETTINGS]| && GetString(st.tables[C.APP_SETTINGS][j], "key") != key
    requires FindByKey(st, f, key) == Err(NoRows) ==> id == freshId
    requires FindByKey(st, f, key).Ok? ==> id == FindByKey(st, f, key).value.id
    requires FindByKey(st, f, key).Ok? || FindByKey(st, f, key) == Err(NoRows)
    ensures st.tables[C.APP_SETTINGS][j].id != id
  {
    var rs := st.tables[C.APP_SETTINGS];
    if FindByKey(st, f, key).Ok? {
      var found := FindByKey(st, f, key).value;
      var i :| 0 <= i < |rs| && rs[i] == found;
      assert i != j;
      assert UniqueIds(rs);
    }
  }

  /**
   * An upsert adds a record exactly when no setting had the key, and the
   * unique index keeps keys unique.
   */
  lemma UpsertCount(st: Store, f: Faults, freshId: string, key: string, value: string)
    requires Valid(st) && FreshId(st, freshId) && C.APP_SETTINGS in st.tables && UniqueKeys(st.tables[C.APP_SETTINGS])
    requires Upsert(st, f, freshId, key, value).Ok?
    ensures var rs := st.tables[C.APP_SETTINGS];
            var rs' := Upsert(st, f, freshId, key, value).value.tables[C.APP_SETTINGS];
            (FindByKey(st, f, key) == Err(NoRows) ==> |rs'| == |rs| + 1) &&
            (FindByKey(st, f, key).Ok? ==> |rs'| == |rs|)
  {
    var saved := UpsertSaves(st, f, freshId, key, value);
    var rs := st.tables[C.APP_SETTINGS];
    if FindByKey(st, f, key).Ok? {
      var found := FindByKey(st, f, key).value;
      var i :| 0 <= i < |rs| && rs[i] == found;
      assert IndexOfId(rs, saved.id) >= 0;
    } else {
      assert IndexOfId(rs, saved.id) == -1;
    }
  }

  /** A lookup failure other than "no rows" is returned and nothing is written. */
  lemma UpsertLookupFailure(st: Store, f: Faults, freshId: string, key: string, value: string)
    requires C.APP_SETTINGS in st.tables && f.Fails(Lookup, C.APP_SETTINGS, key)
    ensures Upsert(st, f, freshId, key, value) == Err(Fault(Lookup, C.APP_SETTINGS))
  {
  }

  /** A successful upsert keeps the keys of the settings unique. */
  lemma UpsertKeepsUniqueKeys(st: Store, f: Faults, freshId: string, key: string, value: string)
    requires Valid(st) && C.APP_SETTINGS in st.tables && UniqueKeys(st.tables[C.APP_SETTINGS])
    requires Upsert(st, f, freshId, key, value).Ok?
    ensures UniqueKeys(Upsert(st, f, freshId, key, value).value.tables[C.APP_SETTINGS])
  {
    var saved := UpsertSaves(st, f, freshId, key, value);
    var rs := st.tables[C.APP_SETTINGS];
    var rs' := Upsert(st, f, freshId, key, value).value.tables[C.APP_SETTINGS];
    var p := Persisted(C.APP_SETTINGS, saved);
    PersistedKeeps(C.APP_SETTINGS, saved, "key");
    assert !Clashes(rs, saved, "key") by {
      assert UniqueFields(C.APP_SETTINGS)[0] == "key";
    }
    forall i, j | 0 <= i < j < |rs'| ensures GetString(rs'[i], "key") != GetString(rs'[j], "key") {
      if rs'[i] != p && rs'[j] != p {
        var a :| 0 <= a < |rs| && rs[a] == rs'[i];
        var b :| 0 <= b < |rs| && rs[b] == rs'[j];
        assert a != b by {
          assert rs[a].id != rs[b].id by {
            assert UniqueIds(rs');
          }
        }
      }
    }
  }
}
