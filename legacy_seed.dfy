/**
 * The older seeding code (seed/models.go, seed/dictionaries.go). Its dump rows
 * carry names instead of ids: every record is found or created by its name,
 * and relations are written by looking the related record up by name. The
 * run has no transaction and ignores the error that stops it.
 *
 * The helpers `upsertRecordByName` and `seedCollection` of this variant are
 * not part of this model's sources; they are modelled as "the first record
 * with that name, or a new record carrying the name" and "every row of the
 * table scanned and saved in order, stopping at the first failure", the
 * behaviour of their id-keyed counterparts.
 */
module LegacySeed {
  import opened Wrappers
  import opened Lists
  import opened RecordStore
  import opened DumpDatabase
  import JsonArray
  import opened SeedModels
  import opened SeedCollections
  import opened SeedDictionaries
  import C = Collections

  /** The eight kinds this variant seeds; it has no domains of blessing. */
  datatype LegacyKind = Specials | Elements | CharacterRoles | ArtifactSets | ArtifactTypes | WeaponTypes | Weapons | Characters

  /** The table of the dump file a kind is read from. */
  function LegacyTable(k: LegacyKind): string {
    match k
    case Specials => "specials"
    case Elements => "elements"
    case CharacterRoles => "character_roles"
    case ArtifactSets => "artifact_sets"
    case ArtifactTypes => "artifact_types"
    case WeaponTypes => "weapon_types"
    case Weapons => "weapons"
    case Characters => "characters"
  }

  /** The collection a kind's records are saved to. */
  function Collection(k: LegacyKind): (c: string)
    ensures c != C.DOMAINS_OF_BLESSING
    ensures FileField(c) == "icon"
  {
    match k
    case Specials => C.SPECIALS
    case Elements => C.ELEMENTS
    case CharacterRoles => C.CHARACTER_ROLES
    case ArtifactSets => C.ARTIFACT_SETS
    case ArtifactTypes => C.ARTIFACT_TYPES
    case WeaponTypes => C.WEAPON_TYPES
    case Weapons => C.WEAPONS
    case Characters => C.CHARACTERS
  }

  /** The order of `Seed`. */
  const LEGACY_ORDER: seq<LegacyKind> :=
    [Specials, Elements, CharacterRoles, ArtifactSets, ArtifactTypes, WeaponTypes, Weapons, Characters]

  /** A scanned dump row: the Go struct of its kind. Relations are names; optional ones are nil pointers when `None`. */
  datatype Entry =
    | SpecialEntry(name: string)
    | ElementEntry(name: string, icon: seq<byte>, iconName: string)
    | RoleEntry(name: string)
    | ArtifactSetEntry(name: string, icon: seq<byte>, iconName: string)
    | ArtifactTypeEntry(name: string, specials: seq<string>, icon: seq<byte>, iconName: string)
    | WeaponTypeEntry(name: string, icon: seq<byte>, iconName: string)
    | WeaponEntry(name: string, rarity: int, weaponType: string, weaponSpecial: Option<string>, icon: seq<byte>, iconName: string)
    | CharacterEntry(name: string, rarity: int, element: Option<string>, weaponType: string, special: string,
                     icon: seq<byte>, iconName: string)
  {
    function Kind(): LegacyKind {
      match this
      case SpecialEntry(_) => Specials
      case ElementEntry(_, _, _) => Elements
      case RoleEntry(_) => CharacterRoles
      case ArtifactSetEntry(_, _, _) => ArtifactSets
      case ArtifactTypeEntry(_, _, _, _) => ArtifactTypes
      case WeaponTypeEntry(_, _, _) => WeaponTypes
      case WeaponEntry(_, _, _, _, _, _) => Weapons
      case CharacterEntry(_, _, _, _, _, _, _) => Characters
    }

    /** Every kind but specials and character roles uploads an icon. */
    predicate HasIcon() {
      !(SpecialEntry? || RoleEntry?)
    }
  }

  // ---- Scanning a row ----

  function ScanInt(row: Row, c: string): Option<int> {
    if c !in row then Some(0) else if row[c].Number? then Some(row[c].n) else None
  }

  /** A `*string` column: NULL (a column the row does not hold) scans as nil. */
  function ScanOptText(row: Row, c: string): Option<Option<string>> {
    if c !in row then Some(None) else if row[c].Text? then Some(Some(row[c].s)) else None
  }

  /** A `types.JSONArray[string]` column. */
  function ScanJson(row: Row, c: string): Option<seq<string>> {
    if c !in row then Some([]) else if row[c].Text? then JsonArray.Unmarshal(row[c].s) else None
  }

  /** One row scanned into its kind's struct; a column of the wrong type is a scan error. */
  function ScanEntry(k: LegacyKind, row: Row): (r: Result<Entry, Error>)
    ensures r.Ok? ==> r.value.Kind() == k
  {
    var name := ScanText(row, "name");
    var icon := ScanBlob(row, "icon_content");
    var iconName := ScanText(row, "icon_filename");
    var bad := Err(ScanError(LegacyTable(k)));
    if name.None? then bad
    else if (k == Specials || k == CharacterRoles) then
      if k == Specials then Ok(SpecialEntry(name.value)) else Ok(RoleEntry(name.value))
    else if icon.None? || iconName.None? then bad
    else
      match k
      case Elements => Ok(ElementEntry(name.value, icon.value, iconName.value))
      case ArtifactSets => Ok(ArtifactSetEntry(name.value, icon.value, iconName.value))
      case WeaponTypes => Ok(WeaponTypeEntry(name.value, icon.value, iconName.value))
      case ArtifactTypes =>
        var specials := ScanJson(row, "specials");
        if specials.None? then bad
        else Ok(ArtifactTypeEntry(name.value, specials.value, icon.value, iconName.value))
      case Weapons =>
        var rarity := ScanInt(row, "rarity");
        var wt := ScanText(row, "type");
        var special := ScanOptText(row, "special");
        if rarity.None? || wt.None? || special.None? then bad
        else Ok(WeaponEntry(name.value, rarity.value, wt.value, special.value, icon.value, iconName.value))
      case Characters =>
        var rarity := ScanInt(row, "rarity");
        var element := ScanOptText(row, "element");
        var wt := ScanText(row, "weapon_type");
        var special := ScanText(row, "special");
        if rarity.None? || element.None? || wt.None? || special.None? then bad
        else Ok(CharacterEntry(name.value, rarity.value, element.value, wt.value, special.value, icon.value, iconName.value))
      case _ => bad
  }

  function ScanEntries(k: LegacyKind, rows: seq<Row>): (r: Result<seq<Entry>, Error>)
    ensures r.Ok? ==> |r.value| == |rows| && forall i :: 0 <= i < |rows| ==> ScanEntry(k, rows[i]) == Ok(r.value[i])
  {
    if rows == [] then Ok([])
    else
      match (ScanEntry(k, rows[0]), ScanEntries(k, rows[1..]))
      case (Ok(x), Ok(xs)) => Ok([x] + xs)
      case (Err(e), _) => Err(e)
      case (_, Err(e)) => Err(e)
  }

  // ---- Saving one entry ----

  /** `record.Set(field, v)`. */
  function Set(r: Record, field: string, v: Value): Record {
    Record(r.id, r.fields[field := v])
  }

  /**
   * `upsertRecordByName`: the first record of the collection with that name,
   * or a new record carrying the name under the id the store gives it.
   */
  function UpsertByName(st: Store, f: Faults, newId: (string, string) -> string, coll: string, name: string)
    : (r: Result<Record, Error>)
    ensures r.Ok? ==> GetString(r.value, "name") == name
    ensures FindFirstByData(st, f, coll, "name", name).Ok? ==> r == FindFirstByData(st, f, coll, "name", name)
    ensures FindFirstByData(st, f, coll, "name", name) == Err(NoRows) ==>
              r == Ok(Record(newId(coll, name), map["name" := Text(name)]))
  {
    match FindFirstByData(st, f, coll, "name", name)
    case Err(NoRows) => Ok(Record(newId(coll, name), map["name" := Text(name)]))
    case Err(e) => Err(e)
    case Ok(rec) => Ok(rec)
  }

  /** `app.FindFirstRecordByData(coll, "name", name).Id`. */
  function Resolve(st: Store, f: Faults, coll: string, name: string): (r: Result<string, Error>)
    ensures r.Ok? <==> FindFirstByData(st, f, coll, "name", name).Ok?
    ensures r.Ok? ==> r.value == FindFirstByData(st, f, coll, "name", name).value.id
  {
    match FindFirstByData(st, f, coll, "name", name)
    case Err(e) => Err(e)
    case Ok(rec) => Ok(rec.id)
  }

  /**
   * The special names of an artifact type resolved to ids in order; the first
   * name that does not resolve is the error.
   */
  function ResolveAll(st: Store, f: Faults, names: seq<string>): (r: Result<seq<string>, Error>)
    ensures r.Ok? ==> |r.value| == |names| &&
                      forall i :: 0 <= i < |names| ==> Resolve(st, f, C.SPECIALS, names[i]) == Ok(r.value[i])
  {
    if names == [] then Ok([])
    else
      var init := names[..|names| - 1];
      match ResolveAll(st, f, init)
      case Err(e) => Err(e)
      case Ok(ids) =>
        match Resolve(st, f, C.SPECIALS, names[|names| - 1])
        case Err(e) => Err(e)
        case Ok(id) =>
          assert forall i :: 0 <= i < |init| ==> names[i] == init[i];
          Ok(ids + [id])
  }

  /** A failed resolution reports the first name that does not resolve; the names before it all resolve. */
  lemma {:induction false} ResolveAllFirstFailure(st: Store, f: Faults, names: seq<string>) returns (i: nat)
    requires ResolveAll(st, f, names).Err?
    ensures i < |names| && Resolve(st, f, C.SPECIALS, names[i]) == Err(ResolveAll(st, f, names).error)
    ensures forall j :: 0 <= j < i ==> Resolve(st, f, C.SPECIALS, names[j]).Ok?
  {
    var init := names[..|names| - 1];
    if ResolveAll(st, f, init).Err? {
      i := ResolveAllFirstFailure(st, f, init);
      assert names[i] == init[i];
      assert forall j :: 0 <= j < i ==> names[j] == init[j];
    } else {
      i := |names| - 1;
      var ids := ResolveAll(st, f, init).value;
      assert forall j :: 0 <= j < i ==> names[j] == init[j];
    }
  }

  /** The loop of `ArtifactType.Save` collecting special ids. */
  method ResolveSpecials(app: App, names: seq<string>) returns (ids: seq<string>, err: Option<Error>)
    ensures ResolveAll(app.store, app.faults, names).Ok? ==> err == None && ids == ResolveAll(app.store, app.faults, names).value
    ensures ResolveAll(app.store, app.faults, names).Err? ==> err == Some(ResolveAll(app.store, app.faults, names).error)
  {
    ids := [];
    for i := 0 to |names|
      invariant ResolveAll(app.store, app.faults, names[..i]) == Ok(ids)
    {
      assert names[..i + 1][..i] == names[..i];
      var special := Resolve(app.store, app.faults, C.SPECIALS, names[i]);
      if special.Err? {
        ResolveAllStops(app.store, app.faults, names, i + 1);
        return ids, Some(special.error);
      }
      ids := ids + [special.value];
    }
    assert names[..|names|] == names;
    err := None;
  }

  /** Once a prefix fails to resolve, every longer prefix fails with the same error. */
  lemma {:induction false} ResolveAllStops(st: Store, f: Faults, names: seq<string>, n: nat)
    requires 0 < n <= |names|
    requires ResolveAll(st, f, names[..n]).Err?
    ensures ResolveAll(st, f, names) == ResolveAll(st, f, names[..n])
    decreases |names| - n
  {
    if n == |names| {
      assert names[..n] == names;
    } else {
      assert names[..n + 1][..n] == names[..n];
      ResolveAllStops(st, f, names, n + 1);
    }
  }

  /** An optional relation: nil leaves the record as it is, a name is resolved and its id set. */
  function SetRelation(st: Store, f: Faults, rec: Record, field: string, coll: string, name: Option<string>)
    : (r: Result<Record, Error>)
    requires field != "name"
    ensures name.None? ==> r == Ok(rec)
    ensures r.Ok? ==> r.value.id == rec.id
    ensures r.Ok? ==> GetString(r.value, "name") == GetString(rec, "name")
    ensures r.Ok? ==> forall c :: c in rec.fields && c != field ==> c in r.value.fields && r.value.fields[c] == rec.fields[c]
  {
    match name
    case None => Ok(rec)
    case Some(n) =>
      match Resolve(st, f, coll, n)
      case Err(e) => Err(e)
      case Ok(id) => Ok(Set(rec, field, Text(id)))
  }

  /** The fields a kind's `Save` sets besides the name and the icon. */
  predicate Filled(e: Entry, c: string) {
    match e
    case ArtifactTypeEntry(_, _, _, _) => c == "specials"
    case WeaponEntry(_, _, _, _, _, _) => c == "rarity" || c == "weapon_type" || c == "special"
    case CharacterEntry(_, _, _, _, _, _, _) => c == "rarity" || c == "element" || c == "weapon_type" || c == "special"
    case _ => false
  }

  /** `ArtifactType.Save`'s field: the ids of its specials. */
  function FillArtifactType(st: Store, f: Faults, rec: Record, specials: seq<string>): (r: Result<Record, Error>)
    ensures r.Ok? ==> r.value.id == rec.id
    ensures r.Ok? ==> GetString(r.value, "name") == GetString(rec, "name")
    ensures r.Ok? ==> forall c :: c in rec.fields && c != "specials" ==> c in r.value.fields && r.value.fields[c] == rec.fields[c]
  {
    match ResolveAll(st, f, specials)
    case Err(err) => Err(err)
    case Ok(ids) => Ok(Set(rec, "specials", Texts(ids)))
  }

  /** `Weapon.Save`'s fields: the rarity, the weapon type, and the special when there is one. */
  function FillWeapon(st: Store, f: Faults, rec: Record, rarity: int, weaponType: string, special: Option<string>)
    : (r: Result<Record, Error>)
    ensures r.Ok? ==> r.value.id == rec.id
    ensures r.Ok? ==> GetString(r.value, "name") == GetString(rec, "name")
    ensures r.Ok? ==> forall c :: c in rec.fields && c != "rarity" && c != "weapon_type" && c != "special" ==>
                        c in r.value.fields && r.value.fields[c] == rec.fields[c]
    ensures r.Ok? && special.None? && "special" in rec.fields ==>
              "special" in r.value.fields && r.value.fields["special"] == rec.fields["special"]
  {
    var rec := Set(rec, "rarity", Number(rarity));
    match Resolve(st, f, C.WEAPON_TYPES, weaponType)
    case Err(err) => Err(err)
    case Ok(wt) => SetRelation(st, f, Set(rec, "weapon_type", Text(wt)), "special", C.SPECIALS, special)
  }

  /** `Character.Save`'s fields: the rarity, the element when there is one, the weapon type and the special. */
  function FillCharacter(st: Store, f: Faults, rec: Record, rarity: int, element: Option<string>, weaponType: string,
                         special: string): (r: Result<Record, Error>)
    ensures r.Ok? ==> r.value.id == rec.id
    ensures r.Ok? ==> GetString(r.value, "name") == GetString(rec, "name")
    ensures r.Ok? ==> forall c :: c in rec.fields && c != "rarity" && c != "element" && c != "weapon_type" && c != "special" ==>
                        c in r.value.fields && r.value.fields[c] == rec.fields[c]
    ensures r.Ok? && element.None? && "element" in rec.fields ==>
              "element" in r.value.fields && r.value.fields["element"] == rec.fields["element"]
  {
    match SetRarityAndElement(st, f, rec, rarity, element)
    case Err(err) => Err(err)
    case Ok(rec) => SetTypeAndSpecial(st, f, rec, weaponType, special)
  }

  /** The rarity of a character and its element, which may be nil. */
  function SetRarityAndElement(st: Store, f: Faults, rec: Record, rarity: int, element: Option<string>): (r: Result<Record, Error>)
    ensures r.Ok? ==> r.value.id == rec.id
    ensures r.Ok? ==> GetString(r.value, "name") == GetString(rec, "name")
    ensures r.Ok? ==> forall c :: c in rec.fields && c != "rarity" && c != "element" ==>
                        c in r.value.fields && r.value.fields[c] == rec.fields[c]
    ensures r.Ok? && element.None? && "element" in rec.fields ==>
              "element" in r.value.fields && r.value.fields["element"] == rec.fields["element"]
  {
    SetRelation(st, f, Set(rec, "rarity", Number(rarity)), "element", C.ELEMENTS, element)
  }

  /** The weapon type and the special of a character, both required. */
  function SetTypeAndSpecial(st: Store, f: Faults, rec: Record, weaponType: string, special: string): (r: Result<Record, Error>)
    ensures r.Ok? ==> r.value.id == rec.id
    ensures r.Ok? ==> GetString(r.value, "name") == GetString(rec, "name")
    ensures r.Ok? ==> forall c :: c in rec.fields && c != "weapon_type" && c != "special" ==>
                        c in r.value.fields && r.value.fields[c] == rec.fields[c]
  {
    match Resolve(st, f, C.WEAPON_TYPES, weaponType)
    case Err(err) => Err(err)
    case Ok(wt) =>
      var rec := Set(rec, "weapon_type", Text(wt));
      match Resolve(st, f, C.SPECIALS, special)
      case Err(err) => Err(err)
      case Ok(sp) => Ok(Set(rec, "special", Text(sp)))
  }

  /** The `record.Set` calls of `Save` for the data and relation fields, in the order the Go code makes them. */
  function Fill(st: Store, f: Faults, e: Entry, rec: Record): (r: Result<Record, Error>)
    ensures r.Ok? ==> r.value.id == rec.id
    ensures r.Ok? ==> forall c :: c in rec.fields && !Filled(e, c) ==> c in r.value.fields && r.value.fields[c] == rec.fields[c]
  {
    if e.ArtifactTypeEntry? then FillArtifactType(st, f, rec, e.specials)
    else if e.WeaponEntry? then FillWeapon(st, f, rec, e.rarity, e.weaponType, e.weaponSpecial)
    else if e.CharacterEntry? then FillCharacter(st, f, rec, e.rarity, e.element, e.weaponType, e.special)
    else Ok(rec)
  }

  /** The icon upload of `Save`, for the kinds that have one. */
  function AttachIcon(e: Entry, rec: Record): (r: Result<Record, Error>)
    ensures r.Ok? ==> r.value.id == rec.id
    ensures r.Ok? ==> GetString(r.value, "name") == GetString(rec, "name")
    ensures r.Ok? ==> forall c :: c in rec.fields && c != "icon" ==> c in r.value.fields && r.value.fields[c] == rec.fields[c]
    ensures !e.HasIcon() ==> r == Ok(rec)
  {
    if !e.HasIcon() then Ok(rec)
    else
      match NewFileFromBytes(e.icon, e.iconName)
      case Err(err) => Err(err)
      case Ok(file) => Ok(Set(rec, "icon", file))
  }

  /** The record a kind's `Save` writes: found or created by name, its fields set, its icon attached. */
  function Prepared(st: Store, f: Faults, newId: (string, string) -> string, e: Entry): (r: Result<Record, Error>)
    ensures r.Ok? ==> UpsertByName(st, f, newId, Collection(e.Kind()), e.name).Ok?
    ensures r.Ok? ==> var rec := UpsertByName(st, f, newId, Collection(e.Kind()), e.name).value;
                      r.value.id == rec.id &&
                      forall c :: c in rec.fields && !Filled(e, c) && c != "icon" ==> c in r.value.fields && r.value.fields[c] == rec.fields[c]
    ensures r.Ok? ==> GetString(r.value, "name") == e.name
  {
    match UpsertByName(st, f, newId, Collection(e.Kind()), e.name)
    case Err(err) => Err(err)
    case Ok(rec) =>
      match Fill(st, f, e, rec)
      case Err(err) => Err(err)
      case Ok(rec) => AttachIcon(e, rec)
  }

  /** A kind's `Save`: the prepared record saved to the kind's collection. */
  function SaveEntry(st: Store, f: Faults, newId: (string, string) -> string, e: Entry): Result<Store, Error> {
    match Prepared(st, f, newId, e)
    case Err(err) => Err(err)
    case Ok(rec) => SaveRecord(st, f, Collection(e.Kind()), rec)
  }

  method Save(app: App, newId: (string, string) -> string, e: Entry) returns (err: Option<Error>)
    modifies app
    ensures SaveEntry(old(app.store), app.faults, newId, e).Ok? ==>
              err == None && app.store == SaveEntry(old(app.store), app.faults, newId, e).value
    ensures SaveEntry(old(app.store), app.faults, newId, e).Err? ==>
              err == Some(SaveEntry(old(app.store), app.faults, newId, e).error) && app.store == old(app.store)
  {
    var coll := Collection(e.Kind());
    var found := UpsertByName(app.store, app.faults, newId, coll, e.name);
    if found.Err? {
      return Some(found.error);
    }
    var record := found.value;
    var filled := Fill(app.store, app.faults, e, record);
    match e {
      case ArtifactTypeEntry(_, specials, _, _) =>
        var ids;
        ids, err := ResolveSpecials(app, specials);
        if err.Some? {
          return;
        }
        record := Set(record, "specials", Texts(ids));
      case WeaponEntry(_, rarity, weaponType, special, _, _) =>
        record := Set(record, "rarity", Number(rarity));
        var wt := Resolve(app.store, app.faults, C.WEAPON_TYPES, weaponType);
        if wt.Err? {
          return Some(wt.error);
        }
        record := Set(record, "weapon_type", Text(wt.value));
        if special.Some? {
          var sp := Resolve(app.store, app.faults, C.SPECIALS, special.value);
          if sp.Err? {
            return Some(sp.error);
          }
          record := Set(record, "special", Text(sp.value));
        }
      case CharacterEntry(_, rarity, element, weaponType, special, _, _) =>
        record := Set(record, "rarity", Number(rarity));
        if element.Some? {
          var el := Resolve(app.store, app.faults, C.ELEMENTS, element.value);
          if el.Err? {
            return Some(el.error);
          }
          record := Set(record, "element", Text(el.value));
        }
        var wt := Resolve(app.store, app.faults, C.WEAPON_TYPES, weaponType);
        if wt.Err? {
          return Some(wt.error);
        }
        record := Set(record, "weapon_type", Text(wt.value));
        var sp := Resolve(app.store, app.faults, C.SPECIALS, special);
        if sp.Err? {
          return Some(sp.error);
        }
        record := Set(record, "special", Text(sp.value));
      case _ =>
    }
    assert filled == Ok(record);
    if e.HasIcon() {
      var file := NewFileFromBytes(e.icon, e.iconName);
      if file.Err? {
        return Some(file.error);
      }
      record := Set(record, "icon", file.value);
    }
    err := app.Save(coll, record);
  }

  // ---- Properties of one save ----

  /** A save rewrites the kind's collection by upserting the prepared record by id. */
  lemma SavedTable(st: Store, f: Faults, newId: (string, string) -> string, e: Entry)
    requires SaveEntry(st, f, newId, e).Ok?
    ensures Prepared(st, f, newId, e).Ok? && Collection(e.Kind()) in st.tables
    ensures SaveEntry(st, f, newId, e).value.tables[Collection(e.Kind())] ==
            Upsert(st.tables[Collection(e.Kind())], Persisted(Collection(e.Kind()), Prepared(st, f, newId, e).value))
  {
  }

  /** The name is the natural key: after a save the collection holds a record with the entry's name. */
  lemma SaveKeepsName(st: Store, f: Faults, newId: (string, string) -> string, e: Entry)
    requires SaveEntry(st, f, newId, e).Ok?
    ensures var rs' := SaveEntry(st, f, newId, e).value.tables[Collection(e.Kind())];
            exists j :: 0 <= j < |rs'| && GetString(rs'[j], "name") == e.name
  {
    var coll := Collection(e.Kind());
    SavedTable(st, f, newId, e);
    var saved := Prepared(st, f, newId, e).value;
    PersistedKeeps(coll, saved, "name");
    var rs' := SaveEntry(st, f, newId, e).value.tables[coll];
    var j :| 0 <= j < |rs'| && rs'[j] == Persisted(coll, saved);
  }

  /** When a record with the name exists, it is rewritten under its own id and no record is added. */
  lemma SaveReusesNamed(st: Store, f: Faults, newId: (string, string) -> string, e: Entry)
    requires SaveEntry(st, f, newId, e).Ok?
    requires FindFirstByData(st, f, Collection(e.Kind()), "name", e.name).Ok?
    ensures var coll := Collection(e.Kind());
            var rs' := SaveEntry(st, f, newId, e).value.tables[coll];
            |rs'| == |st.tables[coll]| &&
            exists j :: 0 <= j < |rs'| && rs'[j].id == FindFirstByData(st, f, coll, "name", e.name).value.id
  {
    var coll := Collection(e.Kind());
    SavedTable(st, f, newId, e);
    var saved := Prepared(st, f, newId, e).value;
    var rs := st.tables[coll];
    var found := FindFirstByData(st, f, coll, "name", e.name).value;
    assert saved.id == found.id;
    var i :| 0 <= i < |rs| && rs[i] == found;
    assert IndexOfId(rs, saved.id) >= 0;
    var rs' := SaveEntry(st, f, newId, e).value.tables[coll];
    var j :| 0 <= j < |rs'| && rs'[j] == Persisted(coll, saved);
  }

  /** Without a record of that name, one record is added at the end under the new id. */
  lemma SaveAddsUnnamed(st: Store, f: Faults, newId: (string, string) -> string, e: Entry)
    requires SaveEntry(st, f, newId, e).Ok?
    requires FindFirstByData(st, f, Collection(e.Kind()), "name", e.name) == Err(NoRows)
    requires var rs := st.tables[Collection(e.Kind())];
             forall k :: 0 <= k < |rs| ==> rs[k].id != newId(Collection(e.Kind()), e.name)
    ensures var coll := Collection(e.Kind());
            var rs' := SaveEntry(st, f, newId, e).value.tables[coll];
            |rs'| == |st.tables[coll]| + 1 && rs'[|st.tables[coll]|].id == newId(coll, e.name)
  {
    var coll := Collection(e.Kind());
    SavedTable(st, f, newId, e);
    var saved := Prepared(st, f, newId, e).value;
    assert saved.id == newId(coll, e.name);
    assert IndexOfId(st.tables[coll], saved.id) < 0;
  }

  /** A nil weapon special or character element leaves the prepared record's value of that field as it was. */
  lemma PreparedKeepsNil(st: Store, f: Faults, newId: (string, string) -> string, e: Entry, field: string)
    requires (e.WeaponEntry? && e.weaponSpecial.None? && field == "special") ||
             (e.CharacterEntry? && e.element.None? && field == "element")
    requires Prepared(st, f, newId, e).Ok?
    requires var rec := UpsertByName(st, f, newId, Collection(e.Kind()), e.name); rec.Ok? && field in rec.value.fields
    ensures var rec := UpsertByName(st, f, newId, Collection(e.Kind()), e.name).value;
            var p := Persisted(Collection(e.Kind()), Prepared(st, f, newId, e).value);
            p.id == rec.id && field in p.fields && p.fields[field] == rec.fields[field]
  {
    var rec := UpsertByName(st, f, newId, Collection(e.Kind()), e.name).value;
    FillKeepsNil(st, f, e, rec, field);
    PreparedIsFilled(st, f, newId, e);
  }

  /** The prepared record is the filled record with its icon attached. */
  lemma PreparedIsFilled(st: Store, f: Faults, newId: (string, string) -> string, e: Entry)
    requires Prepared(st, f, newId, e).Ok?
    ensures var rec := UpsertByName(st, f, newId, Collection(e.Kind()), e.name).value;
            Fill(st, f, e, rec).Ok? && AttachIcon(e, Fill(st, f, e, rec).value) == Prepared(st, f, newId, e)
  {
  }

  /** The nil relation's field is left as it was by the fill step. */
  lemma FillKeepsNil(st: Store, f: Faults, e: Entry, rec: Record, field: string)
    requires (e.WeaponEntry? && e.weaponSpecial.None? && field == "special") ||
             (e.CharacterEntry? && e.element.None? && field == "element")
    requires Fill(st, f, e, rec).Ok? && field in rec.fields
    ensures field in Fill(st, f, e, rec).value.fields && Fill(st, f, e, rec).value.fields[field] == rec.fields[field]
  {
  }

  /**
   * A nil optional relation is never set, so a value already stored on the
   * existing record survives the save.
   */
  lemma NilRelationKeepsStored(st: Store, f: Faults, newId: (string, string) -> string, e: Entry, field: string)
    requires (e.WeaponEntry? && e.weaponSpecial.None? && field == "special") ||
             (e.CharacterEntry? && e.element.None? && field == "element")
    requires SaveEntry(st, f, newId, e).Ok?
    requires FindFirstByData(st, f, Collection(e.Kind()), "name", e.name).Ok?
    requires field in FindFirstByData(st, f, Collection(e.Kind()), "name", e.name).value.fields
    ensures var old_ := FindFirstByData(st, f, Collection(e.Kind()), "name", e.name).value;
            var rs' := SaveEntry(st, f, newId, e).value.tables[Collection(e.Kind())];
            exists j :: 0 <= j < |rs'| && rs'[j].id == old_.id && field in rs'[j].fields &&
                        rs'[j].fields[field] == old_.fields[field]
  {
    var coll := Collection(e.Kind());
    SavedTable(st, f, newId, e);
    PreparedKeepsNil(st, f, newId, e, field);
    var p := Persisted(coll, Prepared(st, f, newId, e).value);
    var rs' := SaveEntry(st, f, newId, e).value.tables[coll];
    var j :| 0 <= j < |rs'| && rs'[j] == p;
  }

  /** Specials and character roles save the found or new record as it is: nothing beyond the name is set. */
  lemma NameOnlySaves(st: Store, f: Faults, newId: (string, string) -> string, e: Entry)
    requires e.SpecialEntry? || e.RoleEntry?
    requires SaveEntry(st, f, newId, e).Ok?
    ensures var coll := Collection(e.Kind());
            var rec := UpsertByName(st, f, newId, coll, e.name).value;
            Prepared(st, f, newId, e) == Ok(rec) &&
            (FindFirstByData(st, f, coll, "name", e.name) == Err(NoRows) ==> rec.fields == map["name" := Text(e.name)])
  {
  }

  // ---- The run ----

  /** The entries saved in order; the first failure stops the run and the saves before it stay. */
  function SaveAll(st: Store, f: Faults, newId: (string, string) -> string, es: seq<Entry>): Outcome
    decreases |es|
  {
    if es == [] then Outcome(st, None)
    else
      match SaveEntry(st, f, newId, es[0])
      case Err(e) => Outcome(st, Some(e))
      case Ok(st') => SaveAll(st', f, newId, es[1..])
  }

  /** `seedCollection`: the table's rows scanned, then saved in order. */
  function LegacyTableRun(st: Store, f: Faults, newId: (string, string) -> string, tables: map<string, Table>, k: LegacyKind)
    : Outcome
  {
    if LegacyTable(k) !in tables then Outcome(st, Some(MissingTable(LegacyTable(k))))
    else
      match ScanEntries(k, tables[LegacyTable(k)].rows)
      case Err(e) => Outcome(st, Some(e))
      case Ok(es) => SaveAll(st, f, newId, es)
  }

  /** The kinds seeded in order until one fails. */
  function LegacyKinds(st: Store, f: Faults, newId: (string, string) -> string, tables: map<string, Table>, ks: seq<LegacyKind>)
    : Outcome
    decreases |ks|
  {
    if ks == [] then Outcome(st, None)
    else
      var o := LegacyTableRun(st, f, newId, tables, ks[0]);
      if o.err.Some? then o else LegacyKinds(o.store, f, newId, tables, ks[1..])
  }

  /**
   * `Seed`: the connection error is returned; after that every kind is seeded
   * in order, and a failure ends the run without an error and without undoing
   * the kinds already written.
   */
  function LegacySeedRun(st: Store, f: Faults, newId: (string, string) -> string, disk: Disk,
                         decode: seq<byte> -> map<string, Table>, path: string): Outcome
  {
    if f.Fails(Connect, path, "") then Outcome(st, Some(Fault(Connect, path)))
    else Outcome(LegacyKinds(st, f, newId, DbFile(disk, decode, path), LEGACY_ORDER).store, None)
  }

  method SaveEntries(app: App, newId: (string, string) -> string, es: seq<Entry>) returns (err: Option<Error>)
    modifies app
    ensures SaveAll(old(app.store), app.faults, newId, es) == Outcome(app.store, err)
  {
    ghost var st0 := app.store;
    var i := 0;
    while i < |es|
      invariant 0 <= i <= |es|
      invariant SaveAll(st0, app.faults, newId, es) == SaveAll(app.store, app.faults, newId, es[i..])
    {
      ghost var step := SaveEntry(app.store, app.faults, newId, es[i]);
      assert es[i..][0] == es[i] && es[i..][1..] == es[i + 1..];
      err := Save(app, newId, es[i]);
      if err.Some? {
        assert step.Err?;
        return;
      }
      i := i + 1;
    }
    assert es[i..] == [];
    err := None;
  }

  method LegacySeedCollection(app: App, db: DumpDb, newId: (string, string) -> string, k: LegacyKind)
    returns (err: Option<Error>)
    modifies app
    ensures LegacyTableRun(old(app.store), app.faults, newId, db.tables, k) == Outcome(app.store, err)
  {
    var rows := db.SelectAll(LegacyTable(k));
    if rows.Err? {
      return Some(rows.error);
    }
    var scanned := ScanEntries(k, rows.value);
    if scanned.Err? {
      return Some(scanned.error);
    }
    err := SaveEntries(app, newId, scanned.value);
  }

  /**
   * The eight `seedCollection` calls of `Seed`, each ending the run on
   * failure; the repeated calls are written as one loop over the order.
   */
  method Seed(app: App, disk: Disk, decode: seq<byte> -> map<string, Table>, newId: (string, string) -> string, path: string)
    returns (err: Option<Error>)
    modifies app
    ensures LegacySeedRun(old(app.store), app.faults, newId, disk, decode, path) == Outcome(app.store, err)
  {
    if app.faults.Fails(Connect, path, "") {
      return Some(Fault(Connect, path));
    }
    var db := new DumpDb(DbFile(disk, decode, path), app.faults);
    ghost var st0 := app.store;
    var i := 0;
    while i < |LEGACY_ORDER|
      invariant 0 <= i <= |LEGACY_ORDER|
      invariant db.tables == DbFile(disk, decode, path)
      invariant LegacyKinds(st0, app.faults, newId, db.tables, LEGACY_ORDER) ==
                LegacyKinds(app.store, app.faults, newId, db.tables, LEGACY_ORDER[i..])
    {
      ghost var rest := LEGACY_ORDER[i..];
      assert rest[0] == LEGACY_ORDER[i] && rest[1..] == LEGACY_ORDER[i + 1..];
      var e := LegacySeedCollection(app, db, newId, LEGACY_ORDER[i]);
      if e.Some? {
        return None;
      }
      i := i + 1;
    }
    assert LEGACY_ORDER[i..] == [];
    err := None;
  }

  // ---- Properties of the run ----

  /** When the kind at position `i` fails, the run's store is the one left by the kinds before it. */
  lemma {:induction false} LegacyKindsKeepsPrefix(st: Store, f: Faults, newId: (string, string) -> string,
                                                  tables: map<string, Table>, ks: seq<LegacyKind>, i: nat)
    requires i < |ks|
    requires LegacyKinds(st, f, newId, tables, ks[..i]).err == None
    requires LegacyTableRun(LegacyKinds(st, f, newId, tables, ks[..i]).store, f, newId, tables, ks[i]).err.Some?
    ensures LegacyKinds(st, f, newId, tables, ks).err.Some?
    ensures LegacyKinds(st, f, newId, tables, ks).store ==
            LegacyTableRun(LegacyKinds(st, f, newId, tables, ks[..i]).store, f, newId, tables, ks[i]).store
    decreases i
  {
    if i == 0 {
      assert ks[..0] == [];
    } else {
      var pre := ks[..i];
      assert pre[0] == ks[0] && pre[1..] == ks[1..][..i - 1];
      var o := LegacyTableRun(st, f, newId, tables, ks[0]);
      assert LegacyKinds(st, f, newId, tables, pre) ==
             (if o.err.Some? then o else LegacyKinds(o.store, f, newId, tables, pre[1..]));
      assert o.err.None?;
      var rest := ks[1..];
      assert rest[..i - 1] == pre[1..] && rest[i - 1] == ks[i];
      assert LegacyKinds(o.store, f, newId, tables, rest[..i - 1]) == LegacyKinds(st, f, newId, tables, pre);
      LegacyKindsKeepsPrefix(o.store, f, newId, tables, rest, i - 1);
    }
  }

  /** A save never touches a collection other than its entry's own. */
  lemma SaveEntryOthers(st: Store, f: Faults, newId: (string, string) -> string, e: Entry, c: string)
    requires SaveEntry(st, f, newId, e).Ok? && c != Collection(e.Kind())
    ensures c in st.tables <==> c in SaveEntry(st, f, newId, e).value.tables
    ensures c in st.tables ==> SaveEntry(st, f, newId, e).value.tables[c] == st.tables[c]
  {
  }

  lemma {:induction false} SaveAllOthers(st: Store, f: Faults, newId: (string, string) -> string, es: seq<Entry>, c: string)
    requires forall i :: 0 <= i < |es| ==> Collection(es[i].Kind()) != c
    ensures c in st.tables <==> c in SaveAll(st, f, newId, es).store.tables
    ensures c in st.tables ==> SaveAll(st, f, newId, es).store.tables[c] == st.tables[c]
    decreases |es|
  {
    if es != [] {
      var r := SaveEntry(st, f, newId, es[0]);
      if r.Ok? {
        SaveEntryOthers(st, f, newId, es[0], c);
        SaveAllOthers(r.value, f, newId, es[1..], c);
      }
    }
  }

  lemma {:induction false} LegacyKindsOthers(st: Store, f: Faults, newId: (string, string) -> string,
                                             tables: map<string, Table>, ks: seq<LegacyKind>, c: string)
    requires forall i :: 0 <= i < |ks| ==> Collection(ks[i]) != c
    ensures c in st.tables <==> c in LegacyKinds(st, f, newId, tables, ks).store.tables
    ensures c in st.tables ==> LegacyKinds(st, f, newId, tables, ks).store.tables[c] == st.tables[c]
    decreases |ks|
  {
    if ks != [] {
      var k := ks[0];
      if LegacyTable(k) in tables {
        var es := ScanEntries(k, tables[LegacyTable(k)].rows);
        if es.Ok? {
          SaveAllOthers(st, f, newId, es.value, c);
        }
      }
      var o := LegacyTableRun(st, f, newId, tables, k);
      if o.err.None? {
        LegacyKindsOthers(o.store, f, newId, tables, ks[1..], c);
      }
    }
  }

  /**
   * The run never reports a failure once connected, and it has no domains of
   * blessing step: that collection is left exactly as it was.
   */
  lemma LegacySeedSkipsDomains(st: Store, f: Faults, newId: (string, string) -> string, disk: Disk,
                               decode: seq<byte> -> map<string, Table>, path: string)
    requires !f.Fails(Connect, path, "")
    ensures LegacySeedRun(st, f, newId, disk, decode, path).err == None
    ensures C.DOMAINS_OF_BLESSING in st.tables ==>
              var st' := LegacySeedRun(st, f, newId, disk, decode, path).store;
              C.DOMAINS_OF_BLESSING in st'.tables && st'.tables[C.DOMAINS_OF_BLESSING] == st.tables[C.DOMAINS_OF_BLESSING]
  {
    LegacyKindsOthers(st, f, newId, DbFile(disk, decode, path), LEGACY_ORDER, C.DOMAINS_OF_BLESSING);
  }
}
