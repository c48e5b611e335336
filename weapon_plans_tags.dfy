/**
 * The migration that renames the tags of weapon plans: `now` and `need`
 * become `current` and `target`, and an untagged plan becomes `none`. It
 * rewrites the `tag` column of every row with one SQL `UPDATE … CASE`, then
 * replaces the `tag` select field of the collection's schema with one that
 * allows the new values. The down migration does the reverse.
 */
module WeaponPlansTags {
  import opened Wrappers
  import opened RecordStore
  import C = Collections

  /** The select values the up migration allows. */
  const UP_VALUES: seq<string> := ["none", "current", "target"]
  /** The select values the down migration allows (those of the earlier schema). */
  const DOWN_VALUES: seq<string> := ["now", "need"]

  /** The up migration's `CASE`. */
  function UpTag(tag: string): (r: string)
    ensures r != ""
  {
    if tag == "" then "none"
    else if tag == "now" then "current"
    else if tag == "need" then "target"
    else tag
  }

  /** The down migration's `CASE`. */
  function DownTag(tag: string): (r: string)
    ensures r != "none" && r != "current" && r != "target"
  {
    if tag == "none" then ""
    else if tag == "current" then "now"
    else if tag == "target" then "need"
    else tag
  }

  /** Down undoes up exactly on the tags that are not already new-style names. */
  lemma DownUndoesUp(tag: string)
    ensures DownTag(UpTag(tag)) == tag <==> tag !in UP_VALUES
  {
    if tag in UP_VALUES {
      assert tag == "none" || tag == "current" || tag == "target";
    }
  }

  /** Up undoes down exactly on the tags that are not old-style names. */
  lemma UpUndoesDown(tag: string)
    ensures UpTag(DownTag(tag)) == tag <==> tag != "" && tag !in DOWN_VALUES
  {
    if tag == "" || tag in DOWN_VALUES {
      assert tag == "" || tag == "now" || tag == "need";
    }
  }

  /** A tag the old select field allowed (or the empty tag) becomes one the new field allows, and back. */
  lemma TagsMapBetweenSelects(tag: string)
    ensures tag == "" || tag in DOWN_VALUES ==> UpTag(tag) in UP_VALUES
    ensures tag in UP_VALUES ==> DownTag(tag) == "" || DownTag(tag) in DOWN_VALUES
  {
    if tag in DOWN_VALUES {
      assert tag == "now" || tag == "need";
    }
    if tag in UP_VALUES {
      assert tag == "none" || tag == "current" || tag == "target";
    }
  }

  // Rows

  /**
   * One row under the `CASE`: a text tag is renamed; a NULL tag (no value)
   * or a value of another type matches no `WHEN` and is kept.
   */
  function RetagRecord(r: Record, rename: string -> string): (r': Record)
    ensures r'.id == r.id && r'.fields.Keys == r.fields.Keys
    ensures forall c :: c in r.fields && c != "tag" ==> r'.fields[c] == r.fields[c]
    ensures "tag" in r.fields && r.fields["tag"].Text? ==> r'.fields["tag"] == Text(rename(r.fields["tag"].s))
    ensures "tag" in r.fields && !r.fields["tag"].Text? ==> r'.fields["tag"] == r.fields["tag"]
  {
    if "tag" in r.fields && r.fields["tag"].Text? then Record(r.id, r.fields["tag" := Text(rename(r.fields["tag"].s))])
    else r
  }

  /** The `UPDATE` without a `WHERE`: every row of the table. */
  function RetagRows(rs: seq<Record>, rename: string -> string): (rs': seq<Record>)
    ensures |rs'| == |rs|
    ensures forall i :: 0 <= i < |rs| ==> rs'[i] == RetagRecord(rs[i], rename)
  {
    seq(|rs|, i requires 0 <= i < |rs| => RetagRecord(rs[i], rename))
  }

  /** The text tag of a row, if it has one. */
  function Tag(r: Record): Option<string> {
    if "tag" in r.fields && r.fields["tag"].Text? then Some(r.fields["tag"].s) else None
  }

  /** Running down after up gives back every row whose tag was not already a new-style name. */
  lemma {:induction false} RowsRoundTrip(rs: seq<Record>)
    requires forall i :: 0 <= i < |rs| ==> Tag(rs[i]) !in {Some("none"), Some("current"), Some("target")}
    ensures RetagRows(RetagRows(rs, UpTag), DownTag) == rs
  {
    var back := RetagRows(RetagRows(rs, UpTag), DownTag);
    forall i | 0 <= i < |rs|
      ensures back[i] == rs[i]
    {
      var r := rs[i];
      if "tag" in r.fields && r.fields["tag"].Text? {
        var t := r.fields["tag"].s;
        assert Tag(r) == Some(t);
        DownUndoesUp(t);
        assert back[i].fields == r.fields;
      }
    }
  }

  /** After up, every row that held an empty or old-style tag holds one of the new select values. */
  lemma RowsConformAfterUp(rs: seq<Record>)
    ensures forall i :: 0 <= i < |rs| && Tag(rs[i]).Some? && (Tag(rs[i]).value == "" || Tag(rs[i]).value in DOWN_VALUES) ==>
              Tag(RetagRows(rs, UpTag)[i]).Some? && Tag(RetagRows(rs, UpTag)[i]).value in UP_VALUES
  {
    forall i | 0 <= i < |rs| && Tag(rs[i]).Some? && (Tag(rs[i]).value == "" || Tag(rs[i]).value in DOWN_VALUES)
      ensures Tag(RetagRows(rs, UpTag)[i]).Some? && Tag(RetagRows(rs, UpTag)[i]).value in UP_VALUES
    {
      TagsMapBetweenSelects(Tag(rs[i]).value);
    }
  }

  // Schema

  /** A field of a collection's schema; `values` are a select field's options and empty for other kinds. */
  datatype Field = Field(id: string, name: string, values: seq<string>)

  /** `Fields.GetByName`: the position of the first field with that name, or -1. */
  function IndexOfName(fields: seq<Field>, name: string): (i: int)
    ensures -1 <= i < |fields|
    ensures i == -1 <==> forall k :: 0 <= k < |fields| ==> fields[k].name != name
    ensures i >= 0 ==> fields[i].name == name && forall k :: 0 <= k < i ==> fields[k].name != name
  {
    if |fields| == 0 then -1
    else if fields[0].name == name then 0
    else var j := IndexOfName(fields[1..], name); if j == -1 then -1 else j + 1
  }

  /** The position of the field with that id, or -1. */
  function IndexOfFieldId(fields: seq<Field>, id: string): (i: int)
    ensures -1 <= i < |fields|
    ensures i == -1 <==> forall k :: 0 <= k < |fields| ==> fields[k].id != id
    ensures i >= 0 ==> fields[i].id == id
  {
    if |fields| == 0 then -1
    else if fields[0].id == id then 0
    else var j := IndexOfFieldId(fields[1..], id); if j == -1 then -1 else j + 1
  }

  /**
   * `Fields.Add`: a field whose id is already in the schema replaces that
   * field where it stands; any other field is appended.
   */
  function AddField(fields: seq<Field>, fd: Field): (r: seq<Field>)
    ensures IndexOfFieldId(fields, fd.id) >= 0 ==>
              (|r| == |fields| && r[IndexOfFieldId(fields, fd.id)] == fd &&
               forall k :: 0 <= k < |fields| && k != IndexOfFieldId(fields, fd.id) ==> r[k] == fields[k])
    ensures IndexOfFieldId(fields, fd.id) == -1 ==> r == fields + [fd]
  {
    var i := IndexOfFieldId(fields, fd.id);
    if i >= 0 then fields[i := fd] else fields + [fd]
  }

  /**
   * The new `tag` select field: it keeps the id of the current `tag` field
   * when there is one; otherwise the schema gives it `defaultId`.
   */
  function TagField(fields: seq<Field>, values: seq<string>, defaultId: string): (fd: Field)
    ensures fd.name == "tag" && fd.values == values
    ensures IndexOfName(fields, "tag") >= 0 ==> fd.id == fields[IndexOfName(fields, "tag")].id
  {
    var i := IndexOfName(fields, "tag");
    Field(if i >= 0 then fields[i].id else defaultId, "tag", values)
  }

  /** The schema a tag migration saves. */
  function Retyped(fields: seq<Field>, values: seq<string>, defaultId: string): seq<Field> {
    AddField(fields, TagField(fields, values, defaultId))
  }

  /**
   * An existing `tag` field is replaced where it stands, under its own id,
   * and nothing else in the schema changes.
   */
  lemma RetypedReplacesTag(fields: seq<Field>, values: seq<string>, defaultId: string)
    requires IndexOfName(fields, "tag") >= 0
    requires forall i, j :: 0 <= i < j < |fields| ==> fields[i].id != fields[j].id
    ensures var t := IndexOfName(fields, "tag");
            var r := Retyped(fields, values, defaultId);
            |r| == |fields| && r[t] == Field(fields[t].id, "tag", values) &&
            forall k :: 0 <= k < |fields| && k != t ==> r[k] == fields[k]
  {
    var t := IndexOfName(fields, "tag");
    var fd := TagField(fields, values, defaultId);
    var i := IndexOfFieldId(fields, fd.id);
    assert fields[t].id == fd.id;
    assert i == t;
  }

  /** Without a `tag` field the new one is appended under the default id. */
  lemma RetypedAddsTag(fields: seq<Field>, values: seq<string>, defaultId: string)
    requires IndexOfName(fields, "tag") == -1
    requires forall k :: 0 <= k < |fields| ==> fields[k].id != defaultId
    ensures Retyped(fields, values, defaultId) == fields + [Field(defaultId, "tag", values)]
  {
  }

  /** After either migration the schema holds exactly one field named `tag`, with the migration's values. */
  lemma {:induction false} RetypedHasOneTag(fields: seq<Field>, values: seq<string>, defaultId: string)
    requires forall i, j :: 0 <= i < j < |fields| ==> fields[i].id != fields[j].id
    requires forall i, j :: 0 <= i < j < |fields| && fields[i].name == "tag" ==> fields[j].name != "tag"
    requires forall k :: 0 <= k < |fields| ==> fields[k].id != defaultId
    ensures var r := Retyped(fields, values, defaultId);
            exists t :: 0 <= t < |r| && r[t].name == "tag" && r[t].values == values &&
                        forall k :: 0 <= k < |r| && k != t ==> r[k].name != "tag"
  {
    var r := Retyped(fields, values, defaultId);
    var t := IndexOfName(fields, "tag");
    if t >= 0 {
      RetypedReplacesTag(fields, values, defaultId);
      assert forall k :: 0 <= k < |r| && k != t ==> r[k].name != "tag" by {
        forall k | 0 <= k < |r| && k != t
          ensures r[k].name != "tag"
        {
          assert r[k] == fields[k];
        }
      }
    } else {
      RetypedAddsTag(fields, values, defaultId);
      assert r[|fields|].name == "tag";
    }
  }

  // The migration

  /** What the migration leaves behind: the rows, the collection schemas and the error it returns. */
  datatype Outcome = Outcome(store: Store, schemas: map<string, seq<Field>>, err: Option<Error>)

  /** The `UPDATE` statement on the weapon plans table. */
  function RetagTable(st: Store, f: Faults, rename: string -> string): (r: Result<Store, Error>)
    ensures r.Ok? <==> C.WEAPON_PLANS in st.tables && !f.Fails(Write, C.WEAPON_PLANS, "")
    ensures r.Ok? ==> r.value == st.(tables := st.tables[C.WEAPON_PLANS := RetagRows(st.tables[C.WEAPON_PLANS], rename)])
  {
    if C.WEAPON_PLANS !in st.tables then Err(MissingTable(C.WEAPON_PLANS))
    else if f.Fails(Write, C.WEAPON_PLANS, "") then Err(Fault(Write, C.WEAPON_PLANS))
    else Ok(st.(tables := st.tables[C.WEAPON_PLANS := RetagRows(st.tables[C.WEAPON_PLANS], rename)]))
  }

  /**
   * One direction of the migration: the `UPDATE`, then the collection
   * lookup, the field replacement and the collection save. The outcome is
   * the state the steps leave when run in order: a failed step does not
   * undo the `UPDATE` before it, and the migration runner's transaction,
   * which would roll the whole step back, is not part of this model.
   */
  function Migrate(st: Store, schemas: map<string, seq<Field>>, f: Faults, rename: string -> string, values: seq<string>,
                   defaultId: string): (o: Outcome)
    ensures RetagTable(st, f, rename).Err? ==> o == Outcome(st, schemas, Some(RetagTable(st, f, rename).error))
    ensures o.err.None? ==> C.WEAPON_PLANS in schemas && RetagTable(st, f, rename).Ok? &&
                            o.store == RetagTable(st, f, rename).value &&
                            o.schemas == schemas[C.WEAPON_PLANS := Retyped(schemas[C.WEAPON_PLANS], values, defaultId)]
    ensures o.err.Some? ==> o.schemas == schemas
  {
    match RetagTable(st, f, rename)
    case Err(e) => Outcome(st, schemas, Some(e))
    case Ok(st') =>
      if C.WEAPON_PLANS !in schemas then Outcome(st', schemas, Some(MissingCollection(C.WEAPON_PLANS)))
      else if f.Fails(Lookup, "_collections", C.WEAPON_PLANS) then Outcome(st', schemas, Some(Fault(Lookup, "_collections")))
      else if f.Fails(Save, "_collections", C.WEAPON_PLANS) then Outcome(st', schemas, Some(Fault(Save, "_collections")))
      else Outcome(st', schemas[C.WEAPON_PLANS := Retyped(schemas[C.WEAPON_PLANS], values, defaultId)], None)
  }

  /** A successful up followed by a successful down restores the rows, and the `tag` field keeps its id. */
  lemma UpThenDown(st: Store, schemas: map<string, seq<Field>>, f: Faults, defaultId: string)
    requires Migrate(st, schemas, f, UpTag, UP_VALUES, defaultId).err.None?
    requires var up := Migrate(st, schemas, f, UpTag, UP_VALUES, defaultId);
             Migrate(up.store, up.schemas, f, DownTag, DOWN_VALUES, defaultId).err.None?
    requires forall i :: 0 <= i < |st.tables[C.WEAPON_PLANS]| ==>
               Tag(st.tables[C.WEAPON_PLANS][i]) !in {Some("none"), Some("current"), Some("target")}
    requires IndexOfName(schemas[C.WEAPON_PLANS], "tag") >= 0
    requires forall i, j :: 0 <= i < j < |schemas[C.WEAPON_PLANS]| ==>
               schemas[C.WEAPON_PLANS][i].id != schemas[C.WEAPON_PLANS][j].id
    ensures var up := Migrate(st, schemas, f, UpTag, UP_VALUES, defaultId);
            var down := Migrate(up.store, up.schemas, f, DownTag, DOWN_VALUES, defaultId);
            var fields := schemas[C.WEAPON_PLANS];
            var t := IndexOfName(fields, "tag");
            down.store == st &&
            |down.schemas[C.WEAPON_PLANS]| == |fields| &&
            down.schemas[C.WEAPON_PLANS][t] == Field(fields[t].id, "tag", DOWN_VALUES)
  {
    var up := Migrate(st, schemas, f, UpTag, UP_VALUES, defaultId);
    RowsRoundTrip(st.tables[C.WEAPON_PLANS]);
    RetypedTwice(schemas[C.WEAPON_PLANS], UP_VALUES, DOWN_VALUES, defaultId);
  }

  /** Retyping twice leaves the `tag` field where it was, under its id, with the second values. */
  lemma RetypedTwice(fields: seq<Field>, values: seq<string>, values': seq<string>, defaultId: string)
    requires IndexOfName(fields, "tag") >= 0
    requires forall i, j :: 0 <= i < j < |fields| ==> fields[i].id != fields[j].id
    ensures var t := IndexOfName(fields, "tag");
            var r := Retyped(Retyped(fields, values, defaultId), values', defaultId);
            |r| == |fields| && r[t] == Field(fields[t].id, "tag", values')
  {
    var t := IndexOfName(fields, "tag");
    RetypedReplacesTag(fields, values, defaultId);
    var mid := Retyped(fields, values, defaultId);
    assert IndexOfName(mid, "tag") == t by {
      assert forall k :: 0 <= k < t ==> mid[k] == fields[k];
    }
    assert forall i, j :: 0 <= i < j < |mid| ==> mid[i].id != mid[j].id by {
      forall i, j | 0 <= i < j < |mid|
        ensures mid[i].id != mid[j].id
      {
        assert mid[i].id == fields[i].id && mid[j].id == fields[j].id;
      }
    }
    RetypedReplacesTag(mid, values', defaultId);
  }

  /** The migration's state: the rows of every table and the schema of every collection. */
  class Migrator {
    var store: Store
    var schemas: map<string, seq<Field>>
    const faults: Faults

    constructor(store: Store, schemas: map<string, seq<Field>>, faults: Faults)
      ensures this.store == store && this.schemas == schemas && this.faults == faults
    {
      this.store := store;
      this.schemas := schemas;
      this.faults := faults;
    }

    /** The body both registered functions share: rename the tags, then replace the field. */
    method Apply(rename: string -> string, values: seq<string>, defaultId: string) returns (err: Option<Error>)
      modifies this
      ensures Migrate(old(store), old(schemas), faults, rename, values, defaultId) == Outcome(store, schemas, err)
    {
      var updated := RetagTable(store, faults, rename);
      if updated.Err? {
        return Some(updated.error);
      }
      store := updated.value;
      if C.WEAPON_PLANS !in schemas {
        return Some(MissingCollection(C.WEAPON_PLANS));
      }
      if faults.Fails(Lookup, "_collections", C.WEAPON_PLANS) {
        return Some(Fault(Lookup, "_collections"));
      }
      var fields := schemas[C.WEAPON_PLANS];
      var fieldId := defaultId;
      var t := IndexOfName(fields, "tag");
      if t >= 0 {
        fieldId := fields[t].id;
      }
      var fields' := AddField(fields, Field(fieldId, "tag", values));
      if faults.Fails(Save, "_collections", C.WEAPON_PLANS) {
        return Some(Fault(Save, "_collections"));
      }
      schemas := schemas[C.WEAPON_PLANS := fields'];
      return None;
    }

    /** The up migration. */
    method Up(defaultId: string) returns (err: Option<Error>)
      modifies this
      ensures Migrate(old(store), old(schemas), faults, UpTag, UP_VALUES, defaultId) == Outcome(store, schemas, err)
    {
      err := Apply(UpTag, UP_VALUES, defaultId);
    }

    /** The down migration. */
    method Down(defaultId: string) returns (err: Option<Error>)
      modifies this
      ensures Migrate(old(store), old(schemas), faults, DownTag, DOWN_VALUES, defaultId) == Outcome(store, schemas, err)
    {
      err := Apply(DownTag, DOWN_VALUES, defaultId);
    }
  }
}
