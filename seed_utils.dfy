/**
 * Helpers shared by every entity kind of the seed and dump code
 * (internals/seed/utils.go): finding or constructing the record a dump row is
 * written to, and reading a record's stored icon back under a readable name.
 */
module SeedUtils {
  import opened Wrappers
  import opened RecordStore

  /**
   * `upsertRecordById`: the stored record with that id, or a new unsaved record
   * of the collection that carries only the id.
   */
  function UpsertRecordById(st: Store, f: Faults, coll: string, id: string): (r: Result<Record, Error>)
    ensures coll !in st.tables ==> r == Err(MissingCollection(coll))
    ensures r.Ok? ==> r.value.id == id
    ensures r.Ok? ==> r.value in st.tables[coll] || r.value == Record(id, map[])
    ensures coll in st.tables && !f.Fails(Lookup, coll, id) ==> r.Ok?
    ensures coll in st.tables && !f.Fails(Lookup, coll, id) &&
            (forall k :: 0 <= k < |st.tables[coll]| ==> st.tables[coll][k].id != id) ==>
              r == Ok(Record(id, map[]))
    ensures coll in st.tables && UniqueIds(st.tables[coll]) && r.Ok? ==>
              forall k :: 0 <= k < |st.tables[coll]| && st.tables[coll][k].id == id ==> r.value == st.tables[coll][k]
    ensures r.Err? ==> coll !in st.tables || f.Fails(Lookup, coll, id)
  {
    if FindCollection(st, coll).Some? then Err(FindCollection(st, coll).value)
    else
      match FindRecordById(st, f, coll, id)
      case Err(NoRows) => Ok(Record(id, map[]))
      case other => other
  }

  /** `strings.ToLower` on the ASCII letters. */
  function Lower(c: char): char {
    if 'A' <= c <= 'Z' then (c as int - 'A' as int + 'a' as int) as char else c
  }

  predicate NoUpper(s: string) {
    forall i :: 0 <= i < |s| ==> !('A' <= s[i] <= 'Z')
  }

  /** The name lowered, with every space and apostrophe turned into `_`. */
  function Slug(name: string): (s: string)
    ensures |s| == |name|
    ensures ' ' !in s && '\'' !in s && NoUpper(s)
    ensures forall i :: 0 <= i < |name| && name[i] != ' ' && name[i] != '\'' ==> s[i] == Lower(name[i])
    ensures forall i :: 0 <= i < |name| && (name[i] == ' ' || name[i] == '\'') ==> s[i] == '_'
  {
    if name == [] then ""
    else [if name[0] == ' ' || name[0] == '\'' then '_' else Lower(name[0])] + Slug(name[1..])
  }

  /** A slug is its own slug: dumping a dump's names again changes nothing. */
  lemma SlugIdempotent(name: string)
    ensures Slug(Slug(name)) == Slug(name)
  {
    var s := Slug(name);
    assert forall i :: 0 <= i < |s| ==> Lower(s[i]) == s[i];
  }

  /** `filepath.Ext`: the suffix from the last dot of the last path element, or empty. */
  function Ext(p: string): (e: string)
    ensures |e| <= |p| && e == p[|p| - |e|..]
    ensures e != "" ==> e[0] == '.' && '.' !in e[1..]
    ensures '/' !in e
  {
    if p == [] then ""
    else
      var c := p[|p| - 1];
      var front := p[..|p| - 1];
      if c == '/' then ""
      else if c == '.' then "."
      else
        var e := Ext(front);
        if e == "" then ""
        else
          assert p == front + [c];
          e + [c]
  }

  /** `path.Join(dir, name)` for a file name without separators. */
  function JoinPath(dir: string, name: string): string {
    if name == "" then dir else dir + "/" + name
  }

  /** The extension of a stored file's path is the extension of the file's own name. */
  lemma ExtOfStoredFile(dir: string, name: string)
    requires name != "" && '/' !in name
    ensures Ext(JoinPath(dir, name)) == Ext(name)
  {
    ExtSuffix(dir + "/", name);
    assert JoinPath(dir, name) == (dir + "/") + name;
  }

  lemma {:induction false} ExtSuffix(pre: string, name: string)
    requires pre != [] && pre[|pre| - 1] == '/' && '/' !in name
    ensures Ext(pre + name) == Ext(name)
    decreases |name|
  {
    var p := pre + name;
    if name == [] {
      assert p == pre;
    } else {
      var c := name[|name| - 1];
      assert p[|p| - 1] == c;
      assert p[..|p| - 1] == pre + name[..|name| - 1];
      ExtSuffix(pre, name[..|name| - 1]);
      ExtStep(p);
      ExtStep(name);
    }
  }

  /** `Ext` of a non-empty path in terms of its last character and the path before it. */
  lemma ExtStep(p: string)
    requires p != []
    ensures var c := p[|p| - 1];
            Ext(p) == if c == '/' then "" else if c == '.' then "." else if Ext(p[..|p| - 1]) == "" then "" else Ext(p[..|p| - 1]) + [c]
  {
  }

  /** The name a dumped icon gets: the entity's slug and the stored file's extension. */
  function DumpFileName(name: string, iconPath: string): string {
    Slug(name) + Ext(iconPath)
  }

  /**
   * `getFileContent`: the readable file name and the full contents of the
   * file that `field` of the record names.
   */
  function GetFileContent(files: map<string, seq<byte>>, f: Faults, coll: string, r: Record, field: string)
    : (res: Result<(string, seq<byte>), Error>)
    ensures res.Ok? <==>
              var path := JoinPath(BaseFilesPath(coll, r.id), GetString(r, field));
              path in files && !f.Fails(Read, path, "") && !f.Fails(ShortRead, path, "")
    ensures res.Ok? ==>
              var path := JoinPath(BaseFilesPath(coll, r.id), GetString(r, field));
              res.value.1 == files[path] && res.value.0 == DumpFileName(GetString(r, "name"), path)
    ensures var path := JoinPath(BaseFilesPath(coll, r.id), GetString(r, field));
              path in files && !f.Fails(Read, path, "") && f.Fails(ShortRead, path, "") ==> res == Err(ReadCorruption)
  {
    var iconPath := JoinPath(BaseFilesPath(coll, r.id), GetString(r, field));
    var fileName := DumpFileName(GetString(r, "name"), iconPath);
    if iconPath !in files then Err(MissingFile(iconPath))
    else if f.Fails(Read, iconPath, "") then Err(Fault(Read, iconPath))
    else if f.Fails(ShortRead, iconPath, "") then Err(ReadCorruption)
    else Ok((fileName, files[iconPath]))
  }
}
