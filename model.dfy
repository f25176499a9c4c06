/** `Model`: a `Meta` and a `DataBase` kept together in one folder, the
    record in `<folder>/meta.json` and the tables in `<folder>/<name>.csv`.
    The metadata is written first and read first. */
module Models {
  import opened Paths
  import opened Values
  import opened Errors
  import opened FileSystem
  import opened Store
  import opened Tables
  import opened Metadata
  import opened DataBases

  /** The class attributes of a `Model` subclass: its `DataBase` subclass
      and `defaultMetaData`. */
  datatype ModelSchema = ModelSchema(base: Schema, defaultMeta: Record)

  /** The fields of a `Model`: its normalised folder, its `Meta` and its
      `DataBase`. */
  datatype ModelState = ModelState(path: Path, meta: MetaState, base: BaseState)

  /** `Model._meta_in(path)`: `path / 'meta'`, before the `.json` suffix. */
  function MetaIn(path: Path): Path {
    path + ["meta"]
  }

  /** The file the metadata of a Model at `path` is kept in. */
  function MetaPath(path: Path): Path {
    path + ["meta.json"]
  }

  /** Every file of the Model holds what memory holds, and the metadata
      file is none of the tables' files. */
  predicate ModelStored(t: Tree, ms: ModelSchema, st: ModelState) {
    && Read(t, st.meta.path) == Ok(Json(st.meta.data))
    && Stored(t, ms.base, st.base)
    && (forall k | 0 <= k < |st.base.tables| :: st.base.tables[k].path != st.meta.path)
  }

  /** `Model.__init__(path, **data)`: make the folder, read the `Meta` from
      `meta_in(path)`, then open the `DataBase` at the path as given. */
  function ModelOpen(t: Tree, ms: ModelSchema, path: Path, data: map<Name, TableData>): Effect<ModelState> {
    var e := Created(t, path, FolderExt);
    if e.result.Err? then Effect(e.tree, Err(e.result.error))
    else
      var m := MetaOpen(e.tree, MetaIn(path), map[]);
      if m.result.Err? then Effect(m.tree, Err(m.result.error))
      else
        var b := BaseOpen(m.tree, ms.base, path, data);
        if b.result.Err? then Effect(b.tree, Err(b.result.error))
        else Effect(b.tree, Ok(ModelState(e.result.value, m.result.value, b.result.value)))
  }

  /** `Model.create(path, meta, **data)`: `Meta.create` with
      `defaultMetaData | meta`, then `cls(path, **(table_defaults() | data))`. */
  function ModelCreate(t: Tree, ms: ModelSchema, path: Path, meta: Record, data: map<Name, TableData>): Effect<ModelState> {
    var m := MetaCreate(t, MetaIn(path), ms.defaultMeta + meta);
    if m.result.Err? then Effect(m.tree, Err(m.result.error))
    else
      match Fields(ms.base)
      case Err(err) => Effect(m.tree, Err(err))
      case Ok(fields) => ModelOpen(m.tree, ms, path, WithDefaults(fields, data))
  }

  /** `Model.copy(src, dst)`: `cls.create(dst, src.meta.data,
      **src.data.tables_as_dict())`; the arguments are evaluated, and so
      `tables_as_dict` asserts, before anything is written. */
  function ModelCopy(t: Tree, ms: ModelSchema, src: ModelState, dst: Path): Effect<ModelState> {
    match Fields(ms.base)
    case Err(err) => Effect(t, Err(err))
    case Ok(fields) => ModelCreate(t, ms, dst, src.meta.data, AsDict(fields, src.base.tables))
  }

  /** `Model.delete(path)`: delete the `Meta`, then the `DataBase`'s
      tables; the path is returned. */
  function ModelDelete(t: Tree, ms: ModelSchema, path: Path): Effect<Path> {
    var m := Deleted(t, MetaIn(path), MetaExt);
    if m.result.Err? then Effect(m.tree, Err(m.result.error))
    else BaseDelete(m.tree, ms.base, path)
  }

  /** `ToyModel.__call__(**options)`: the options are the keywords of a
      call on the `DataBase`; path and metadata are kept. */
  function ModelCall(t: Tree, ms: ModelSchema, st: ModelState, updates: seq<Update>, path: Option<Path>): Step<ModelState> {
    var r := BaseCall(t, ms.base, st.base, updates, path);
    Step(r.tree, st.(base := r.state), r.outcome)
  }

  // ---------------------------------------------------------------------
  // Where the metadata lives

  /** `meta_in(path)` normalised for `.json` is `<path>/meta.json`: it sits
      directly in the folder as given and is never a table's file. */
  lemma MetaLocation(path: Path)
    ensures Normalize(MetaIn(path), MetaExt) == MetaPath(path)
    ensures Parent(MetaPath(path)) == path
    ensures forall n | Identifier(n) :: MetaPath(path) != TablePath(path, n)
  {
    PlainNameWithSuffix("meta", MetaExt);
    assert "meta" + MetaExt == "meta.json";
    assert MetaIn(path)[|path| := "meta" + MetaExt] == MetaPath(path);
    forall n | Identifier(n) ensures MetaPath(path) != TablePath(path, n) {
      MetaNotTable(n);
      assert MetaPath(path)[|path|] == "meta.json";
    }
  }

  lemma MetaNotTable(n: Name)
    requires Identifier(n)
    ensures n + TableExt != "meta.json"
  {
    if |n| == 5 {
      assert (n + TableExt)[4] == n[4];
      assert "meta.json"[4] == '.';
    } else {
      assert |n + TableExt| != |"meta.json"|;
    }
  }
  // ---------------------------------------------------------------------
  // Model.__init__

  /** The first two steps of `Model.__init__`: making the folder and
      reading the metadata change no entry of `t` and add only folders; the
      record read is the one in `<path>/meta.json`, and when that file is
      missing (and no file blocks the path) the read raises
      FileNotFoundError for it. */
  lemma OpenMetaStep(t: Tree, path: Path)
    requires WellFormed(t) && |path| > 0 && Created(t, path, FolderExt).result.Ok?
    ensures var e := Created(t, path, FolderExt);
      var m := MetaOpen(e.tree, MetaIn(path), map[]);
      && WellFormed(m.tree)
      && (forall q | q in t :: q in m.tree && m.tree[q] == t[q])
      && (forall q | q in m.tree && q !in t :: m.tree[q].Folder?)
      && (m.result.Ok? ==>
          && m.result.value.path == MetaPath(path)
          && IsFile(t, MetaPath(path)) && t[MetaPath(path)].content == Json(m.result.value.data))
      && (!Blocked(t, path) && MetaPath(path) !in t ==> m.result == Err(FileNotFound(MetaPath(path))))
  {
    var p, mp := Normalize(path, FolderExt), MetaPath(path);
    CreateFolder(t, path);
    var e := Created(t, path, FolderExt);
    MetaLocation(path);
    Metadata.OpenReads(e.tree, MetaIn(path));
    Metadata.OpenReadsKeeps(e.tree, MetaIn(path));
    var m := MetaOpen(e.tree, MetaIn(path), map[]);
    assert mp !in Prefixes(p);
    forall q | q in m.tree && q !in t ensures m.tree[q].Folder? {
      CreatedUntouched(t, path, FolderExt, q);
      CreatedUntouched(e.tree, MetaIn(path), MetaExt, q);
    }
    if !Blocked(t, path) && mp !in t {
      CreateFile(e.tree, MetaIn(path), MetaExt);
      forall i | 0 < i <= |path| ensures !IsFile(e.tree, path[..i]) {
        assert !IsFile(t, path[..i]);
        CreatedUntouched(t, path, FolderExt, path[..i]);
      }
    }
  }

  /** Opening a `DataBase` leaves every entry that is not a table's file as
      it was, apart from making folders. */
  lemma BaseOpenFrame(t: Tree, s: Schema, path: Path, data: map<Name, TableData>, q: Path)
    requires WellDeclared(s)
    requires forall n | Identifier(n) :: q != TablePath(path, n)
    ensures Untouched(t, BaseOpen(t, s, path, data).tree, q)
  {
    if s.tables.Declared? {
      var e := Created(t, path, FolderExt);
      CreatedUntouched(t, path, FolderExt, q);
      if e.result.Ok? {
        OpenTablesFrame(e.tree, s, path, data, s.tables.fields, q);
      }
    }
  }

  /** What a table was opened from carries back over steps that change no
      entry and add only folders. */
  lemma OpenedBefore(t0: Tree, t1: Tree, s: Schema, path: Path, data: map<Name, TableData>, name: Name, ts: TableState)
    requires Untouched(t0, t1, ts.path)
    requires TableOpened(t1, s, path, data, name, ts)
    ensures TableOpened(t0, s, path, data, name, ts)
  {
    if ReadFrom(t1, ts) {
      assert ts.path in t0;
    }
  }
  /** `Model.__init__` reads the metadata before the `DataBase`: on success
      the record is the one `<path>/meta.json` held, each table was opened
      as `DataBase.__init__` promises from the tree it started with (so
      every unsupplied table's file existed), and afterwards every file
      holds what memory holds. A missing `meta.json` raises
      FileNotFoundError for it, whatever the tables. */
  lemma ModelOpenSpec(t: Tree, ms: ModelSchema, path: Path, data: map<Name, TableData>)
    requires WellFormed(t) && WellDeclared(ms.base)
    ensures var e := ModelOpen(t, ms, path, data);
      && WellFormed(e.tree)
      && (e.result.Ok? ==>
          var st := e.result.value;
          && |path| > 0 && st.path == Normalize(path, FolderExt) && IsDir(e.tree, st.path)
          && st.meta.path == MetaPath(path)
          && IsFile(t, MetaPath(path)) && t[MetaPath(path)].content == Json(st.meta.data)
          && ModelStored(e.tree, ms, st)
          && (forall k | 0 <= k < |ms.base.tables.fields| ::
                TableOpened(t, ms.base, path, data, ms.base.tables.fields[k].name, st.base.tables[k])))
      && (|path| > 0 && Created(t, path, FolderExt).result.Ok? && !Blocked(t, path) && MetaPath(path) !in t ==>
          e.result == Err(FileNotFound(MetaPath(path))))
  {
    if path != [] {
      var e := Created(t, path, FolderExt);
      CreatedWellFormed(t, path, FolderExt);
      if e.result.Ok? {
        OpenMetaStep(t, path);
        var m := MetaOpen(e.tree, MetaIn(path), map[]);
        if m.result.Ok? {
          OpenSpec(m.tree, ms.base, path, data);
          MetaLocation(path);
          BaseOpenFrame(m.tree, ms.base, path, data, MetaPath(path));
          var b := BaseOpen(m.tree, ms.base, path, data);
          if b.result.Ok? {
            var fields := ms.base.tables.fields;
            forall k | 0 <= k < |fields|
              ensures TableOpened(t, ms.base, path, data, fields[k].name, b.result.value.tables[k])
              ensures b.result.value.tables[k].path != MetaPath(path)
            {
              var ts := b.result.value.tables[k];
              assert Identifier(fields[k].name);
              assert Untouched(t, m.tree, ts.path);
              OpenedBefore(t, m.tree, ms.base, path, data, fields[k].name, ts);
            }
          }
        }
      }
    }
  }
  // ---------------------------------------------------------------------
  // Model.create, Model.copy

  /** Reading a stored `Model` back: `Model.__init__` without data, on a
      folder that exists and holds the record and every table's file,
      gives back the same record and frames and changes nothing. */
  lemma ModelReopen(t: Tree, ms: ModelSchema, path: Path, st: ModelState)
    requires WellFormed(t) && WellDeclared(ms.base) && ModelStored(t, ms, st)
    requires |path| > 0 && IsDir(t, Normalize(path, FolderExt)) && st.meta.path == MetaPath(path)
    requires forall k | 0 <= k < |st.base.tables| :: st.base.tables[k].path == TablePath(path, ms.base.tables.fields[k].name)
    ensures var e := ModelOpen(t, ms, path, map[]);
      && e.tree == t && e.result.Ok?
      && e.result.value.path == Normalize(path, FolderExt)
      && e.result.value.meta == st.meta
      && |e.result.value.base.tables| == |st.base.tables|
      && (forall k | 0 <= k < |st.base.tables| ::
            && e.result.value.base.tables[k].path == st.base.tables[k].path
            && e.result.value.base.tables[k].frame == st.base.tables[k].frame)
  {
    var mp := MetaPath(path);
    assert InFolder(t, mp) && mp[..|mp| - 1] == path;
    CreateFolder(t, path);
    MetaLocation(path);
    CreateExisting(t, MetaIn(path), MetaExt);
    BaseReopen(t, ms.base, path);
  }

  /** `Model.__init__` in a folder that exists, whose `<path>/meta.json`
      holds a record, raises FileNotFoundError for the file of the first
      table that is neither supplied nor on disk, once the tables before it
      have been read back; the tree is left as it was. */
  lemma ModelOpenMissing(t: Tree, ms: ModelSchema, path: Path, data: map<Name, TableData>, k: nat)
    requires WellFormed(t) && ms.base.tables.Declared? && GoodFields(ms.base.tables.fields)
    requires |path| > 0 && IsDir(t, Normalize(path, FolderExt))
    requires IsFile(t, MetaPath(path)) && t[MetaPath(path)].content.Json?
    requires k < |ms.base.tables.fields|
    requires forall j | 0 <= j <= k :: ms.base.tables.fields[j].name !in data
    requires forall j | 0 <= j < k ::
      var n := ms.base.tables.fields[j].name; IsFile(t, TablePath(path, n)) && t[TablePath(path, n)].content.Csv?
    requires TablePath(path, ms.base.tables.fields[k].name) !in t
    ensures ModelOpen(t, ms, path, data) == Effect(t, Err(FileNotFound(TablePath(path, ms.base.tables.fields[k].name))))
  {
    var mp := MetaPath(path);
    assert InFolder(t, mp) && mp[..|mp| - 1] == path;
    CreateFolder(t, path);
    MetaLocation(path);
    CreateExisting(t, MetaIn(path), MetaExt);
    Metadata.OpenReads(t, MetaIn(path));
    BaseOpenMissing(t, ms.base, path, data, k);
  }

  /** What `Model.create` stores, `Model.__init__` reads back unchanged. */
  lemma CreateThenReopen(t: Tree, ms: ModelSchema, path: Path, meta: Record, data: map<Name, TableData>)
    requires WellFormed(t) && WellDeclared(ms.base) && ModelCreate(t, ms, path, meta, data).result.Ok?
    ensures var c := ModelCreate(t, ms, path, meta, data);
      var e, st := ModelOpen(c.tree, ms, path, map[]), c.result.value;
      && e.tree == c.tree && e.result.Ok?
      && e.result.value.path == st.path
      && e.result.value.meta == st.meta
      && |e.result.value.base.tables| == |st.base.tables|
      && (forall k | 0 <= k < |st.base.tables| ::
            && e.result.value.base.tables[k].path == st.base.tables[k].path
            && e.result.value.base.tables[k].frame == st.base.tables[k].frame)
  {
    var c := ModelCreate(t, ms, path, meta, data);
    ModelCreateSpec(t, ms, path, meta, data);
    ModelReopen(c.tree, ms, path, c.result.value);
  }


  /** `Model.create` writes the metadata strictly first: `<path>/meta.json`
      holds `defaultMetaData | meta` (the caller's keys win; the placeholder
      when both are empty) even when the `DataBase` then fails its
      assertion. On success the record in memory is that one, a table the
      caller does not supply is stored from its default with the write
      options, a supplied table is opened from the caller's data, and every
      file holds what memory holds. */
  lemma ModelCreateSpec(t: Tree, ms: ModelSchema, path: Path, meta: Record, data: map<Name, TableData>)
    requires WellFormed(t) && WellDeclared(ms.base)
    ensures var e, merged := ModelCreate(t, ms, path, meta, data), ms.defaultMeta + meta;
      var stored := if merged == map[] then Placeholder else merged;
      && WellFormed(e.tree)
      && (ms.base.tables.Undeclared? && MetaCreate(t, MetaIn(path), merged).result.Ok? ==>
          e.result == Err(AssertionError) && Read(e.tree, MetaPath(path)) == Ok(Json(stored)))
      && (e.result.Ok? ==>
          var st, fields := e.result.value, ms.base.tables.fields;
          && |path| > 0 && st.path == Normalize(path, FolderExt) && IsDir(e.tree, st.path)
          && st.meta == MetaState(MetaPath(path), stored)
          && ModelStored(e.tree, ms, st)
          && (forall k | 0 <= k < |fields| && fields[k].name !in data ::
                st.base.tables[k] == TableState(TablePath(path, fields[k].name), fields[k].default,
                                                DefaultReadOptions, OptionsFor(ms.base.writeOptions, fields[k].name)))
          && (forall k | 0 <= k < |fields| && fields[k].name in data ::
                TableOpened(t, ms.base, path, data, fields[k].name, st.base.tables[k])))
  {
    var merged := ms.defaultMeta + meta;
    var stored := if merged == map[] then Placeholder else merged;
    CreateMetaStep(t, path, merged);
    var mc := MetaCreate(t, MetaIn(path), merged);
    if mc.result.Ok? && ms.base.tables.Declared? {
      var all := WithDefaults(ms.base.tables.fields, data);
      ModelOpenSpec(mc.tree, ms, path, all);
      var e := ModelOpen(mc.tree, ms, path, all);
      if e.result.Ok? {
        CreatedTables(t, ms.base, path, stored, data, e.result.value.base.tables);
      }
    }
  }

  /** The first step of `Model.create`: `<path>/meta.json` holds the
      merged record, or the placeholder when it is empty. */
  lemma CreateMetaStep(t: Tree, path: Path, merged: Record)
    requires WellFormed(t)
    ensures var mc, stored := MetaCreate(t, MetaIn(path), merged), if merged == map[] then Placeholder else merged;
      && WellFormed(mc.tree)
      && (mc.result.Ok? ==> mc.result.value == MetaState(MetaPath(path), stored) && Read(mc.tree, MetaPath(path)) == Ok(Json(stored)))
  {
    MetaLocation(path);
    assert "NotImplemented" in Placeholder;
    Metadata.OpenWrites(t, MetaIn(path), if merged == map[] then Placeholder else merged);
  }

  /** The first step of `Model.create` succeeds when the record names no
      parameter of `Meta.create` or `Meta.__init__`, the folder can be made
      and no folder stands at `<path>/meta.json`; it adds that file and
      folders on the way to it. */
  lemma CreateMetaSucceeds(t: Tree, path: Path, merged: Record)
    requires WellFormed(t) && NoFileOn(t, path) && !IsDir(t, MetaPath(path))
    requires !Collides(merged, CreateNames + InitNames)
    ensures var mc := MetaCreate(t, MetaIn(path), merged);
      && mc.result.Ok? && WellFormed(mc.tree)
      && IsFile(mc.tree, MetaPath(path)) && mc.tree[MetaPath(path)].content.Json?
      && GrownBy(t, mc.tree, path, MetaPath(path))
  {
    var stored := if merged == map[] then Placeholder else merged;
    MetaLocation(path);
    assert "NotImplemented" in Placeholder;
    assert Placeholder.Keys * InitNames == {};
    CreateFile(t, MetaIn(path), MetaExt);
    Metadata.OpenWrites(t, MetaIn(path), stored);
    Metadata.OpenGrows(t, MetaIn(path), stored);
  }

  /** The tables `Model.create` opens after writing the metadata, told
      apart by whether the caller supplied them. */
  lemma CreatedTables(t: Tree, s: Schema, path: Path, stored: Record, data: map<Name, TableData>, tables: seq<TableState>)
    requires s.tables.Declared? && GoodFields(s.tables.fields) && |tables| == |s.tables.fields|
    requires var t1, all := MetaOpen(t, MetaIn(path), stored).tree, WithDefaults(s.tables.fields, data);
      forall k | 0 <= k < |tables| :: TableOpened(t1, s, path, all, s.tables.fields[k].name, tables[k])
    ensures var fields := s.tables.fields;
      && (forall k | 0 <= k < |fields| && fields[k].name !in data ::
            tables[k] == TableState(TablePath(path, fields[k].name), fields[k].default,
                                    DefaultReadOptions, OptionsFor(s.writeOptions, fields[k].name)))
      && (forall k | 0 <= k < |fields| && fields[k].name in data ::
            TableOpened(t, s, path, data, fields[k].name, tables[k]))
  {
    var fields := s.tables.fields;
    var t1, all := MetaOpen(t, MetaIn(path), stored).tree, WithDefaults(fields, data);
    WithDefaultsSpec(fields, data);
    MetaLocation(path);
    forall k | 0 <= k < |fields|
      ensures fields[k].name !in data ==>
        tables[k] == TableState(TablePath(path, fields[k].name), fields[k].default,
                                DefaultReadOptions, OptionsFor(s.writeOptions, fields[k].name))
      ensures fields[k].name in data ==> TableOpened(t, s, path, data, fields[k].name, tables[k])
    {
      CreatedTable(t1, s, path, data, all, fields[k], tables[k]);
      if fields[k].name in data {
        Metadata.OpenFrame(t, MetaIn(path), stored, tables[k].path);
        OpenedBefore(t, t1, s, path, data, fields[k].name, tables[k]);
      }
    }
  }

  /** The first two steps of `Model.__init__`: making the folder and
      reading `<path>/meta.json` succeed, leave no file on the way to the
      folder, and make no folder where a table's file goes. */
  lemma OpenModelFolder(t: Tree, path: Path)
    requires WellFormed(t) && |path| > 0 && NoFileOn(t, path) && !IsFile(t, Normalize(path, FolderExt))
    requires IsFile(t, MetaPath(path)) && t[MetaPath(path)].content.Json?
    ensures var e := Created(t, path, FolderExt);
      var m := MetaOpen(e.tree, MetaIn(path), map[]);
      && e.result.Ok? && m.result.Ok? && WellFormed(m.tree) && NoFileOn(m.tree, path)
      && IsDir(m.tree, Normalize(path, FolderExt))
      && forall n | !IsDir(t, TablePath(path, n)) :: !IsDir(m.tree, TablePath(path, n))
  {
    var p, none := Normalize(path, FolderExt), path + [""];
    FolderNoFile(t, path);
    CreateFolder(t, path);
    CreatedGrows(t, path, FolderExt, none);
    var e := Created(t, path, FolderExt);
    NoFileKept(t, e.tree, p, none, path);
    assert IsDir(e.tree, p[..|p|]) && p[..|p|] == p;
    MetaLocation(path);
    CreateFile(e.tree, MetaIn(path), MetaExt);
    Metadata.OpenReads(e.tree, MetaIn(path));
    Metadata.OpenGrows(e.tree, MetaIn(path), map[]);
    var m := MetaOpen(e.tree, MetaIn(path), map[]);
    NoFileKept(e.tree, m.tree, path, MetaPath(path), path);
    forall n | !IsDir(t, TablePath(path, n)) ensures !IsDir(m.tree, TablePath(path, n)) {
      var q := TablePath(path, n);
      var last := n + TableExt;
      assert last[|last| - 1] != "meta.json"[8];
      assert q[|path|] != none[|path|] && q[|path|] != MetaPath(path)[|path|];
      NoDirKept(t, e.tree, p, none, q);
      NoDirKept(e.tree, m.tree, path, MetaPath(path), q);
    }
  }

  /** `Model.__init__` with every table supplied succeeds wherever its
      folder can be made, `<path>/meta.json` holds a record, and no folder
      stands at any table's file. */
  lemma ModelOpenSucceeds(t: Tree, ms: ModelSchema, path: Path, data: map<Name, TableData>)
    requires WellFormed(t) && ms.base.tables.Declared? && GoodFields(ms.base.tables.fields)
    requires |path| > 0 && NoFileOn(t, path) && !IsFile(t, Normalize(path, FolderExt))
    requires IsFile(t, MetaPath(path)) && t[MetaPath(path)].content.Json?
    requires forall k | 0 <= k < |ms.base.tables.fields| ::
      var n := ms.base.tables.fields[k].name; n in data && data[n].Replace? && !IsDir(t, TablePath(path, n))
    ensures ModelOpen(t, ms, path, data).result.Ok?
  {
    OpenModelFolder(t, path);
    var m := MetaOpen(Created(t, path, FolderExt).tree, MetaIn(path), map[]);
    BaseOpenSucceeds(m.tree, ms.base, path, data);
  }

  /** `Model.create`: the folder need not exist, and existing files are
      overwritten. With tables given as frames and a record that names no
      parameter of `Meta.create` or `Meta.__init__`, it succeeds wherever
      the folder can be made and no folder stands at `<path>/meta.json` or
      at any table's file. */
  lemma ModelCreateSucceeds(t: Tree, ms: ModelSchema, path: Path, meta: Record, data: map<Name, TableData>)
    requires WellFormed(t) && ms.base.tables.Declared? && GoodFields(ms.base.tables.fields)
    requires !Collides(ms.defaultMeta + meta, CreateNames + InitNames)
    requires |path| > 0 && NoFileOn(t, path) && !IsFile(t, Normalize(path, FolderExt))
    requires !IsDir(t, MetaPath(path))
    requires forall n | n in data :: data[n].Replace?
    requires forall k | 0 <= k < |ms.base.tables.fields| :: !IsDir(t, TablePath(path, ms.base.tables.fields[k].name))
    ensures ModelCreate(t, ms, path, meta, data).result.Ok?
  {
    var fields := ms.base.tables.fields;
    CreateMetaSucceeds(t, path, ms.defaultMeta + meta);
    var mc := MetaCreate(t, MetaIn(path), ms.defaultMeta + meta);
    NoFileKept(t, mc.tree, path, MetaPath(path), path);
    MetaLocation(path);
    forall k | 0 <= k < |fields| ensures !IsDir(mc.tree, TablePath(path, fields[k].name)) {
      assert Identifier(fields[k].name);
      NoDirKept(t, mc.tree, path, MetaPath(path), TablePath(path, fields[k].name));
    }
    var all := WithDefaults(fields, data);
    WithDefaultsSpec(fields, data);
    ModelOpenSucceeds(mc.tree, ms, path, all);
  }

  /** `Model.copy` asserts before writing anything; on success `dst` holds
      the record `defaultMetaData | src.meta.data` (exactly the source's
      record when that already has every default key) and every table of
      the source, stored with the write options. */
  lemma ModelCopySpec(t: Tree, ms: ModelSchema, src: ModelState, dst: Path)
    requires WellFormed(t) && WellDeclared(ms.base)
    requires ms.base.tables.Declared? ==> |src.base.tables| == |ms.base.tables.fields|
    ensures var e, merged := ModelCopy(t, ms, src, dst), ms.defaultMeta + src.meta.data;
      && WellFormed(e.tree)
      && (ms.base.tables.Undeclared? ==> e == Effect(t, Err(AssertionError)))
      && (e.result.Ok? ==>
          var st, fields := e.result.value, ms.base.tables.fields;
          && st.meta == MetaState(MetaPath(dst), if merged == map[] then Placeholder else merged)
          && (src.meta.data != map[] && ms.defaultMeta.Keys <= src.meta.data.Keys ==> st.meta.data == src.meta.data)
          && ModelStored(e.tree, ms, st)
          && (forall k | 0 <= k < |fields| ::
                st.base.tables[k] == TableState(TablePath(dst, fields[k].name), src.base.tables[k].frame,
                                                DefaultReadOptions, OptionsFor(ms.base.writeOptions, fields[k].name))))
  {
    if ms.base.tables.Declared? {
      var fields := ms.base.tables.fields;
      var all := AsDict(fields, src.base.tables);
      AsDictSpec(fields, src.base.tables);
      ModelCreateSpec(t, ms, dst, src.meta.data, all);
      if ms.defaultMeta.Keys <= src.meta.data.Keys {
        MergeCovered(ms.defaultMeta, src.meta.data);
      }
    }
  }

  /** Defaults whose every key the record has add nothing to it. */
  lemma MergeCovered(d: Record, m: Record)
    requires d.Keys <= m.Keys
    ensures d + m == m
  {
  }
  // ---------------------------------------------------------------------
  // Model.delete

  /** `Model.delete` removes `<path>/meta.json` first, then the declared
      tables' files: it succeeds exactly when `Tables` is declared and no
      file blocks the path, and then returns the path, leaves nothing at or
      under the metadata file or any table's file, and keeps every other
      entry, the folder among them, unchanged. With the base `Tables` the
      metadata is already gone when the assertion fails. */
  lemma ModelDeleteSpec(t: Tree, ms: ModelSchema, path: Path)
    requires WellFormed(t) && WellDeclared(ms.base)
    ensures var e := ModelDelete(t, ms, path);
      && (e.result.Ok? <==> ms.base.tables.Declared? && !Blocked(t, path))
      && (ms.base.tables.Undeclared? && !Blocked(t, path) ==>
          e.result == Err(AssertionError) && MetaPath(path) !in e.tree)
      && (e.result.Ok? ==>
          var names := TableNames(ms.base).value;
          && e.result.value == path
          && WellFormed(e.tree)
          && (forall q | q in e.tree :: q in t && e.tree[q] == t[q] && !IsPrefix(MetaPath(path), q) && Outside(path, names, q))
          && (forall q | q in t && !IsPrefix(MetaPath(path), q) && Outside(path, names, q) :: q in e.tree))
  {
    var p := MetaPath(path);
    MetaLocation(path);
    DeleteStore(t, MetaIn(path), MetaExt);
    var m := Deleted(t, MetaIn(path), MetaExt);
    assert UnderFile(t, p) <==> Blocked(t, path) by {
      if Blocked(t, path) {
        var i :| 0 < i <= |path| && IsFile(t, path[..i]);
        assert p[..i] == path[..i];
      }
      if UnderFile(t, p) {
        var i :| 0 < i < |p| && IsFile(t, p[..i]);
        assert p[..i] == path[..i];
      }
    }
    if m.result.Ok? {
      DeleteRemovesOnly(t, p);
      if ms.base.tables.Declared? {
        var names := TableNames(ms.base).value;
        DeleteTablesSpec(m.tree, path, names);
      }
    }
  }
  // ---------------------------------------------------------------------
  // ToyModel.__call__

  /** `ToyModel.__call__` is a call on the `DataBase`: the path and the
      record are kept, an undeclared `Tables` or a `path` keyword fails
      before any change, every table keeps its file, and a successful call
      keeps every file holding what memory holds, having named declared
      tables only. */
  lemma ModelCallSpec(t: Tree, ms: ModelSchema, st: ModelState, updates: seq<Update>, path: Option<Path>)
    requires WellFormed(t)
    ensures var r := ModelCall(t, ms, st, updates, path);
      && WellFormed(r.tree)
      && r.state.path == st.path && r.state.meta == st.meta
      && (ms.base.tables.Undeclared? ==> r == Step(t, st, Fail(AssertionError)))
      && (ms.base.tables.Declared? && path.Some? ==> r == Step(t, st, Fail(TypeError)))
      && |r.state.base.tables| == |st.base.tables|
      && (forall k | 0 <= k < |st.base.tables| :: r.state.base.tables[k].path == st.base.tables[k].path)
      && (ModelStored(t, ms, st) && r.outcome.Pass? ==>
          && ModelStored(r.tree, ms, r.state)
          && (forall j | 0 <= j < |updates| :: Find(ms.base.tables.fields, updates[j].name) >= 0))
  {
    BaseCallSpec(t, ms.base, st.base, updates, path);
    if ms.base.tables.Declared? && path.None? && ModelStored(t, ms, st) {
      UpdateFrame(t, ms.base, st.base, updates, st.meta.path);
    }
  }

  // ---------------------------------------------------------------------
  // The Model object

  /** A `Model` in memory: its folder, its `Meta` and its `DataBase`. The
      schema stands for the subclass. */
  class Model {
    const schema: ModelSchema
    var path: Path
    var meta: Meta
    var data: DataBase

    /** The `DataBase` is a valid one of the subclass's own `DataBase`. */
    ghost predicate Valid()
      reads this, data, data.tables
    {
      data.Valid() && data.schema == schema.base
    }

    function State(): ModelState
      reads this, meta, data, data.tables
    {
      ModelState(path, meta.State(), data.State())
    }

    constructor Of(ms: ModelSchema, p: Path, m: Meta, db: DataBase)
      ensures schema == ms && path == p && meta == m && data == db
    {
      schema := ms;
      path := p;
      meta := m;
      data := db;
    }

    /** `Model.__init__`: a new `Model`, or the error that stopped it. */
    static method Open(disk: Disk, ms: ModelSchema, path: Path, data: map<Name, TableData>) returns (r: Result<Model>)
      requires WellDeclared(ms.base)
      modifies disk
      ensures var e := ModelOpen(old(disk.tree), ms, path, data);
        && disk.tree == e.tree
        && r.Ok? == e.result.Ok?
        && (r.Ok? ==> fresh(r.value) && r.value.Valid() && r.value.schema == ms && r.value.State() == e.result.value)
        && (r.Err? ==> r.error == e.result.error)
    {
      var e := Created(disk.tree, path, FolderExt);
      disk.tree := e.tree;
      if e.result.Err? {
        return Err(e.result.error);
      }
      r := OpenIn(disk, ms, e.result.value, path, data);
    }

    /** The `Meta` and the `DataBase` of `Model.__init__` once its folder
        exists, gathered into a new `Model` at `folder`. */
    static method OpenIn(disk: Disk, ms: ModelSchema, folder: Path, path: Path, data: map<Name, TableData>) returns (r: Result<Model>)
      requires WellDeclared(ms.base)
      modifies disk
      ensures var m := MetaOpen(old(disk.tree), MetaIn(path), map[]);
        var b := BaseOpen(m.tree, ms.base, path, data);
        && disk.tree == (if m.result.Err? then m.tree else b.tree)
        && r.Ok? == (m.result.Ok? && b.result.Ok?)
        && (r.Ok? ==> fresh(r.value) && r.value.Valid() && r.value.schema == ms
                      && r.value.State() == ModelState(folder, m.result.value, b.result.value))
        && (r.Err? ==> r.error == if m.result.Err? then m.result.error else b.result.error)
    {
      var m := Meta.Open(disk, MetaIn(path), map[]);
      if m.Err? {
        return Err(m.error);
      }
      var b := DataBase.Open(disk, ms.base, path, data);
      if b.Err? {
        return Err(b.error);
      }
      var model := new Model.Of(ms, folder, m.value, b.value);
      r := Ok(model);
    }

    /** `Model.create`: the metadata is written, then the `Model` opened
        with every table the caller did not supply set to its default. */
    static method Create(disk: Disk, ms: ModelSchema, path: Path, meta: Record, data: map<Name, TableData>) returns (r: Result<Model>)
      requires WellDeclared(ms.base)
      modifies disk
      ensures var e := ModelCreate(old(disk.tree), ms, path, meta, data);
        && disk.tree == e.tree
        && r.Ok? == e.result.Ok?
        && (r.Ok? ==> fresh(r.value) && r.value.Valid() && r.value.schema == ms && r.value.State() == e.result.value)
        && (r.Err? ==> r.error == e.result.error)
    {
      var m := Meta.Create(disk, MetaIn(path), ms.defaultMeta + meta);
      if m.Err? {
        return Err(m.error);
      }
      if ms.base.tables.Undeclared? {
        return Err(AssertionError);
      }
      r := Open(disk, ms, path, WithDefaults(ms.base.tables.fields, data));
    }

    /** `Model.copy`. */
    static method Copy(disk: Disk, ms: ModelSchema, src: Model, dst: Path) returns (r: Result<Model>)
      requires WellDeclared(ms.base)
      modifies disk
      ensures var e := ModelCopy(old(disk.tree), ms, old(src.State()), dst);
        && disk.tree == e.tree
        && r.Ok? == e.result.Ok?
        && (r.Ok? ==> fresh(r.value) && r.value.Valid() && r.value.schema == ms && r.value.State() == e.result.value)
        && (r.Err? ==> r.error == e.result.error)
    {
      if ms.base.tables.Undeclared? {
        return Err(AssertionError);
      }
      r := Create(disk, ms, dst, src.meta.data, AsDict(ms.base.tables.fields, States(src.data.tables)));
    }

    /** `Model.delete`. */
    static method Delete(disk: Disk, ms: ModelSchema, path: Path) returns (r: Result<Path>)
      modifies disk
      ensures Effect(disk.tree, r) == ModelDelete(old(disk.tree), ms, path)
    {
      var m := Meta.Delete(disk, MetaIn(path));
      if m.Err? {
        return Err(m.error);
      }
      r := DataBase.Delete(disk, ms.base, path);
    }

    /** `ToyModel.__call__(**options)`: the options go to the `DataBase`. */
    method Call(disk: Disk, updates: seq<Update>, newPath: Option<Path>) returns (o: Outcome)
      requires Valid()
      modifies disk, data.tables
      ensures var r := ModelCall(old(disk.tree), schema, old(State()), updates, newPath);
        disk.tree == r.tree && State() == r.state && o == r.outcome
      ensures Valid()
    {
      o := data.Call(disk, updates, newPath);
    }
  }
}
