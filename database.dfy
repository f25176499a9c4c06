/** `DataBase`: a fixed, ordered set of named `DataTable`s kept in one
    folder, as `<folder>/<name>.csv`. A subclass declares the tables as the
    fields of a `Tables` NamedTuple, each with a default frame, and the
    options each table is read and written with. */
module DataBases {
  import opened Paths
  import opened Values
  import opened Errors
  import opened FileSystem
  import opened Store
  import opened Tables

  /** One field of `Tables`: a table name and its default frame. */
  datatype Field = Field(name: Name, default: Frame)

  /** `Tables`: still the placeholder of the base class, or overridden. */
  datatype Declaration = Undeclared | Declared(fields: seq<Field>)

  /** The class attributes of a `DataBase` subclass. */
  datatype Schema = Schema(tables: Declaration, readOptions: map<Name, Options>, writeOptions: map<Name, Options>)

  /** A NamedTuple field name: a non-empty identifier, so without a dot or a
      slash, and not `path`, which the keyword arguments reserve. */
  predicate Identifier(n: Name) {
    n != "" && DotFreeFrom(n, 0) && '/' !in n && n != "path"
  }

  /** What NamedTuple guarantees of its fields: identifiers, pairwise
      distinct. */
  predicate WellDeclared(s: Schema) {
    s.tables.Declared? ==> GoodFields(s.tables.fields)
  }

  predicate GoodFields(fields: seq<Field>) {
    && (forall i | 0 <= i < |fields| :: Identifier(fields[i].name))
    && (forall i, j | 0 <= i < j < |fields| :: fields[i].name != fields[j].name)
  }

  /** The fields of `Tables`, or the assertion every operation makes first. */
  function Fields(s: Schema): Result<seq<Field>> {
    if s.tables.Undeclared? then Err(AssertionError) else Ok(s.tables.fields)
  }

  /** `DataBase.table_names()`: the `Tables` fields in declaration order. */
  function TableNames(s: Schema): (r: Result<seq<Name>>)
    ensures r.Err? <==> s.tables.Undeclared?
    ensures r.Err? ==> r.error == AssertionError
    ensures r.Ok? ==>
      && |r.value| == |s.tables.fields|
      && (forall i | 0 <= i < |r.value| :: r.value[i] == s.tables.fields[i].name)
  {
    match Fields(s)
    case Err(e) => Err(e)
    case Ok(fields) => Ok(seq(|fields|, i requires 0 <= i < |fields| => fields[i].name))
  }

  /** The defaults of `fields` by name. */
  function DefaultsOf(fields: seq<Field>): map<Name, Frame>
    decreases |fields|
  {
    if fields == [] then map[] else DefaultsOf(fields[1..])[fields[0].name := fields[0].default]
  }

  /** `DataBase.table_defaults()`. */
  function TableDefaults(s: Schema): Result<map<Name, Frame>> {
    match Fields(s)
    case Err(e) => Err(e)
    case Ok(fields) => Ok(DefaultsOf(fields))
  }

  /** `d.get(name, {})`. */
  function OptionsFor(d: map<Name, Options>, name: Name): Options {
    if name in d then d[name] else map[]
  }

  /** Where table `name` of a DataBase at `path` is stored: `path / name`
      with the `.csv` suffix appended (a table name has no suffix). */
  function TablePath(path: Path, name: Name): Path {
    path + [name + TableExt]
  }

  /** The position of `name` among the fields, or -1: the lookup
      `tables_as_dict()[name]`. */
  function Find(fields: seq<Field>, name: Name): (k: int)
    ensures -1 <= k < |fields|
    ensures k >= 0 ==> fields[k].name == name
    ensures k < 0 ==> forall i | 0 <= i < |fields| :: fields[i].name != name
    decreases |fields|
  {
    if fields == [] then -1
    else if fields[0].name == name then 0
    else
      var k := Find(fields[1..], name);
      if k < 0 then -1 else k + 1
  }

  /** The fields of a `DataBase`: its normalised folder and its tables, in
      declaration order. */
  datatype BaseState = BaseState(path: Path, tables: seq<TableState>)

  /** One keyword argument `name=data` of `DataBase.__call__`. */
  datatype Update = Update(name: Name, data: TableData)

  /** Table `name` of `DataBase.__init__`: stored from the data when it is
      supplied (`None` included, which reads the file but with the write
      options), read with the read options otherwise. */
  function OpenOne(t: Tree, s: Schema, path: Path, supplied: map<Name, TableData>, name: Name): Effect<TableState> {
    if name in supplied then TableOpen(t, path + [name], supplied[name], OptionsFor(s.writeOptions, name))
    else TableOpen(t, path + [name], Unchanged, OptionsFor(s.readOptions, name))
  }

  /** The tables of `fields` opened in order; the first error stops the
      rest. */
  function OpenTables(t: Tree, s: Schema, path: Path, supplied: map<Name, TableData>, fields: seq<Field>): Effect<seq<TableState>>
    decreases |fields|
  {
    if fields == [] then Effect(t, Ok([]))
    else
      var e := OpenOne(t, s, path, supplied, fields[0].name);
      if e.result.Err? then Effect(e.tree, Err(e.result.error))
      else
        var r := OpenTables(e.tree, s, path, supplied, fields[1..]);
        if r.result.Err? then r else Effect(r.tree, Ok([e.result.value] + r.result.value))
  }

  /** `DataBase.__init__(path, **tables)`: make the folder, then open each
      declared table under the path as given; keywords that name no table
      are ignored. */
  function BaseOpen(t: Tree, s: Schema, path: Path, supplied: map<Name, TableData>): Effect<BaseState> {
    match Fields(s)
    case Err(err) => Effect(t, Err(err))
    case Ok(fields) =>
      var e := Created(t, path, FolderExt);
      if e.result.Err? then Effect(e.tree, Err(e.result.error))
      else
        var r := OpenTables(e.tree, s, path, supplied, fields);
        if r.result.Err? then Effect(r.tree, Err(r.result.error))
        else Effect(r.tree, Ok(BaseState(e.result.value, r.result.value)))
  }

  /** The update loop of `DataBase.__call__`: each named table is called in
      place with its data and its write options. A name that is not a table
      raises KeyError; the tables already updated stay updated. */
  function UpdateTables(t: Tree, s: Schema, st: BaseState, updates: seq<Update>): Step<BaseState>
    requires s.tables.Declared?
    decreases |updates|
  {
    if updates == [] then Step(t, st, Pass)
    else
      var u := updates[0];
      var k := Find(s.tables.fields, u.name);
      // a state opened from the schema has one table per field
      if !(0 <= k < |st.tables|) then Step(t, st, Fail(KeyError(u.name)))
      else
        var c := TableCall(t, st.tables[k], u.data, None, OptionsFor(s.writeOptions, u.name));
        var st1 := st.(tables := st.tables[k := c.state]);
        if c.outcome.Fail? then Step(c.tree, st1, c.outcome)
        else UpdateTables(c.tree, s, st1, updates[1..])
  }

  /** `DataBase.__call__(**tables_and_path)`. A `path` keyword that is not
      None is bound to `True` by the walrus operator, so the relocation
      branch fails on `Path(True)` with TypeError before changing anything. */
  function BaseCall(t: Tree, s: Schema, st: BaseState, updates: seq<Update>, path: Option<Path>): Step<BaseState> {
    if s.tables.Undeclared? then Step(t, st, Fail(AssertionError))
    else if path.Some? then Step(t, st, Fail(TypeError))
    else UpdateTables(t, s, st, updates)
  }

  /** The data `DataBase.create` supplies: every default, overridden by the
      caller's tables. */
  function WithDefaults(fields: seq<Field>, supplied: map<Name, TableData>): map<Name, TableData> {
    (map n | n in DefaultsOf(fields) :: Replace(DefaultsOf(fields)[n])) + supplied
  }

  /** `DataBase.create(path, **tables)`: `cls(path, **(table_defaults() | tables))`. */
  function BaseCreate(t: Tree, s: Schema, path: Path, supplied: map<Name, TableData>): Effect<BaseState> {
    match Fields(s)
    case Err(err) => Effect(t, Err(err))
    case Ok(fields) => BaseOpen(t, s, path, WithDefaults(fields, supplied))
  }

  /** `tables_as_dict()`: each table by name, passed on as data. */
  function AsDict(fields: seq<Field>, tables: seq<TableState>): map<Name, TableData>
    decreases |fields|
  {
    if fields == [] || tables == [] then map[]
    else AsDict(fields[1..], tables[1..])[fields[0].name := Replace(tables[0].frame)]
  }

  /** `DataBase.copy(src, dst)`: `cls(dst, **src.tables_as_dict())`. */
  function BaseCopy(t: Tree, s: Schema, src: BaseState, dst: Path): Effect<BaseState> {
    match Fields(s)
    case Err(err) => Effect(t, Err(err))
    case Ok(fields) => BaseOpen(t, s, dst, AsDict(fields, src.tables))
  }

  /** The deletion loop of `DataBase.delete`: the `.csv` file of each name,
      in order; the first error stops the rest. */
  function DeleteTables(t: Tree, path: Path, names: seq<Name>): Effect<Path>
    decreases |names|
  {
    if names == [] then Effect(t, Ok(path))
    else
      var e := Deleted(t, path + [names[0]], TableExt);
      if e.result.Err? then Effect(e.tree, Err(e.result.error))
      else DeleteTables(e.tree, path, names[1..])
  }

  /** `DataBase.delete(path)`: delete every declared table and return the
      path, which is kept. */
  function BaseDelete(t: Tree, s: Schema, path: Path): Effect<Path> {
    match TableNames(s)
    case Err(err) => Effect(t, Err(err))
    case Ok(names) => DeleteTables(t, path, names)
  }

  // ---------------------------------------------------------------------
  // Invariants of a DataBase

  /** Every table's file holds the table's frame. */
  predicate Synced(t: Tree, tables: seq<TableState>) {
    forall k | 0 <= k < |tables| :: Read(t, tables[k].path) == Ok(Csv(tables[k].frame))
  }

  predicate DistinctPaths(tables: seq<TableState>) {
    forall i, j | 0 <= i < j < |tables| :: tables[i].path != tables[j].path
  }

  // ---------------------------------------------------------------------
  // Table names and paths

  /** A table named by an identifier is stored where `DataTable` puts
      `path / name`: the suffix rule only appends `.csv`. */
  lemma TablePathShape(path: Path, name: Name)
    requires Identifier(name)
    ensures Normalize(path + [name], TableExt) == TablePath(path, name)
  {
    PlainNameWithSuffix(name, TableExt);
    assert (path + [name])[|path| := name + TableExt] == path + [name + TableExt];
  }

  /** Different tables of one DataBase have different files. */
  lemma TablePathsDistinct(path: Path, a: Name, b: Name)
    requires a != b
    ensures TablePath(path, a) != TablePath(path, b)
  {
    assert TablePath(path, a)[|path|] == a + TableExt;
    assert TablePath(path, b)[|path|] == b + TableExt;
    assert (a + TableExt)[..|a|] == a;
    if |a| == |b| {
      assert (b + TableExt)[..|b|] == b;
    }
  }

  // ---------------------------------------------------------------------
  // DataBase.__init__

  /** The file of table `ts` in `t` holds its frame. */
  predicate ReadFrom(t: Tree, ts: TableState) {
    IsFile(t, ts.path) && t[ts.path].content == Csv(ts.frame)
  }

  /** What `DataBase.__init__` promises of table `name`, opened as `ts`
      from the tree `t` it started with: supplied data is stored with the
      write options and not read; an unsupplied table is read, with the read
      options; a supplied `None` is read, with the write options; a matrix
      is refused. */
  predicate TableOpened(t: Tree, s: Schema, path: Path, supplied: map<Name, TableData>, name: Name, ts: TableState) {
    && ts.path == TablePath(path, name)
    && (name in supplied && supplied[name].Replace? ==>
        ts == TableState(ts.path, supplied[name].frame, DefaultReadOptions, OptionsFor(s.writeOptions, name)))
    && (name in supplied && supplied[name].Unchanged? ==>
        && ReadFrom(t, ts)
        && ts.readOptions == DefaultReadOptions + OptionsFor(s.writeOptions, name)
        && ts.writeOptions == DefaultWriteOptions)
    && (name !in supplied ==>
        && ReadFrom(t, ts)
        && ts.readOptions == DefaultReadOptions + OptionsFor(s.readOptions, name)
        && ts.writeOptions == DefaultWriteOptions)
    && !(name in supplied && supplied[name].Assign?)
  }

  /** Opening one table changes no entry but its file, apart from folders. */
  lemma OpenOneFrame(t: Tree, s: Schema, path: Path, supplied: map<Name, TableData>, name: Name, q: Path)
    requires Identifier(name) && q != TablePath(path, name)
    ensures Untouched(t, OpenOne(t, s, path, supplied, name).tree, q)
  {
    TablePathShape(path, name);
    if name in supplied {
      OpenFrame(t, path + [name], supplied[name], OptionsFor(s.writeOptions, name), q);
    } else {
      OpenFrame(t, path + [name], Unchanged, OptionsFor(s.readOptions, name), q);
    }
  }

  /** One table of `DataBase.__init__`, opened from a tree that still holds
      at its file what `t0` held. */
  lemma OpenOneSpec(t0: Tree, t: Tree, s: Schema, path: Path, supplied: map<Name, TableData>, name: Name)
    requires WellFormed(t) && Identifier(name) && Untouched(t0, t, TablePath(path, name))
    ensures var e := OpenOne(t, s, path, supplied, name);
      && WellFormed(e.tree)
      && (e.result.Ok? ==>
          && TableOpened(t0, s, path, supplied, name, e.result.value)
          && Read(e.tree, e.result.value.path) == Ok(Csv(e.result.value.frame)))
  {
    var p := path + [name];
    var e := OpenOne(t, s, path, supplied, name);
    TablePathShape(path, name);
    CreatedWellFormed(t, p, TableExt);
    if name in supplied {
      var d := supplied[name];
      var o := OptionsFor(s.writeOptions, name);
      match d
      case Replace(f) =>
        OpenWrites(t, p, f, o);
      case Unchanged =>
        OpenReads(t, p, o);
      case Assign(_) =>
    } else {
      OpenReads(t, p, OptionsFor(s.readOptions, name));
    }
    if e.result.Ok? {
      if name in supplied {
        OpenFolder(t, p, supplied[name], OptionsFor(s.writeOptions, name));
      } else {
        OpenFolder(t, p, Unchanged, OptionsFor(s.readOptions, name));
      }
    }
  }

  /** The fields after the first are well declared too. */
  lemma GoodTail(fields: seq<Field>)
    requires GoodFields(fields) && |fields| > 0
    ensures GoodFields(fields[1..])
  {
    var rest := fields[1..];
    forall i, j | 0 <= i < j < |rest| ensures rest[i].name != rest[j].name {
      assert rest[i] == fields[i + 1] && rest[j] == fields[j + 1];
    }
  }

  /** Whatever the tree, an opened table is stored at its table path. */
  lemma OpenOnePath(t: Tree, s: Schema, path: Path, supplied: map<Name, TableData>, name: Name)
    requires Identifier(name)
    ensures var e := OpenOne(t, s, path, supplied, name);
      e.result.Ok? ==> e.result.value.path == TablePath(path, name)
  {
    TablePathShape(path, name);
    if name in supplied {
      OpenPath(t, path + [name], supplied[name], OptionsFor(s.writeOptions, name));
    } else {
      OpenPath(t, path + [name], Unchanged, OptionsFor(s.readOptions, name));
    }
  }

  /** The tables opened for distinct identifiers sit in distinct files,
      whatever the tree. */
  lemma {:induction false} OpenTablesPaths(t: Tree, s: Schema, path: Path, supplied: map<Name, TableData>, fields: seq<Field>)
    requires GoodFields(fields)
    ensures var e := OpenTables(t, s, path, supplied, fields);
      e.result.Ok? ==>
        && |e.result.value| == |fields|
        && (forall k | 0 <= k < |fields| :: e.result.value[k].path == TablePath(path, fields[k].name))
        && DistinctPaths(e.result.value)
    decreases |fields|
  {
    var e := OpenTables(t, s, path, supplied, fields);
    PathsOfOpened(t, s, path, supplied, fields);
    if e.result.Ok? {
      forall i, j | 0 <= i < j < |e.result.value| ensures e.result.value[i].path != e.result.value[j].path {
        TablePathsDistinct(path, fields[i].name, fields[j].name);
      }
    }
  }

  lemma {:induction false} PathsOfOpened(t: Tree, s: Schema, path: Path, supplied: map<Name, TableData>, fields: seq<Field>)
    requires GoodFields(fields)
    ensures var e := OpenTables(t, s, path, supplied, fields);
      e.result.Ok? ==>
        && |e.result.value| == |fields|
        && (forall k | 0 <= k < |fields| :: e.result.value[k].path == TablePath(path, fields[k].name))
    decreases |fields|
  {
    if fields != [] {
      var e := OpenOne(t, s, path, supplied, fields[0].name);
      OpenOnePath(t, s, path, supplied, fields[0].name);
      if e.result.Ok? {
        GoodTail(fields);
        PathsOfOpened(e.tree, s, path, supplied, fields[1..]);
        var r := OpenTables(e.tree, s, path, supplied, fields[1..]);
        if r.result.Ok? {
          PathsCons(path, fields, e.result.value, r.result.value);
        }
      }
    }
  }

  lemma PathsCons(path: Path, fields: seq<Field>, x: TableState, rest: seq<TableState>)
    requires |fields| > 0 && |rest| == |fields| - 1 && x.path == TablePath(path, fields[0].name)
    requires forall k | 0 <= k < |rest| :: rest[k].path == TablePath(path, fields[1..][k].name)
    ensures forall k | 0 <= k < |fields| :: ([x] + rest)[k].path == TablePath(path, fields[k].name)
  {
    forall k | 1 <= k < |fields| ensures ([x] + rest)[k].path == TablePath(path, fields[k].name) {
      assert ([x] + rest)[k] == rest[k - 1] && fields[k] == fields[1..][k - 1];
    }
  }

  /** Where one opened table is stored, and that its file holds it. */
  lemma OpenOneStored(t: Tree, s: Schema, path: Path, supplied: map<Name, TableData>, name: Name)
    requires WellFormed(t) && Identifier(name)
    ensures var e := OpenOne(t, s, path, supplied, name);
      && WellFormed(e.tree)
      && (e.result.Ok? ==>
          && e.result.value.path == TablePath(path, name)
          && Read(e.tree, e.result.value.path) == Ok(Csv(e.result.value.frame)))
  {
    OpenOneSpec(t, t, s, path, supplied, name);
  }

  /** Opening tables keeps the tree well formed. */
  lemma {:induction false} OpenTablesWellFormed(t: Tree, s: Schema, path: Path, supplied: map<Name, TableData>, fields: seq<Field>)
    requires WellFormed(t) && GoodFields(fields)
    ensures WellFormed(OpenTables(t, s, path, supplied, fields).tree)
    decreases |fields|
  {
    if fields != [] {
      var e := OpenOne(t, s, path, supplied, fields[0].name);
      OpenOneStored(t, s, path, supplied, fields[0].name);
      if e.result.Ok? {
        GoodTail(fields);
        OpenTablesWellFormed(e.tree, s, path, supplied, fields[1..]);
      }
    }
  }

  /** Opening tables changes no entry but their files, apart from folders. */
  lemma {:induction false} OpenTablesFrame(t: Tree, s: Schema, path: Path, supplied: map<Name, TableData>, fields: seq<Field>, q: Path)
    requires GoodFields(fields)
    requires forall i | 0 <= i < |fields| :: q != TablePath(path, fields[i].name)
    ensures Untouched(t, OpenTables(t, s, path, supplied, fields).tree, q)
    decreases |fields|
  {
    if fields != [] {
      var e := OpenOne(t, s, path, supplied, fields[0].name);
      OpenOneFrame(t, s, path, supplied, fields[0].name, q);
      if e.result.Ok? {
        var rest := fields[1..];
        forall i | 0 <= i < |rest| ensures q != TablePath(path, rest[i].name) {
          assert rest[i] == fields[i + 1];
        }
        GoodTail(fields);
        OpenTablesFrame(e.tree, s, path, supplied, rest, q);
      }
    }
  }

  /** Opening the first table keeps the files of the others untouched. */
  lemma OpenFirstKeepsRest(t0: Tree, t: Tree, s: Schema, path: Path, supplied: map<Name, TableData>, fields: seq<Field>)
    requires GoodFields(fields) && |fields| > 0
    requires forall i | 0 <= i < |fields| :: Untouched(t0, t, TablePath(path, fields[i].name))
    ensures var t1 := OpenOne(t, s, path, supplied, fields[0].name).tree;
      forall i | 1 <= i < |fields| :: Untouched(t0, t1, TablePath(path, fields[i].name))
  {
    var n := fields[0].name;
    forall i | 1 <= i < |fields| ensures Untouched(t0, OpenOne(t, s, path, supplied, n).tree, TablePath(path, fields[i].name)) {
      TablePathsDistinct(path, n, fields[i].name);
      OpenOneFrame(t, s, path, supplied, n, TablePath(path, fields[i].name));
    }
  }

  /** The tables of `fields` opened as `x` then `w`. */
  lemma OpenedCons(t0: Tree, s: Schema, path: Path, supplied: map<Name, TableData>, fields: seq<Field>, x: TableState, w: seq<TableState>)
    requires |fields| > 0 && |w| == |fields| - 1
    requires TableOpened(t0, s, path, supplied, fields[0].name, x)
    requires forall i | 0 <= i < |w| :: TableOpened(t0, s, path, supplied, fields[1..][i].name, w[i])
    ensures forall i | 0 <= i < |fields| :: TableOpened(t0, s, path, supplied, fields[i].name, ([x] + w)[i])
  {
    forall i | 0 <= i < |fields| ensures TableOpened(t0, s, path, supplied, fields[i].name, ([x] + w)[i]) {
      if i > 0 {
        assert fields[i] == fields[1..][i - 1] && ([x] + w)[i] == w[i - 1];
      }
    }
  }

  /** On success every table of `fields` is as `DataBase.__init__`
      promises, in declaration order. */
  lemma {:induction false} OpenTablesSpec(t0: Tree, t: Tree, s: Schema, path: Path, supplied: map<Name, TableData>, fields: seq<Field>)
    requires WellFormed(t) && GoodFields(fields)
    requires forall i | 0 <= i < |fields| :: Untouched(t0, t, TablePath(path, fields[i].name))
    ensures var r := OpenTables(t, s, path, supplied, fields);
      r.result.Ok? ==>
        && |r.result.value| == |fields|
        && (forall i | 0 <= i < |fields| :: TableOpened(t0, s, path, supplied, fields[i].name, r.result.value[i]))
    decreases |fields|
  {
    if fields != [] {
      var n := fields[0].name;
      var e := OpenOne(t, s, path, supplied, n);
      OpenOneSpec(t0, t, s, path, supplied, n);
      if e.result.Ok? {
        var rest := fields[1..];
        OpenFirstKeepsRest(t0, t, s, path, supplied, fields);
        assert forall i | 0 <= i < |rest| :: rest[i] == fields[i + 1];
        GoodTail(fields);
        OpenTablesSpec(t0, e.tree, s, path, supplied, rest);
        var r := OpenTables(e.tree, s, path, supplied, rest);
        if r.result.Ok? {
          OpenedCons(t0, s, path, supplied, fields, e.result.value, r.result.value);
        }
      }
    }
  }

  /** A table whose file holds it, followed by synced tables. */
  lemma SyncedCons(t: Tree, x: TableState, w: seq<TableState>)
    requires Read(t, x.path) == Ok(Csv(x.frame)) && Synced(t, w)
    ensures Synced(t, [x] + w)
  {
    forall k | 0 <= k < |[x] + w| ensures Read(t, ([x] + w)[k].path) == Ok(Csv(([x] + w)[k].frame)) {
      if k > 0 {
        assert ([x] + w)[k] == w[k - 1];
      }
    }
  }

  /** The first table's file is none of the others'. */
  lemma FirstPathApart(path: Path, fields: seq<Field>)
    requires GoodFields(fields) && |fields| > 0
    ensures forall i | 0 <= i < |fields[1..]| :: TablePath(path, fields[0].name) != TablePath(path, fields[1..][i].name)
  {
    forall i | 0 <= i < |fields[1..]| ensures TablePath(path, fields[0].name) != TablePath(path, fields[1..][i].name) {
      assert fields[1..][i] == fields[i + 1];
      TablePathsDistinct(path, fields[0].name, fields[i + 1].name);
    }
  }

  /** On success every file of the opened tables holds its table. */
  lemma {:induction false} OpenTablesSynced(t: Tree, s: Schema, path: Path, supplied: map<Name, TableData>, fields: seq<Field>)
    requires WellFormed(t) && GoodFields(fields)
    ensures var r := OpenTables(t, s, path, supplied, fields);
      r.result.Ok? ==> Synced(r.tree, r.result.value)
    decreases |fields|
  {
    if fields != [] {
      var e := OpenOne(t, s, path, supplied, fields[0].name);
      OpenOneStored(t, s, path, supplied, fields[0].name);
      if e.result.Ok? {
        var x := e.result.value;
        var rest := fields[1..];
        GoodTail(fields);
        OpenTablesSynced(e.tree, s, path, supplied, rest);
        FirstPathApart(path, fields);
        OpenTablesFrame(e.tree, s, path, supplied, rest, x.path);
        var r := OpenTables(e.tree, s, path, supplied, rest);
        if r.result.Ok? {
          SyncedCons(r.tree, x, r.result.value);
        }
      }
    }
  }

  /** Tables opened at the paths of distinct names have distinct files. */
  lemma OpenedDistinct(t: Tree, s: Schema, path: Path, supplied: map<Name, TableData>, fields: seq<Field>, tables: seq<TableState>)
    requires GoodFields(fields) && |tables| == |fields|
    requires forall k | 0 <= k < |fields| :: TableOpened(t, s, path, supplied, fields[k].name, tables[k])
    ensures DistinctPaths(tables)
  {
    forall i, j | 0 <= i < j < |tables| ensures tables[i].path != tables[j].path {
      TablePathsDistinct(path, fields[i].name, fields[j].name);
    }
  }

  /** `DataBase.__init__` reads lazily: every declared table is opened from
      the path as given, supplied tables are stored and not read, the others
      are read from their `.csv` files (so the construction fails unless
      each of those exists and holds a table); afterwards every file holds
      its table and no two tables share a file. */
  lemma OpenSpec(t: Tree, s: Schema, path: Path, supplied: map<Name, TableData>)
    requires WellFormed(t) && WellDeclared(s)
    ensures var e := BaseOpen(t, s, path, supplied);
      && WellFormed(e.tree)
      && (s.tables.Undeclared? ==> e == Effect(t, Err(AssertionError)))
      && (e.result.Ok? ==>
          var fields, st := s.tables.fields, e.result.value;
          && |path| > 0 && st.path == Normalize(path, FolderExt) && IsDir(e.tree, st.path)
          && |st.tables| == |fields|
          && Synced(e.tree, st.tables) && DistinctPaths(st.tables)
          && (forall k | 0 <= k < |fields| :: TableOpened(t, s, path, supplied, fields[k].name, st.tables[k])))
  {
    if s.tables.Declared? {
      var fields := s.tables.fields;
      var e := Created(t, path, FolderExt);
      CreatedWellFormed(t, path, FolderExt);
      if e.result.Ok? {
        forall i | 0 <= i < |fields| ensures Untouched(t, e.tree, TablePath(path, fields[i].name)) {
          CreatedUntouched(t, path, FolderExt, TablePath(path, fields[i].name));
        }
        OpenTablesWellFormed(e.tree, s, path, supplied, fields);
        var p := e.result.value;
        CreateFolder(t, path);
        assert IsDir(e.tree, p[..|p|]) && p[..|p|] == p;
        OpenTablesFrame(e.tree, s, path, supplied, fields, p);
        OpenTablesSpec(t, e.tree, s, path, supplied, fields);
        OpenTablesSynced(e.tree, s, path, supplied, fields);
        var r := OpenTables(e.tree, s, path, supplied, fields);
        if r.result.Ok? {
          OpenedDistinct(t, s, path, supplied, fields, r.result.value);
        }
      }
    }
  }

  /** A table the caller supplies is stored wherever its folder can be
      made and no folder stands at its file; only its file and folders are
      added. */
  lemma OpenOneSucceeds(t: Tree, s: Schema, path: Path, supplied: map<Name, TableData>, name: Name)
    requires WellFormed(t) && Identifier(name) && |path| > 0 && NoFileOn(t, path)
    requires name in supplied && supplied[name].Replace? && !IsDir(t, TablePath(path, name))
    ensures var e := OpenOne(t, s, path, supplied, name);
      && e.result.Ok?
      && WellFormed(e.tree)
      && GrownBy(t, e.tree, path, TablePath(path, name))
  {
    var f, options := supplied[name].frame, OptionsFor(s.writeOptions, name);
    TablePathShape(path, name);
    assert Parent(TablePath(path, name)) == path;
    CreateFile(t, path + [name], TableExt);
    Tables.OpenWrites(t, path + [name], f, options);
    Tables.OpenGrows(t, path + [name], f, options);
  }

  /** Every table the caller supplies is stored when the folder can be made
      and no folder stands at any table's file. */
  lemma {:induction false} OpenTablesSucceed(t: Tree, s: Schema, path: Path, supplied: map<Name, TableData>, fields: seq<Field>)
    requires WellFormed(t) && GoodFields(fields) && |path| > 0 && NoFileOn(t, path)
    requires forall k | 0 <= k < |fields| :: fields[k].name in supplied && supplied[fields[k].name].Replace?
    requires forall k | 0 <= k < |fields| :: !IsDir(t, TablePath(path, fields[k].name))
    ensures OpenTables(t, s, path, supplied, fields).result.Ok?
    decreases |fields|
  {
    if fields != [] {
      var n := fields[0].name;
      var e := OpenOne(t, s, path, supplied, n);
      OpenOneSucceeds(t, s, path, supplied, n);
      var rest := fields[1..];
      GoodTail(fields);
      NoFileKept(t, e.tree, path, TablePath(path, n), path);
      forall k | 0 <= k < |rest| ensures !IsDir(e.tree, TablePath(path, rest[k].name)) {
        assert rest[k] == fields[k + 1];
        TablePathsDistinct(path, n, rest[k].name);
        NoDirKept(t, e.tree, path, TablePath(path, n), TablePath(path, rest[k].name));
      }
      OpenTablesSucceed(e.tree, s, path, supplied, rest);
    }
  }

  /** `DataBase.__init__` with every table supplied succeeds wherever its
      folder can be made and no folder stands at any table's file. */
  lemma BaseOpenSucceeds(t: Tree, s: Schema, path: Path, supplied: map<Name, TableData>)
    requires WellFormed(t) && s.tables.Declared? && GoodFields(s.tables.fields)
    requires |path| > 0 && NoFileOn(t, path) && !IsFile(t, Normalize(path, FolderExt))
    requires forall k | 0 <= k < |s.tables.fields| ::
      var n := s.tables.fields[k].name; n in supplied && supplied[n].Replace? && !IsDir(t, TablePath(path, n))
    ensures BaseOpen(t, s, path, supplied).result.Ok?
  {
    var fields, p := s.tables.fields, Normalize(path, FolderExt);
    FolderNoFile(t, path);
    CreateFolder(t, path);
    var e := Created(t, path, FolderExt);
    var none := path + [""];
    CreatedGrows(t, path, FolderExt, none);
    NoFileKept(t, e.tree, p, none, path);
    forall k | 0 <= k < |fields| ensures !IsDir(e.tree, TablePath(path, fields[k].name)) {
      assert TablePath(path, fields[k].name)[|path|] != none[|path|];
      NoDirKept(t, e.tree, p, none, TablePath(path, fields[k].name));
    }
    OpenTablesSucceed(e.tree, s, path, supplied, fields);
  }

  /** The table a stored `DataBase` reads back: its file and frame, with
      the read options and the default write options. */
  function ReadBack(t: Tree, s: Schema, path: Path, name: Name): TableState
    requires IsFile(t, TablePath(path, name)) && t[TablePath(path, name)].content.Csv?
  {
    TableState(TablePath(path, name), t[TablePath(path, name)].content.frame,
               DefaultReadOptions + OptionsFor(s.readOptions, name), DefaultWriteOptions)
  }

  /** A table nobody supplies, whose folder exists and whose file holds a
      frame, is read back and the tree is left as it was. */
  lemma OpenOneReads(t: Tree, s: Schema, path: Path, supplied: map<Name, TableData>, name: Name)
    requires WellFormed(t) && Identifier(name) && name !in supplied && IsDir(t, path)
    requires IsFile(t, TablePath(path, name)) && t[TablePath(path, name)].content.Csv?
    ensures OpenOne(t, s, path, supplied, name) == Effect(t, Ok(ReadBack(t, s, path, name)))
  {
    var options := OptionsFor(s.readOptions, name);
    TablePathShape(path, name);
    assert Parent(TablePath(path, name)) == path;
    CreateExisting(t, path + [name], TableExt);
    Tables.OpenReads(t, path + [name], options);
    ReopenRewrites(t, path + [name], options);
  }

  /** Tables nobody supplies, in a folder that exists and whose files hold
      frames, are read back in order and the tree is left as it was. */
  lemma {:induction false} OpenTablesRead(t: Tree, s: Schema, path: Path, supplied: map<Name, TableData>, fields: seq<Field>)
    requires WellFormed(t) && GoodFields(fields) && IsDir(t, path)
    requires forall k | 0 <= k < |fields| ::
      var n := fields[k].name; n !in supplied && IsFile(t, TablePath(path, n)) && t[TablePath(path, n)].content.Csv?
    ensures var r := OpenTables(t, s, path, supplied, fields);
      && r.tree == t && r.result.Ok? && |r.result.value| == |fields|
      && (forall k | 0 <= k < |fields| :: r.result.value[k] == ReadBack(t, s, path, fields[k].name))
    decreases |fields|
  {
    if fields != [] {
      OpenOneReads(t, s, path, supplied, fields[0].name);
      var rest := fields[1..];
      GoodTail(fields);
      forall k | 0 <= k < |rest| ensures var n := rest[k].name; n !in supplied && IsFile(t, TablePath(path, n)) && t[TablePath(path, n)].content.Csv? {
        assert rest[k] == fields[k + 1];
      }
      OpenTablesRead(t, s, path, supplied, rest);
      var v := OpenTables(t, s, path, supplied, rest).result.value;
      var x := ReadBack(t, s, path, fields[0].name);
      forall k | 0 <= k < |fields| ensures ([x] + v)[k] == ReadBack(t, s, path, fields[k].name) {
        if k > 0 {
          assert ([x] + v)[k] == v[k - 1] && fields[k] == rest[k - 1];
        }
      }
    }
  }

  /** `DataBase.__init__` without data, on a folder that exists and holds
      every table's file, reads every table back and changes nothing. */
  lemma BaseReopen(t: Tree, s: Schema, path: Path)
    requires WellFormed(t) && s.tables.Declared? && GoodFields(s.tables.fields)
    requires |path| > 0 && IsDir(t, path) && IsDir(t, Normalize(path, FolderExt))
    requires forall k | 0 <= k < |s.tables.fields| ::
      var n := s.tables.fields[k].name; IsFile(t, TablePath(path, n)) && t[TablePath(path, n)].content.Csv?
    ensures var e, fields := BaseOpen(t, s, path, map[]), s.tables.fields;
      && e.tree == t && e.result.Ok?
      && e.result.value.path == Normalize(path, FolderExt)
      && |e.result.value.tables| == |fields|
      && (forall k | 0 <= k < |fields| :: e.result.value.tables[k] == ReadBack(t, s, path, fields[k].name))
  {
    CreateFolder(t, path);
    OpenTablesRead(t, s, path, map[], s.tables.fields);
  }

  /** A table nobody supplies whose file is missing, in a folder that
      exists, raises FileNotFoundError for that file and changes nothing. */
  lemma OpenOneMissing(t: Tree, s: Schema, path: Path, supplied: map<Name, TableData>, name: Name)
    requires WellFormed(t) && Identifier(name) && name !in supplied && IsDir(t, path)
    requires TablePath(path, name) !in t
    ensures OpenOne(t, s, path, supplied, name) == Effect(t, Err(FileNotFound(TablePath(path, name))))
  {
    TablePathShape(path, name);
    assert Parent(TablePath(path, name)) == path;
    CreateExisting(t, path + [name], TableExt);
    Tables.OpenReads(t, path + [name], OptionsFor(s.readOptions, name));
  }

  /** Opening tables in order stops at the first unsupplied one whose file
      is missing, after reading back the ones before it: the error is
      FileNotFoundError for that file and the tree is left as it was. */
  lemma {:induction false} OpenTablesMissing(t: Tree, s: Schema, path: Path, supplied: map<Name, TableData>, fields: seq<Field>, k: nat)
    requires WellFormed(t) && GoodFields(fields) && IsDir(t, path) && k < |fields|
    requires forall j | 0 <= j <= k :: fields[j].name !in supplied
    requires forall j | 0 <= j < k ::
      var n := fields[j].name; IsFile(t, TablePath(path, n)) && t[TablePath(path, n)].content.Csv?
    requires TablePath(path, fields[k].name) !in t
    ensures OpenTables(t, s, path, supplied, fields) == Effect(t, Err(FileNotFound(TablePath(path, fields[k].name))))
    decreases k
  {
    if k == 0 {
      OpenOneMissing(t, s, path, supplied, fields[0].name);
    } else {
      OpenOneReads(t, s, path, supplied, fields[0].name);
      var rest := fields[1..];
      GoodTail(fields);
      forall j | 0 <= j <= k - 1 ensures rest[j] == fields[j + 1] {
      }
      OpenTablesMissing(t, s, path, supplied, rest, k - 1);
    }
  }

  /** `DataBase.__init__` on a folder that exists raises FileNotFoundError
      for the file of the first table that is neither supplied nor on
      disk, once the tables before it have been read back; the tree is
      left as it was. */
  lemma BaseOpenMissing(t: Tree, s: Schema, path: Path, supplied: map<Name, TableData>, k: nat)
    requires WellFormed(t) && s.tables.Declared? && GoodFields(s.tables.fields)
    requires |path| > 0 && IsDir(t, path) && IsDir(t, Normalize(path, FolderExt))
    requires k < |s.tables.fields|
    requires forall j | 0 <= j <= k :: s.tables.fields[j].name !in supplied
    requires forall j | 0 <= j < k ::
      var n := s.tables.fields[j].name; IsFile(t, TablePath(path, n)) && t[TablePath(path, n)].content.Csv?
    requires TablePath(path, s.tables.fields[k].name) !in t
    ensures BaseOpen(t, s, path, supplied) == Effect(t, Err(FileNotFound(TablePath(path, s.tables.fields[k].name))))
  {
    CreateFolder(t, path);
    OpenTablesMissing(t, s, path, supplied, s.tables.fields, k);
  }

  // ---------------------------------------------------------------------
  // DataBase.__call__

  /** Python keyword arguments: no name twice. */
  predicate DistinctNames(updates: seq<Update>) {
    forall i, j | 0 <= i < j < |updates| :: updates[i].name != updates[j].name
  }

  /** No update names `name`. */
  predicate NotUpdated(updates: seq<Update>, name: Name) {
    forall j | 0 <= j < |updates| :: updates[j].name != name
  }

  /** Calling the tables keeps the folder, the number of tables, and each
      table's file and read options. */
  lemma {:induction false} UpdateShape(t: Tree, s: Schema, st: BaseState, updates: seq<Update>)
    requires s.tables.Declared?
    ensures var r := UpdateTables(t, s, st, updates);
      && r.state.path == st.path
      && |r.state.tables| == |st.tables|
      && (forall k | 0 <= k < |st.tables| ::
            r.state.tables[k].path == st.tables[k].path && r.state.tables[k].readOptions == st.tables[k].readOptions)
    decreases |updates|
  {
    if updates != [] {
      var k := Find(s.tables.fields, updates[0].name);
      if 0 <= k < |st.tables| {
        var c := TableCall(t, st.tables[k], updates[0].data, None, OptionsFor(s.writeOptions, updates[0].name));
        UpdateShape(c.tree, s, st.(tables := st.tables[k := c.state]), updates[1..]);
      }
    }
  }

  /** Calling the tables keeps the tree well formed. */
  lemma {:induction false} UpdateWellFormed(t: Tree, s: Schema, st: BaseState, updates: seq<Update>)
    requires s.tables.Declared? && WellFormed(t)
    ensures WellFormed(UpdateTables(t, s, st, updates).tree)
    decreases |updates|
  {
    if updates != [] {
      var k := Find(s.tables.fields, updates[0].name);
      if 0 <= k < |st.tables| {
        var o := OptionsFor(s.writeOptions, updates[0].name);
        var c := TableCall(t, st.tables[k], updates[0].data, None, o);
        CallSpec(t, st.tables[k], updates[0].data, o);
        UpdateWellFormed(c.tree, s, st.(tables := st.tables[k := c.state]), updates[1..]);
      }
    }
  }

  /** A table that no keyword names is left as it was. */
  lemma {:induction false} UpdateKeeps(t: Tree, s: Schema, st: BaseState, updates: seq<Update>, k: int)
    requires s.tables.Declared? && 0 <= k < |s.tables.fields| && k < |st.tables|
    requires NotUpdated(updates, s.tables.fields[k].name)
    ensures var r := UpdateTables(t, s, st, updates);
      |r.state.tables| == |st.tables| && r.state.tables[k] == st.tables[k]
    decreases |updates|
  {
    UpdateShape(t, s, st, updates);
    if updates != [] {
      var k0 := Find(s.tables.fields, updates[0].name);
      if 0 <= k0 < |st.tables| {
        var c := TableCall(t, st.tables[k0], updates[0].data, None, OptionsFor(s.writeOptions, updates[0].name));
        assert NotUpdated(updates[1..], s.tables.fields[k].name) by {
          forall j | 0 <= j < |updates[1..]| ensures updates[1..][j].name != s.tables.fields[k].name {
            assert updates[1..][j] == updates[j + 1];
          }
        }
        UpdateKeeps(c.tree, s, st.(tables := st.tables[k0 := c.state]), updates[1..], k);
      }
    }
  }

  /** Calling the tables changes no entry of the tree but the tables'
      files: the rest of the folder is kept. */
  lemma {:induction false} UpdateFrame(t: Tree, s: Schema, st: BaseState, updates: seq<Update>, q: Path)
    requires s.tables.Declared?
    requires forall k | 0 <= k < |st.tables| :: q != st.tables[k].path
    ensures Untouched(t, UpdateTables(t, s, st, updates).tree, q)
    decreases |updates|
  {
    if updates != [] {
      var k := Find(s.tables.fields, updates[0].name);
      if 0 <= k < |st.tables| {
        var o := OptionsFor(s.writeOptions, updates[0].name);
        var c := TableCall(t, st.tables[k], updates[0].data, None, o);
        CallFrame(t, st.tables[k], updates[0].data, o, q);
        var st1 := st.(tables := st.tables[k := c.state]);
        assert forall i | 0 <= i < |st1.tables| :: st1.tables[i].path == st.tables[i].path;
        UpdateFrame(c.tree, s, st1, updates[1..], q);
      }
    }
  }

  /** One table call that succeeds keeps every file holding its table. */
  lemma CallSynced(t: Tree, tables: seq<TableState>, k: int, data: TableData, options: Options)
    requires Synced(t, tables) && DistinctPaths(tables) && 0 <= k < |tables|
    ensures var c := TableCall(t, tables[k], data, None, options);
      c.outcome.Pass? ==> Synced(c.tree, tables[k := c.state]) && DistinctPaths(tables[k := c.state])
  {
    var c := TableCall(t, tables[k], data, None, options);
    if c.outcome.Pass? {
      var v := tables[k := c.state];
      assert c.tree == t[tables[k].path := File(Csv(c.state.frame))];
      forall i | 0 <= i < |v| ensures Read(c.tree, v[i].path) == Ok(Csv(v[i].frame)) {
        if i != k {
          assert v[i] == tables[i] && tables[i].path != tables[k].path;
          assert Read(t, tables[i].path) == Ok(Csv(tables[i].frame));
        }
      }
    }
  }

  /** When every call succeeds, every file still holds its table and no
      two tables share a file. */
  lemma {:induction false} UpdateSynced(t: Tree, s: Schema, st: BaseState, updates: seq<Update>)
    requires s.tables.Declared? && Synced(t, st.tables) && DistinctPaths(st.tables)
    ensures var r := UpdateTables(t, s, st, updates);
      r.outcome.Pass? ==> Synced(r.tree, r.state.tables) && DistinctPaths(r.state.tables)
    decreases |updates|
  {
    if updates != [] {
      var k := Find(s.tables.fields, updates[0].name);
      if 0 <= k < |st.tables| {
        var o := OptionsFor(s.writeOptions, updates[0].name);
        var c := TableCall(t, st.tables[k], updates[0].data, None, o);
        CallSynced(t, st.tables, k, updates[0].data, o);
        if c.outcome.Pass? {
          UpdateSynced(c.tree, s, st.(tables := st.tables[k := c.state]), updates[1..]);
        }
      }
    }
  }

  /** Only a name that is not a table raises KeyError, and a call in which
      every keyword succeeded named tables only. */
  lemma {:induction false} UpdateDeclared(t: Tree, s: Schema, st: BaseState, updates: seq<Update>)
    requires s.tables.Declared? && |st.tables| == |s.tables.fields|
    ensures var r := UpdateTables(t, s, st, updates);
      && (r.outcome.Pass? ==> forall j | 0 <= j < |updates| :: Find(s.tables.fields, updates[j].name) >= 0)
      && (r.outcome.Fail? && r.outcome.error.KeyError? ==>
          exists j | 0 <= j < |updates| :: updates[j].name == r.outcome.error.key && Find(s.tables.fields, updates[j].name) < 0)
    decreases |updates|
  {
    if updates != [] {
      var u := updates[0];
      var k := Find(s.tables.fields, u.name);
      if 0 <= k < |st.tables| {
        var o := OptionsFor(s.writeOptions, u.name);
        var c := TableCall(t, st.tables[k], u.data, None, o);
        CallErrors(t, st.tables[k], u.data, o);
        if c.outcome.Pass? {
          var rest := updates[1..];
          UpdateDeclared(c.tree, s, st.(tables := st.tables[k := c.state]), rest);
          var r := UpdateTables(c.tree, s, st.(tables := st.tables[k := c.state]), rest);
          if r.outcome.Pass? {
            forall j | 1 <= j < |updates| ensures Find(s.tables.fields, updates[j].name) >= 0 {
              assert updates[j] == rest[j - 1];
            }
          } else if r.outcome.error.KeyError? {
            var j :| 0 <= j < |rest| && rest[j].name == r.outcome.error.key && Find(s.tables.fields, rest[j].name) < 0;
            assert updates[j + 1] == rest[j];
          }
        }
      } else {
        assert updates[0].name == u.name;
      }
    }
  }

  /** When every call succeeds, each table named once by a keyword holds
      its data applied to its old frame and has merged the table's write
      options into its own. */
  lemma {:induction false} UpdateApplies(t: Tree, s: Schema, st: BaseState, updates: seq<Update>, j: int)
    requires s.tables.Declared? && |st.tables| == |s.tables.fields| && DistinctNames(updates)
    requires 0 <= j < |updates|
    ensures var r, k := UpdateTables(t, s, st, updates), Find(s.tables.fields, updates[j].name);
      r.outcome.Pass? ==>
        && 0 <= k < |st.tables| == |r.state.tables|
        && Applied(st.tables[k].frame, updates[j].data) == Ok(r.state.tables[k].frame)
        && r.state.tables[k].writeOptions == st.tables[k].writeOptions + OptionsFor(s.writeOptions, updates[j].name)
    decreases |updates|
  {
    var fields := s.tables.fields;
    var u := updates[0];
    var k0 := Find(fields, u.name);
    UpdateDeclared(t, s, st, updates);
    UpdateShape(t, s, st, updates);
    if 0 <= k0 < |st.tables| {
      var o := OptionsFor(s.writeOptions, u.name);
      var c := TableCall(t, st.tables[k0], u.data, None, o);
      var st1 := st.(tables := st.tables[k0 := c.state]);
      var rest := updates[1..];
      if c.outcome.Pass? {
        assert DistinctNames(rest) by {
          forall a, b | 0 <= a < b < |rest| ensures rest[a].name != rest[b].name {
            assert rest[a] == updates[a + 1] && rest[b] == updates[b + 1];
          }
        }
        if j == 0 {
          assert NotUpdated(rest, fields[k0].name) by {
            forall i | 0 <= i < |rest| ensures rest[i].name != fields[k0].name {
              assert rest[i] == updates[i + 1];
            }
          }
          UpdateKeeps(c.tree, s, st1, rest, k0);
        } else {
          assert rest[j - 1] == updates[j];
          UpdateApplies(c.tree, s, st1, rest, j - 1);
          var k := Find(fields, updates[j].name);
          if UpdateTables(c.tree, s, st1, rest).outcome.Pass? {
            assert k != k0;
          }
        }
      }
    }
  }

  /** What a DataBase keeps true of its tables and their files. */
  predicate Stored(t: Tree, s: Schema, st: BaseState) {
    && s.tables.Declared?
    && |st.tables| == |s.tables.fields|
    && Synced(t, st.tables)
    && DistinctPaths(st.tables)
  }

  /** `DataBase.__call__`: an undeclared `Tables` fails its assertion and a
      `path` keyword fails with TypeError, both before any change; otherwise
      the folder and every table's file are kept, a successful call keeps
      every file holding its table, named tables only, and every table that
      was named holds its data applied to its old frame. */
  lemma BaseCallSpec(t: Tree, s: Schema, st: BaseState, updates: seq<Update>, path: Option<Path>)
    requires WellFormed(t)
    ensures var r := BaseCall(t, s, st, updates, path);
      && WellFormed(r.tree)
      && (s.tables.Undeclared? ==> r == Step(t, st, Fail(AssertionError)))
      && (s.tables.Declared? && path.Some? ==> r == Step(t, st, Fail(TypeError)))
      && r.state.path == st.path
      && |r.state.tables| == |st.tables|
      && (forall k | 0 <= k < |st.tables| :: r.state.tables[k].path == st.tables[k].path)
      && (Stored(t, s, st) && r.outcome.Pass? ==>
          && Stored(r.tree, s, r.state)
          && (forall j | 0 <= j < |updates| :: Find(s.tables.fields, updates[j].name) >= 0))
  {
    if s.tables.Declared? && path.None? {
      UpdateShape(t, s, st, updates);
      UpdateWellFormed(t, s, st, updates);
      if Stored(t, s, st) {
        UpdateSynced(t, s, st, updates);
        UpdateDeclared(t, s, st, updates);
      }
    }
  }

  // ---------------------------------------------------------------------
  // Keyword arguments that name no table

  /** Two keyword dictionaries that say the same about `name`. */
  predicate Agree(a: map<Name, TableData>, b: map<Name, TableData>, name: Name) {
    (name in a <==> name in b) && (name in a ==> a[name] == b[name])
  }

  /** Two keyword dictionaries that say the same about every field. */
  predicate AgreeOn(a: map<Name, TableData>, b: map<Name, TableData>, fields: seq<Field>) {
    forall i | 0 <= i < |fields| :: Agree(a, b, fields[i].name)
  }

  lemma AgreeOnTail(a: map<Name, TableData>, b: map<Name, TableData>, fields: seq<Field>)
    requires AgreeOn(a, b, fields) && |fields| > 0
    ensures Agree(a, b, fields[0].name) && AgreeOn(a, b, fields[1..])
  {
    forall i | 0 <= i < |fields[1..]| ensures Agree(a, b, fields[1..][i].name) {
      assert fields[1..][i] == fields[i + 1];
    }
  }

  lemma {:induction false} OpenTablesAgree(t: Tree, s: Schema, path: Path, a: map<Name, TableData>, b: map<Name, TableData>, fields: seq<Field>)
    requires AgreeOn(a, b, fields)
    ensures OpenTables(t, s, path, a, fields) == OpenTables(t, s, path, b, fields)
    decreases |fields|
  {
    if fields != [] {
      AgreeOnTail(a, b, fields);
      var e := OpenOne(t, s, path, a, fields[0].name);
      OpenTablesAgree(e.tree, s, path, a, b, fields[1..]);
    }
  }

  /** `DataBase.__init__` looks only at the keywords that name tables:
      two calls whose keywords agree on every table give the same result. */
  lemma OpenIgnoresUndeclared(t: Tree, s: Schema, path: Path, a: map<Name, TableData>, b: map<Name, TableData>)
    requires s.tables.Declared?
    requires AgreeOn(a, b, s.tables.fields)
    ensures BaseOpen(t, s, path, a) == BaseOpen(t, s, path, b)
  {
    var e := Created(t, path, FolderExt);
    OpenTablesAgree(e.tree, s, path, a, b, s.tables.fields);
  }

  // ---------------------------------------------------------------------
  // table_defaults, create, copy

  /** `Tables._field_defaults`: one entry per field, holding its default,
      and no other entry. */
  lemma {:induction false} DefaultsSpec(fields: seq<Field>)
    requires GoodFields(fields)
    ensures forall n | n in DefaultsOf(fields) :: Find(fields, n) >= 0
    ensures forall i | 0 <= i < |fields| :: fields[i].name in DefaultsOf(fields) && DefaultsOf(fields)[fields[i].name] == fields[i].default
    decreases |fields|
  {
    if fields != [] {
      var rest := fields[1..];
      GoodTail(fields);
      DefaultsSpec(rest);
      forall i | 1 <= i < |fields|
        ensures fields[i].name in DefaultsOf(fields) && DefaultsOf(fields)[fields[i].name] == fields[i].default
      {
        assert rest[i - 1] == fields[i];
      }
    }
  }

  /** `DataBase.table_defaults()`: an undeclared `Tables` fails its
      assertion; otherwise every table's default under its name, and
      nothing else. */
  lemma TableDefaultsSpec(s: Schema)
    requires WellDeclared(s)
    ensures var r := TableDefaults(s);
      && (r.Err? <==> s.tables.Undeclared?)
      && (r.Err? ==> r.error == AssertionError)
      && (r.Ok? ==>
          && (forall n | n in r.value :: Find(s.tables.fields, n) >= 0)
          && forall i | 0 <= i < |s.tables.fields| ::
               s.tables.fields[i].name in r.value && r.value[s.tables.fields[i].name] == s.tables.fields[i].default)
  {
    if s.tables.Declared? {
      DefaultsSpec(s.tables.fields);
    }
  }

  /** `table_defaults() | tables`: the caller's data wins over a default. */
  lemma WithDefaultsSpec(fields: seq<Field>, supplied: map<Name, TableData>)
    requires GoodFields(fields)
    ensures forall i | 0 <= i < |fields| ::
      var n := fields[i].name;
      n in WithDefaults(fields, supplied) &&
      WithDefaults(fields, supplied)[n] == if n in supplied then supplied[n] else Replace(fields[i].default)
  {
    DefaultsSpec(fields);
  }

  /** `tables_as_dict()`: every table's frame under its field's name. */
  lemma {:induction false} AsDictSpec(fields: seq<Field>, tables: seq<TableState>)
    requires GoodFields(fields) && |tables| == |fields|
    ensures forall i | 0 <= i < |fields| ::
      fields[i].name in AsDict(fields, tables) && AsDict(fields, tables)[fields[i].name] == Replace(tables[i].frame)
    decreases |fields|
  {
    if fields != [] {
      var rest, others := fields[1..], tables[1..];
      GoodTail(fields);
      AsDictSpec(rest, others);
      forall i | 1 <= i < |fields|
        ensures fields[i].name in AsDict(fields, tables) && AsDict(fields, tables)[fields[i].name] == Replace(tables[i].frame)
      {
        assert rest[i - 1] == fields[i] && others[i - 1] == tables[i];
      }
    }
  }

  /** One table of `DataBase.create`, opened from the keywords `all`
      completed with its default. */
  lemma CreatedTable(t: Tree, s: Schema, path: Path, supplied: map<Name, TableData>, all: map<Name, TableData>, f: Field, ts: TableState)
    requires f.name in all && all[f.name] == if f.name in supplied then supplied[f.name] else Replace(f.default)
    requires TableOpened(t, s, path, all, f.name, ts)
    ensures f.name !in supplied ==>
      ts == TableState(TablePath(path, f.name), f.default, DefaultReadOptions, OptionsFor(s.writeOptions, f.name))
    ensures f.name in supplied ==> TableOpened(t, s, path, supplied, f.name, ts)
  {
  }

  /** `DataBase.create`: an undeclared `Tables` fails its assertion;
      otherwise a table the caller does not supply is stored from its
      default, with the write options and without reading, and a supplied
      table is opened from the caller's data. */
  lemma BaseCreateSpec(t: Tree, s: Schema, path: Path, supplied: map<Name, TableData>)
    requires WellFormed(t) && WellDeclared(s)
    ensures var e := BaseCreate(t, s, path, supplied);
      && WellFormed(e.tree)
      && (s.tables.Undeclared? ==> e == Effect(t, Err(AssertionError)))
      && (e.result.Ok? ==>
          var fields, st := s.tables.fields, e.result.value;
          && st.path == Normalize(path, FolderExt)
          && Stored(e.tree, s, st)
          && (forall k | 0 <= k < |fields| && fields[k].name !in supplied ::
                st.tables[k] == TableState(TablePath(path, fields[k].name), fields[k].default,
                                           DefaultReadOptions, OptionsFor(s.writeOptions, fields[k].name)))
          && (forall k | 0 <= k < |fields| && fields[k].name in supplied ::
                TableOpened(t, s, path, supplied, fields[k].name, st.tables[k])))
  {
    if s.tables.Declared? {
      var fields := s.tables.fields;
      var all := WithDefaults(fields, supplied);
      OpenSpec(t, s, path, all);
      WithDefaultsSpec(fields, supplied);
      var e := BaseOpen(t, s, path, all);
      if e.result.Ok? {
        forall k | 0 <= k < |fields| {
          CreatedTable(t, s, path, supplied, all, fields[k], e.result.value.tables[k]);
        }
      }
    }
  }

  /** `DataBase.copy(src, dst)`: an undeclared `Tables` fails its
      assertion; otherwise every table at `dst` holds the frame of the
      same table of `src`, with the write options, and is stored. */
  lemma BaseCopySpec(t: Tree, s: Schema, src: BaseState, dst: Path)
    requires WellFormed(t) && WellDeclared(s)
    requires s.tables.Declared? ==> |src.tables| == |s.tables.fields|
    ensures var e := BaseCopy(t, s, src, dst);
      && WellFormed(e.tree)
      && (s.tables.Undeclared? ==> e == Effect(t, Err(AssertionError)))
      && (e.result.Ok? ==>
          var fields, st := s.tables.fields, e.result.value;
          && st.path == Normalize(dst, FolderExt)
          && Stored(e.tree, s, st)
          && (forall k | 0 <= k < |fields| ::
                st.tables[k] == TableState(TablePath(dst, fields[k].name), src.tables[k].frame,
                                           DefaultReadOptions, OptionsFor(s.writeOptions, fields[k].name))))
  {
    if s.tables.Declared? {
      var fields := s.tables.fields;
      AsDictSpec(fields, src.tables);
      OpenSpec(t, s, dst, AsDict(fields, src.tables));
    }
  }

  // ---------------------------------------------------------------------
  // DataBase.delete

  /** A file stands at the folder or above it. */
  predicate Blocked(t: Tree, path: Path) {
    exists i | 0 < i <= |path| :: IsFile(t, path[..i])
  }

  /** `q` lies at or under none of the tables' files. */
  predicate Outside(path: Path, names: seq<Name>, q: Path) {
    forall i | 0 <= i < |names| :: !IsPrefix(TablePath(path, names[i]), q)
  }

  lemma OutsideCons(path: Path, names: seq<Name>, q: Path)
    requires |names| > 0
    ensures Outside(path, names, q) <==> !IsPrefix(TablePath(path, names[0]), q) && Outside(path, names[1..], q)
  {
    if !IsPrefix(TablePath(path, names[0]), q) && Outside(path, names[1..], q) {
      forall i | 1 <= i < |names| ensures !IsPrefix(TablePath(path, names[i]), q) {
        assert names[i] == names[1..][i - 1];
      }
    }
  }

  /** A table's file lies under a file exactly when the folder is blocked. */
  lemma UnderFileTable(t: Tree, path: Path, name: Name)
    ensures UnderFile(t, TablePath(path, name)) <==> Blocked(t, path)
  {
    var p := TablePath(path, name);
    if UnderFile(t, p) {
      var i :| 0 < i < |p| && IsFile(t, p[..i]);
      assert p[..i] == path[..i];
    }
    if Blocked(t, path) {
      var i :| 0 < i <= |path| && IsFile(t, path[..i]);
      assert p[..i] == path[..i];
    }
  }

  /** `DataTable.delete(path / name)`: fails, changing nothing, exactly when
      the folder is blocked; otherwise removes whatever is at or under the
      table's file, keeps the rest, and leaves the folder as blocked as it
      was. */
  lemma DeleteOne(t: Tree, path: Path, name: Name)
    requires WellFormed(t) && Identifier(name)
    ensures var p, e := TablePath(path, name), Deleted(t, path + [name], TableExt);
      && (e.result.Ok? <==> !Blocked(t, path))
      && (e.result.Err? ==> e == Effect(t, Err(NotADirectory(p))))
      && (e.result.Ok? ==>
          && WellFormed(e.tree)
          && !Blocked(e.tree, path)
          && (forall q | q in e.tree :: q in t && e.tree[q] == t[q] && !IsPrefix(p, q))
          && (forall q | q in t && !IsPrefix(p, q) :: q in e.tree))
  {
    var p := TablePath(path, name);
    TablePathShape(path, name);
    DeleteStore(t, path + [name], TableExt);
    UnderFileTable(t, path, name);
    var e := Deleted(t, path + [name], TableExt);
    if e.result.Ok? {
      DeleteSpec(t, p);
    }
  }

  /** The deletion loop: it fails at the first table, changing nothing,
      exactly when the folder is blocked; otherwise it returns the path,
      nothing is left at or under any table's file, and every other entry,
      the folder among them, is kept. */
  lemma {:induction false} DeleteTablesSpec(t: Tree, path: Path, names: seq<Name>)
    requires WellFormed(t) && forall i | 0 <= i < |names| :: Identifier(names[i])
    ensures var e := DeleteTables(t, path, names);
      && (e.result.Ok? <==> names == [] || !Blocked(t, path))
      && (e.result.Err? ==> e == Effect(t, Err(NotADirectory(TablePath(path, names[0])))))
      && (e.result.Ok? ==>
          && e.result.value == path
          && WellFormed(e.tree)
          && (forall q | q in e.tree :: q in t && e.tree[q] == t[q] && Outside(path, names, q))
          && (forall q | q in t && Outside(path, names, q) :: q in e.tree))
    decreases |names|
  {
    if names != [] {
      DeleteOne(t, path, names[0]);
      var e := Deleted(t, path + [names[0]], TableExt);
      if e.result.Ok? {
        var rest := names[1..];
        assert forall i | 0 <= i < |rest| :: rest[i] == names[i + 1];
        DeleteTablesSpec(e.tree, path, rest);
        var r := DeleteTables(e.tree, path, rest);
        forall q | q in r.tree ensures Outside(path, names, q) {
          OutsideCons(path, names, q);
        }
        forall q | q in t && Outside(path, names, q) ensures q in r.tree {
          OutsideCons(path, names, q);
        }
      }
    }
  }

  /** `DataBase.delete(path)`: an undeclared `Tables` fails its assertion;
      otherwise, unless a file blocks the folder, it returns `path`, every
      table's `.csv` file is gone and everything else in the tree, the
      folder and any other files in it, is kept. */
  lemma BaseDeleteSpec(t: Tree, s: Schema, path: Path)
    requires WellFormed(t) && WellDeclared(s)
    ensures var e := BaseDelete(t, s, path);
      && (s.tables.Undeclared? ==> e == Effect(t, Err(AssertionError)))
      && (s.tables.Declared? ==>
          var fields := s.tables.fields;
          && (e.result.Ok? <==> fields == [] || !Blocked(t, path))
          && (e.result.Err? ==> e.tree == t)
          && (e.result.Ok? ==>
              && e.result.value == path
              && WellFormed(e.tree)
              && (forall k | 0 <= k < |fields| :: TablePath(path, fields[k].name) !in e.tree)
              && (path in t ==> path in e.tree && e.tree[path] == t[path])
              && (forall q | q in e.tree :: q in t && e.tree[q] == t[q])))
  {
    if s.tables.Declared? {
      var fields := s.tables.fields;
      var names := TableNames(s).value;
      DeleteTablesSpec(t, path, names);
      var e := DeleteTables(t, path, names);
      if e.result.Ok? {
        forall k | 0 <= k < |fields| ensures TablePath(path, fields[k].name) !in e.tree {
          var p := TablePath(path, fields[k].name);
          assert names[k] == fields[k].name && p[..|p|] == p;
        }
        if path in t {
          assert Outside(path, names, path);
        }
      }
    }
  }

  // ---------------------------------------------------------------------
  // The DataBase object

  /** Calling the tables from the `i`th keyword on: that keyword, then the
      rest. */
  lemma UpdateStep(t: Tree, s: Schema, st: BaseState, updates: seq<Update>, i: int)
    requires s.tables.Declared? && 0 <= i < |updates|
    ensures var u, k := updates[i], Find(s.tables.fields, updates[i].name);
      UpdateTables(t, s, st, updates[i..]) ==
        if !(0 <= k < |st.tables|) then Step(t, st, Fail(KeyError(u.name)))
        else
          var c := TableCall(t, st.tables[k], u.data, None, OptionsFor(s.writeOptions, u.name));
          var st1 := st.(tables := st.tables[k := c.state]);
          if c.outcome.Fail? then Step(c.tree, st1, c.outcome)
          else UpdateTables(c.tree, s, st1, updates[i + 1..])
  {
    assert updates[i..][0] == updates[i] && updates[i..][1..] == updates[i + 1..];
  }

  /** The states of the table objects `ts`. */
  function States(ts: seq<DataTable>): (r: seq<TableState>)
    reads ts
    ensures |r| == |ts| && forall j | 0 <= j < |ts| :: r[j] == ts[j].State()
  {
    seq(|ts|, j requires 0 <= j < |ts| reads ts => ts[j].State())
  }

  lemma StatesCons(x: DataTable, ts: seq<DataTable>)
    ensures States([x] + ts) == [x.State()] + States(ts)
  {
    var a, b := States([x] + ts), [x.State()] + States(ts);
    forall j | 0 <= j < |a| ensures a[j] == b[j] {
      if j > 0 {
        assert ([x] + ts)[j] == ts[j - 1];
      }
    }
  }

  /** Tables in distinct files are distinct objects. */
  lemma TablesApart(ts: seq<DataTable>)
    requires DistinctPaths(States(ts))
    ensures forall i, j | 0 <= i < j < |ts| :: ts[i] != ts[j]
  {
    forall i, j | 0 <= i < j < |ts| ensures ts[i] != ts[j] {
      assert States(ts)[i].path != States(ts)[j].path;
    }
  }

  /** A `DataBase` object: its class attributes, its folder, and its
      `DataTable` objects, one per declared table. */
  class DataBase {
    const schema: Schema
    var path: Path
    var tables: seq<DataTable>

    /** No two tables share a file, hence no table object is shared. */
    ghost predicate Valid()
      reads this, tables
    {
      DistinctPaths(States(tables))
    }

    function State(): BaseState
      reads this, tables
    {
      BaseState(path, States(tables))
    }

    constructor Of(s: Schema, p: Path, ts: seq<DataTable>)
      ensures schema == s && path == p && tables == ts
    {
      schema := s;
      path := p;
      tables := ts;
    }

    /** One table of `DataBase.__init__`. */
    static method OpenNamed(disk: Disk, s: Schema, path: Path, supplied: map<Name, TableData>, name: Name)
      returns (r: Result<DataTable>)
      modifies disk
      ensures var e := OpenOne(old(disk.tree), s, path, supplied, name);
        && disk.tree == e.tree
        && r.Ok? == e.result.Ok?
        && (r.Ok? ==> fresh(r.value) && r.value.State() == e.result.value)
        && (r.Err? ==> r.error == e.result.error)
    {
      if name in supplied {
        r := DataTable.Open(disk, path + [name], supplied[name], OptionsFor(s.writeOptions, name));
      } else {
        r := DataTable.Open(disk, path + [name], Unchanged, OptionsFor(s.readOptions, name));
      }
    }

    /** The table comprehension of `DataBase.__init__`: one new
        `DataTable` per field, in order, or the error that stopped it. */
    static method OpenEach(disk: Disk, s: Schema, path: Path, supplied: map<Name, TableData>, fields: seq<Field>)
      returns (r: Result<seq<DataTable>>)
      modifies disk
      ensures var e := OpenTables(old(disk.tree), s, path, supplied, fields);
        && disk.tree == e.tree
        && r.Ok? == e.result.Ok?
        && (r.Ok? ==> States(r.value) == e.result.value)
        && (r.Err? ==> r.error == e.result.error)
      decreases |fields|
    {
      if fields == [] {
        return Ok([]);
      }
      var t := OpenNamed(disk, s, path, supplied, fields[0].name);
      if t.Err? {
        return Err(t.error);
      }
      var rest := OpenEach(disk, s, path, supplied, fields[1..]);
      if rest.Err? {
        return Err(rest.error);
      }
      StatesCons(t.value, rest.value);
      r := Ok([t.value] + rest.value);
    }

    /** `DataBase.__init__`: a new `DataBase`, or the error that stopped it. */
    static method Open(disk: Disk, s: Schema, path: Path, supplied: map<Name, TableData>) returns (r: Result<DataBase>)
      requires WellDeclared(s)
      modifies disk
      ensures var e := BaseOpen(old(disk.tree), s, path, supplied);
        && disk.tree == e.tree
        && r.Ok? == e.result.Ok?
        && (r.Ok? ==> fresh(r.value) && r.value.Valid() && r.value.schema == s && r.value.State() == e.result.value)
        && (r.Err? ==> r.error == e.result.error)
    {
      if s.tables.Undeclared? {
        return Err(AssertionError);
      }
      var e := Created(disk.tree, path, FolderExt);
      disk.tree := e.tree;
      if e.result.Err? {
        return Err(e.result.error);
      }
      r := OpenIn(disk, s, e.result.value, path, supplied);
    }

    /** The tables of `DataBase.__init__` once its folder exists, gathered
        into a new `DataBase` at `folder`. */
    static method OpenIn(disk: Disk, s: Schema, folder: Path, path: Path, supplied: map<Name, TableData>) returns (r: Result<DataBase>)
      requires s.tables.Declared? && GoodFields(s.tables.fields)
      modifies disk
      ensures var e := OpenTables(old(disk.tree), s, path, supplied, s.tables.fields);
        && disk.tree == e.tree
        && r.Ok? == e.result.Ok?
        && (r.Ok? ==> fresh(r.value) && r.value.Valid() && r.value.schema == s && r.value.State() == BaseState(folder, e.result.value))
        && (r.Err? ==> r.error == e.result.error)
    {
      OpenTablesPaths(disk.tree, s, path, supplied, s.tables.fields);
      var ts := OpenEach(disk, s, path, supplied, s.tables.fields);
      if ts.Err? {
        return Err(ts.error);
      }
      ghost var states := States(ts.value);
      var db := new DataBase.Of(s, folder, ts.value);
      assert db.State() == BaseState(folder, states);
      r := Ok(db);
    }

    /** `DataBase.__call__(**tables_and_path)`. */
    method Call(disk: Disk, updates: seq<Update>, newPath: Option<Path>) returns (o: Outcome)
      requires Valid()
      modifies disk, tables
      ensures var r := BaseCall(old(disk.tree), schema, old(State()), updates, newPath);
        disk.tree == r.tree && State() == r.state && o == r.outcome
      ensures Valid()
    {
      if schema.tables.Undeclared? {
        return Fail(AssertionError);
      }
      if newPath.Some? {
        return Fail(TypeError);
      }
      UpdateShape(disk.tree, schema, State(), updates);
      TablesApart(tables);
      var i := 0;
      assert updates[0..] == updates;
      while i < |updates|
        invariant 0 <= i <= |updates|
        invariant UpdateTables(disk.tree, schema, State(), updates[i..]) == BaseCall(old(disk.tree), schema, old(State()), updates, newPath)
      {
        var u := updates[i];
        UpdateStep(disk.tree, schema, State(), updates, i);
        var k := Find(schema.tables.fields, u.name);
        if !(0 <= k < |tables|) {
          return Fail(KeyError(u.name));
        }
        o := CallAt(disk, k, u.data, OptionsFor(schema.writeOptions, u.name));
        if o.Fail? {
          return;
        }
        i := i + 1;
      }
      o := Pass;
    }

    /** The call on the `k`-th table object inside `DataBase.__call__`. */
    method CallAt(disk: Disk, k: int, data: TableData, options: Options) returns (o: Outcome)
      requires 0 <= k < |tables|
      requires forall i, j | 0 <= i < j < |tables| :: tables[i] != tables[j]
      modifies disk, tables[k]
      ensures var c := TableCall(old(disk.tree), old(State()).tables[k], data, None, options);
        && disk.tree == c.tree && o == c.outcome
        && State() == old(State()).(tables := old(State()).tables[k := c.state])
    {
      o := tables[k].Call(disk, data, None, options);
      forall j | 0 <= j < |tables| && j != k ensures tables[j].State() == old(tables[j].State()) {
        assert tables[j] != tables[k];
      }
    }

    /** `DataBase.create`. */
    static method Create(disk: Disk, s: Schema, path: Path, supplied: map<Name, TableData>) returns (r: Result<DataBase>)
      requires WellDeclared(s)
      modifies disk
      ensures var e := BaseCreate(old(disk.tree), s, path, supplied);
        && disk.tree == e.tree
        && r.Ok? == e.result.Ok?
        && (r.Ok? ==> fresh(r.value) && r.value.Valid() && r.value.schema == s && r.value.State() == e.result.value)
        && (r.Err? ==> r.error == e.result.error)
    {
      if s.tables.Undeclared? {
        return Err(AssertionError);
      }
      r := Open(disk, s, path, WithDefaults(s.tables.fields, supplied));
    }

    /** `DataBase.copy`. */
    static method Copy(disk: Disk, s: Schema, src: DataBase, dst: Path) returns (r: Result<DataBase>)
      requires WellDeclared(s)
      modifies disk
      ensures var e := BaseCopy(old(disk.tree), s, old(src.State()), dst);
        && disk.tree == e.tree
        && r.Ok? == e.result.Ok?
        && (r.Ok? ==> fresh(r.value) && r.value.Valid() && r.value.schema == s && r.value.State() == e.result.value)
        && (r.Err? ==> r.error == e.result.error)
    {
      if s.tables.Undeclared? {
        return Err(AssertionError);
      }
      r := Open(disk, s, dst, AsDict(s.tables.fields, States(src.tables)));
    }

    /** `DataBase.delete`. */
    static method Delete(disk: Disk, s: Schema, path: Path) returns (r: Result<Path>)
      modifies disk
      ensures Effect(disk.tree, r) == BaseDelete(old(disk.tree), s, path)
    {
      var names := TableNames(s);
      if names.Err? {
        return Err(names.error);
      }
      var i := 0;
      assert names.value[0..] == names.value;
      while i < |names.value|
        invariant 0 <= i <= |names.value|
        invariant DeleteTables(disk.tree, path, names.value[i..]) == BaseDelete(old(disk.tree), s, path)
      {
        assert names.value[i..][0] == names.value[i] && names.value[i..][1..] == names.value[i + 1..];
        var d := DataTable.Delete(disk, path + [names.value[i]]);
        if d.Err? {
          return Err(d.error);
        }
        i := i + 1;
      }
      r := Ok(path);
    }
  }
}
