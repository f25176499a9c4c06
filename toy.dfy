/** `ToyDataBase` and `ToyModel`: the two concrete subclasses, each with one
    table `data` whose default is a single row of zeros under the
    two-level column labels (Category, int), (Input, float), (Output, float). */
module Toys {
  import opened Paths
  import opened Values
  import opened Errors
  import opened FileSystem
  import opened Tables
  import opened Metadata
  import opened DataBases
  import opened Models

  /** The default frame of the `data` table. */
  const ToyFrame: Frame :=
    DataFrame([0], [Named(["Category", "int"]), Named(["Input", "float"]), Named(["Output", "float"])],
              Grid(1, 3, [[0, 0, 0]]))

  /** The `Tables` of both toy classes: one field `data`. */
  const ToyTables: Declaration := Declared([Field("data", ToyFrame)])

  /** The two header rows are read back as the column labels. */
  const ToyReadOptions: map<Name, Options> := map["data" := map["header" := OInts([0, 1])]]

  /** `ToyDataBase`: the index is written. */
  const ToyDataBase: Schema := Schema(ToyTables, ToyReadOptions, map["data" := map["index" := OBool(true)]])

  /** `ToyModel`: no write option and no default metadata. */
  const ToyModel: ModelSchema := ModelSchema(Schema(ToyTables, ToyReadOptions, map["data" := map[]]), map[])

  /** `data` is a valid NamedTuple field of a DataBase. */
  lemma DataIsIdentifier()
    ensures Identifier("data")
  {
    assert "data"[0] != '.' && "data"[1] != '.' && "data"[2] != '.' && "data"[3] != '.';
  }

  /** `ToyDataBase.create` stores the default frame in `<path>/data.csv`,
      with the index written. */
  lemma ToyDataBaseCreate(t: Tree, path: Path)
    requires Room(t, path)
    ensures var e := BaseCreate(t, ToyDataBase, path, map[]);
      && e.result.Ok?
      && e.result.value.path == Normalize(path, FolderExt)
      && e.result.value.tables == [TableState(TablePath(path, "data"), ToyFrame, DefaultReadOptions, map["index" := OBool(true)])]
      && Read(e.tree, TablePath(path, "data")) == Ok(Csv(ToyFrame))
  {
    DataIsIdentifier();
    var fields := ToyTables.fields;
    WithDefaultsSpec(fields, map[]);
    BaseOpenSucceeds(t, ToyDataBase, path, WithDefaults(fields, map[]));
    BaseCreateSpec(t, ToyDataBase, path, map[]);
  }

  /** Where a toy store can be created: no file on the folder's path, no
      folder where `meta.json` or `data.csv` go. */
  ghost predicate Room(t: Tree, path: Path) {
    && WellFormed(t) && |path| > 0
    && NoFileOn(t, path) && !IsFile(t, Normalize(path, FolderExt))
    && !IsDir(t, MetaPath(path)) && !IsDir(t, TablePath(path, "data"))
  }

  /** `ToyModel.create` writes the placeholder record to `<path>/meta.json`
      and the default frame to `<path>/data.csv`, with no write option. */
  lemma ToyModelCreate(t: Tree, path: Path)
    requires Room(t, path)
    ensures var e := ModelCreate(t, ToyModel, path, map[], map[]);
      && e.result.Ok?
      && e.result.value.meta == MetaState(MetaPath(path), Placeholder)
      && e.result.value.base.tables == [TableState(TablePath(path, "data"), ToyFrame, DefaultReadOptions, map[])]
      && Read(e.tree, TablePath(path, "data")) == Ok(Csv(ToyFrame))
  {
    DataIsIdentifier();
    ModelCreateSucceeds(t, ToyModel, path, map[], map[]);
    ModelCreateSpec(t, ToyModel, path, map[], map[]);
    var e := ModelCreate(t, ToyModel, path, map[], map[]);
    var ts := e.result.value.base.tables;
    assert |ts| == 1 && Synced(e.tree, ts);
    assert ts[0] == TableState(TablePath(path, "data"), ToyFrame, DefaultReadOptions, map[]);
    assert ts == [ts[0]];
  }

  /** `ToyModel(path)` reads back what `ToyModel.create` stored: the
      placeholder record and the default frame. */
  lemma ToyModelReopen(t: Tree, path: Path)
    requires Room(t, path)
    ensures var e := ModelCreate(t, ToyModel, path, map[], map[]);
      && e.result.Ok?
      && var r := ModelOpen(e.tree, ToyModel, path, map[]);
         && r.tree == e.tree && r.result.Ok?
         && r.result.value.meta.data == Placeholder
         && |r.result.value.base.tables| == 1 && r.result.value.base.tables[0].frame == ToyFrame
  {
    DataIsIdentifier();
    ToyModelCreate(t, path);
    CreateThenReopen(t, ToyModel, path, map[], map[]);
  }
}
