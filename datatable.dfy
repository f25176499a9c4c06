/** `DataTable`: one data frame kept in a `.csv` file, with the options it
    is read and written with. Every update changes the frame in memory and
    then rewrites the whole file. */
module Tables {
  import opened Paths
  import opened Values
  import opened Errors
  import opened FileSystem
  import opened Store

  /** The fields of a `DataTable`: its normalised path, its frame, and the
      option dictionaries for `pd.read_csv` and `DataFrame.to_csv`. */
  datatype TableState = TableState(path: Path, frame: Frame, readOptions: Options, writeOptions: Options)

  /** The `data` argument of `DataTable.__call__`. */
  datatype TableData =
    | Unchanged               // None: keep the frame
    | Replace(frame: Frame)   // a DataTable or a DataFrame: take a copy of its frame
    | Assign(matrix: Matrix)  // a NumPy or TensorFlow matrix: assign it into the frame, `iloc[:, :] = data`

  /** What `DataTable.create` builds its frame from. */
  datatype Source =
    | NoData                  // None: `pd.DataFrame()` is empty
    | FromFrame(frame: Frame) // a DataTable or a DataFrame
    | FromMatrix(m: Matrix)   // a bare matrix, labelled by position

  /** The defaults `DataTable.__init__` starts from. */
  const DefaultReadOptions: Options := map["index_col" := OInt(0)]
  const DefaultWriteOptions: Options := map[]

  /** NumPy's broadcasting rule along one axis. */
  predicate AxisBroadcasts(from: int, to: int) {
    0 <= to && (from == to || from == 1)
  }

  /** `np.broadcast_to(m, (rows, cols))` raises no ValueError. */
  predicate Broadcastable(m: Matrix, rows: int, cols: int) {
    AxisBroadcasts(m.rows, rows) && AxisBroadcasts(m.cols, cols)
  }

  /** `np.broadcast_to(m, (rows, cols))`: an axis of extent 1 is repeated. */
  function BroadcastTo(m: Matrix, rows: int, cols: int): (r: Matrix)
    requires Broadcastable(m, rows, cols)
    ensures r.rows == rows && r.cols == cols
  {
    Grid(rows, cols,
      seq(rows, i requires 0 <= i < rows =>
        seq(cols, j requires 0 <= j < cols =>
          m.at[if m.rows == 1 then 0 else i][if m.cols == 1 then 0 else j])))
  }

  function Min(a: nat, b: nat): nat {
    if a <= b then a else b
  }

  /** `np.diag(np.diagonal(m))`: the square matrix of the main diagonal. */
  function Diagonalised(m: Matrix): (r: Matrix)
    ensures r.rows == r.cols == Min(m.rows, m.cols)
  {
    var k := Min(m.rows, m.cols);
    Grid(k, k, seq(k, i requires 0 <= i < k => seq(k, j requires 0 <= j < k => if i == j then m.at[i][i] else 0)))
  }

  /** `pd.DataFrame(m)`: rows numbered from 0, columns labelled by position. */
  function FrameOf(m: Matrix): (f: Frame)
    ensures f.values == m
  {
    DataFrame(seq(m.rows, i => i), seq(m.cols, j requires 0 <= j => Position(j)), m)
  }

  /** `pd.DataFrame(data)` as `DataTable.create` calls it, with no index,
      columns, dtype or copy argument. */
  function FrameFrom(src: Source): Frame {
    match src
    case NoData => EmptyFrame
    case FromFrame(f) => f
    case FromMatrix(m) => FrameOf(m)
  }

  /** `frame.iloc[:, :] = m`: the values are broadcast into the frame's own
      shape, keeping its labels; an incompatible shape raises ValueError. */
  function Assigned(f: Frame, m: Matrix): Result<Frame> {
    if Broadcastable(m, f.values.rows, f.values.cols) then
      Ok(f.(values := BroadcastTo(m, f.values.rows, f.values.cols)))
    else Err(ValueError)
  }

  /** The frame after the data branch of `DataTable.__call__`. */
  function Applied(f: Frame, data: TableData): Result<Frame> {
    match data
    case Unchanged => Ok(f)
    case Replace(g) => Ok(g)
    case Assign(m) => Assigned(f, m)
  }

  /** `DataTable.__call__(data, path, **options)`: optionally relocate
      (making the new parent folder), apply the data, merge the options into
      the write options (the new ones win), then rewrite the whole file. A
      failure leaves whatever was already done. */
  function TableCall(t: Tree, s: TableState, data: TableData, path: Option<Path>, options: Options): Step<TableState> {
    var e := if path.Some? then Created(t, path.value, TableExt) else Effect(t, Ok(s.path));
    if e.result.Err? then Step(e.tree, s, Fail(e.result.error))
    else
      var s1 := s.(path := e.result.value);
      match Applied(s1.frame, data)
      case Err(err) => Step(e.tree, s1, Fail(err))
      case Ok(f) =>
        var s2 := s1.(frame := f, writeOptions := s1.writeOptions + options);
        match Write(e.tree, s2.path, Csv(f))
        case Err(err) => Step(e.tree, s2, Fail(err))
        case Ok(t1) => Step(t1, s2, Pass)
  }

  /** `DataTable.__init__(path, data, **options)`. Without data the frame is
      read with `{'index_col': 0} | options` and stored again by a call;
      with data the write options become `{} | options` and the data is
      stored by a call. A matrix cannot be assigned into a frame that does
      not exist yet, so it raises AttributeError. */
  function TableOpen(t: Tree, path: Path, data: TableData, options: Options): Effect<TableState> {
    var e := Created(t, path, TableExt);
    if e.result.Err? then Effect(e.tree, Err(e.result.error))
    else
      var p := e.result.value;
      match data
      case Unchanged =>
        var ro := DefaultReadOptions + options;
        (match Read(e.tree, p)
         case Err(err) => Effect(e.tree, Err(err))
         case Ok(c) =>
           if c.Csv? then Finished(TableCall(e.tree, TableState(p, c.frame, ro, DefaultWriteOptions), Replace(c.frame), None, map[]))
           else Effect(e.tree, Err(Unparsable(p))))
      case Replace(f) =>
        var wo := DefaultWriteOptions + options;
        Finished(TableCall(e.tree, TableState(p, f, DefaultReadOptions, wo), Replace(f), None, wo))
      case Assign(_) => Effect(e.tree, Err(AttributeError))
  }

  /** `DataTable.create(path, data, **options)`: always builds a frame and
      writes it, so `None` stores an empty frame rather than reading. */
  function TableCreate(t: Tree, path: Path, src: Source, options: Options): Effect<TableState> {
    TableOpen(t, path, Replace(FrameFrom(src)), options)
  }

  /** `DataTable.copy(src, dst)`: construct at `dst` from the frame and the
      write options of `src`. */
  function TableCopy(t: Tree, src: TableState, dst: Path): Effect<TableState> {
    TableOpen(t, dst, Replace(src.frame), src.writeOptions)
  }

  /** `DataTable.broadcast_to((rows, cols), is_diagonal)`: broadcast the
      values (IndexError when impossible), keep only the diagonal when asked
      and the target has more than one row, then assign the result into the
      frame by a call. */
  function TableBroadcast(t: Tree, s: TableState, rows: int, cols: int, isDiagonal: bool): Step<TableState> {
    if !Broadcastable(s.frame.values, rows, cols) then Step(t, s, Fail(IndexError))
    else
      var d := BroadcastTo(s.frame.values, rows, cols);
      TableCall(t, s, Assign(if isDiagonal && rows > 1 then Diagonalised(d) else d), None, map[])
  }

  // ---------------------------------------------------------------------
  // Properties of the matrix operations

  /** Broadcasting repeats an axis of extent 1 and otherwise copies: every
      cell comes from the cell of the source at the same place, clamped to
      the source's shape. */
  lemma BroadcastCells(m: Matrix, rows: int, cols: int)
    requires Broadcastable(m, rows, cols)
    ensures var r := BroadcastTo(m, rows, cols);
      forall i, j | 0 <= i < rows && 0 <= j < cols ::
        r.at[i][j] == m.at[if m.rows == 1 then 0 else i][if m.cols == 1 then 0 else j]
  {
  }

  /** Broadcasting a matrix to its own shape changes nothing. */
  lemma BroadcastSame(m: Matrix)
    ensures Broadcastable(m, m.rows, m.cols)
    ensures BroadcastTo(m, m.rows, m.cols) == m
  {
    var r := BroadcastTo(m, m.rows, m.cols);
    forall i | 0 <= i < m.rows ensures r.at[i] == m.at[i] {
      if m.rows == 1 {
        assert i == 0;
      }
      forall j | 0 <= j < m.cols ensures r.at[i][j] == m.at[i][j] {
        if m.cols == 1 {
          assert j == 0;
        }
      }
    }
  }

  /** `np.diag(np.diagonal(m))` keeps the main diagonal and zeroes every
      other cell. */
  lemma DiagonalCells(m: Matrix)
    ensures var r := Diagonalised(m);
      && (forall i | 0 <= i < r.rows :: r.at[i][i] == m.at[i][i])
      && (forall i, j | 0 <= i < r.rows && 0 <= j < r.cols && i != j :: r.at[i][j] == 0)
  {
  }

  /** Assigning into a frame keeps its labels and its shape and fails
      exactly when the matrix cannot be broadcast to that shape. */
  lemma AssignedSpec(f: Frame, m: Matrix)
    ensures Assigned(f, m).Ok? <==> Broadcastable(m, f.values.rows, f.values.cols)
    ensures Assigned(f, m).Err? ==> Assigned(f, m).error == ValueError
    ensures Assigned(f, m).Ok? ==>
      var g := Assigned(f, m).value;
      && g.index == f.index && g.columns == f.columns
      && g.values.rows == f.values.rows && g.values.cols == f.values.cols
    ensures m.rows == f.values.rows && m.cols == f.values.cols ==> Assigned(f, m) == Ok(f.(values := m))
  {
    if m.rows == f.values.rows && m.cols == f.values.cols {
      BroadcastSame(m);
    }
  }

  // ---------------------------------------------------------------------
  // Properties of the table operations

  /** `DataTable.__call__` without relocation: it succeeds exactly when the
      data applies and the file can be written; it keeps the path and the
      read options, merges the options into the write options (new keys
      win, old keys kept), and leaves in the file exactly the frame in
      memory, changing no other entry. */
  lemma CallSpec(t: Tree, s: TableState, data: TableData, options: Options)
    requires WellFormed(t)
    ensures var st := TableCall(t, s, data, None, options);
      && WellFormed(st.tree)
      && st.state.path == s.path && st.state.readOptions == s.readOptions
      && (st.outcome.Pass? <==>
          Applied(s.frame, data).Ok? && s.path != [] && IsDir(t, Parent(s.path)) && !IsDir(t, s.path))
      && (Applied(s.frame, data).Err? ==> st == Step(t, s, Fail(ValueError)))
      && (st.outcome.Pass? ==>
          && st.state.frame == Applied(s.frame, data).value
          && st.state.writeOptions.Keys == s.writeOptions.Keys + options.Keys
          && (forall k | k in options :: st.state.writeOptions[k] == options[k])
          && (forall k | k in s.writeOptions && k !in options :: st.state.writeOptions[k] == s.writeOptions[k])
          && st.tree == t[s.path := File(Csv(st.state.frame))]
          && Read(st.tree, s.path) == Ok(Csv(st.state.frame)))
  {
    var f := Applied(s.frame, data);
    if f.Ok? {
      WriteSpec(t, s.path, Csv(f.value));
    } else {
      assert data.Assign?;
    }
  }

  /** With a new path, `DataTable.__call__` moves to the normalised `.csv`
      path, makes its folder, and on success leaves there exactly the frame
      in memory. */
  lemma CallRelocated(t: Tree, s: TableState, data: TableData, path: Path, options: Options)
    requires WellFormed(t)
    ensures var st := TableCall(t, s, data, Some(path), options);
      && WellFormed(st.tree)
      && (st.outcome.Pass? <==>
          Created(t, path, TableExt).result.Ok? && Applied(s.frame, data).Ok? && !IsDir(t, Normalize(path, TableExt)))
      && (st.outcome.Pass? ==>
          && st.state.path == Normalize(path, TableExt)
          && Read(st.tree, st.state.path) == Ok(Csv(st.state.frame)))
  {
    CreatedWellFormed(t, path, TableExt);
    CreatedAt(t, path, TableExt);
    var e := Created(t, path, TableExt);
    if e.result.Ok? {
      var f := Applied(s.frame, data);
      if f.Ok? {
        WriteSpec(e.tree, e.result.value, Csv(f.value));
        RootNotEntry(t);
      }
    }
  }

  /** A call in place changes no entry but the table's own file. */
  lemma CallFrame(t: Tree, s: TableState, data: TableData, options: Options, q: Path)
    requires q != s.path
    ensures Untouched(t, TableCall(t, s, data, None, options).tree, q)
  {
  }

  /** Write options accumulate: two calls merge both option sets, the later
      one winning. */
  lemma OptionsAccumulate(t: Tree, s: TableState, d1: TableData, o1: Options, d2: TableData, o2: Options)
    requires TableCall(t, s, d1, None, o1).outcome.Pass?
    ensures var st1 := TableCall(t, s, d1, None, o1);
      var st2 := TableCall(st1.tree, st1.state, d2, None, o2);
      st2.outcome.Pass? ==> st2.state.writeOptions == s.writeOptions + o1 + o2
  {
  }

  /** With a frame, `DataTable.__init__` amounts to making the folder and
      then storing the frame in place. */
  lemma OpenThenStore(t: Tree, path: Path, f: Frame, options: Options)
    requires Created(t, path, TableExt).result.Ok?
    ensures var e := Created(t, path, TableExt);
      var wo := DefaultWriteOptions + options;
      TableOpen(t, path, Replace(f), options)
        == Finished(TableCall(e.tree, TableState(e.result.value, f, DefaultReadOptions, wo), Replace(f), None, wo))
  {
  }

  /** Constructing a `DataTable` from a frame writes it, overwriting any file
      there, and never reads: the read options are the default
      `{'index_col': 0}` and the write options are `{} | options`. */
  lemma OpenWrites(t: Tree, path: Path, f: Frame, options: Options)
    requires WellFormed(t) && |path| > 0
    ensures var p, e := Normalize(path, TableExt), TableOpen(t, path, Replace(f), options);
      && WellFormed(e.tree)
      && (e.result.Ok? <==> Created(t, path, TableExt).result.Ok? && !IsDir(t, p))
      && (e.result.Ok? ==>
          && e.result.value == TableState(p, f, DefaultReadOptions, options)
          && Read(e.tree, p) == Ok(Csv(f)))
  {
    var e := Created(t, path, TableExt);
    CreatedWellFormed(t, path, TableExt);
    CreatedAt(t, path, TableExt);
    if e.result.Ok? {
      var p := e.result.value;
      OpenThenStore(t, path, f, options);
      CallSpec(e.tree, TableState(p, f, DefaultReadOptions, options), Replace(f), options);
      MergeSame(options);
    }
  }

  /** Constructing a `DataTable` from a frame adds only its file and the
      folders on the way to it. */
  lemma OpenGrows(t: Tree, path: Path, f: Frame, options: Options)
    requires |path| > 0
    ensures var p := Normalize(path, TableExt);
      GrownBy(t, TableOpen(t, path, Replace(f), options).tree, Parent(p), p)
  {
    var p := Normalize(path, TableExt);
    var e := Created(t, path, TableExt);
    CreatedGrows(t, path, TableExt, p);
    if e.result.Ok? {
      OpenThenStore(t, path, f, options);
      GrownTwice(t, e.tree, TableOpen(t, path, Replace(f), options).tree, Parent(p), p);
    }
  }

  /** Merging options into none, or into themselves, gives them back. */
  lemma MergeSame(o: Options)
    ensures DefaultWriteOptions + o == o && o + o == o
  {
  }

  /** Constructing a `DataTable` without data reads the frame from the file,
      which must exist (FileNotFoundError otherwise) and hold a table; the
      read options are `{'index_col': 0} | options` (the caller's keys win)
      and the write options `{}`. The frame is stored back unchanged. */
  lemma OpenReads(t: Tree, path: Path, options: Options)
    requires WellFormed(t) && |path| > 0
    ensures var p, e := Normalize(path, TableExt), TableOpen(t, path, Unchanged, options);
      && WellFormed(e.tree)
      && (Created(t, path, TableExt).result.Ok? ==>
          && (e.result.Ok? <==> IsFile(t, p) && t[p].content.Csv?)
          && (p !in t ==> e.result == Err(FileNotFound(p))))
      && (e.result.Ok? ==>
          && e.result.value == TableState(p, t[p].content.frame, DefaultReadOptions + options, DefaultWriteOptions)
          && e.result.value.readOptions["index_col"] == (if "index_col" in options then options["index_col"] else OInt(0)))
  {
    var e := Created(t, path, TableExt);
    CreatedWellFormed(t, path, TableExt);
    CreatedAt(t, path, TableExt);
    if e.result.Ok? {
      var p := e.result.value;
      ParentDirNotUnderFile(e.tree, p);
      if IsFile(e.tree, p) && e.tree[p].content.Csv? {
        var c := e.tree[p].content;
        CallSpec(e.tree, TableState(p, c.frame, DefaultReadOptions + options, DefaultWriteOptions), Replace(c.frame), map[]);
        assert DefaultWriteOptions + map[] == DefaultWriteOptions;
      }
    }
  }

  /** Reading a `DataTable` rewrites its file with what it held, so it
      changes no entry that was already there. */
  lemma OpenReadsKeeps(t: Tree, path: Path, options: Options)
    requires WellFormed(t)
    ensures var e := TableOpen(t, path, Unchanged, options);
      forall q | q in t :: q in e.tree && e.tree[q] == t[q]
  {
    if path != [] {
      CreateFile(t, path, TableExt);
      var e := Created(t, path, TableExt);
      if e.result.Ok? {
        var p := e.result.value;
        if IsFile(e.tree, p) && e.tree[p].content.Csv? {
          var c := e.tree[p].content;
          RewriteSame(e.tree, p, c);
        }
      }
      assert TableOpen(t, path, Unchanged, options).tree == e.tree;
    }
  }

  /** Constructing a `DataTable` changes no entry but its own file, apart
      from making folders. */
  lemma OpenFrame(t: Tree, path: Path, data: TableData, options: Options, q: Path)
    requires path != [] ==> q != Normalize(path, TableExt)
    ensures Untouched(t, TableOpen(t, path, data, options).tree, q)
  {
    var e := Created(t, path, TableExt);
    assert Untouched(t, e.tree, q);
    if e.result.Ok? {
      var p := e.result.value;
      match data
      case Unchanged =>
        if IsFile(e.tree, p) && e.tree[p].content.Csv? {
          var c := e.tree[p].content;
          CallFrame(e.tree, TableState(p, c.frame, DefaultReadOptions + options, DefaultWriteOptions), Replace(c.frame), map[], q);
        }
      case Replace(f) =>
        var wo := DefaultWriteOptions + options;
        CallFrame(e.tree, TableState(p, f, DefaultReadOptions, wo), Replace(f), wo, q);
      case Assign(_) =>
    }
  }

  /** A constructed `DataTable` keeps the normalised path, whatever the tree. */
  lemma OpenPath(t: Tree, path: Path, data: TableData, options: Options)
    ensures var e := TableOpen(t, path, data, options);
      e.result.Ok? ==> e.result.value.path == Normalize(path, TableExt)
  {
    var e := Created(t, path, TableExt);
    if e.result.Ok? {
      var p := e.result.value;
      match data
      case Unchanged =>
        var ro := DefaultReadOptions + options;
        match Read(e.tree, p) {
          case Err(_) =>
          case Ok(c) =>
            if c.Csv? {
              assert TableCall(e.tree, TableState(p, c.frame, ro, DefaultWriteOptions), Replace(c.frame), None, map[]).state.path == p;
            }
        }
      case Replace(f) =>
        var wo := DefaultWriteOptions + options;
        assert TableCall(e.tree, TableState(p, f, DefaultReadOptions, wo), Replace(f), None, wo).state.path == p;
      case Assign(_) =>
    }
  }

  /** A matrix cannot be the data of a new `DataTable`. */
  lemma OpenMatrixFails(t: Tree, path: Path, m: Matrix, options: Options)
    requires Created(t, path, TableExt).result.Ok?
    ensures TableOpen(t, path, Assign(m), options).result == Err(AttributeError)
  {
  }

  /** After a successful construction the folder of the file exists. */
  lemma OpenFolder(t: Tree, path: Path, data: TableData, options: Options)
    requires WellFormed(t) && TableOpen(t, path, data, options).result.Ok?
    ensures var e := TableOpen(t, path, data, options);
      && |path| > 0
      && WellFormed(e.tree)
      && e.result.value.path == Normalize(path, TableExt)
      && IsDir(e.tree, Parent(Normalize(path, TableExt)))
      && Read(e.tree, e.result.value.path) == Ok(Csv(e.result.value.frame))
  {
    var e0 := Created(t, path, TableExt);
    CreatedWellFormed(t, path, TableExt);
    CreatedAt(t, path, TableExt);
    var p := e0.result.value;
    match data
    case Unchanged =>
      OpenReads(t, path, options);
      var c := e0.tree[p].content;
      CallSpec(e0.tree, TableState(p, c.frame, DefaultReadOptions + options, DefaultWriteOptions), Replace(c.frame), map[]);
      assert p != Parent(p);
    case Replace(f) =>
      OpenWrites(t, path, f, options);
      var wo := DefaultWriteOptions + options;
      CallSpec(e0.tree, TableState(p, f, DefaultReadOptions, wo), Replace(f), wo);
      assert p != Parent(p);
  }

  /** Reopening a `DataTable` without data right after constructing it gives
      back the same frame and changes nothing: the file holds what memory
      holds. */
  lemma ReopenReadsBack(t: Tree, path: Path, data: TableData, options: Options, readOptions: Options)
    requires WellFormed(t) && TableOpen(t, path, data, options).result.Ok?
    ensures var e := TableOpen(t, path, data, options);
      var r := TableOpen(e.tree, path, Unchanged, readOptions);
      && r.tree == e.tree
      && r.result.Ok?
      && r.result.value.frame == e.result.value.frame
      && r.result.value.path == e.result.value.path
  {
    var e := TableOpen(t, path, data, options);
    OpenFolder(t, path, data, options);
    CreateExisting(e.tree, path, TableExt);
    var p := e.result.value.path;
    OpenReads(e.tree, path, readOptions);
    ReopenRewrites(e.tree, path, readOptions);
  }

  /** Opening without data on a folder that exists rewrites the file with
      the frame it held, leaving the tree as it was. */
  lemma ReopenRewrites(t: Tree, path: Path, options: Options)
    requires WellFormed(t) && |path| > 0 && IsDir(t, Parent(Normalize(path, TableExt)))
    requires TableOpen(t, path, Unchanged, options).result.Ok?
    ensures TableOpen(t, path, Unchanged, options).tree == t
  {
    CreateExisting(t, path, TableExt);
    var p := Normalize(path, TableExt);
    var c := t[p].content;
    RewriteSame(t, p, c);
  }

  /** `DataTable.create` always writes: the stored frame is the empty frame
      for no data, the given frame, or the matrix labelled by position. */
  lemma CreateSpec(t: Tree, path: Path, src: Source, options: Options)
    requires WellFormed(t) && |path| > 0
    ensures var p, e := Normalize(path, TableExt), TableCreate(t, path, src, options);
      && (e.result.Ok? <==> Created(t, path, TableExt).result.Ok? && !IsDir(t, p))
      && (e.result.Ok? ==> Read(e.tree, p) == Ok(Csv(e.result.value.frame)) && e.result.value.writeOptions == options)
      && (e.result.Ok? && src.NoData? ==> e.result.value.frame == EmptyFrame)
      && (e.result.Ok? && src.FromFrame? ==> e.result.value.frame == src.frame)
      && (e.result.Ok? && src.FromMatrix? ==>
          var f := e.result.value.frame;
          f.values == src.m && (forall i | 0 <= i < |f.index| :: f.index[i] == i)
          && (forall j | 0 <= j < |f.columns| :: f.columns[j] == Position(j)))
  {
    OpenWrites(t, path, FrameFrom(src), options);
  }

  /** `DataTable.copy` stores the frame of `src` at `dst` with the write
      options of `src`. */
  lemma CopySpec(t: Tree, src: TableState, dst: Path)
    requires WellFormed(t) && |dst| > 0
    ensures var p, e := Normalize(dst, TableExt), TableCopy(t, src, dst);
      && (e.result.Ok? <==> Created(t, dst, TableExt).result.Ok? && !IsDir(t, p))
      && (e.result.Ok? ==>
          && e.result.value == TableState(p, src.frame, DefaultReadOptions, src.writeOptions)
          && Read(e.tree, p) == Ok(Csv(src.frame)))
  {
    OpenWrites(t, dst, src.frame, src.writeOptions);
  }

  /** A call in place fails only by a value that does not fit the frame
      (ValueError) or by the write of its own file. */
  lemma CallErrors(t: Tree, s: TableState, data: TableData, options: Options)
    ensures var st := TableCall(t, s, data, None, options);
      st.outcome.Fail? ==>
        st.outcome.error in {ValueError, IsADirectory(s.path), NotADirectory(s.path), FileNotFound(s.path)}
  {
  }

  /** `broadcast_to` raises IndexError exactly when the values cannot be
      broadcast to the target shape, and then changes nothing. */
  lemma BroadcastFails(t: Tree, s: TableState, rows: int, cols: int, isDiagonal: bool)
    ensures var st := TableBroadcast(t, s, rows, cols, isDiagonal);
      && (st.outcome == Fail(IndexError) <==> !Broadcastable(s.frame.values, rows, cols))
      && (!Broadcastable(s.frame.values, rows, cols) ==> st.tree == t && st.state == s)
  {
    if Broadcastable(s.frame.values, rows, cols) {
      var d := BroadcastTo(s.frame.values, rows, cols);
      var a := if isDiagonal && rows > 1 then Diagonalised(d) else d;
      CallErrors(t, s, Assign(a), map[]);
    }
  }

  /** The write-back assigns into the existing frame, so a successful
      `broadcast_to` keeps the frame's shape and labels and the path. */
  lemma BroadcastKeepsShape(t: Tree, s: TableState, rows: int, cols: int, isDiagonal: bool)
    requires WellFormed(t)
    ensures var st := TableBroadcast(t, s, rows, cols, isDiagonal);
      st.outcome.Pass? ==>
        && st.state.path == s.path
        && st.state.frame.index == s.frame.index && st.state.frame.columns == s.frame.columns
        && st.state.frame.values.rows == s.frame.values.rows && st.state.frame.values.cols == s.frame.values.cols
        && Read(st.tree, s.path) == Ok(Csv(st.state.frame))
  {
    if Broadcastable(s.frame.values, rows, cols) {
      var d := BroadcastTo(s.frame.values, rows, cols);
      var a := if isDiagonal && rows > 1 then Diagonalised(d) else d;
      AssignedSpec(s.frame, a);
      CallSpec(t, s, Assign(a), map[]);
    }
  }

  /** On a square target of more than one row with `is_diagonal`, a
      successful `broadcast_to` leaves the diagonal of the old values and
      zero everywhere else; it succeeds only on a frame of that very
      shape. */
  lemma BroadcastDiagonal(t: Tree, s: TableState, n: int)
    requires WellFormed(t) && n > 1
    ensures var st := TableBroadcast(t, s, n, n, true);
      st.outcome.Pass? ==>
        var v, w := s.frame.values, st.state.frame.values;
        && v.rows == n && v.cols == n && w.rows == n && w.cols == n
        && (forall i | 0 <= i < n :: w.at[i][i] == v.at[i][i])
        && (forall i, j | 0 <= i < n && 0 <= j < n && i != j :: w.at[i][j] == 0)
  {
    var v := s.frame.values;
    if Broadcastable(v, n, n) {
      var d := BroadcastTo(v, n, n);
      var a := Diagonalised(d);
      AssignedSpec(s.frame, a);
      CallSpec(t, s, Assign(a), map[]);
      if Assigned(s.frame, a).Ok? {
        assert a.rows == n;
        assert v.rows == n && v.cols == n;
        BroadcastSame(v);
        BroadcastSame(a);
        DiagonalCells(d);
      }
    }
  }

  /** On a one-column target of more than one row with `is_diagonal`, the
      diagonal kept is the single cell at the top, so a successful
      `broadcast_to` fills every cell with the old top-left value. */
  lemma BroadcastColumn(t: Tree, s: TableState, n: int)
    requires WellFormed(t) && n > 1
    ensures var st := TableBroadcast(t, s, n, 1, true);
      st.outcome.Pass? ==>
        var v, w := s.frame.values, st.state.frame.values;
        && v.cols == 1 && (v.rows == 1 || v.rows == n)
        && w.rows == v.rows && w.cols == 1
        && (forall i | 0 <= i < w.rows :: w.at[i][0] == v.at[0][0])
  {
    var v := s.frame.values;
    if Broadcastable(v, n, 1) {
      var d := BroadcastTo(v, n, 1);
      var a := Diagonalised(d);
      AssignedSpec(s.frame, a);
      CallSpec(t, s, Assign(a), map[]);
      BroadcastCells(a, v.rows, v.cols);
    }
  }

  /** A 1 by 1 table broadcasts to 2 by 2, but the result cannot be assigned
      back into the 1 by 1 frame, so `broadcast_to` ends in ValueError
      instead of the IndexError it documents. */
  lemma BroadcastGrowFails(t: Tree, s: TableState)
    requires s.frame.values == Grid(1, 1, [[7]])
    ensures TableBroadcast(t, s, 2, 2, true) == Step(t, s, Fail(ValueError))
    ensures TableBroadcast(t, s, 2, 2, false) == Step(t, s, Fail(ValueError))
  {
    var v := s.frame.values;
    assert Broadcastable(v, 2, 2);
    var d := BroadcastTo(v, 2, 2);
    assert !Broadcastable(Diagonalised(d), 1, 1);
    assert !Broadcastable(d, 1, 1);
  }

  /** A `DataTable` object: its path, its frame and its options, updated in
      place. */
  class DataTable {
    var path: Path
    var frame: Frame
    var readOptions: Options
    var writeOptions: Options

    function State(): TableState
      reads this
    {
      TableState(path, frame, readOptions, writeOptions)
    }

    constructor Of(s: TableState)
      ensures State() == s
    {
      path := s.path;
      frame := s.frame;
      readOptions := s.readOptions;
      writeOptions := s.writeOptions;
    }

    /** `DataTable.__call__`. */
    method Call(disk: Disk, data: TableData, newPath: Option<Path>, options: Options) returns (o: Outcome)
      modifies this, disk
      ensures var st := TableCall(old(disk.tree), old(State()), data, newPath, options);
        disk.tree == st.tree && State() == st.state && o == st.outcome
    {
      if newPath.Some? {
        var e := Created(disk.tree, newPath.value, TableExt);
        disk.tree := e.tree;
        if e.result.Err? {
          return Fail(e.result.error);
        }
        path := e.result.value;
      }
      o := Apply(disk, data, options);
    }

    /** `DataTable.__call__` once the path is settled: apply the data, merge
        the options, rewrite the file. */
    method Apply(disk: Disk, data: TableData, options: Options) returns (o: Outcome)
      modifies this, disk
      ensures var st := TableCall(old(disk.tree), old(State()), data, None, options);
        disk.tree == st.tree && State() == st.state && o == st.outcome
    {
      var g := Applied(frame, data);
      if g.Err? {
        return Fail(g.error);
      }
      frame := g.value;
      writeOptions := writeOptions + options;
      var w := Write(disk.tree, path, Csv(frame));
      if w.Err? {
        return Fail(w.error);
      }
      disk.tree := w.value;
      o := Pass;
    }

    /** `DataTable.broadcast_to`. */
    method Broadcast(disk: Disk, rows: int, cols: int, isDiagonal: bool) returns (o: Outcome)
      modifies this, disk
      ensures var st := TableBroadcast(old(disk.tree), old(State()), rows, cols, isDiagonal);
        disk.tree == st.tree && State() == st.state && o == st.outcome
    {
      if !Broadcastable(frame.values, rows, cols) {
        return Fail(IndexError);
      }
      var d := BroadcastTo(frame.values, rows, cols);
      if isDiagonal && rows > 1 {
        d := Diagonalised(d);
      }
      o := Call(disk, Assign(d), None, map[]);
    }

    /** `DataTable.__init__`: a new `DataTable`, or the error that stopped it. */
    static method Open(disk: Disk, path: Path, data: TableData, options: Options) returns (r: Result<DataTable>)
      modifies disk
      ensures var e := TableOpen(old(disk.tree), path, data, options);
        && disk.tree == e.tree
        && r.Ok? == e.result.Ok?
        && (r.Ok? ==> fresh(r.value) && r.value.State() == e.result.value)
        && (r.Err? ==> r.error == e.result.error)
    {
      var e := Created(disk.tree, path, TableExt);
      disk.tree := e.tree;
      if e.result.Err? {
        return Err(e.result.error);
      }
      var p := e.result.value;
      var table: DataTable;
      if data.Assign? {
        return Err(AttributeError);
      } else if data.Replace? {
        table := new DataTable.Of(TableState(p, data.frame, DefaultReadOptions, DefaultWriteOptions + options));
        var o := table.Call(disk, data, None, table.writeOptions);
        if o.Fail? {
          return Err(o.error);
        }
      } else {
        var c := Read(disk.tree, p);
        if c.Err? {
          return Err(c.error);
        }
        if !c.value.Csv? {
          return Err(Unparsable(p));
        }
        table := new DataTable.Of(TableState(p, c.value.frame, DefaultReadOptions + options, DefaultWriteOptions));
        var o := table.Call(disk, Replace(c.value.frame), None, map[]);
        if o.Fail? {
          return Err(o.error);
        }
      }
      r := Ok(table);
    }

    /** `DataTable.create`. */
    static method Create(disk: Disk, path: Path, src: Source, options: Options) returns (r: Result<DataTable>)
      modifies disk
      ensures var e := TableCreate(old(disk.tree), path, src, options);
        && disk.tree == e.tree
        && r.Ok? == e.result.Ok?
        && (r.Ok? ==> fresh(r.value) && r.value.State() == e.result.value)
        && (r.Err? ==> r.error == e.result.error)
    {
      r := Open(disk, path, Replace(FrameFrom(src)), options);
    }

    /** `DataTable.copy`. */
    static method Copy(disk: Disk, src: DataTable, dst: Path) returns (r: Result<DataTable>)
      modifies disk
      ensures var e := TableCopy(old(disk.tree), old(src.State()), dst);
        && disk.tree == e.tree
        && r.Ok? == e.result.Ok?
        && (r.Ok? ==> fresh(r.value) && r.value.State() == e.result.value)
        && (r.Err? ==> r.error == e.result.error)
    {
      r := Open(disk, dst, Replace(src.frame), src.writeOptions);
    }

    /** `DataTable.delete`, the store deletion for the `.csv` extension. */
    static method Delete(disk: Disk, path: Path) returns (r: Result<Path>)
      modifies disk
      ensures Effect(disk.tree, r) == Deleted(old(disk.tree), path, TableExt)
    {
      var e := Deleted(disk.tree, path, TableExt);
      disk.tree := e.tree;
      r := e.result;
    }
  }
}
