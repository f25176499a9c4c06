/** `Meta`: a string-keyed metadata record kept in a `.json` file. Every
    update merges into the record in memory and then rewrites the whole file. */
module Metadata {
  import opened Paths
  import opened Values
  import opened Errors
  import opened FileSystem
  import opened Store

  /** The fields of a `Meta`: its normalised path and its record. */
  datatype MetaState = MetaState(path: Path, data: Record)

  /** What `Meta.create` stores when it is given no data. */
  const Placeholder: Record := map["NotImplemented" := Str("in call to Meta.create()")]

  /** The named parameters of `Meta.__init__` and `Meta.__call__`. A record
      passed as keywords that holds one of these names binds it twice, and
      Python raises TypeError before the body runs. */
  const InitNames: set<string> := {"self", "path"}

  /** The named parameters of the class method `Meta.create`. */
  const CreateNames: set<string> := {"cls", "path"}

  /** Passing `r` as keywords to a function with the parameters `names`
      raises TypeError. */
  predicate Collides(r: Record, names: set<string>) {
    r.Keys * names != {}
  }

  /** `Meta.__call__(path, **updates)`: optionally relocate (making the new
      parent folder), merge the updates into the record (updates win), then
      rewrite the whole file. A failure leaves whatever was already done. */
  function MetaCall(t: Tree, s: MetaState, path: Option<Path>, updates: Record): Step<MetaState> {
    if Collides(updates, InitNames) then Step(t, s, Fail(TypeError)) else
    var e := if path.Some? then Created(t, path.value, MetaExt) else Effect(t, Ok(s.path));
    if e.result.Err? then Step(e.tree, s, Fail(e.result.error))
    else
      var s1 := MetaState(e.result.value, s.data + updates);
      match Write(e.tree, s1.path, Json(s1.data))
      case Err(err) => Step(e.tree, s1, Fail(err))
      case Ok(t1) => Step(t1, s1, Pass)
  }

  /** `Meta.__init__(path, **data)`: with no data, read the record from the
      file; otherwise take the data as the record and store it by calling
      itself with the same path. */
  function MetaOpen(t: Tree, path: Path, data: Record): Effect<MetaState> {
    if Collides(data, InitNames) then Effect(t, Err(TypeError)) else
    var e := Created(t, path, MetaExt);
    if e.result.Err? then Effect(e.tree, Err(e.result.error))
    else
      var p := e.result.value;
      if data == map[] then
        match Read(e.tree, p)
        case Err(err) => Effect(e.tree, Err(err))
        case Ok(c) => if c.Json? then Effect(e.tree, Ok(MetaState(p, c.record))) else Effect(e.tree, Err(Unparsable(p)))
      else
        Finished(MetaCall(e.tree, MetaState(p, data), Some(path), map[]))
  }

  /** `Meta.create(path, **data)`: no data means the placeholder record. */
  function MetaCreate(t: Tree, path: Path, data: Record): Effect<MetaState> {
    if Collides(data, CreateNames) then Effect(t, Err(TypeError)) else
    MetaOpen(t, path, if data == map[] then Placeholder else data)
  }

  /** `Meta.copy(src, dst)`: construct at `dst` from the record of `src`. */
  function MetaCopy(t: Tree, src: MetaState, dst: Path): Effect<MetaState> {
    MetaOpen(t, dst, src.data)
  }

  // ---------------------------------------------------------------------
  // Properties

  /** `Meta.__call__` sets the record to the old record merged with the
      updates: the updates' keys win and every other key is kept. */
  lemma CallMerges(t: Tree, s: MetaState, path: Option<Path>, updates: Record)
    ensures var st := MetaCall(t, s, path, updates);
      st.outcome.Pass? ==>
        && st.state.data.Keys == s.data.Keys + updates.Keys
        && (forall k | k in updates :: st.state.data[k] == updates[k])
        && (forall k | k in s.data && k !in updates :: st.state.data[k] == s.data[k])
  {
  }

  /** Without relocation, `Meta.__call__` succeeds exactly when its file can
      be written, and then changes nothing but that file, which holds
      exactly the record in memory. */
  lemma CallInPlace(t: Tree, s: MetaState, updates: Record)
    requires WellFormed(t)
    ensures var st := MetaCall(t, s, None, updates);
      && WellFormed(st.tree)
      && st.state.path == s.path
      && (Collides(updates, InitNames) ==> st == Step(t, s, Fail(TypeError)))
      && (st.outcome.Pass? <==> !Collides(updates, InitNames) && s.path != [] && IsDir(t, Parent(s.path)) && !IsDir(t, s.path))
      && (st.outcome.Pass? ==>
          && st.tree == t[s.path := File(Json(st.state.data))]
          && Read(st.tree, s.path) == Ok(Json(st.state.data)))
  {
    WriteSpec(t, s.path, Json(s.data + updates));
  }

  /** With a new path, `Meta.__call__` moves to the normalised path, makes
      its folder, and on success leaves there exactly the record in memory. */
  lemma CallRelocated(t: Tree, s: MetaState, path: Path, updates: Record)
    requires WellFormed(t)
    ensures var st := MetaCall(t, s, Some(path), updates);
      && WellFormed(st.tree)
      && (st.outcome.Pass? <==> !Collides(updates, InitNames) && Created(t, path, MetaExt).result.Ok? && !IsDir(t, Normalize(path, MetaExt)))
      && (st.outcome.Pass? ==>
          && st.state.path == Normalize(path, MetaExt)
          && Read(st.tree, st.state.path) == Ok(Json(st.state.data)))
  {
    CreatedWellFormed(t, path, MetaExt);
    CreatedAt(t, path, MetaExt);
    var e := Created(t, path, MetaExt);
    if e.result.Ok? {
      WriteSpec(e.tree, e.result.value, Json(s.data + updates));
      RootNotEntry(t);
    }
  }

  /** Relocating to the path the record already has, once its folder is
      made, is the same as not relocating. */
  lemma CallAfterCreate(t: Tree, s: MetaState, path: Path, updates: Record)
    requires Created(t, path, MetaExt) == Effect(t, Ok(s.path))
    ensures MetaCall(t, s, Some(path), updates) == MetaCall(t, s, None, updates)
  {
  }

  /** With data that binds no parameter twice, `Meta.__init__` amounts to
      making the folder and then writing the record in place. */
  lemma OpenThenWrite(t: Tree, path: Path, data: Record)
    requires WellFormed(t) && data != map[] && Created(t, path, MetaExt).result.Ok?
    ensures var e := Created(t, path, MetaExt);
      !Collides(data, InitNames) ==> MetaOpen(t, path, data) == Finished(MetaCall(e.tree, MetaState(e.result.value, data), None, map[]))
  {
    var e := Created(t, path, MetaExt);
    CreateAgain(t, path, MetaExt);
    CallAfterCreate(e.tree, MetaState(e.result.value, data), path, map[]);
  }

  /** Constructing a `Meta` adds only its file and the folders on the way
      to it. */
  lemma OpenGrows(t: Tree, path: Path, data: Record)
    requires WellFormed(t) && |path| > 0
    ensures var p := Normalize(path, MetaExt);
      GrownBy(t, MetaOpen(t, path, data).tree, Parent(p), p)
  {
    var p := Normalize(path, MetaExt);
    var e := Created(t, path, MetaExt);
    CreatedGrows(t, path, MetaExt, p);
    if e.result.Ok? && data != map[] && !Collides(data, InitNames) {
      OpenThenWrite(t, path, data);
      GrownTwice(t, e.tree, MetaOpen(t, path, data).tree, Parent(p), p);
    }
  }

  /** Constructing a `Meta` with data makes the record exactly that data
      and writes it, overwriting any file there; it never reads. It fails
      only when the data holds a parameter name (TypeError, nothing
      changed), the parent folder cannot be made or a folder stands at the
      path. */
  lemma OpenWrites(t: Tree, path: Path, data: Record)
    requires WellFormed(t) && |path| > 0 && data != map[]
    ensures var p, e := Normalize(path, MetaExt), MetaOpen(t, path, data);
      && WellFormed(e.tree)
      && (Collides(data, InitNames) ==> e == Effect(t, Err(TypeError)))
      && (e.result.Ok? <==> !Collides(data, InitNames) && Created(t, path, MetaExt).result.Ok? && !IsDir(t, p))
      && (e.result.Ok? ==> e.result.value == MetaState(p, data) && Read(e.tree, p) == Ok(Json(data)))
  {
    var e := Created(t, path, MetaExt);
    CreatedWellFormed(t, path, MetaExt);
    CreatedAt(t, path, MetaExt);
    if e.result.Ok? && !Collides(data, InitNames) {
      var p := e.result.value;
      OpenThenWrite(t, path, data);
      CallInPlace(e.tree, MetaState(p, data), map[]);
      assert data + map[] == data;
    }
  }

  /** Constructing a `Meta` without data reads the record from the file,
      which must exist (FileNotFoundError otherwise) and hold a record. */
  lemma OpenReads(t: Tree, path: Path)
    requires WellFormed(t) && |path| > 0
    ensures var p, e := Normalize(path, MetaExt), MetaOpen(t, path, map[]);
      && WellFormed(e.tree)
      && (Created(t, path, MetaExt).result.Ok? ==>
          && (e.result.Ok? <==> IsFile(t, p) && t[p].content.Json?)
          && (p !in t ==> e.result == Err(FileNotFound(p))))
      && (e.result.Ok? ==> e.result.value == MetaState(p, t[p].content.record))
  {
    var e := Created(t, path, MetaExt);
    CreatedWellFormed(t, path, MetaExt);
    CreatedAt(t, path, MetaExt);
    if e.result.Ok? {
      ParentDirNotUnderFile(e.tree, e.result.value);
    }
  }

  /** Reading a `Meta` changes no entry that was already there: at most
      the folders that hold it are made. */
  lemma OpenReadsKeeps(t: Tree, path: Path)
    requires WellFormed(t)
    ensures var e := MetaOpen(t, path, map[]);
      forall q | q in t :: q in e.tree && e.tree[q] == t[q]
  {
    if path != [] {
      CreateFile(t, path, MetaExt);
    }
  }

  /** Reopening a `Meta` without data, right after constructing it, gives
      back the same record and changes nothing: the file holds what memory
      holds. */
  lemma ReopenReadsBack(t: Tree, path: Path, data: Record)
    requires WellFormed(t) && MetaOpen(t, path, data).result.Ok?
    ensures var e := MetaOpen(t, path, data);
      MetaOpen(e.tree, path, map[]) == Effect(e.tree, Ok(e.result.value))
  {
    var e := MetaOpen(t, path, data);
    CreatedAt(t, path, MetaExt);
    var p := Normalize(path, MetaExt);
    ReopenFolder(t, path, data);
    CreatedWellFormed(t, path, MetaExt);
    if data == map[] {
      OpenReads(t, path);
    } else {
      OpenWrites(t, path, data);
    }
    CreateExisting(e.tree, path, MetaExt);
  }

  /** After a successful `Meta.__init__` the folder of the file exists and
      the tree is well formed. */
  lemma ReopenFolder(t: Tree, path: Path, data: Record)
    requires WellFormed(t) && MetaOpen(t, path, data).result.Ok?
    ensures var e := MetaOpen(t, path, data);
      && |path| > 0
      && WellFormed(e.tree)
      && IsDir(e.tree, Parent(Normalize(path, MetaExt)))
  {
    var e0 := Created(t, path, MetaExt);
    CreatedWellFormed(t, path, MetaExt);
    CreatedAt(t, path, MetaExt);
    var p := e0.result.value;
    if data != map[] {
      assert !Collides(data, InitNames);
      OpenThenWrite(t, path, data);
      CallInPlace(e0.tree, MetaState(p, data), map[]);
      assert p != Parent(p);
    }
  }

  /** Constructing a `Meta` changes no entry but its own file, apart from
      making folders. */
  lemma OpenFrame(t: Tree, path: Path, data: Record, q: Path)
    requires path != [] ==> q != Normalize(path, MetaExt)
    ensures Untouched(t, MetaOpen(t, path, data).tree, q)
  {
    var e := Created(t, path, MetaExt);
    CreatedUntouched(t, path, MetaExt, q);
    if e.result.Ok? && data != map[] {
      CreatedUntouched(e.tree, path, MetaExt, q);
    }
  }

  /** `Meta.create` always writes and never reads: the stored record is the
      given data, or the placeholder when none is given. Data holding a
      parameter name of `create` or of `__init__` raises TypeError and
      changes nothing. */
  lemma CreateSpec(t: Tree, path: Path, data: Record)
    requires WellFormed(t) && |path| > 0
    ensures var p, e := Normalize(path, MetaExt), MetaCreate(t, path, data);
      var stored := if data == map[] then Placeholder else data;
      && (Collides(data, CreateNames + InitNames) ==> e == Effect(t, Err(TypeError)))
      && (e.result.Ok? <==> !Collides(data, CreateNames + InitNames) && Created(t, path, MetaExt).result.Ok? && !IsDir(t, p))
      && (e.result.Ok? ==> e.result.value == MetaState(p, stored) && Read(e.tree, p) == Ok(Json(stored)))
      && (data == map[] && e.result.Ok? ==> e.result.value.data["NotImplemented"] == Str("in call to Meta.create()"))
  {
    assert "NotImplemented" in Placeholder;
    assert Placeholder.Keys * InitNames == {};
    OpenWrites(t, path, if data == map[] then Placeholder else data);
  }

  /** `Meta.copy` from a non-empty record stores that record at `dst`,
      unless it holds a parameter name of `__init__` (TypeError). From an
      empty record it is a plain read of `dst`, so it copies nothing. */
  lemma CopySpec(t: Tree, src: MetaState, dst: Path)
    requires WellFormed(t) && |dst| > 0
    ensures var p, e := Normalize(dst, MetaExt), MetaCopy(t, src, dst);
      && (src.data != map[] ==>
          && (Collides(src.data, InitNames) ==> e == Effect(t, Err(TypeError)))
          && (e.result.Ok? <==> !Collides(src.data, InitNames) && Created(t, dst, MetaExt).result.Ok? && !IsDir(t, p))
          && (e.result.Ok? ==> e.result.value == MetaState(p, src.data) && Read(e.tree, p) == Ok(Json(src.data))))
      && (src.data == map[] && e.result.Ok? ==> e.result.value.data == t[p].content.record)
  {
    if src.data != map[] {
      OpenWrites(t, dst, src.data);
    } else {
      OpenReads(t, dst);
    }
  }

  /** A `Meta` object: its path and its record, updated in place. */
  class Meta {
    var path: Path
    var data: Record

    function State(): MetaState
      reads this
    {
      MetaState(path, data)
    }

    constructor Of(s: MetaState)
      ensures State() == s
    {
      path := s.path;
      data := s.data;
    }

    /** `Meta.__call__`. */
    method Call(disk: Disk, newPath: Option<Path>, updates: Record) returns (o: Outcome)
      modifies this, disk
      ensures var st := MetaCall(old(disk.tree), old(State()), newPath, updates);
        disk.tree == st.tree && State() == st.state && o == st.outcome
    {
      if Collides(updates, InitNames) {
        return Fail(TypeError);
      }
      if newPath.Some? {
        var e := Created(disk.tree, newPath.value, MetaExt);
        disk.tree := e.tree;
        if e.result.Err? {
          return Fail(e.result.error);
        }
        path := e.result.value;
      }
      data := data + updates;
      var w := Write(disk.tree, path, Json(data));
      if w.Err? {
        return Fail(w.error);
      }
      disk.tree := w.value;
      o := Pass;
    }

    /** `Meta.__init__`: a new `Meta`, or the error that stopped it. */
    static method Open(disk: Disk, path: Path, data: Record) returns (r: Result<Meta>)
      modifies disk
      ensures var e := MetaOpen(old(disk.tree), path, data);
        && disk.tree == e.tree
        && r.Ok? == e.result.Ok?
        && (r.Ok? ==> fresh(r.value) && r.value.State() == e.result.value)
        && (r.Err? ==> r.error == e.result.error)
    {
      if Collides(data, InitNames) {
        return Err(TypeError);
      }
      var e := Created(disk.tree, path, MetaExt);
      disk.tree := e.tree;
      if e.result.Err? {
        return Err(e.result.error);
      }
      var p := e.result.value;
      if data == map[] {
        var c := Read(disk.tree, p);
        if c.Err? {
          return Err(c.error);
        }
        if !c.value.Json? {
          return Err(Unparsable(p));
        }
        var m := new Meta.Of(MetaState(p, c.value.record));
        return Ok(m);
      }
      var m := new Meta.Of(MetaState(p, data));
      var o := m.Call(disk, Some(path), map[]);
      if o.Fail? {
        return Err(o.error);
      }
      r := Ok(m);
    }

    /** `Meta.create`. */
    static method Create(disk: Disk, path: Path, data: Record) returns (r: Result<Meta>)
      modifies disk
      ensures var e := MetaCreate(old(disk.tree), path, data);
        && disk.tree == e.tree
        && r.Ok? == e.result.Ok?
        && (r.Ok? ==> fresh(r.value) && r.value.State() == e.result.value)
        && (r.Err? ==> r.error == e.result.error)
    {
      if Collides(data, CreateNames) {
        return Err(TypeError);
      }
      r := Open(disk, path, if data == map[] then Placeholder else data);
    }

    /** `Meta.copy`. */
    static method Copy(disk: Disk, src: Meta, dst: Path) returns (r: Result<Meta>)
      modifies disk
      ensures var e := MetaCopy(old(disk.tree), old(src.State()), dst);
        && disk.tree == e.tree
        && r.Ok? == e.result.Ok?
        && (r.Ok? ==> fresh(r.value) && r.value.State() == e.result.value)
        && (r.Err? ==> r.error == e.result.error)
    {
      r := Open(disk, dst, src.data);
    }

    /** `Meta.delete`, the store deletion for the `.json` extension. */
    static method Delete(disk: Disk, path: Path) returns (r: Result<Path>)
      modifies disk
      ensures Effect(disk.tree, r) == Deleted(old(disk.tree), path, MetaExt)
    {
      var e := Deleted(disk.tree, path, MetaExt);
      disk.tree := e.tree;
      r := e.result;
    }
  }
}
