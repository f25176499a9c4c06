/** The file system the stores live on, as a map from paths to folders and
    files, with the operations of pathlib, open and shutil that the stores
    call: `mkdir(parents=True, exist_ok=True)`, reading and writing a file,
    `rmtree`/`unlink(missing_ok=True)`, `copyfile` and
    `copytree(dirs_exist_ok=True)`. The root `[]` is always a folder and is
    not stored in the map. */
module FileSystem {
  import opened Paths
  import opened Values
  import opened Errors

  /** What a file holds: a JSON record or a CSV table. */
  datatype Content = Json(record: Record) | Csv(frame: Frame)

  datatype Node = Folder | File(content: Content)

  type Tree = map<Path, Node>

  /** The file system after an operation, and what the operation returned. */
  datatype Effect<+T> = Effect(tree: Tree, result: Result<T>)

  predicate IsPrefix(p: Path, q: Path) {
    |p| <= |q| && q[..|p|] == p
  }

  /** `q` lies strictly inside the folder `p`. */
  predicate Below(p: Path, q: Path) {
    |p| < |q| && q[..|p|] == p
  }

  predicate IsDir(t: Tree, p: Path) {
    p == [] || (p in t && t[p].Folder?)
  }

  predicate IsFile(t: Tree, p: Path) {
    p in t && t[p].File?
  }

  /** Some proper ancestor of `p` is a file, so `p` cannot be reached. */
  predicate UnderFile(t: Tree, p: Path) {
    exists i | 0 < i < |p| :: IsFile(t, p[..i])
  }

  /** Every entry sits in a folder: the invariant of a real file system. */
  ghost predicate WellFormed(t: Tree) {
    forall q {:trigger InFolder(t, q)} | q in t :: InFolder(t, q)
  }

  /** `q` is not the root and its parent is a folder. */
  predicate InFolder(t: Tree, q: Path) {
    q != [] && IsDir(t, q[..|q| - 1])
  }

  /** Between `t` and `t1` the entry at `q` was kept if it existed, and
      can only have appeared as a folder. */
  predicate Untouched(t: Tree, t1: Tree, q: Path) {
    && (q in t ==> q in t1 && t1[q] == t[q])
    && (q in t1 && q !in t ==> t1[q].Folder?)
  }

  /** The non-empty prefixes of `p`: `p` and its ancestors below the root. */
  function Prefixes(p: Path): set<Path> {
    set i | 0 < i <= |p| :: p[..i]
  }

  /** `p.mkdir(parents=True, exist_ok=True)`. */
  function MkDirs(t: Tree, p: Path): Result<Tree> {
    if IsFile(t, p) then Err(FileExists(p))
    else if UnderFile(t, p) then Err(NotADirectory(p))
    else Ok(t + map q | q in Prefixes(p) && q !in t :: Folder)
  }

  /** `open(p, 'r')`, and `pd.read_csv(p)`. */
  function Read(t: Tree, p: Path): Result<Content> {
    if IsFile(t, p) then Ok(t[p].content)
    else if p in t then Err(IsADirectory(p))
    else if UnderFile(t, p) then Err(NotADirectory(p))
    else Err(FileNotFound(p))
  }

  /** `open(p, 'w')` followed by a write, and `DataFrame.to_csv(p)`. */
  function Write(t: Tree, p: Path, c: Content): Result<Tree> {
    if IsDir(t, p) then Err(IsADirectory(p))
    else if IsDir(t, Parent(p)) then Ok(t[p := File(c)])
    else if UnderFile(t, p) then Err(NotADirectory(p))
    else Err(FileNotFound(p))
  }

  /** The file system after an update of an object in place, the object's
      new state and how the update ended. */
  datatype Step<+S> = Step(tree: Tree, state: S, outcome: Outcome)

  /** A constructor that runs an update: it yields the object only when the
      update passed. */
  function Finished<S>(st: Step<S>): (e: Effect<S>)
    ensures e.tree == st.tree
    ensures e.result.Ok? <==> st.outcome.Pass?
    ensures e.result.Ok? ==> e.result.value == st.state
  {
    Effect(st.tree, if st.outcome.Pass? then Ok(st.state) else Err(st.outcome.error))
  }

  /** Everything except `p` and what lies under it. */
  function Prune(t: Tree, p: Path): Tree {
    map q | q in t && !IsPrefix(p, q) :: t[q]
  }

  /** The body of `Store.delete` on a normalised path: `rmtree` for a
      folder, `unlink(missing_ok=True)` otherwise. */
  function Delete(t: Tree, p: Path): Result<Tree>
    requires |p| > 0
  {
    if IsDir(t, p) then Ok(Prune(t, p))
    else if p in t then Ok(t - {p})
    else if UnderFile(t, p) then Err(NotADirectory(p))
    else Ok(t)
  }

  /** `shutil.copyfile(src, dst)`. */
  function CopyFile(t: Tree, src: Path, dst: Path): Result<Tree> {
    match Read(t, src)
    case Err(e) => Err(e)
    case Ok(c) => if src == dst then Err(SameFile(src)) else Write(t, dst, c)
  }

  /** Where an entry under `src` lands when `src` is copied to `dst`. */
  function Rebase(q: Path, src: Path, dst: Path): Path
    requires |src| <= |q|
  {
    dst + q[|src|..]
  }

  /** Where an entry under `dst` comes from when `src` is copied to `dst`. */
  function Origin(k: Path, src: Path, dst: Path): Path
    requires |dst| <= |k|
  {
    src + k[|dst|..]
  }

  /** The entries strictly inside `src`, moved under `dst`. */
  function Graft(t: Tree, src: Path, dst: Path): Tree {
    var keys := set q | q in t && Below(src, q) :: Rebase(q, src, dst);
    assert forall k | k in keys :: |dst| < |k| && Origin(k, src, dst) in t by {
      forall k | k in keys ensures |dst| < |k| && Origin(k, src, dst) in t {
        var q :| q in t && Below(src, q) && Rebase(q, src, dst) == k;
        OriginOfRebase(q, src, dst);
      }
    }
    map k | k in keys :: t[Origin(k, src, dst)]
  }

  /** copy2, which copytree copies files with, finds a folder where the
      file `q` of `src` would go, so it writes the file inside that folder,
      under its own name. */
  predicate Into(t: Tree, src: Path, dst: Path, q: Path)
    requires |src| <= |q|
  {
    q in t && t[q].File? && IsDir(t, Rebase(q, src, dst))
  }

  /** Where copytree writes the entry `q` of `src`. */
  function Landing(t: Tree, src: Path, dst: Path, q: Path): Path
    requires |src| < |q|
  {
    if Into(t, src, dst, q) then Rebase(q, src, dst) + [q[|q| - 1]] else Rebase(q, src, dst)
  }

  /** copytree cannot copy the entry `q` of `src`: a folder meets a file
      (makedirs raises FileExistsError), a file meets a folder that already
      holds a folder of the file's name (copy2 raises IsADirectoryError), or
      a file would be copied onto itself (SameFileError, when `src` and
      `dst` are one folder). */
  predicate Fails(t: Tree, src: Path, dst: Path, q: Path)
    requires |src| < |q|
  {
    var k := Rebase(q, src, dst);
    && q in t && k in t
    && if t[q].Folder? then t[k].File?
       else if t[k].Folder? then IsDir(t, k + [q[|q| - 1]])
       else src == dst
  }

  /** copytree reaches the entry `q` of `src` and copies it: nothing fails on
      the way down from `src` to `q`, `q` included. A failure is collected
      and the walk goes on, so it loses only that entry and, for a folder,
      what lies under it. */
  predicate Reached(t: Tree, src: Path, dst: Path, q: Path) {
    forall i | |src| < i <= |q| :: !Fails(t, src, dst, q[..i])
  }

  /** The entries of `src` that copytree copies to their rebased path. */
  function Placed(t: Tree, src: Path, dst: Path): Tree {
    map q | q in t && Below(src, q) && Reached(t, src, dst, q) && !Into(t, src, dst, q) :: t[q]
  }

  /** Where the files of `src` that copytree copies into the folder
      standing at their rebased path land. */
  function NestedKeys(t: Tree, src: Path, dst: Path): set<Path> {
    set q | q in t && Below(src, q) && Reached(t, src, dst, q) && Into(t, src, dst, q) ::
      Rebase(q, src, dst) + [q[|q| - 1]]
  }

  /** Those files, keyed by where they land. */
  function Nested(t: Tree, src: Path, dst: Path): Tree {
    var keys := NestedKeys(t, src, dst);
    assert forall k | k in keys :: |dst| < |k| - 1 && Origin(k[..|k| - 1], src, dst) in t by {
      forall k | k in keys ensures |dst| < |k| - 1 && Origin(k[..|k| - 1], src, dst) in t {
        var q :| q in t && Below(src, q) && Rebase(q, src, dst) + [q[|q| - 1]] == k;
        assert k[..|k| - 1] == Rebase(q, src, dst);
        OriginOfRebase(q, src, dst);
      }
    }
    map k | k in keys :: t[Origin(k[..|k| - 1], src, dst)]
  }

  /** Some reached entry of `src` lands at `k`: at its rebased path, or,
      for a file, inside the folder standing there. */
  predicate Landed(t: Tree, src: Path, dst: Path, k: Path) {
    || (Below(dst, k) && var o := Origin(k, src, dst);
          o in t && Reached(t, src, dst, o) && !Into(t, src, dst, o))
    || (|dst| + 1 < |k| && k[..|dst|] == dst && var o := Origin(k[..|k| - 1], src, dst);
          o in t && Reached(t, src, dst, o) && Into(t, src, dst, o) && k[|k| - 1] == o[|o| - 1])
  }

  /** Some entry of `src` fails to copy. */
  predicate Clash(t: Tree, src: Path, dst: Path) {
    exists q | q in t && Below(src, q) :: Fails(t, src, dst, q)
  }

  /** Neither path lies inside the other. */
  predicate Apart(src: Path, dst: Path) {
    !IsPrefix(src, dst) && !IsPrefix(dst, src)
  }

  /** `shutil.copytree(src, dst, dirs_exist_ok=True)`: make `dst`, then copy
      every entry of `src` that the walk reaches into it, overwriting
      same-named files and putting a file that meets a folder inside it. The
      failures are collected and raised together as `shutil.Error` after
      the walk, so what was copied stays. */
  function CopyTree(t: Tree, src: Path, dst: Path): Effect<Path> {
    match MkDirs(t, dst)
    case Err(e) => Effect(t, Err(e))
    case Ok(t1) =>
      Effect(t1 + Graft(Placed(t1, src, dst), src, dst) + Nested(t1, src, dst),
             if Clash(t1, src, dst) then Err(CopyConflict(dst)) else Ok(dst))
  }


  // ---------------------------------------------------------------------
  // Properties

  /** In a well-formed tree every ancestor of an entry is a folder. */
  lemma {:induction false} AncestorIsDir(t: Tree, q: Path, i: nat)
    requires WellFormed(t) && q in t && i < |q|
    ensures IsDir(t, q[..i])
    decreases |q| - i
  {
    assert InFolder(t, q);
    var parent := q[..|q| - 1];
    if i < |q| - 1 {
      AncestorIsDir(t, parent, i);
      assert parent[..i] == q[..i];
    }
  }

  /** The root is not an entry of a well-formed tree. */
  lemma RootNotEntry(t: Tree)
    requires WellFormed(t)
    ensures [] !in t
  {
    assert [] in t ==> InFolder(t, []);
  }

  /** Nothing exists at or under a path that lies under a file. */
  lemma NothingUnderFile(t: Tree, p: Path, q: Path)
    requires WellFormed(t) && UnderFile(t, p) && IsPrefix(p, q)
    ensures q !in t
  {
    var i :| 0 < i < |p| && IsFile(t, p[..i]);
    assert q[..i] == p[..i];
    if q in t {
      AncestorIsDir(t, q, i);
    }
  }

  /** Nothing exists under a file. */
  lemma NothingBelowFile(t: Tree, p: Path, q: Path)
    requires WellFormed(t) && IsFile(t, p) && Below(p, q)
    ensures q !in t
  {
    RootNotEntry(t);
    if q in t {
      AncestorIsDir(t, q, |p|);
    }
  }

  /** No prefix of an existing folder is a file, so nothing under it lies
      under a file. */
  lemma ParentDirNotUnderFile(t: Tree, p: Path)
    requires WellFormed(t) && p != [] && IsDir(t, Parent(p))
    ensures !UnderFile(t, p)
  {
    forall i | 0 < i < |p| ensures !IsFile(t, p[..i]) {
      if i < |p| - 1 {
        AncestorIsDir(t, Parent(p), i);
        assert Parent(p)[..i] == p[..i];
      }
    }
  }

  /** mkdir with parents fails exactly when some prefix of the path is a
      file: with FileExistsError when the path itself is one, with
      NotADirectoryError when an ancestor is. */
  lemma MkDirsFails(t: Tree, p: Path)
    requires WellFormed(t)
    ensures MkDirs(t, p).Ok? <==> forall i | 0 < i <= |p| :: !IsFile(t, p[..i])
    ensures MkDirs(t, p).Err? ==>
      MkDirs(t, p).error == (if IsFile(t, p) then FileExists(p) else NotADirectory(p))
  {
    RootNotEntry(t);
    if IsFile(t, p) {
      assert p[..|p|] == p;
      assert IsFile(t, p[..|p|]);
    } else if UnderFile(t, p) {
      var i :| 0 < i < |p| && IsFile(t, p[..i]);
    } else {
      forall i | 0 < i <= |p| ensures !IsFile(t, p[..i]) {
        if i == |p| {
          assert p[..i] == p;
        }
      }
    }
  }

  /** When mkdir succeeds it leaves the folder and all its ancestors
      present, keeps every existing entry, adds nothing but those folders,
      and keeps the tree well formed. */
  lemma MkDirsMakes(t: Tree, p: Path)
    requires WellFormed(t) && MkDirs(t, p).Ok?
    ensures WellFormed(MkDirs(t, p).value)
    ensures forall i | 0 <= i <= |p| :: IsDir(MkDirs(t, p).value, p[..i])
    ensures MkDirs(t, p).value.Keys == t.Keys + Prefixes(p)
    ensures forall q | q in t :: q in MkDirs(t, p).value && MkDirs(t, p).value[q] == t[q]
  {
    MkDirsFails(t, p);
    var r := MkDirs(t, p).value;
    forall i | 0 <= i <= |p| ensures IsDir(r, p[..i]) {
      if i > 0 {
        assert p[..i] in Prefixes(p);
        assert !IsFile(t, p[..i]);
      }
    }
    forall q | q in r ensures InFolder(r, q) {
      if q in t {
        assert InFolder(t, q);
      } else {
        var i :| 0 < i <= |p| && q == p[..i];
        assert q[..|q| - 1] == p[..i - 1];
        assert IsDir(r, p[..i - 1]);
      }
    }
  }

  /** mkdir on an existing folder changes nothing. */
  lemma MkDirsExisting(t: Tree, p: Path)
    requires WellFormed(t) && IsDir(t, p)
    ensures MkDirs(t, p) == Ok(t)
  {
    RootNotEntry(t);
    if p != [] {
      forall q | q in Prefixes(p) ensures q in t {
        var i :| 0 < i <= |p| && q == p[..i];
        if i < |p| {
          AncestorIsDir(t, p, i);
        } else {
          assert q == p;
        }
      }
      if UnderFile(t, p) {
        NothingUnderFile(t, p, p);
      }
      assert (map q | q in Prefixes(p) && q !in t :: Folder) == map[];
    }
    assert t + map[] == t;
  }

  /** A write succeeds exactly when the parent is a folder and the path is
      not one; it then stores the content there, changes nothing else and
      keeps the tree well formed. */
  lemma WriteSpec(t: Tree, p: Path, c: Content)
    requires WellFormed(t)
    ensures Write(t, p, c).Ok? <==> p != [] && IsDir(t, Parent(p)) && !IsDir(t, p)
    ensures Write(t, p, c).Ok? ==>
      Write(t, p, c).value == t[p := File(c)] && WellFormed(Write(t, p, c).value)
  {
    if p != [] && IsDir(t, Parent(p)) && !IsDir(t, p) {
      var r := t[p := File(c)];
      forall q | q in r ensures InFolder(r, q) {
        if q != p {
          assert InFolder(t, q);
        }
      }
    }
  }

  /** Rewriting a file with the content it already holds changes nothing. */
  lemma RewriteSame(t: Tree, p: Path, c: Content)
    requires WellFormed(t) && p in t && t[p] == File(c)
    ensures Write(t, p, c) == Ok(t)
  {
    assert InFolder(t, p);
    AncestorIsDir(t, p, |p| - 1);
    assert t[p := File(c)] == t;
  }

  /** Pruning keeps the tree well formed and removes exactly what lies at or
      under the path. */
  lemma PruneSpec(t: Tree, p: Path)
    requires WellFormed(t)
    ensures WellFormed(Prune(t, p))
    ensures forall q | q in Prune(t, p) :: !IsPrefix(p, q)
    ensures forall q | q in t && !IsPrefix(p, q) :: q in Prune(t, p) && Prune(t, p)[q] == t[q]
  {
    var r := Prune(t, p);
    forall q | q in r ensures InFolder(r, q) {
      assert InFolder(t, q);
      var parent := q[..|q| - 1];
      if |p| <= |parent| {
        assert q[..|p|] == parent[..|p|];
      }
    }
  }

  /** `Store.delete` fails exactly when the path lies under a file. */
  lemma DeleteFails(t: Tree, p: Path)
    requires WellFormed(t) && |p| > 0
    ensures Delete(t, p).Ok? <==> !UnderFile(t, p)
    ensures Delete(t, p).Err? ==> Delete(t, p).error == NotADirectory(p)
  {
    if UnderFile(t, p) {
      NothingUnderFile(t, p, p);
    }
  }

  /** When it succeeds, `Store.delete` removes exactly the path and what
      lies under it, whichever kind of entry, if any, stands there. */
  lemma DeleteIsPrune(t: Tree, p: Path)
    requires WellFormed(t) && |p| > 0 && !UnderFile(t, p)
    ensures Delete(t, p) == Ok(Prune(t, p))
  {
    if IsDir(t, p) {
    } else if p in t {
      forall q | q in t && IsPrefix(p, q) ensures q == p {
        if q != p {
          NothingBelowFile(t, p, q);
        }
      }
      assert t - {p} == Prune(t, p);
    } else {
      forall q | q in t ensures !IsPrefix(p, q) {
        if IsPrefix(p, q) && q != p {
          AncestorIsDir(t, q, |p|);
        }
      }
      assert Prune(t, p) == t;
    }
  }

    /** Deleting only removes entries: whatever is left was there before,
      unchanged. */
  lemma DeleteRemovesOnly(t: Tree, p: Path)
    requires |p| > 0
    ensures Delete(t, p).Ok? ==> forall q | q in Delete(t, p).value :: q in t && Delete(t, p).value[q] == t[q]
  {
  }

/** `Store.delete` on a normalised path fails only when the path lies
      under a file; otherwise nothing exists at or under the path
      afterwards, everything else is kept, the tree stays well formed, an
      absent path changes nothing, and deleting again changes nothing more. */
  lemma DeleteSpec(t: Tree, p: Path)
    requires WellFormed(t) && |p| > 0
    ensures Delete(t, p).Ok? <==> !UnderFile(t, p)
    ensures Delete(t, p).Err? ==> Delete(t, p).error == NotADirectory(p)
    ensures Delete(t, p).Ok? ==>
      var r := Delete(t, p).value;
      && WellFormed(r)
      && (forall q | q in r :: !IsPrefix(p, q))
      && (forall q | q in t && !IsPrefix(p, q) :: q in r && r[q] == t[q])
      && Delete(r, p) == Ok(r)
    ensures p !in t && !UnderFile(t, p) ==> Delete(t, p) == Ok(t)
  {
    DeleteFails(t, p);
    if !UnderFile(t, p) {
      DeleteIsPrune(t, p);
      PruneSpec(t, p);
      var r := Prune(t, p);
      forall i | 0 < i < |p| ensures !IsFile(r, p[..i]) {
        assert !IsFile(t, p[..i]);
      }
      DeleteIsPrune(r, p);
      assert Prune(r, p) == r;
      if p !in t {
        assert !IsDir(t, p);
      }
    }
  }

  /** Rebasing an entry of `src` and tracing it back gives the entry. */
  lemma OriginOfRebase(q: Path, src: Path, dst: Path)
    requires |src| <= |q| && q[..|src|] == src
    ensures |dst| <= |Rebase(q, src, dst)|
    ensures Origin(Rebase(q, src, dst), src, dst) == q
  {
    assert Rebase(q, src, dst)[|dst|..] == q[|src|..];
    assert q == q[..|src|] + q[|src|..];
  }

  /** The entry of `src` that a key of the graft comes from. */
  lemma GraftSource(t: Tree, src: Path, dst: Path, k: Path)
    requires k in Graft(t, src, dst)
    ensures Below(dst, k)
    ensures Origin(k, src, dst) in t && Below(src, Origin(k, src, dst))
    ensures Rebase(Origin(k, src, dst), src, dst) == k
    ensures Graft(t, src, dst)[k] == t[Origin(k, src, dst)]
  {
    var q :| q in t && Below(src, q) && Rebase(q, src, dst) == k;
    OriginOfRebase(q, src, dst);
  }

  /** Every entry under `src` appears, rebased, in the graft. */
  lemma GraftHas(t: Tree, src: Path, dst: Path, q: Path)
    requires q in t && Below(src, q)
    ensures Rebase(q, src, dst) in Graft(t, src, dst)
    ensures Graft(t, src, dst)[Rebase(q, src, dst)] == t[q]
  {
    OriginOfRebase(q, src, dst);
  }

  /** An entry mkdir adds is an ancestor of the path, or the path itself. */
  lemma MkDirsNew(t: Tree, p: Path, q: Path)
    requires MkDirs(t, p).Ok? && q in MkDirs(t, p).value && q !in t
    ensures 0 < |q| <= |p| && p[..|q|] == q
  {
    var i :| 0 < i <= |p| && q == p[..i];
  }

  /** An entry reached by the walk has every ancestor below `src` reached. */
  lemma ReachedPrefix(t: Tree, src: Path, dst: Path, q: Path, j: nat)
    requires Reached(t, src, dst, q) && |src| < j <= |q|
    ensures Reached(t, src, dst, q[..j])
  {
    forall i | |src| < i <= j ensures !Fails(t, src, dst, q[..j][..i]) {
      assert q[..j][..i] == q[..i];
    }
  }

  /** When nothing fails, the walk reaches every entry of `src`. */
  lemma ReachedAll(t: Tree, src: Path, dst: Path)
    requires !Clash(t, src, dst)
    ensures forall q | q in t && Below(src, q) :: Reached(t, src, dst, q)
  {
    forall q, i | q in t && Below(src, q) && |src| < i <= |q| ensures !Fails(t, src, dst, q[..i]) {
      assert q[..i][..|src|] == src;
    }
  }

  /** Tracing back commutes with taking the parent. */
  lemma OriginParent(k: Path, src: Path, dst: Path)
    requires |dst| < |k|
    ensures Origin(k[..|k| - 1], src, dst) == Origin(k, src, dst)[..|Origin(k, src, dst)| - 1]
  {
    assert k[..|k| - 1][|dst|..] == k[|dst|..][..|k| - |dst| - 1];
  }

  /** A key of the graft of placed entries comes from a reached entry of
      `src` that copy2 does not put into a folder. */
  lemma PlacedKey(t: Tree, src: Path, dst: Path, k: Path)
    ensures k in Graft(Placed(t, src, dst), src, dst) ==>
      && Below(dst, k) && Origin(k, src, dst) in t && Below(src, Origin(k, src, dst))
      && Reached(t, src, dst, Origin(k, src, dst)) && !Into(t, src, dst, Origin(k, src, dst))
      && Rebase(Origin(k, src, dst), src, dst) == k
      && Graft(Placed(t, src, dst), src, dst)[k] == t[Origin(k, src, dst)]
  {
    if k in Graft(Placed(t, src, dst), src, dst) {
      GraftSource(Placed(t, src, dst), src, dst, k);
    }
  }

  /** A reached file that meets a folder does not fail, so no folder of
      its name stands in that folder. */
  lemma IntoFree(t: Tree, src: Path, dst: Path, q: Path)
    requires Below(src, q) && Reached(t, src, dst, q) && Into(t, src, dst, q)
    ensures !IsDir(t, Rebase(q, src, dst) + [q[|q| - 1]])
  {
    assert q[..|q|] == q;
    assert !Fails(t, src, dst, q);
  }

  /** Where a key of `NestedKeys` comes from. */
  lemma NestedKeySource(t: Tree, src: Path, dst: Path, k: Path)
    requires k in NestedKeys(t, src, dst)
    ensures |dst| + 1 < |k| && k[..|dst|] == dst
    ensures var o := Origin(k[..|k| - 1], src, dst);
      && o in t && Below(src, o) && Reached(t, src, dst, o) && Into(t, src, dst, o)
      && Rebase(o, src, dst) == k[..|k| - 1] && k[|k| - 1] == o[|o| - 1]
  {
    var q :| q in t && Below(src, q) && Reached(t, src, dst, q) && Into(t, src, dst, q)
      && Rebase(q, src, dst) + [q[|q| - 1]] == k;
    var p := Rebase(q, src, dst);
    assert k[..|k| - 1] == p && k[|k| - 1] == q[|q| - 1];
    OriginOfRebase(q, src, dst);
    assert k[..|dst|] == p[..|dst|];
  }

  /** A key of `Nested` lies one level under the rebased path of a reached
      file that meets a folder there, carries that file's name and content,
      and was not a folder before: otherwise that file would fail. */
  lemma NestedKey(t: Tree, src: Path, dst: Path, k: Path)
    ensures k in Nested(t, src, dst) ==>
      && |dst| + 1 < |k| && k[..|dst|] == dst
      && var o := Origin(k[..|k| - 1], src, dst);
      && o in t && Below(src, o) && Reached(t, src, dst, o) && Into(t, src, dst, o)
      && Rebase(o, src, dst) == k[..|k| - 1] && k[|k| - 1] == o[|o| - 1]
      && Nested(t, src, dst)[k] == t[o]
      && !IsDir(t, k)
  {
    if k in Nested(t, src, dst) {
      assert k in NestedKeys(t, src, dst);
      NestedKeySource(t, src, dst, k);
      var o := Origin(k[..|k| - 1], src, dst);
      IntoFree(t, src, dst, o);
    }
  }

  /** Every reached file that meets a folder lands inside it. */
  lemma NestedHas(t: Tree, src: Path, dst: Path, q: Path)
    requires q in t && Below(src, q) && Reached(t, src, dst, q) && Into(t, src, dst, q)
    ensures Landing(t, src, dst, q) in Nested(t, src, dst)
    ensures Nested(t, src, dst)[Landing(t, src, dst, q)] == t[q]
  {
    var k := Rebase(q, src, dst) + [q[|q| - 1]];
    assert k[..|k| - 1] == Rebase(q, src, dst);
    OriginOfRebase(q, src, dst);
  }

  /** In a well-formed tree no entry of `src` rebases onto a key of
      `Nested`: it would lie under a file. */
  lemma NestedOrigin(t: Tree, src: Path, dst: Path, k: Path)
    requires WellFormed(t)
    ensures k in Nested(t, src, dst) ==> |dst| < |k| && Origin(k, src, dst) !in t
  {
    NestedKey(t, src, dst, k);
    if k in Nested(t, src, dst) {
      var o, q := Origin(k[..|k| - 1], src, dst), Origin(k, src, dst);
      OriginParent(k, src, dst);
      assert q in t ==> InFolder(t, q);
    }
  }

  /** Making `dst` leaves every entry of a folder `src` apart from it as it
      was, and whether it fails or goes into a folder: `dst`'s new folders
      lie neither inside `src` nor strictly under `dst`. */
  lemma MkDirsBelow(t: Tree, src: Path, dst: Path, q: Path)
    requires WellFormed(t) && MkDirs(t, dst).Ok? && Apart(src, dst) && Below(src, q)
    ensures var t1 := MkDirs(t, dst).value;
      && (q in t1 <==> q in t) && (q in t ==> t1[q] == t[q])
      && (Fails(t1, src, dst, q) <==> Fails(t, src, dst, q))
      && (Into(t1, src, dst, q) <==> Into(t, src, dst, q))
  {
    var t1 := MkDirs(t, dst).value;
    MkDirsMakes(t, dst);
    if q in t1 && q !in t {
      MkDirsNew(t, dst, q);
    }
    var k := Rebase(q, src, dst);
    if k in t1 && k !in t {
      MkDirsNew(t, dst, k);
    }
    var k2 := k + [q[|q| - 1]];
    if k2 in t1 && k2 !in t {
      MkDirsNew(t, dst, k2);
    }
  }

  /** So making `dst` does not change which entries the walk reaches. */
  lemma MkDirsReached(t: Tree, src: Path, dst: Path, q: Path)
    requires WellFormed(t) && MkDirs(t, dst).Ok? && Apart(src, dst) && Below(src, q)
    ensures Reached(MkDirs(t, dst).value, src, dst, q) <==> Reached(t, src, dst, q)
  {
    forall i | |src| < i <= |q|
      ensures Fails(MkDirs(t, dst).value, src, dst, q[..i]) <==> Fails(t, src, dst, q[..i])
    {
      MkDirsBelow(t, src, dst, q[..i]);
    }
  }

  /** Nor which file lands inside a folder, and where. */
  lemma MkDirsNested(t: Tree, src: Path, dst: Path, k: Path)
    requires WellFormed(t) && MkDirs(t, dst).Ok? && Apart(src, dst)
    ensures var t1 := MkDirs(t, dst).value;
      && (k in Nested(t1, src, dst) <==> k in Nested(t, src, dst))
      && (k in Nested(t, src, dst) ==> Nested(t1, src, dst)[k] == Nested(t, src, dst)[k])
  {
    var t1 := MkDirs(t, dst).value;
    NestedKey(t1, src, dst, k);
    NestedKey(t, src, dst, k);
    if k in Nested(t1, src, dst) || k in Nested(t, src, dst) {
      var o := Origin(k[..|k| - 1], src, dst);
      MkDirsBelow(t, src, dst, o);
      MkDirsReached(t, src, dst, o);
      assert k == k[..|k| - 1] + [k[|k| - 1]];
      if k in Nested(t1, src, dst) {
        NestedHas(t, src, dst, o);
      }
      if k in Nested(t, src, dst) {
        NestedHas(t1, src, dst, o);
      }
    }
  }

  /** Nor which entries are placed at their rebased path. */
  lemma MkDirsPlaced(t: Tree, src: Path, dst: Path)
    requires WellFormed(t) && MkDirs(t, dst).Ok? && Apart(src, dst)
    ensures Placed(MkDirs(t, dst).value, src, dst) == Placed(t, src, dst)
  {
    var t1 := MkDirs(t, dst).value;
    forall q | Below(src, q)
      ensures (q in t1 <==> q in t) && (q in t ==> t1[q] == t[q])
      ensures Into(t1, src, dst, q) <==> Into(t, src, dst, q)
      ensures Reached(t1, src, dst, q) <==> Reached(t, src, dst, q)
    {
      MkDirsBelow(t, src, dst, q);
      MkDirsReached(t, src, dst, q);
    }
    assert Placed(t1, src, dst) == Placed(t, src, dst);
  }

  /** Two trees with the same entries are equal. */
  lemma SameTree(t: Tree, t1: Tree)
    requires forall k :: (k in t <==> k in t1) && (k in t1 ==> t[k] == t1[k])
    ensures t == t1
  {
  }

  /** Nor the files that go into folders. */
  lemma MkDirsNestedSame(t: Tree, src: Path, dst: Path)
    requires WellFormed(t) && MkDirs(t, dst).Ok? && Apart(src, dst)
    ensures Nested(MkDirs(t, dst).value, src, dst) == Nested(t, src, dst)
  {
    var n1, n := Nested(MkDirs(t, dst).value, src, dst), Nested(t, src, dst);
    forall k ensures (k in n1 <==> k in n) && (k in n ==> n1[k] == n[k]) {
      MkDirsNested(t, src, dst, k);
    }
    SameTree(n1, n);
  }

  /** Making `dst` adds only ancestors of `dst`, none of which lies inside a
      folder `src` apart from it, nor strictly under `dst`: so it changes
      neither what copytree copies nor whether it fails. */
  lemma MkDirsApart(t: Tree, src: Path, dst: Path)
    requires WellFormed(t) && MkDirs(t, dst).Ok? && Apart(src, dst)
    ensures Placed(MkDirs(t, dst).value, src, dst) == Placed(t, src, dst)
    ensures Nested(MkDirs(t, dst).value, src, dst) == Nested(t, src, dst)
    ensures Clash(MkDirs(t, dst).value, src, dst) <==> Clash(t, src, dst)
  {
    var t1 := MkDirs(t, dst).value;
    MkDirsPlaced(t, src, dst);
    MkDirsNestedSame(t, src, dst);
    forall q | Below(src, q)
      ensures (q in t1 <==> q in t) && (Fails(t1, src, dst, q) <==> Fails(t, src, dst, q))
    {
      MkDirsBelow(t, src, dst, q);
    }
  }

  /** Rebasing commutes with taking the parent. */
  lemma RebaseParent(q: Path, src: Path, dst: Path)
    requires |src| < |q|
    ensures Rebase(q[..|q| - 1], src, dst) == Rebase(q, src, dst)[..|Rebase(q, src, dst)| - 1]
  {
    assert q[..|q| - 1][|src|..] == q[|src|..][..|q| - |src| - 1];
  }

  /** The parent of a grafted entry deeper than one level is grafted too,
      from a folder. */
  lemma GraftParent(t: Tree, src: Path, dst: Path, k: Path)
    requires k in Graft(t, src, dst) && |k| > |dst| + 1
    requires IsDir(t, Parent(Origin(k, src, dst)))
    ensures k[..|k| - 1] in Graft(t, src, dst) && Graft(t, src, dst)[k[..|k| - 1]].Folder?
  {
    GraftSource(t, src, dst, k);
    var q := Origin(k, src, dst);
    GraftHas(t, src, dst, Parent(q));
    RebaseParent(q, src, dst);
  }

  /** Grafting the entries placed at their rebased path under an existing
      folder keeps the tree well formed. */
  lemma GraftWellFormed(t: Tree, src: Path, dst: Path)
    requires WellFormed(t) && IsDir(t, dst) && |dst| > 0
    ensures WellFormed(t + Graft(Placed(t, src, dst), src, dst))
  {
    var ps := Placed(t, src, dst);
    var g := Graft(ps, src, dst);
    var r := t + g;
    forall k | k in r ensures InFolder(r, k) {
      if k in g {
        GraftSource(ps, src, dst, k);
        var o := Origin(k, src, dst);
        if |k| == |dst| + 1 {
          assert k[..|k| - 1] == dst;
        } else {
          assert InFolder(t, o);
          ReachedPrefix(t, src, dst, o, |o| - 1);
          assert Parent(o) in ps;
          GraftParent(ps, src, dst, k);
        }
      } else {
        assert InFolder(t, k);
        PlacedKey(t, src, dst, k[..|k| - 1]);
      }
    }
  }

  /** Adding the files put into folders keeps the tree well formed too. */
  lemma NestedWellFormed(t: Tree, src: Path, dst: Path)
    requires WellFormed(t) && IsDir(t, dst) && |dst| > 0
    ensures WellFormed(t + Graft(Placed(t, src, dst), src, dst) + Nested(t, src, dst))
  {
    var t2 := t + Graft(Placed(t, src, dst), src, dst);
    var n := Nested(t, src, dst);
    GraftWellFormed(t, src, dst);
    forall k | k in t2 + n ensures InFolder(t2 + n, k) {
      NestedKey(t, src, dst, k);
      if k !in n {
        assert InFolder(t2, k);
      }
      var parent := k[..|k| - 1];
      PlacedKey(t, src, dst, parent);
      NestedKey(t, src, dst, parent);
      NestedOrigin(t, src, dst, parent);
    }
  }

  /** `copytree(src, dst, dirs_exist_ok=True)` on a folder `src` apart from
      `dst`. It succeeds exactly when `dst` can be made and no entry fails.
      When `dst` cannot be made nothing is written. Otherwise, whether it
      then raises or not, `dst` exists, every entry the walk reaches is
      copied to where it lands (its place under `dst`, overwriting a
      same-named file, or, for a file meeting a folder, inside that
      folder), every entry nothing lands on is kept, nothing else appears
      but the folders of `dst`, and the tree stays well formed; when
      nothing fails, the walk reaches every entry of `src`. */
  lemma CopyTreeSpec(t: Tree, src: Path, dst: Path)
    requires WellFormed(t) && |dst| > 0 && Apart(src, dst)
    ensures CopyTree(t, src, dst).result.Ok? <==> MkDirs(t, dst).Ok? && !Clash(t, src, dst)
    ensures MkDirs(t, dst).Err? ==> CopyTree(t, src, dst) == Effect(t, Err(MkDirs(t, dst).error))
    ensures MkDirs(t, dst).Ok? ==>
      var e := CopyTree(t, src, dst);
      var r := e.tree;
      && (e.result.Ok? ==> e.result.value == dst)
      && (e.result.Err? ==> e.result.error == CopyConflict(dst))
      && WellFormed(r)
      && IsDir(r, dst)
      && (forall q | q in t && Below(src, q) && Reached(t, src, dst, q) ::
            Landing(t, src, dst, q) in r && r[Landing(t, src, dst, q)] == t[q])
      && (forall k | k in t && !Landed(t, src, dst, k) :: k in r && r[k] == t[k])
      && (forall k | k in r && k !in t :: k in Prefixes(dst) || Landed(t, src, dst, k))
    ensures !Clash(t, src, dst) ==> forall q | q in t && Below(src, q) :: Reached(t, src, dst, q)
  {
    if !Clash(t, src, dst) {
      ReachedAll(t, src, dst);
    }
    if MkDirs(t, dst).Ok? {
      var t1 := MkDirs(t, dst).value;
      MkDirsMakes(t, dst);
      MkDirsApart(t, src, dst);
      var g := Graft(Placed(t, src, dst), src, dst);
      var n := Nested(t, src, dst);
      var r := t1 + g + n;
      assert CopyTree(t, src, dst).tree == r;
      assert IsDir(t1, dst) by {
        assert dst[..|dst|] == dst;
      }
      NestedWellFormed(t1, src, dst);
      PlacedKey(t, src, dst, dst);
      NestedKey(t, src, dst, dst);
      forall q | q in t && Below(src, q) && Reached(t, src, dst, q)
        ensures Landing(t, src, dst, q) in r && r[Landing(t, src, dst, q)] == t[q]
      {
        if Into(t, src, dst, q) {
          NestedHas(t, src, dst, q);
        } else {
          GraftHas(Placed(t, src, dst), src, dst, q);
          OriginOfRebase(q, src, dst);
          NestedOrigin(t, src, dst, Rebase(q, src, dst));
        }
      }
      forall k | k in t && !Landed(t, src, dst, k) ensures k in r && r[k] == t[k] {
        PlacedKey(t, src, dst, k);
        NestedKey(t, src, dst, k);
      }
      forall k | k in r && k !in t ensures k in Prefixes(dst) || Landed(t, src, dst, k) {
        PlacedKey(t, src, dst, k);
        NestedKey(t, src, dst, k);
        if k !in g && k !in n {
          MkDirsNew(t, dst, k);
        }
      }
    }
  }

  // ---------------------------------------------------------------------
  // How a tree grows while a store is made

  /** No file stands at `p` or at any folder above it: `p` can be made as
      a folder. */
  predicate NoFileOn(t: Tree, p: Path) {
    forall i | 0 < i <= |p| :: !IsFile(t, p[..i])
  }

  /** Every entry of `t1` but `w` is the entry `t` has there, or a folder
      on the way to `p`. */
  predicate GrownBy(t: Tree, t1: Tree, p: Path, w: Path) {
    forall q | q in t1 && q != w :: (q in t && t1[q] == t[q]) || (q in Prefixes(p) && t1[q].Folder?)
  }

  /** Growing a tree makes no new file but `w`. */
  lemma NoFileKept(t: Tree, t1: Tree, p: Path, w: Path, r: Path)
    requires GrownBy(t, t1, p, w) && NoFileOn(t, r) && |w| > |r|
    ensures NoFileOn(t1, r)
  {
    forall i | 0 < i <= |r| ensures !IsFile(t1, r[..i]) {
      assert r[..i] != w;
    }
  }

  /** Growing a tree makes no new folder below `p`. */
  lemma NoDirKept(t: Tree, t1: Tree, p: Path, w: Path, q: Path)
    requires GrownBy(t, t1, p, w) && q != w && |q| > |p| && !IsDir(t, q)
    ensures !IsDir(t1, q)
  {
  }

  /** Growing twice on the way to the same folder, writing the same file. */
  lemma GrownTwice(t: Tree, t1: Tree, t2: Tree, p: Path, w: Path)
    requires GrownBy(t, t1, p, w) && GrownBy(t1, t2, p, w)
    ensures GrownBy(t, t2, p, w)
  {
  }

  /** The file system every store operation changes. */
  class Disk {
    var tree: Tree

    ghost predicate Valid()
      reads this
    {
      WellFormed(tree)
    }

    constructor (t: Tree)
      requires WellFormed(t)
      ensures Valid() && tree == t
    {
      tree := t;
    }
  }
}
