/** `Store`: the base of every stored class. A store of extension `ext` lives
    at `Path(path).with_suffix(ext)`: in a folder when `ext` is "", in a file
    otherwise. Its class methods create, copy and delete that location. */
module Store {
  import opened Paths
  import opened Errors
  import opened FileSystem

  /** `Store._create`: normalise the path, then make it as a folder (folder
      kind) or make its parent folder (file kind). `Path('')` has an empty
      name, which `with_suffix` refuses with ValueError. */
  function Created(t: Tree, path: Path, ext: string): Effect<Path> {
    if path == [] then Effect(t, Err(ValueError))
    else
      var p := Normalize(path, ext);
      match MkDirs(t, if ext == FolderExt then p else Parent(p))
      case Err(e) => Effect(t, Err(e))
      case Ok(t1) => Effect(t1, Ok(p))
  }

  /** `Store.copy`: copytree for a folder source, copyfile otherwise. */
  function Copied(t: Tree, src: Path, dst: Path, ext: string): Effect<Path> {
    if src == [] || dst == [] then Effect(t, Err(ValueError))
    else
      var s, d := Normalize(src, ext), Normalize(dst, ext);
      if IsDir(t, s) then CopyTree(t, s, d)
      else match CopyFile(t, s, d)
        case Err(e) => Effect(t, Err(e))
        case Ok(t1) => Effect(t1, Ok(d))
  }

  /** `Store.delete`: rmtree for a folder, unlink (missing allowed) otherwise. */
  function Deleted(t: Tree, path: Path, ext: string): Effect<Path> {
    if path == [] then Effect(t, Err(ValueError))
    else
      var p := Normalize(path, ext);
      match Delete(t, p)
      case Err(e) => Effect(t, Err(e))
      case Ok(t1) => Effect(t1, Ok(p))
  }

  /** A folder-kind store is created with its ancestors, and creating it
      again is harmless; it fails exactly when a file stands at the
      normalised path (FileExistsError) or above it (NotADirectoryError). */
  lemma CreateFolder(t: Tree, path: Path)
    requires WellFormed(t) && |path| > 0
    ensures var p, e := Normalize(path, FolderExt), Created(t, path, FolderExt);
      && (e.result.Ok? <==> forall i | 0 < i <= |p| :: !IsFile(t, p[..i]))
      && (e.result.Err? ==> e.tree == t && e.result.error == (if IsFile(t, p) then FileExists(p) else NotADirectory(p)))
      && (e.result.Ok? ==>
          && e.result.value == p
          && WellFormed(e.tree)
          && (forall i | 0 <= i <= |p| :: IsDir(e.tree, p[..i]))
          && e.tree.Keys == t.Keys + Prefixes(p)
          && (forall q | q in t :: q in e.tree && e.tree[q] == t[q]))
      && (IsDir(t, p) ==> e == Effect(t, Ok(p)))
  {
    var p := Normalize(path, FolderExt);
    MkDirsFails(t, p);
    if MkDirs(t, p).Ok? {
      MkDirsMakes(t, p);
    }
    if IsDir(t, p) {
      MkDirsExisting(t, p);
    }
  }

  /** A file-kind store creates only the folder that holds it, with its
      ancestors: the file itself is neither made nor touched. It fails
      exactly when a file stands at that folder (FileExistsError) or above
      it (NotADirectoryError). */
  lemma CreateFile(t: Tree, path: Path, ext: string)
    requires WellFormed(t) && |path| > 0 && ext != FolderExt
    ensures var p, e := Normalize(path, ext), Created(t, path, ext);
      var folder := Parent(p);
      && (e.result.Ok? <==> forall i | 0 < i <= |folder| :: !IsFile(t, folder[..i]))
      && (e.result.Err? ==>
          e.tree == t && e.result.error == (if IsFile(t, folder) then FileExists(folder) else NotADirectory(folder)))
      && (e.result.Ok? ==>
          && e.result.value == p
          && WellFormed(e.tree)
          && IsDir(e.tree, folder)
          && e.tree.Keys == t.Keys + Prefixes(folder)
          && (forall q | q in t :: q in e.tree && e.tree[q] == t[q])
          && (p in e.tree <==> p in t))
  {
    var p := Normalize(path, ext);
    var folder := Parent(p);
    MkDirsFails(t, folder);
    if MkDirs(t, folder).Ok? {
      MkDirsMakes(t, folder);
      assert folder[..|folder|] == folder;
      assert p !in Prefixes(folder);
    }
  }

  /** What the holder of a file-kind store relies on after creating it: the
      normalised path, whose folder now exists and whose own entry is
      untouched, in a well-formed tree; a failure changes nothing. */
  lemma CreatedFile(t: Tree, path: Path, ext: string)
    requires WellFormed(t) && ext != FolderExt
    ensures var e := Created(t, path, ext);
      && (e.result.Err? ==> e.tree == t)
      && (e.result.Ok? ==>
          var p := e.result.value;
          && |path| > 0 && p == Normalize(path, ext)
          && WellFormed(e.tree)
          && IsDir(e.tree, Parent(p))
          && (forall q | q in t :: q in e.tree && e.tree[q] == t[q])
          && (p in e.tree <==> p in t))
  {
    if path != [] {
      CreateFile(t, path, ext);
    }
  }

  /** Creating a store keeps the tree well formed, whether it succeeds or not. */
  lemma CreatedWellFormed(t: Tree, path: Path, ext: string)
    requires WellFormed(t)
    ensures WellFormed(Created(t, path, ext).tree)
  {
    if path != [] {
      var p := Normalize(path, ext);
      var q := if ext == FolderExt then p else Parent(p);
      if MkDirs(t, q).Ok? {
        MkDirsMakes(t, q);
      }
    }
  }

  /** Creating a store only adds folders: every entry is kept. */
  lemma CreatedUntouched(t: Tree, path: Path, ext: string, q: Path)
    ensures Untouched(t, Created(t, path, ext).tree, q)
  {
  }

  /** Normalising a folder path re-suffixes only its last name, so no file
      stands on it when none stands on the path nor at the normalised one. */
  lemma FolderNoFile(t: Tree, path: Path)
    requires |path| > 0 && NoFileOn(t, path) && !IsFile(t, Normalize(path, FolderExt))
    ensures NoFileOn(t, Normalize(path, FolderExt))
  {
    var p := Normalize(path, FolderExt);
    forall i | 0 < i <= |p| ensures !IsFile(t, p[..i]) {
      if i < |p| {
        assert p[..i] == path[..i];
      } else {
        assert p[..i] == p;
      }
    }
  }

  /** Creating a store adds only the folders on the way to it. */
  lemma CreatedGrows(t: Tree, path: Path, ext: string, w: Path)
    requires |path| > 0
    ensures var p := Normalize(path, ext);
      GrownBy(t, Created(t, path, ext).tree, if ext == FolderExt then p else Parent(p), w)
  {
  }

  /** Where a file-kind store was created: the normalised path, whose folder
      exists, and whose own entry is the one it had before. */
  lemma CreatedAt(t: Tree, path: Path, ext: string)
    requires WellFormed(t) && ext != FolderExt
    ensures var e := Created(t, path, ext);
      e.result.Ok? ==>
        var p := e.result.value;
        && |path| > 0 && p == Normalize(path, ext)
        && IsDir(e.tree, Parent(p))
        && (p in e.tree <==> p in t)
        && (p in t ==> e.tree[p] == t[p])
  {
    if path != [] {
      CreateFile(t, path, ext);
    }
  }

  /** Creating a file-kind store whose folder already exists changes
      nothing and only normalises the path. */
  lemma CreateExisting(t: Tree, path: Path, ext: string)
    requires WellFormed(t) && |path| > 0 && ext != FolderExt
    requires IsDir(t, Parent(Normalize(path, ext)))
    ensures Created(t, path, ext) == Effect(t, Ok(Normalize(path, ext)))
  {
    MkDirsExisting(t, Parent(Normalize(path, ext)));
  }

  /** Creating a store a second time from the same path changes nothing and
      gives the same location: what `Meta.__init__` relies on when it calls
      itself with its own path. */
  lemma CreateAgain(t: Tree, path: Path, ext: string)
    requires WellFormed(t) && Created(t, path, ext).result.Ok?
    ensures var e := Created(t, path, ext);
      WellFormed(e.tree) && Created(e.tree, path, ext) == e
  {
    var p := Normalize(path, ext);
    var q := if ext == FolderExt then p else Parent(p);
    MkDirsMakes(t, q);
    var t1 := MkDirs(t, q).value;
    assert IsDir(t1, q[..|q|]);
    assert q[..|q|] == q;
    MkDirsExisting(t1, q);
  }

  /** After `Store.delete` nothing exists at or under the normalised path,
      everything else is kept, an absent path is not an error, and deleting
      again changes nothing. It fails only when the path lies under a file. */
  lemma DeleteStore(t: Tree, path: Path, ext: string)
    requires WellFormed(t) && |path| > 0
    ensures var p, e := Normalize(path, ext), Deleted(t, path, ext);
      && (e.result.Ok? <==> !UnderFile(t, p))
      && (e.result.Err? ==> e == Effect(t, Err(NotADirectory(p))))
      && (e.result.Ok? ==>
          && e.result.value == p
          && WellFormed(e.tree)
          && (forall q | q in e.tree :: !IsPrefix(p, q))
          && (forall q | q in t && !IsPrefix(p, q) :: q in e.tree && e.tree[q] == t[q])
          && Deleted(e.tree, path, ext) == e)
      && (p !in t && !UnderFile(t, p) ==> e == Effect(t, Ok(p)))
  {
    var p := Normalize(path, ext);
    DeleteSpec(t, p);
  }

  /** `Store.copy` of a folder merges it into the destination folder. It
      succeeds exactly when the destination can be made and no entry fails;
      when the destination cannot be made nothing changes. Otherwise,
      whether or not it then raises `shutil.Error`, every entry the walk
      reaches is copied to where it lands: the same place under the
      destination (overwriting a file of the same name), or, for a file
      meeting a folder there, inside that folder. Every entry nothing lands
      on is kept, and nothing else appears but the destination's folders. */
  lemma CopyFolder(t: Tree, src: Path, dst: Path, ext: string)
    requires WellFormed(t) && |src| > 0 && |dst| > 0
    requires var s, d := Normalize(src, ext), Normalize(dst, ext); IsDir(t, s) && Apart(s, d)
    ensures var s, d, e := Normalize(src, ext), Normalize(dst, ext), Copied(t, src, dst, ext);
      && (e.result.Ok? <==> MkDirs(t, d).Ok? && !Clash(t, s, d))
      && (MkDirs(t, d).Err? ==> e == Effect(t, Err(MkDirs(t, d).error)))
      && (MkDirs(t, d).Ok? ==>
          && (e.result.Ok? ==> e.result.value == d)
          && (e.result.Err? ==> e.result.error == CopyConflict(d))
          && WellFormed(e.tree)
          && IsDir(e.tree, d)
          && (forall q | q in t && Below(s, q) && Reached(t, s, d, q) ::
                Landing(t, s, d, q) in e.tree && e.tree[Landing(t, s, d, q)] == t[q])
          && (forall k | k in t && !Landed(t, s, d, k) :: k in e.tree && e.tree[k] == t[k])
          && (forall k | k in e.tree && k !in t :: k in Prefixes(d) || Landed(t, s, d, k)))
      && (!Clash(t, s, d) ==> forall q | q in t && Below(s, q) :: Reached(t, s, d, q))
  {
    CopyTreeSpec(t, Normalize(src, ext), Normalize(dst, ext));
  }

  /** Copying a folder onto itself writes each placed entry back where it
      was. */
  lemma SelfPlaced(t: Tree, p: Path)
    ensures t + Graft(Placed(t, p, p), p, p) == t
  {
    var ps := Placed(t, p, p);
    var g := Graft(ps, p, p);
    forall k | k in g ensures k in t && g[k] == t[k] {
      GraftSource(ps, p, p, k);
      assert k == k[..|p|] + k[|p|..];
    }
  }

  /** It puts no file into a folder: each file meets itself. */
  lemma SelfNested(t: Tree, p: Path)
    ensures Nested(t, p, p) == map[]
  {
    forall q | q in t && Below(p, q) ensures !Into(t, p, p, q) {
      assert q == q[..|p|] + q[|p|..];
    }
    assert NestedKeys(t, p, p) == {};
  }

  /** It fails exactly when the folder holds a file. */
  lemma SelfClash(t: Tree, p: Path)
    ensures Clash(t, p, p) <==> !forall q | q in t && Below(p, q) :: t[q].Folder?
  {
    forall q | q in t && Below(p, q) ensures Fails(t, p, p, q) <==> t[q].File? {
      assert q == q[..|p|] + q[|p|..];
    }
  }

  /** `Store.copy` of a folder onto itself changes nothing. It raises
      `shutil.Error` exactly when the folder holds a file, since copytree
      meets SameFileError at each file and collects it. */
  lemma CopySelf(t: Tree, path: Path, ext: string)
    requires WellFormed(t) && |path| > 0 && IsDir(t, Normalize(path, ext))
    ensures var p, e := Normalize(path, ext), Copied(t, path, path, ext);
      && e.tree == t
      && (e.result.Ok? <==> forall q | q in t && Below(p, q) :: t[q].Folder?)
      && (e.result.Ok? ==> e.result.value == p)
      && (e.result.Err? ==> e.result.error == CopyConflict(p))
  {
    var p := Normalize(path, ext);
    MkDirsExisting(t, p);
    SelfPlaced(t, p);
    SelfNested(t, p);
    SelfClash(t, p);
    assert Copied(t, path, path, ext) == CopyTree(t, p, p);
    assert CopyTree(t, p, p) == Effect(t, if Clash(t, p, p) then Err(CopyConflict(p)) else Ok(p));
  }

  /** In the example below, the walk from `a` to `b` fails at the folder
      `a/g`, which meets the file `b/g`, and reaches the file `a/f`, which
      it places at `b/f`. */
  lemma ExampleWalk(t: Tree)
    requires ["a", "f"] in t && ["a", "g"] in t && ["b", "g"] in t && ["b", "f"] !in t
    requires t[["a", "g"]].Folder? && t[["b", "g"]].File?
    ensures Clash(t, ["a"], ["b"]) && !Reached(t, ["a"], ["b"], ["a", "g"])
    ensures Reached(t, ["a"], ["b"], ["a", "f"]) && !Into(t, ["a"], ["b"], ["a", "f"])
  {
    var a, b, f, g := ["a"], ["b"], ["a", "f"], ["a", "g"];
    assert Rebase(g, a, b) == ["b", "g"];
    assert g[..2] == g && Fails(t, a, b, g);
    assert Rebase(f, a, b) == ["b", "f"];
    assert f[..2] == f && !Fails(t, a, b, f);
  }

  /** In the example below, `a/f` is copied to `b/f`. */
  lemma PartialCopies(t: Tree, c: Content)
    requires ["a", "f"] in t && ["a", "g"] in t && ["b", "g"] in t && ["b", "f"] !in t
    requires t[["a", "f"]] == File(c) && t[["a", "g"]].Folder? && t[["b", "g"]].File?
    ensures var r := t + Graft(Placed(t, ["a"], ["b"]), ["a"], ["b"]) + Nested(t, ["a"], ["b"]);
      ["b", "f"] in r && r[["b", "f"]] == File(c)
  {
    var a, b, f := ["a"], ["b"], ["a", "f"];
    ExampleWalk(t);
    GraftHas(Placed(t, a, b), a, b, f);
    assert Rebase(f, a, b) == ["b", "f"];
    NestedKey(t, a, b, ["b", "f"]);
  }

  /** In the example below, the file `b/g` is kept. */
  lemma PartialKeeps(t: Tree, c2: Content)
    requires ["a", "f"] in t && ["a", "g"] in t && ["b", "g"] in t && ["b", "f"] !in t
    requires t[["a", "g"]].Folder? && t[["b", "g"]] == File(c2)
    ensures var r := t + Graft(Placed(t, ["a"], ["b"]), ["a"], ["b"]) + Nested(t, ["a"], ["b"]);
      ["b", "g"] in r && r[["b", "g"]] == File(c2)
  {
    var a, b := ["a"], ["b"];
    ExampleWalk(t);
    assert Origin(["b", "g"], a, b) == ["a", "g"];
    PlacedKey(t, a, b, ["b", "g"]);
    NestedKey(t, a, b, ["b", "g"]);
  }

  /** copytree from `a` to an existing `b` on any tree where `a/f` is a
      file with no counterpart, `a/g` a folder and `b/g` a file: it raises,
      after copying `a/f` to `b/f`, and keeps `b/g`. */
  lemma CopyTreePartial(t: Tree, c: Content, c2: Content)
    requires MkDirs(t, ["b"]) == Ok(t)
    requires ["a", "f"] in t && ["a", "g"] in t && ["b", "g"] in t && ["b", "f"] !in t
    requires t[["a", "f"]] == File(c) && t[["a", "g"]] == Folder && t[["b", "g"]] == File(c2)
    ensures var e := CopyTree(t, ["a"], ["b"]);
      && e.result == Err(CopyConflict(["b"]))
      && ["b", "f"] in e.tree && e.tree[["b", "f"]] == File(c)
      && ["b", "g"] in e.tree && e.tree[["b", "g"]] == File(c2)
  {
    var a, b := ["a"], ["b"];
    assert CopyTree(t, a, b).tree == t + Graft(Placed(t, a, b), a, b) + Nested(t, a, b);
    ExampleWalk(t);
    PartialCopies(t, c);
    PartialKeeps(t, c2);
  }

  /** The two folders of the examples below, as stores, and why they are
      apart. */
  lemma ExampleNames()
    ensures Normalize(["a"], FolderExt) == ["a"] && Normalize(["b"], FolderExt) == ["b"]
    ensures Apart(["a"], ["b"])
  {
    PlainNameWithSuffix("a", FolderExt);
    PlainNameWithSuffix("b", FolderExt);
    assert "a" + FolderExt == "a" && "b" + FolderExt == "b";
    assert ["a"][0][0] != ["b"][0][0];
  }

  /** The tree of the example below: folder `a` holding the file `a/f` and
      the folder `a/g`, folder `b` holding the file `b/g`. */
  function PartialTree(c: Content, c2: Content): Tree {
    map[["a"] := Folder, ["a", "f"] := File(c), ["a", "g"] := Folder, ["b"] := Folder, ["b", "g"] := File(c2)]
  }

  /** It is a file system, and what the example needs of it holds. */
  lemma PartialTreeShape(c: Content, c2: Content)
    ensures var t := PartialTree(c, c2);
      && WellFormed(t) && IsDir(t, ["a"]) && IsDir(t, ["b"])
      && ["a", "f"] in t && ["a", "g"] in t && ["b", "g"] in t && ["b", "f"] !in t
      && t[["a", "f"]] == File(c) && t[["a", "g"]] == Folder && t[["b", "g"]] == File(c2)
  {
    var t := PartialTree(c, c2);
    assert "a"[0] != "b"[0] && "f"[0] != "g"[0];
    forall q | q in t ensures InFolder(t, q) {
      assert q[..|q| - 1] == [] || q[..|q| - 1] == ["a"] || q[..|q| - 1] == ["b"];
    }
  }

  /** Copying the folder store `a` of that tree onto the folder store `b`:
      the folder `a/g` meets the file `b/g`, so `shutil.Error` is raised,
      but only after `a/f` has been copied to `b/f`; the file `b/g` is
      kept. */
  lemma CopyPartial(c: Content, c2: Content)
    ensures var e := Copied(PartialTree(c, c2), ["a"], ["b"], FolderExt);
      && e.result == Err(CopyConflict(["b"]))
      && ["b", "f"] in e.tree && e.tree[["b", "f"]] == File(c)
      && ["b", "g"] in e.tree && e.tree[["b", "g"]] == File(c2)
  {
    var t := PartialTree(c, c2);
    ExampleNames();
    PartialTreeShape(c, c2);
    MkDirsExisting(t, ["b"]);
    CopyTreePartial(t, c, c2);
  }

  /** copytree from `a` to an existing `b` on any tree where `a` holds only
      the file `a/g` and `b/g` is a folder without a `g` of its own: copy2
      puts the file inside that folder, at `b/g/g`, and nothing fails. */
  lemma CopyTreeInto(t: Tree, c: Content)
    requires MkDirs(t, ["b"]) == Ok(t)
    requires forall q | q in t && Below(["a"], q) :: q == ["a", "g"]
    requires ["a", "g"] in t && t[["a", "g"]] == File(c)
    requires ["b", "g"] in t && t[["b", "g"]] == Folder && ["b", "g", "g"] !in t
    ensures var e := CopyTree(t, ["a"], ["b"]);
      && e.result == Ok(["b"])
      && ["b", "g", "g"] in e.tree && e.tree[["b", "g", "g"]] == File(c)
      && ["b", "g"] in e.tree && e.tree[["b", "g"]] == Folder
  {
    var a, b, g := ["a"], ["b"], ["a", "g"];
    assert Rebase(g, a, b) == ["b", "g"] && Rebase(g, a, b) + [g[|g| - 1]] == ["b", "g", "g"];
    assert g[..2] == g && !Fails(t, a, b, g);
    assert Reached(t, a, b, g) && Into(t, a, b, g);
    assert CopyTree(t, a, b).tree == t + Graft(Placed(t, a, b), a, b) + Nested(t, a, b);
    NestedHas(t, a, b, g);
    assert Origin(["b", "g"], a, b) == g;
    PlacedKey(t, a, b, ["b", "g"]);
    NestedKey(t, a, b, ["b", "g"]);
  }

  /** The tree of the example below: folder `a` holding the file `a/g`,
      folder `b` holding the empty folder `b/g`. */
  function IntoTree(c: Content): Tree {
    map[["a"] := Folder, ["a", "g"] := File(c), ["b"] := Folder, ["b", "g"] := Folder]
  }

  /** It is a file system, and what the example needs of it holds. */
  lemma IntoTreeShape(c: Content)
    ensures var t := IntoTree(c);
      && WellFormed(t) && IsDir(t, ["a"]) && IsDir(t, ["b"])
      && (forall q | q in t && Below(["a"], q) :: q == ["a", "g"])
      && ["a", "g"] in t && t[["a", "g"]] == File(c)
      && ["b", "g"] in t && t[["b", "g"]] == Folder && ["b", "g", "g"] !in t
  {
    var t := IntoTree(c);
    assert "a"[0] != "b"[0];
    forall q | q in t ensures InFolder(t, q) {
      assert q[..|q| - 1] == [] || q[..|q| - 1] == ["a"] || q[..|q| - 1] == ["b"];
    }
    forall q | q in t && Below(["a"], q) ensures q == ["a", "g"] {
      assert q[..1] == ["a"];
    }
  }

  /** Copying the folder store `a` of that tree onto the folder store `b`:
      the file lands at `b/g/g`, the folder `b/g` stays, and the copy
      succeeds. */
  lemma CopyInto(c: Content)
    ensures var e := Copied(IntoTree(c), ["a"], ["b"], FolderExt);
      && e.result == Ok(["b"])
      && ["b", "g", "g"] in e.tree && e.tree[["b", "g", "g"]] == File(c)
      && ["b", "g"] in e.tree && e.tree[["b", "g"]] == Folder
  {
    var t := IntoTree(c);
    ExampleNames();
    IntoTreeShape(c);
    MkDirsExisting(t, ["b"]);
    CopyTreeInto(t, c);
  }

  /** `Store.copy` of anything but a folder is copyfile: an existing file
      overwrites the destination file, whose folder must exist; a missing
      source raises FileNotFoundError. */
  lemma CopyOneFile(t: Tree, src: Path, dst: Path, ext: string)
    requires WellFormed(t) && |src| > 0 && |dst| > 0
    ensures var s, d, e := Normalize(src, ext), Normalize(dst, ext), Copied(t, src, dst, ext);
      && (IsFile(t, s) && s != d && IsDir(t, Parent(d)) && !IsDir(t, d) ==>
          e == Effect(t[d := t[s]], Ok(d)) && WellFormed(e.tree))
      && (IsFile(t, s) && s == d ==> e == Effect(t, Err(SameFile(s))))
      && (s !in t && !UnderFile(t, s) ==> e == Effect(t, Err(FileNotFound(s))))
  {
    var s, d := Normalize(src, ext), Normalize(dst, ext);
    if IsFile(t, s) && s != d {
      WriteSpec(t, d, t[s].content);
    }
  }
}
