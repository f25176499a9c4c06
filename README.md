# RomCom persistence layer, modelled in Dafny

RomCom stores every object it computes under a folder on disk. The
storage layer lives in `rc/base/models.py`, and with the same code in
`romcomma/base/models.py`. It has five classes.

- **`Store`** is the abstract base of everything stored. Its path is
  normalised by `Path.with_suffix(ext)`. A folder store has `ext == ''`
  and makes its folder and all the folder's ancestors. A file store makes
  its parent folder. `copy` uses `copytree` or `copyfile`, and `delete`
  uses `rmtree` or `unlink`.
- **`Meta`** is a string-keyed record kept in a `.json` file. An update
  merges into the record in memory and then rewrites the whole file.
- **`DataTable`** is a data frame kept in a `.csv` file. It carries read
  options (`{'index_col': 0}` plus the caller's) and write options, which
  accumulate across calls. Every call rewrites the file.
  `broadcast_to` reshapes the values and can zero everything but the
  diagonal.
- **`DataBase`** is a folder holding one `.csv` table per field of its
  `Tables` NamedTuple. The constructor writes the tables the caller
  supplies and reads the others. `create` supplies every default. A call
  updates named tables in place. `delete` removes exactly the declared
  tables.
- **`Model`** is a `DataBase` plus a `Meta` at `<path>/meta.json`. The
  concrete schemas `ToyDataBase` and `ToyModel` each declare one table,
  `data`.

The model has two layers.

**The specification layer** (functions and lemmas). The file system is a
value `Tree = map<Path, Node>`. A path is a sequence of names, and a
node is a folder or a file holding abstract content: a JSON record or a
CSV frame. Each operation is a total function from a tree to an
`Effect` (the new tree and a `Result`) or a `Step` (the new tree, the
new object state and an `Outcome`). Python exceptions become `Err`
values. A failure keeps whatever had already been written, as the
source does: `copytree`, for one, collects the entries it cannot copy
and raises only after copying all the others. The lemmas state what each operation promises:
- success and failure conditions in both directions;
- what is written;
- what is left untouched;
- round trips (what `create` writes, the constructor reads back
  unchanged);
- invariants (every table's file holds that table; no two tables share
  a file).

**The object layer** (classes `Disk`, `Meta`, `DataTable`, `DataBase`
and `Model`). Each class has the source's fields, and its methods update
them and the disk in place. Every method is proved to leave
`disk.tree` and the object's state exactly as the specification function
says.

Modules, in dependency order:
- `Errors`
- `Paths`: `with_suffix` and the suffix rule of `pathlib`
- `Values`: records, option values, matrices and frames
- `FileSystem`: the tree, `mkdir`, `open`, `copytree`, `rmtree`, and the
  `Disk` class
- `Store`
- `Metadata`
- `Tables`
- `DataBases`
- `Models`
- `Toys`

Behaviour that follows the code where its docstrings say otherwise:
- `DataTable.create(path)` with no data builds `pd.DataFrame(None)` and
  writes that empty frame. It does not read the file as documented.
- `Store.create` can also raise `NotADirectoryError`, when a file stands
  above the folder, not only `FileExistsError`.
- `broadcast_to` raises `IndexError` only when NumPy refuses the shape. A
  broadcast to a larger shape passes NumPy. It then fails at the in-place
  write-back into the stored frame, with `ValueError`.
- A folder store strips a suffix from its last name (`with_suffix('')`),
  so `DataBase('x/a.b').path` is `x/a`. The tables and `meta.json` are
  still placed under the path as given.
- `DataBase.__call__(path=...)` binds `path` to a boolean through the
  walrus operator, so relocation fails with `TypeError` before changing
  anything.
- A `Meta` record is passed on as keywords. A key that names a parameter
  (`self` or `path`, and `cls` for `Meta.create`) makes Python raise
  `TypeError` before anything is written. So a record read from a file
  with a `path` key cannot be copied, and `Model.create` refuses such
  metadata.
- `Store.copy` of a folder does not stop at the first entry it cannot
  copy. `copytree` collects the failures, copies the rest and raises
  `shutil.Error` at the end. Copying a folder onto itself raises as soon
  as the folder holds a file, because each file meets `SameFileError`.
  A file that meets a folder of `dst` is not an error: `copy2` then
  writes it inside that folder, under its own name. It fails only when
  that folder already holds a folder of that name.

## Model

| member | source | states |
|---|---|---|
| Paths.RFindDotLast | rc/base/models.py:98 | `rfind('.')` lands on a dot, and no dot follows it |
| Paths.SuffixShape | rc/base/models.py:98 | a suffix is empty or a dot followed by a dot-free tail; it is never the whole name; stem plus suffix is the name |
| Paths.WithSuffixHasSuffix | rc/base/models.py:98 | re-suffixing a valid name with a single-suffix extension leaves exactly that suffix, keeps the stem and gives a valid name |
| Paths.NormalizeIdempotent | rc/base/models.py:141 | for a file extension, normalising twice equals normalising once, and the result's suffix is exactly the extension |
| Paths.FolderNormalizeFixes | rc/base/models.py:98 | a folder path (extension '') is left unchanged exactly when its last name has no suffix |
| Paths.FolderNormalizeNotIdempotent | rc/base/models.py:98 | for folders normalising is not idempotent: `a.b.c` becomes `a.b`, and then `a` |
| Paths.PlainNameWithSuffix | rc/base/models.py:98 | a dot-free name (every table name) simply gets the extension appended |
| FileSystem.MkDirsFails | rc/base/models.py:100-102 | `mkdir(parents=True, exist_ok=True)` succeeds exactly when no prefix of the path is a file; otherwise FileExistsError at the path itself, else NotADirectoryError |
| FileSystem.MkDirsMakes | rc/base/models.py:100-102 | on success the path and all its ancestors are folders, exactly those prefixes are added, every old entry is kept, and the tree stays well formed |
| FileSystem.MkDirsExisting | rc/base/models.py:100 | `exist_ok`: making an existing folder changes nothing |
| FileSystem.WriteSpec | rc/base/models.py:310 | writing a file succeeds exactly when its parent is a folder and no folder stands at it; the result is the old tree with that file set |
| FileSystem.RewriteSame | rc/base/models.py:327 | rewriting a file with the content it holds changes nothing |
| FileSystem.PruneSpec | rc/base/models.py:160 | `rmtree` removes exactly what lies at or under the path and keeps the rest and well-formedness |
| FileSystem.DeleteFails | rc/base/models.py:157-162 | store deletion fails, with NotADirectoryError, exactly when the path lies under a file |
| FileSystem.DeleteIsPrune | rc/base/models.py:157-162 | a successful deletion removes exactly the path and what lies under it, whatever stands there |
| FileSystem.DeleteRemovesOnly | rc/base/models.py:157-162 | deletion only removes entries; everything left is unchanged |
| FileSystem.DeleteSpec | rc/base/models.py:150-163 | deletion is idempotent: nothing is left at or under the path; other entries are kept; deleting again changes nothing; an absent path is no error |
| FileSystem.ReachedPrefix | rc/base/models.py:144 | an entry `copytree`'s walk reaches has every ancestor inside `src` reached too |
| FileSystem.ReachedAll | rc/base/models.py:144 | when no entry of `src` fails, the walk reaches every entry |
| FileSystem.MkDirsApart | rc/base/models.py:144 | making `dst` first changes neither what `copytree` copies to the rebased paths, nor which files it puts inside a folder, nor whether an entry fails, when `src` and `dst` are apart |
| FileSystem.GraftWellFormed | rc/base/models.py:144 | merging the entries the walk reaches at their rebased paths under an existing folder keeps the tree well formed |
| FileSystem.NestedKey | rc/base/models.py:144 | a file put inside a folder lands at that folder plus its own name, comes from a reached file that met that folder, holds its content, and is no folder of the tree |
| FileSystem.NestedHas | rc/base/models.py:144 | every reached file that meets a folder is put inside it, under its own name, with its content |
| FileSystem.NestedWellFormed | rc/base/models.py:144 | adding, besides, the files put inside the folders they met keeps the tree well formed |
| FileSystem.CopyTreeSpec | rc/base/models.py:144 | `copytree(dirs_exist_ok=True)` succeeds exactly when `dst` can be made and no entry fails: a folder meeting a file, a file meeting a folder that already holds a folder of the file's name, or a file copied onto itself; if `dst` cannot be made nothing changes; otherwise, raising or not, every reached entry lands at its rebased path, or inside the folder it meets when it is a file (overwriting same-named files), every entry nothing lands on is kept, nothing but `dst`'s folders and those landings is added, and the tree stays well formed |
| Store.CreateFolder | rc/base/models.py:97-103 | a folder store's `_create` succeeds exactly when no prefix of the normalised path is a file (errors FileExistsError / NotADirectoryError, tree unchanged); it makes the folder and its ancestors, keeps every entry, and changes nothing if the folder exists |
| Store.CreateFile | rc/base/models.py:97-103 | a file store's `_create` makes only the parent folder, with the same failure rule on the parent; the file's own entry is neither made nor changed |
| Store.CreatedFile | rc/base/models.py:97-103 | a successful file-store `_create` returns the normalised path, its parent is a folder, and every old entry is kept; a failure changes nothing |
| Store.CreatedWellFormed | rc/base/models.py:97-103 | `_create` keeps the tree well formed, whether it succeeds or not |
| Store.CreatedUntouched | rc/base/models.py:97-103 | `_create` only adds folders: every entry is kept |
| Store.CreatedAt | rc/base/models.py:97-103 | a created file store sits at the normalised path, in an existing folder, and its own entry is what it was |
| Store.CreateExisting | rc/base/models.py:102 | creating a file store whose folder exists changes nothing and only normalises the path |
| Store.CreateAgain | rc/base/models.py:107-121 | `Store.create` is idempotent: creating again after a success gives the same tree and path |
| Store.DeleteStore | rc/base/models.py:150-163 | `Store.delete` fails only under a file; it returns the normalised path; nothing remains at or under it; other entries are kept; deleting again or deleting an absent path changes nothing |
| Store.CopyFolder | rc/base/models.py:125-147 | copying a folder store merges into `dst`: it succeeds exactly when `dst` can be made and no entry fails (a file meeting a folder is put inside it and fails only when a folder of its name is there); if `dst` cannot be made nothing changes; otherwise, whether or not it raises `shutil.Error`, every entry the walk reaches lands at its rebased path or, for a file meeting a folder, inside that folder; every entry nothing lands on is kept and only `dst`'s folders appear besides |
| Store.CopySelf | rc/base/models.py:125-147 | copying a folder store onto itself changes nothing, and raises `shutil.Error` exactly when the folder holds a file |
| Store.ExampleWalk | rc/base/models.py:144 | on a tree where `a/g` is a folder and `b/g` a file, `copytree(a, b)`'s walk fails at `a/g` and still reaches the file `a/f` |
| Store.CopyTreePartial | rc/base/models.py:144 | on such a tree `copytree(a, b)` raises `shutil.Error` after copying `a/f` to `b/f`, and keeps the file `b/g` |
| Store.CopyPartial | rc/base/models.py:125-147 | a concrete `Store.copy(a, b)`: `a` holds file `a/f` and folder `a/g`, `b` holds file `b/g`; it raises, leaves `b/f` written and keeps `b/g` |
| Store.CopyTreeInto | rc/base/models.py:144 | on a tree where `a` holds only the file `a/g` and `b/g` is a folder, `copytree(a, b)` succeeds, writes `b/g/g` and keeps the folder `b/g` |
| Store.CopyInto | rc/base/models.py:125-147 | a concrete `Store.copy(a, b)` of the file `a/g` onto the folder `b/g`: it succeeds, writing the file at `b/g/g` |
| Store.CopyOneFile | rc/base/models.py:125-147 | copying a file overwrites `dst` with the source content; copying onto itself raises SameFileError; an absent source raises FileNotFoundError |
| Metadata.CallMerges | rc/base/models.py:179-193 | `Meta.__call__` sets the record to `old \| updates`: update keys win and every other key is kept |
| Metadata.CallInPlace | rc/base/models.py:179-193 | without a path, a call keeps the path; updates holding `self` or `path` raise TypeError and change nothing; otherwise it succeeds exactly when the file can be written, and the file then holds exactly the record in memory |
| Metadata.CallRelocated | rc/base/models.py:179-193 | with a new path, a call succeeds exactly when the updates hold neither `self` nor `path`, the folder can be made and no folder stands at the normalised path; it moves there, and on success the file holds exactly the record in memory |
| Metadata.CallAfterCreate | rc/base/models.py:69-82 | relocating to the path the record already has, once its folder exists, is the same as not relocating |
| Metadata.OpenThenWrite | rc/base/models.py:195-209 | with data naming no parameter of `__init__`, `Meta.__init__` is `_create` followed by a call in place |
| Metadata.OpenWrites | rc/base/models.py:195-209 | with data, the record is exactly that data and is written, overwriting any file; data holding `self` or `path` raises TypeError and changes nothing; otherwise construction fails only when the folder cannot be made or a folder stands at the file |
| Metadata.OpenReads | rc/base/models.py:195-209 | without data, the record is read from the file: FileNotFoundError when it is missing; success exactly when it holds a record |
| Metadata.OpenReadsKeeps | rc/base/models.py:203-206 | reading a `Meta` changes no existing entry |
| Metadata.OpenGrows | rc/base/models.py:195-209 | constructing a `Meta` adds only its file and the folders on the way to it |
| Metadata.ReopenReadsBack | rc/base/models.py:195-209 | after a successful construction, reading the `Meta` back gives the same state and changes nothing |
| Metadata.ReopenFolder | rc/base/models.py:195-209 | after a successful construction the file's folder exists and the tree is well formed |
| Metadata.OpenFrame | rc/base/models.py:195-209 | constructing a `Meta` changes no entry but its own file, apart from making folders |
| Metadata.CreateSpec | rc/base/models.py:212-222 | `Meta.create` always writes: the given data, or the placeholder `{'NotImplemented': 'in call to Meta.create()'}` when none is given; data holding `cls`, `path` or `self` raises TypeError and changes nothing; otherwise it fails exactly as the write does |
| Metadata.CopySpec | rc/base/models.py:225-235 | `Meta.copy` from a non-empty record stores that record at `dst`, or raises TypeError, changing nothing, when the record holds `self` or `path`; from an empty record it reads `dst` instead |
| Metadata.Meta.Call | rc/base/models.py:179-193 | the object's path, record and the disk become exactly what `MetaCall` gives |
| Metadata.Meta.Open | rc/base/models.py:195-209 | a fresh `Meta` whose state is `MetaOpen`'s result, or its error; the disk as `MetaOpen` leaves it |
| Metadata.Meta.Create | rc/base/models.py:212-222 | as `Meta.Open`, against `MetaCreate` |
| Metadata.Meta.Copy | rc/base/models.py:225-235 | as `Meta.Open`, against `MetaCopy` applied to the source's state |
| Metadata.Meta.Delete | rc/base/models.py:150-163 | the disk and the result are those of deleting the `.json` store |
| Tables.BroadcastCells | rc/base/models.py:281 | `np.broadcast_to` repeats an axis of extent 1: every cell comes from the matching or repeated source cell |
| Tables.BroadcastSame | rc/base/models.py:281 | broadcasting a matrix to its own shape is allowed and changes nothing |
| Tables.DiagonalCells | rc/base/models.py:285-286 | `np.diag(np.diagonal(m))` keeps the main diagonal and zeroes every other cell |
| Tables.AssignedSpec | rc/base/models.py:305-306 | assigning into a frame through `iloc` keeps its labels and shape; it fails with ValueError exactly when the matrix cannot be broadcast to that shape |
| Tables.CallSpec | rc/base/models.py:289-311 | a call in place keeps the path and read options, and fails with ValueError before any change when the data does not fit; on success the write options are `old \| options` and the file holds the new frame |
| Tables.CallRelocated | rc/base/models.py:289-311 | a call with a path moves to the normalised path; on success the file there holds the frame in memory |
| Tables.CallFrame | rc/base/models.py:289-311 | a call in place changes no entry but the table's own file |
| Tables.CallErrors | rc/base/models.py:289-311 | a call in place fails only by data that does not fit (ValueError) or by the write of its own file |
| Tables.OptionsAccumulate | rc/base/models.py:309 | write options accumulate: two calls give `old \| o1 \| o2` |
| Tables.OpenThenStore | rc/base/models.py:313-330 | with a frame, `DataTable.__init__` is `_create` followed by a call in place with the write options |
| Tables.OpenWrites | rc/base/models.py:313-330 | with a frame, the table stores it with read options `{'index_col': 0}` and write options `{} \| options`; it fails only when the folder cannot be made or a folder stands at the file |
| Tables.OpenReads | rc/base/models.py:313-330 | without data, the frame is read with `{'index_col': 0} \| options` (caller keys win); FileNotFoundError when the file is missing |
| Tables.OpenReadsKeeps | rc/base/models.py:326-327 | reading a `DataTable` rewrites its file with what it held, so it changes no existing entry |
| Tables.OpenGrows | rc/base/models.py:313-330 | constructing from a frame adds only the table's file and the folders on the way to it |
| Tables.OpenFrame | rc/base/models.py:313-330 | construction changes no entry but the table's own file, apart from making folders |
| Tables.OpenPath | rc/base/models.py:313-330 | a constructed `DataTable` sits at the normalised path |
| Tables.OpenMatrixFails | rc/base/models.py:305-306 | a bare matrix cannot be the data of a new `DataTable`: there is no frame to assign into (AttributeError) |
| Tables.OpenFolder | rc/base/models.py:313-330 | after a successful construction the folder exists and the file holds the frame |
| Tables.ReopenReadsBack | rc/base/models.py:313-330 | reading a table back after constructing it gives the same path and frame and changes nothing |
| Tables.ReopenRewrites | rc/base/models.py:326-327 | opening without data where the folder exists leaves the tree as it was |
| Tables.CreateSpec | rc/base/models.py:333-356 | `DataTable.create` always writes: an empty frame for no data, the given frame, or a matrix labelled by position; the write options are the given options |
| Tables.CopySpec | rc/base/models.py:359-369 | `DataTable.copy` stores the source's frame at `dst` with the source's write options |
| Tables.BroadcastFails | rc/base/models.py:280-283 | `broadcast_to` raises IndexError exactly when the shape is not broadcastable, and then changes nothing |
| Tables.BroadcastKeepsShape | rc/base/models.py:268-287 | a successful `broadcast_to` keeps the frame's shape and labels and the path, and its file holds the frame |
| Tables.BroadcastDiagonal | rc/base/models.py:285-287 | with `is_diagonal`, on a square target of more than one row, a successful broadcast keeps the diagonal and zeroes every off-diagonal cell; it succeeds only on a frame of that shape |
| Tables.BroadcastColumn | rc/base/models.py:285-287 | with `is_diagonal`, on a one-column target of more than one row, the kept diagonal is the single top cell, so a successful broadcast fills every cell with the old top-left value |
| Tables.BroadcastGrowFails | rc/base/models.py:280-287 | broadcasting a 1x1 frame to 2x2 passes NumPy but fails at the write-back with ValueError, changing nothing |
| Tables.DataTable.Call | rc/base/models.py:289-311 | the object's state and the disk become exactly what `TableCall` gives |
| Tables.DataTable.Apply | rc/base/models.py:301-311 | the in-place part of a call: exactly `TableCall` without a path |
| Tables.DataTable.Broadcast | rc/base/models.py:268-287 | the object's state and the disk become exactly what `TableBroadcast` gives |
| Tables.DataTable.Open | rc/base/models.py:313-330 | a fresh `DataTable` whose state is `TableOpen`'s result, or its error |
| Tables.DataTable.Create | rc/base/models.py:333-356 | as `DataTable.Open`, against `TableCreate` |
| Tables.DataTable.Copy | rc/base/models.py:359-369 | as `DataTable.Open`, against `TableCopy` applied to the source's state |
| Tables.DataTable.Delete | rc/base/models.py:150-163 | the disk and the result are those of deleting the `.csv` store |
| DataBases.TableNames | romcomma/base/models.py:433-436 | `table_names()` fails its assertion exactly for the undeclared base `Tables`; otherwise it gives the field names in declaration order |
| DataBases.Find | romcomma/base/models.py:404-405 | the lookup `all_tables[name]` finds the field of that name, or reports that none exists |
| DataBases.TableDefaultsSpec | romcomma/base/models.py:438-441 | `table_defaults()` maps each field to its default and holds nothing else |
| DataBases.DefaultsSpec | romcomma/base/models.py:438-441 | `_field_defaults` has one entry per field, holding its default, and no other entry |
| DataBases.WithDefaultsSpec | romcomma/base/models.py:453 | in `table_defaults() \| tables` the caller's data beats the default |
| DataBases.AsDictSpec | romcomma/base/models.py:384-386 | `tables_as_dict()` gives each table's frame under its field's name |
| DataBases.TablePathShape | romcomma/base/models.py:424-425 | table `name` is stored at `path / name` with `.csv` appended |
| DataBases.TablePathsDistinct | romcomma/base/models.py:423-426 | different tables of one DataBase have different files |
| DataBases.OpenOneSpec | romcomma/base/models.py:424-425 | one table is written from the caller's data when supplied and read otherwise, with that table's options |
| DataBases.OpenOneFrame | romcomma/base/models.py:424-425 | opening one table changes no entry but its file, apart from folders |
| DataBases.OpenTablesPaths | romcomma/base/models.py:423-426 | the opened tables sit at their names' files, in declaration order, and no two share a file |
| DataBases.OpenTablesWellFormed | romcomma/base/models.py:423-426 | opening the tables keeps the tree well formed |
| DataBases.OpenTablesFrame | romcomma/base/models.py:423-426 | opening the tables changes no entry but their files, apart from folders |
| DataBases.OpenTablesSpec | romcomma/base/models.py:423-426 | on success every declared table is as promised, in declaration order |
| DataBases.OpenTablesSynced | romcomma/base/models.py:423-426 | on success every table's file holds its table |
| DataBases.OpenedDistinct | romcomma/base/models.py:423-426 | tables opened for distinct names have distinct files |
| DataBases.OpenSpec | romcomma/base/models.py:409-431 | `DataBase.__init__` fails its assertion on the base `Tables`; on success the folder exists at the normalised path; each declared table is written from the supplied data or read from its file; every file holds its table and no two tables share a file |
| DataBases.OpenIgnoresUndeclared | romcomma/base/models.py:423-426 | keywords that name no table are ignored: two calls that agree on every table give the same result |
| DataBases.OpenOneSucceeds | romcomma/base/models.py:424 | a supplied frame is stored whenever no file blocks the folder and no folder stands at its file; only that file and folders are added |
| DataBases.OpenTablesSucceed | romcomma/base/models.py:423-426 | with every table supplied, opening succeeds under the same conditions |
| DataBases.BaseOpenSucceeds | romcomma/base/models.py:409-431 | `DataBase.__init__` with every table supplied succeeds wherever its folder can be made and no folder stands at a table's file |
| DataBases.OpenOneReads | romcomma/base/models.py:425 | an unsupplied table whose file holds a frame is read back with its read options, and the tree is left as it was |
| DataBases.OpenTablesRead | romcomma/base/models.py:423-426 | unsupplied tables whose files hold frames are read back in order, and the tree is left as it was |
| DataBases.BaseReopen | romcomma/base/models.py:409-431 | `DataBase(path)` on an existing folder holding every table's file reads every table back and changes nothing |
| DataBases.OpenOneMissing | romcomma/base/models.py:425 | an unsupplied table whose file is missing raises FileNotFoundError for that file, and the tree is left as it was |
| DataBases.OpenTablesMissing | romcomma/base/models.py:423-426 | after reading back the tables before it, the first unsupplied table whose file is missing stops the loop with FileNotFoundError for that file, the tree unchanged |
| DataBases.BaseOpenMissing | romcomma/base/models.py:417-431 | `DataBase.__init__` on an existing folder raises FileNotFoundError for the first table that is neither supplied nor on disk, once the ones before it are read; nothing changes |
| DataBases.UpdateShape | romcomma/base/models.py:404-406 | the update loop keeps the folder, the number of tables, and each table's file and read options |
| DataBases.UpdateWellFormed | romcomma/base/models.py:404-406 | the update loop keeps the tree well formed |
| DataBases.UpdateKeeps | romcomma/base/models.py:404-406 | a table that no keyword names keeps its value |
| DataBases.UpdateFrame | romcomma/base/models.py:404-406 | the update loop changes no entry but the tables' files |
| DataBases.CallSynced | romcomma/base/models.py:405 | one successful table call keeps every file holding its table and all paths distinct |
| DataBases.UpdateSynced | romcomma/base/models.py:404-406 | when every call succeeds, every file holds its table and no two tables share a file |
| DataBases.UpdateDeclared | romcomma/base/models.py:404-405 | only a name that is not a table raises KeyError, and a fully successful loop named tables only |
| DataBases.UpdateApplies | romcomma/base/models.py:404-405 | after a successful loop, each table named once holds its data applied to its old frame and has merged its write options |
| DataBases.BaseCallSpec | romcomma/base/models.py:388-407 | `DataBase.__call__` fails its assertion on the base `Tables` and fails with TypeError for `path=`, both before any change; otherwise it keeps the folder and every table's file; a successful call keeps the stored invariant and named tables only |
| DataBases.CreatedTable | romcomma/base/models.py:444-453 | a table `create` did not get from the caller holds its default, with the read defaults and its write options |
| DataBases.BaseCreateSpec | romcomma/base/models.py:444-453 | `DataBase.create` writes every declared table: the caller's data where supplied, the default otherwise; the result is stored at the normalised folder |
| DataBases.BaseCopySpec | romcomma/base/models.py:456-465 | `DataBase.copy` stores each table of `src` at `dst` with the write options |
| DataBases.UnderFileTable | romcomma/base/models.py:480 | a table's file lies under a file exactly when the folder does |
| DataBases.DeleteOne | romcomma/base/models.py:480 | deleting one table removes exactly its file and what lies under it, failing only when the folder lies under a file |
| DataBases.DeleteTablesSpec | romcomma/base/models.py:478-481 | the deletion loop removes exactly the named tables' files and returns the path; everything else is kept |
| DataBases.BaseDeleteSpec | romcomma/base/models.py:467-481 | `DataBase.delete` fails its assertion on the base `Tables`; otherwise it removes exactly the declared `.csv` files and keeps the folder and every other file |
| DataBases.DataBase.OpenNamed | romcomma/base/models.py:424-425 | a fresh `DataTable` for one field, as `OpenOne` gives, or its error |
| DataBases.DataBase.OpenEach | romcomma/base/models.py:423-426 | the table comprehension: one `DataTable` per field in order, whose states are what `OpenTables` gives, or its error |
| DataBases.DataBase.Open | romcomma/base/models.py:409-431 | a fresh valid `DataBase` whose state is `BaseOpen`'s result, or its error |
| DataBases.DataBase.OpenIn | romcomma/base/models.py:421-426 | the tables of the constructor once the folder exists, gathered into a fresh valid `DataBase` |
| DataBases.DataBase.Call | romcomma/base/models.py:388-407 | the tables' states and the disk become exactly what `BaseCall` gives, and no two tables share a file afterwards |
| DataBases.DataBase.CallAt | romcomma/base/models.py:405 | the call on one table object changes that table's state only, as `TableCall` says |
| DataBases.DataBase.Create | romcomma/base/models.py:443-453 | as `DataBase.Open`, against `BaseCreate` |
| DataBases.DataBase.Copy | romcomma/base/models.py:455-465 | as `DataBase.Open`, against `BaseCopy` applied to the source's state |
| DataBases.DataBase.Delete | romcomma/base/models.py:467-481 | the disk and the result are those of `BaseDelete` |
| Models.MetaLocation | romcomma/base/models.py:583-585 | `_meta_in(path)` normalised for `.json` is `<path>/meta.json`: it sits directly in the folder as given and is never a table's file |
| Models.OpenMetaStep | romcomma/base/models.py:535-537 | the constructor's first read: on success `meta.json` was already there holding the record; FileNotFoundError when it is missing |
| Models.BaseOpenFrame | romcomma/base/models.py:538 | opening the `DataBase` leaves every non-table entry, `meta.json` among them, as it was apart from folders |
| Models.OpenedBefore | romcomma/base/models.py:535-538 | what a table was opened from is unchanged by the earlier steps |
| Models.ModelOpenSpec | romcomma/base/models.py:524-543 | `Model.__init__` reads `Meta` before the `DataBase`; on success the folder exists, the record is what `meta.json` held, the tables are stored; a missing `meta.json` raises FileNotFoundError whatever the tables |
| Models.ModelOpenSucceeds | romcomma/base/models.py:524-543 | with a record in `meta.json` and every table supplied, the constructor succeeds wherever the folder can be made and no folder stands at a table's file |
| Models.ModelOpenMissing | romcomma/base/models.py:532-543 | `Model.__init__` on an existing folder whose `meta.json` holds a record raises FileNotFoundError for the first table that is neither supplied nor on disk, once the ones before it are read; nothing changes |
| Models.ModelReopen | romcomma/base/models.py:524-543 | `Model(path)` on a stored model reads back the same record, paths and frames and changes nothing |
| Models.CreateMetaStep | romcomma/base/models.py:555 | `create`'s first step writes `meta.json` holding `defaultMetaData \| meta`, or the placeholder when that is empty |
| Models.CreateMetaSucceeds | romcomma/base/models.py:555 | that step succeeds whenever the record holds none of `cls`, `path`, `self`, no file blocks the folder and no folder stands at `meta.json`; it adds only that file and folders |
| Models.CreatedTables | romcomma/base/models.py:556 | the tables `create` opens after the metadata hold the caller's data where supplied and the defaults otherwise |
| Models.ModelCreateSpec | romcomma/base/models.py:545-556 | `Model.create` writes `meta.json` first, holding `defaultMetaData \| meta` (caller wins), then builds the `DataBase` from `table_defaults() \| data`; on the base `Tables` the record is written before the assertion fails |
| Models.ModelCreateSucceeds | romcomma/base/models.py:545-556 | `Model.create` succeeds wherever the merged record holds none of `cls`, `path`, `self`, the folder can be made and no folder stands at `meta.json` or at a table's file |
| Models.CreateThenReopen | romcomma/base/models.py:524-556 | what `Model.create` stores, `Model(path)` reads back unchanged: the same path, record, table paths and frames, with the tree unchanged |
| Models.ModelCopySpec | romcomma/base/models.py:558-567 | `Model.copy` leaves `dst` with `src`'s record (merged into the defaults) and all of `src`'s frames, stored with the write options |
| Models.ModelDeleteSpec | romcomma/base/models.py:569-581 | `Model.delete` removes exactly `meta.json` and the declared tables and keeps the folder and everything else; on the base `Tables` `meta.json` is already gone when the assertion fails |
| Models.ModelCallSpec | romcomma/base/models.py:623-625 | `ToyModel.__call__` passes its options to the `DataBase` call; path and metadata are kept; the stored invariant is preserved on success |
| Models.Model.Open | romcomma/base/models.py:524-543 | a fresh valid `Model` whose state is `ModelOpen`'s result, or its error |
| Models.Model.OpenIn | romcomma/base/models.py:535-538 | the `Meta` then the `DataBase` of the constructor once the folder exists, gathered into a fresh `Model` |
| Models.Model.Create | romcomma/base/models.py:545-556 | as `Model.Open`, against `ModelCreate` |
| Models.Model.Copy | romcomma/base/models.py:558-567 | as `Model.Open`, against `ModelCopy` applied to the source's state |
| Models.Model.Delete | romcomma/base/models.py:569-581 | the disk and the result are those of `ModelDelete` |
| Models.Model.Call | romcomma/base/models.py:623-625 | the model's state and the disk become exactly what `ModelCall` gives, and the model stays valid |
| Toys.ToyDataBaseCreate | romcomma/base/models.py:588-597 | `ToyDataBase.create` succeeds wherever there is room and stores the default frame in `<path>/data.csv`, with `index=True` |
| Toys.ToyModelCreate | romcomma/base/models.py:600-621 | `ToyModel.create` succeeds wherever there is room, writes the placeholder record to `meta.json` and stores the default frame in `data.csv` |
| Toys.ToyModelReopen | romcomma/base/models.py:600-621 | after `ToyModel.create`, `ToyModel(path)` reads back the placeholder record and the default frame and changes nothing |

## Left out

- CSV and JSON encoding are left out. A file holds an abstract record or
  frame, and reading returns what was last written. Read options such as
  `header` are carried, not interpreted.
- The `pd`, `np` and `tf` conversions (and Torch) are left out; they are
  foreign library calls. Frames hold integer cells; floating point and
  pandas dtypes are not modelled.
- The `__repr__` and `__str__` methods and the `path` property are left
  out: they only format or return fields.
- The diagnostic `print` before `FileNotFoundError` is re-raised is left
  out; only the error is modelled.
- `DataTable.create`'s `index`, `columns`, `dtype` and `copy` arguments
  to `pd.DataFrame` are left out. A source is no data, a frame or a
  matrix.
- Assigning a matrix into a frame follows NumPy's broadcasting rule (an
  axis of extent 1 or an equal extent). pandas' own dtype checks are left
  out.
- Python asserts are modelled as `AssertionError` results, as they
  behave when assertions are enabled.
- Paths are sequences of names. The string forms `Path(str)` accepts,
  `..` and symbolic links are left out.
- The relocation branch of `DataBase.__call__` is modelled only as the
  `TypeError` it raises; the intended relocation is not modelled.
- `rc`'s `DataBase.copy` and `Model.copy` are left out. In
  `rc/base/models.py`, `tables_as_dict` is a property, so calling it
  fails. The copies from `romcomma/base/models.py` are modelled.
- `rc`'s `Model.create` (`meta` popped from the keywords) is modelled by
  `romcomma`'s explicit `meta` argument, which has the same effect. The
  one exception is an explicit `meta=None`, which `rc` rejects; it is
  left out.
- `Model.__call__` in the base class is abstract; `ToyModel.__call__`
  is modelled.
- The base `Model.DataBase.Tables` (one `NotImplemented` frame holding a
  string) is left out: cells are integers. The undeclared base
  `DataBase.Tables` is modelled as the assertion it triggers.
- Declared schemas are assumed well declared: distinct field names that
  are identifiers, which a NamedTuple guarantees.
  `DataBases.DataBase.Open`, `Create`, `Copy` and the `Models.Model`
  methods require it.
- DataBases.DataBase.OpenEach: does not promise that the new `DataTable`
  objects are fresh, only their states. `DataBase.Valid` derives their
  distinctness from their distinct files.
- DataBases.BaseOpenSucceeds: gives sufficient conditions for success
  (every table supplied as a frame), not an exact characterisation.
  Failure conditions are stated by `OpenSpec`, `BaseOpenMissing` and the
  `Tables` lemmas.
- Models.ModelOpenSucceeds: sufficient conditions only, as above.
- Models.ModelCreateSucceeds: sufficient conditions only, as above.
- Toys.ToyDataBaseCreate: sufficient conditions only, as above.
- Toys.ToyModelCreate: sufficient conditions only, as above.
- Store.Copied: when one folder lies strictly inside the other,
  `copytree`'s walk can meet entries it has just written itself. The model
  copies the entries present before the copy, and no lemma covers that
  case. `copystat` (timestamps and modes) is left out.
- DataBases.BaseOpen: the `TypeError` Python raises when a keyword binds
  a parameter twice is modelled only for `Meta`. A keyword named `self`
  or `path`, supplied or declared (`create` and `copy` pass the declared
  ones as keywords), is treated here like any other: its table is opened
  when declared, and the keyword is ignored otherwise. The same holds for
  read and write options holding `path`, `data` or `self`, which go to
  `DataTable` as keywords.
- DataBases.BaseCreate: the same, and also for a supplied table named
  `cls`.
- DataBases.BaseCopy: the same, for a table named `self` or `path`.
- DataBases.BaseCall: an update named `self` raises `TypeError` in the
  source; here it is looked up like any other name.
- Models.ModelOpen: the same for the tables passed to `DataBase`.
- Models.ModelCreate: the same, and also for a table named `cls` or
  `meta`. Colliding metadata keys are modelled, through `MetaCreate`.
- Models.ModelCopy: the same, for a table named `self`, `path`, `cls` or
  `meta`.
- Tables.TableOpen, Tables.TableCreate and Tables.TableCall: options
  holding `self`, `path` or `data` raise `TypeError` in the source, as do
  `cls`, `index`, `columns`, `dtype` or `copy` for `create`. Options are
  carried here without that check.
- DataBases.BaseOpen: every path is a `pathlib.Path`. With a `str` path,
  `path / name` (romcomma/base/models.py:424-425) raises `TypeError` after
  `Store.__init__` has made the folder. So, with at least one declared
  table, `DataBase(str)` and `DataBase.create(str)` fail and leave the
  folder behind. That failure is
  not modelled.
- Models.ModelOpen: the same for `Model(str)` and `Model.create(str)`.
  With a `str` path, `meta.json` is written or read and the folder is made
  before the `DataBase` step raises `TypeError`.
- Concurrency, file permissions (`mode=0o777`) and disk-full errors are
  left out.
