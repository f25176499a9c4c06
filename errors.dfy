/** The exceptions the stores raise, and the result types that carry them. */
module Errors {
  import opened Paths

  datatype Error =
    | FileNotFound(path: Path)     // FileNotFoundError
    | FileExists(path: Path)       // FileExistsError
    | NotADirectory(path: Path)    // NotADirectoryError: a file stands where a folder is needed
    | IsADirectory(path: Path)     // IsADirectoryError: a folder stands where a file is needed
    | SameFile(path: Path)         // shutil.SameFileError
    | CopyConflict(path: Path)     // shutil.Error: copytree met a file where a folder is, or vice versa
    | Unparsable(path: Path)       // a file that does not hold the expected format
    | KeyError(key: string)
    | TypeError
    | AssertionError
    | IndexError
    | ValueError
    | AttributeError

  datatype Result<+T> = Ok(value: T) | Err(error: Error)

  /** How an update that changes its object in place ended. */
  datatype Outcome = Pass | Fail(error: Error)

  /** An optional argument that defaults to None. */
  datatype Option<+T> = None | Some(value: T)
}
