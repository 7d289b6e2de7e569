/** Types every module shares. */
module Common {

  /** A value that may be missing. */
  datatype Option<+T> = None | Some(value: T)

  datatype RepositoryType = Model | Dataset

  function TypeName(repoType: RepositoryType): string {
    match repoType
    case Model => "model"
    case Dataset => "dataset"
  }
}
