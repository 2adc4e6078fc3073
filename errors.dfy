/** Failure-carrying values shared by the modules of the model, and the
    error taxonomy of the command-line tool (`GitCliError`). */
module Errors {

  datatype Option<+T> = None | Some(value: T)

  /** The error kinds the tool reports. The variants that wrap foreign
      error values (I/O, JSON and prompt-library errors) are not modelled. */
  datatype GitCliError =
    | NotGitRepo
    | GitCommandFailed(message: string)
    | UserCancelled
    | ConfigError(message: string)
    | InvalidEmoji
    | NoChanges
    | ValidationError(message: string)

  /** The tool's `Result<T>`: a value or a `GitCliError`. */
  datatype Result<+T> = Ok(value: T) | Err(error: GitCliError)
}
