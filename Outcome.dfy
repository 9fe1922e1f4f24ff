/** Failure values of the todo tool and the two wrappers its operations return. */
module Outcome {

  /** Every way a command of the tool stops with exit status 1. */
  datatype Error =
    | ConfigMissing              // no configuration file in the working directory
    | MissingKey(key: string)    // the configuration lacks one of its three keys
    | DirectoryExists            // `init` found its storage directory already present
    | NotTxtFile                 // `init` was given a file name without the `.txt` suffix
    | InvalidPriority            // priority is not one letter A-Z
    | InvalidEstimate            // estimate is not a string of decimal digits
    | TaskIdNotFound             // a task id outside 1..number of pending lines

  datatype Option<T> = None | Some(value: T)

  datatype Result<T> = Ok(value: T) | Err(error: Error)
}
