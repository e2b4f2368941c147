/** Option, Result and the exceptions a stage of the pipeline can raise. */
module Outcomes {

  datatype Option<T> = None | Some(value: T)

  /** The Python exceptions that end a stage part-way through. Each carries
      what the exception names. */
  datatype Error =
    | FileNotFound(path: string)              // open, read_csv or listdir of a missing path
    | NotADirectory(path: string)             // listdir of a path that is a file
    | IsADirectory(path: string)              // reading a directory as a file
    | Unreadable(path: string)                // a file not in the format the stage reads it in
    | MissingColumn(column: string)           // pandas KeyError on a column
    | MissingField(line: nat, field: nat)     // IndexError on row.split()[field]
    | NotANumber(line: nat, text: string)     // ValueError raised by float()

  datatype Result<T> = Ok(value: T) | Err(error: Error)

  /** How a stage call ended: it ran to its end, or an exception escaped. */
  datatype Status = Done | Failed(error: Error)
}
