/** Failure-compatible wrappers for the generation pipeline.

    A Python exception that escapes a generator is modelled as an `Err` carrying
    the kind of exception; `:-` propagates it the way the source lets it unwind.
 */
module Outcomes {

  /** The exceptions the generators can raise, by cause. */
  datatype Error =
    | IndexError      // a row is shorter than a column the code reads
    | AttributeError  // `.replace` called on a cell that is not a string
    | TypeError       // `.replace(" ", "_")` called on a datetime or time cell
    | KeyError        // the certificate sheet has no "Name" column
    | Unreadable      // the workbook could not be parsed
    | TemplateError   // the template file could not be opened
    | RenderError     // the rendering library raised while filling or saving
    | ConvertError    // the DOCX-to-PDF converter raised
    | FileNotFound    // the output file name points into a directory that does not exist

  datatype Result<+T> = Ok(value: T) | Err(error: Error) {

    predicate IsFailure() {
      Err?
    }

    function PropagateFailure<U>(): Result<U>
      requires Err?
    {
      Err(error)
    }

    function Extract(): T
      requires Ok?
    {
      value
    }
  }

  datatype Option<+T> = None | Some(value: T) {

    function GetOr(default: T): T {
      match this
      case Some(v) => v
      case None => default
    }
  }
}
