/** Failure-compatible wrappers: `Option` models a C# reference that may be null,
    `Result` models a computation that may throw. */
module Wrappers {

  datatype Option<+T> = None | Some(value: T) {
    function GetOr(default: T): T {
      match this
      case Some(v) => v
      case None => default
    }
  }

  /** The .NET exceptions the generators can raise on their own inputs. */
  datatype Exception =
    /** `Substring(0, 1)` on an empty string. */
    | ArgumentOutOfRange(argument: string)
    /** `SourceText.From(null, …)`: a generator handing a null text to the compiler. */
    | ArgumentNull(argument: string)

  datatype Result<+T> = Success(value: T) | Failure(error: Exception)
}
