/** The error kinds the bus and the argument accessors report. */
module Errors {
  import opened Wrappers
  import opened Values

  /**
    * One constructor per error the code creates with `fmt.Errorf`, carrying
    * the offending name or value; `Raised` is any error a handler returns.
    */
  datatype Error =
    | NotAnInt(arg: Value)
    | NotAString(arg: Value)
    | ArgumentNotFound(name: string)
    | NameAlreadyRegistered(name: string)
    | CommandNotRegistered(name: string)
    | QueryNotRegistered(name: string)
    | Raised(message: string)

  /** A Go pair return `(value, err)`: both halves are always present. */
  datatype Ret<+T> = Ret(value: T, err: Option<Error>) {
    predicate Ok() {
      err.None?
    }
  }
}
