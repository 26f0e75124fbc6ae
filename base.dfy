/** Shared vocabulary of the read contract: optional results, the error kinds
    a query can fail with, and the kinds of value a path can resolve to. */
module Base {

  /** An explicit absent result, used where the Go code returns a nil Source. */
  datatype Option<+T> = None | Some(value: T)

  /** The three error conditions of the core: a path that does not resolve,
      a value of the wrong kind, and a key that should have been an integer. */
  datatype ErrorKind = DoesNotExist | WrongType | BadKey

  /** A query result: a value, or the kind of the error it failed with.
      (The Go code also returns the zero value beside an error; that part
      carries no information and is not modelled.) */
  datatype Result<+T> = Ok(value: T) | Err(kind: ErrorKind)

  /** The kind of value at a path; Undefined is "the path does not resolve",
      distinct from an explicit Null. */
  datatype NodeType = Undefined | Null | Bool | Int | Float | String | Slice | Map
}
