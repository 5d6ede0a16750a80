/** Small wrapper types shared by every module of the model.
    `Option` stands for Go's nil-able values and `sql.Null*` columns,
    `Result` for Go's `(value, error)` return pairs. */
module Base {

  datatype Option<+T> = None | Some(value: T)

  datatype Result<+T, +E> = Ok(value: T) | Err(error: E)

  /** Which reading of a defective piece of the source a handler is built
      on: the code as it is written, or the behaviour it evidently
      intends. Handlers that use such a piece take the revision as a
      parameter, so both are modelled. */
  datatype Revision = AsWritten | Intended
}
