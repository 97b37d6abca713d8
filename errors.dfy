/** The error kinds of the codec and the Result/Option wrappers used by every
    other module (src/error.rs). */
module Errors {

  /** One variant per variant of the source's `Error` enum, plus `Panicked`,
      which stands for the `todo!()` abort of `deserialize_any` on a bare
      StructEnd header: the source has no error value for it. */
  datatype Error =
    | Message(text: string)
    | UnknownJceType
    | NotEnoughtBytes
    | TrailingBytes
    | ErrorFieldTag
    | DuplicateFieldTag
    | DuplicateFieldTagName
    | WrongType
    | NeedLength
    | WrongLength
    | StringIsNotUtf8
    | IntTooBig
    | StringTooLong
    | BytesTooLong
    | SeqTooLong
    | MapTooLong
    | Panicked

  datatype Result<+T> = Ok(value: T) | Err(error: Error) {
    predicate IsFailure() { Err? }

    function PropagateFailure<U>(): Result<U>
      requires Err?
    {
      Err(error)
    }

    function Extract(): T
      requires Ok?
    {
      value
    }
  }

  datatype Option<+T> = None | Some(value: T)
}
