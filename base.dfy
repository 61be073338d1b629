/** Shared result types: the Python exceptions the decoding engine can raise
    become explicit error values. */
module Base {

  datatype Option<+T> = None | Some(value: T)

  /** The exceptions raised by the modelled code.  UnorderedIteration stands
      for iterating over a nested record's keys, whose order Python 2 leaves
      unspecified; the model does not pick one. */
  datatype PyError =
    | KeyError
    | IndexError
    | ValueError
    | TypeError
    | AttributeError
    | UnorderedIteration

  datatype Result<+T> = Ok(value: T) | Err(error: PyError)
}
