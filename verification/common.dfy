/** Values shared by every part of the model: optional values, results, the
    C# null string and the two runtime exceptions the modelled code can raise. */
module Common {

  /** An optional value; `None` stands for a C# null reference. */
  datatype Option<+T> = None | Some(value: T)

  /** The outcome of an operation that may throw instead of returning. */
  datatype Result<+T, +E> = Success(value: T) | Failure(error: E)

  /** A C# `string`, which may be null. */
  type NStr = Option<string>

  /** The runtime exceptions the modelled code can raise by itself. */
  datatype Exception =
    | NullReference       // a member access through a null reference
    | ArgumentOutOfRange  // `list[0]` on an empty list

  /** What an interpolated string (`$"{s}"`) prints for `s`: null prints as nothing. */
  function Text(s: NStr): string
  {
    match s
    case None => ""
    case Some(t) => t
  }
}
