/** The exceptions the converter can raise, and a failure-compatible result. */
module Outcomes {
  import opened Bytes

  datatype Error =
      /** InvalidOperationException "Unexpected character" at top level. */
    | UnexpectedCharacter(character: Byte, offset: nat)
      /** IndexOutOfRangeException: a span indexed at or past its end. */
    | IndexOutOfRange(index: int)
      /** ArgumentOutOfRangeException: a token slice starting past the buffer. */
    | SliceOutOfRange(start: int)
      /** FormatException from integer parsing. */
    | NumberFormat(token: seq<Byte>)
      /** OverflowException from integer parsing. */
    | NumberOverflow(token: seq<Byte>)
      /** ArgumentException from Dictionary.Add on an existing enum name. */
    | DuplicateEnum(name: seq<Byte>)
      /** ArgumentException from Dictionary.Add on an existing (group, type). */
    | DuplicateFunction(group: int, typeCode: int)
      /** The parameter loop stands still at this offset: the source repeats
          the same iteration forever, appending ("", "") each time. */
    | NoProgress(offset: nat)

  datatype Result<T> = Ok(value: T) | Err(error: Error) {
    predicate IsFailure() {
      Err?
    }

    function PropagateFailure<U>(): Result<U>
      requires Err?
    {
      Err(error)
    }

    function Extract(): T
      requires Ok?
    {
      value
    }
  }
}
