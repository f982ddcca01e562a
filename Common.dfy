/** Types shared by every layer of the chat service: fixed-width integers,
    Option, the service's exceptions as error values, and results. */
module Common {

  /** C# `long`: Unix-seconds timestamps. Only compared, never added. */
  newtype int64 = x: int | -0x8000_0000_0000_0000 <= x < 0x8000_0000_0000_0000

  /** C# `int`: the optional page-size limit of an enumeration. */
  newtype int32 = x: int | -0x8000_0000 <= x < 0x8000_0000

  /** A C# nullable value or reference: `null` is None. */
  datatype Option<T> = None | Some(value: T)

  /** An abstract continuation token: the offset, in the ordered query
      answer, at which the next page begins. */
  type Token = nat

  /** Every exception the core throws, one variant each. */
  datatype Error =
    | InvalidArgument        // System.ArgumentException thrown by the core's own checks
    | ArgumentOutOfRange     // System.ArgumentOutOfRangeException (a subclass of ArgumentException): a List<T> index past the end
    | IndexOutOfRange        // System.IndexOutOfRangeException (not an ArgumentException): an array index past the end
    | ConversationNotFound   // ConversationNotFoundException
    | ConversationConflict   // ConversationConflictException
    | MessageNotFound        // MessageNotFoundException
    | MessageConflict        // MessageConflictException
    | SenderNotParticipant   // SenderNotParticipantException
    | UserNotFound           // UserNotFoundException
    | UserConflict           // UserConflictException

  /** The value of an operation, or the exception it throws. */
  datatype Result<T> = Ok(value: T) | Err(error: Error)

  /** What an operation on a store returns together with the store after it. */
  datatype Transition<R, S> = Transition(result: R, state: S)
}
