/** Results of operations that can succeed, fail with a client error, or panic. */
module Outcomes {

  datatype Option<+T> = None | Some(value: T)

  /** What a reply or a frame was rejected for. */
  datatype Reason =
    | InvalidPacket
    | InconsistentLengths
    | WrongSource
    | UnexpectedCommand
    | UnexpectedFlags
    | UnexpectedInvokeId
    | TooShort
    | UnknownVersion
    | InvalidEntryLength

  /** The client's error type; the static context strings are dropped. */
  datatype Error =
    | Io
    | Ads(code: nat)
    | BadReply(reason: Reason, value: nat)
    | Overflow
    | IoSync(invokeId: nat)
    | Disconnected
    | Other

  /**
    * The outcome of an operation.  `Panic` stands for a failed slice, `expect`, `assert_eq!`
    * or overflow check: the source stops there instead of returning an error.
    */
  datatype Outcome<+T> = Ok(value: T) | Fail(error: Error) | Panic {

    predicate IsFailure() {
      !Ok?
    }

    function PropagateFailure<U>(): Outcome<U>
      requires IsFailure()
    {
      match this
      case Fail(e) => Fail(e)
      case Panic => Panic
    }

    function Extract(): T
      requires Ok?
    {
      value
    }
  }
}
