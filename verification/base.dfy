/** Basic values shared by the pipeline model: optional values, the messages
    and function results the processor is handed, and the errors it raises. */
module Base {

  /** An optional value; `None` stands for a .NET `null` argument or an unset property. */
  datatype Option<T> = None | Some(value: T)

  /** The value of an operation that either returns normally or raises. */
  datatype Result<T> = Ok(value: T) | Err(error: Error)

  /** A Service Bus message. `handle` stands for the object's identity (two
      distinct message objects have distinct handles); `messageId` is its
      `MessageId` property, which stages may read. The whole record is the
      message: its `MessageId` is taken to stay the same between `Begin` and
      `Complete`. */
  datatype Message = Message(handle: nat, messageId: string)

  /** The outcome of the triggered function, handed to `Complete`. */
  datatype FunctionResult = FunctionResult(succeeded: bool)

  /** The subset of the message-pump options the processor consults. */
  datatype MessageOptions = MessageOptions(autoComplete: bool)

  /** An exception thrown by stage code, identified by name. */
  datatype Fault = Fault(name: string)

  /** The conditions the processor raises, with the .NET exception types
      collapsed: `ArgumentNull` and `Argument` carry the text the source
      passes to the exception (a parameter name for `ArgumentNull`, the
      message text for `Argument`), `LostContext` is the missing-context error of
      `Complete`, `StageFault` re-raises what a stage threw, and `Cancelled`
      is the cancellation token's exception. */
  datatype Error =
    | ArgumentNull(param: string)
    | Argument(param: string)
    | LostContext
    | StageFault(fault: Fault)
    | Cancelled
}
