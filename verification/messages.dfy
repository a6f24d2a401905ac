/** The hub messages the protocol reads and writes, the runtime's message-type
    enumeration (kept abstract: its numbers are defined outside this model), and
    the errors the protocol raises. */
module Messages {
  import opened Results
  import opened Values

  /** The runtime's `MessageType` enumeration. */
  datatype MessageType =
    | Invocation
    | StreamItem
    | Completion
    | StreamInvocation
    | CancelInvocation
    | Ping
    | Close

  /** The number each message type is written as on the wire.  The values are
      a parameter of the model; `Distinct` says they form an enumeration. */
  datatype MessageTypeCodes = MessageTypeCodes(
    invocation: int,
    streamItem: int,
    completion: int,
    streamInvocation: int,
    cancelInvocation: int,
    ping: int,
    close: int)

  function CodeOf(codes: MessageTypeCodes, t: MessageType): int {
    match t
    case Invocation => codes.invocation
    case StreamItem => codes.streamItem
    case Completion => codes.completion
    case StreamInvocation => codes.streamInvocation
    case CancelInvocation => codes.cancelInvocation
    case Ping => codes.ping
    case Close => codes.close
  }

  /** No two message types share a code. */
  predicate Distinct(codes: MessageTypeCodes) {
    forall t, u :: t != u ==> CodeOf(codes, t) != CodeOf(codes, u)
  }

  /** The message types the parser has a case for; every other tag is ignored. */
  const ParsedTypes: set<MessageType> := {Invocation, StreamItem, Completion, Ping, Close}

  /** The result kinds a Completion message carries in slot 3. */
  const ErrorResult: int := 1
  const VoidResult: int := 2
  const NonVoidResult: int := 3

  /** A hub message.  `headers` and `invocationId` are `Option`s because a
      message object may lack the property altogether; the other properties are
      always present, though they may hold `undefined` or `null`. */
  datatype HubMessage =
    | InvocationMessage(headers: Option<Value>, invocationId: Option<Value>, target: Value, arguments: Value)
    | StreamInvocationMessage(headers: Option<Value>, invocationId: Option<Value>, target: Value, arguments: Value)
    | StreamItemMessage(headers: Option<Value>, invocationId: Option<Value>, item: Value)
    | CompletionMessage(headers: Option<Value>, invocationId: Option<Value>, error: Value, result: Value)
    | CancelInvocationMessage(headers: Option<Value>, invocationId: Option<Value>)
    | PingMessage
    | CloseMessage(error: Value)

  /** The `type` property of a message. */
  function TypeOf(m: HubMessage): MessageType {
    match m
    case InvocationMessage(_, _, _, _) => Invocation
    case StreamInvocationMessage(_, _, _, _) => StreamInvocation
    case StreamItemMessage(_, _, _) => StreamItem
    case CompletionMessage(_, _, _, _) => Completion
    case CancelInvocationMessage(_, _) => CancelInvocation
    case PingMessage => Ping
    case CloseMessage(_) => Close
  }

  /** The errors the protocol throws, one per distinct message text. */
  datatype ProtocolError =
    | InvalidPayload                        // "Invalid payload."
    | InvalidHeaders                        // "Invalid headers."
    | InvalidPayloadFor(t: MessageType)     // "Invalid payload for <t> message."
    | WritingNotSupported(t: MessageType)   // "Writing messages of type '<t>' is not supported."
    | InvalidMessageType                    // "Invalid message type."
    | DecodeFailed                          // the msgpack decoder itself threw
    | NullPropertyAccess                    // TypeError: reading `length` of null or undefined
}
