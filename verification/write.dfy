/** Writing hub messages: `writeMessage` accepts Invocation and
    StreamInvocation messages and lays each out as the five-slot array
    `[type, headers, invocationId, target, arguments]` that is then handed to
    the msgpack encoder. */
module Write {
  import opened Results
  import opened Values
  import opened Messages

  /** `message.headers || {}`: absent or falsy headers are written as `{}`. */
  function WrittenHeaders(headers: Option<Value>): (v: Value)
    ensures Truthy(v)
    ensures headers.Some? && Truthy(headers.value) ==> v == headers.value
    ensures !(headers.Some? && Truthy(headers.value)) ==> v == EmptyObject
  {
    Or(FromOption(headers), EmptyObject)
  }

  /** `writeInvocation`: the invocation id is written as `invocationId || null`,
      so it is `null` exactly when it was absent or falsy. */
  function WriteInvocation(codes: MessageTypeCodes, m: HubMessage): (v: Value)
    requires m.InvocationMessage?
    ensures v.Arr? && |v.elems| == 5
    ensures v.elems[0] == Int(CodeOf(codes, Invocation))
    ensures v.elems[1] == WrittenHeaders(m.headers)
    ensures Truthy(v.elems[2]) <==> m.invocationId.Some? && Truthy(m.invocationId.value)
    ensures Truthy(v.elems[2]) ==> v.elems[2] == m.invocationId.value
    ensures !Truthy(v.elems[2]) ==> v.elems[2] == Nil
    ensures v.elems[3] == m.target && v.elems[4] == m.arguments
  {
    Arr([Int(codes.invocation), WrittenHeaders(m.headers), Or(FromOption(m.invocationId), Nil),
         m.target, m.arguments])
  }

  /** `writeStreamInvocation`: like an invocation, but the invocation id is
      written as it is, `undefined` when absent. */
  function WriteStreamInvocation(codes: MessageTypeCodes, m: HubMessage): (v: Value)
    requires m.StreamInvocationMessage?
    ensures v.Arr? && |v.elems| == 5
    ensures v.elems[0] == Int(CodeOf(codes, StreamInvocation))
    ensures v.elems[1] == WrittenHeaders(m.headers)
    ensures v.elems[2] == FromOption(m.invocationId)
    ensures v.elems[3] == m.target && v.elems[4] == m.arguments
  {
    Arr([Int(codes.streamInvocation), WrittenHeaders(m.headers), FromOption(m.invocationId),
         m.target, m.arguments])
  }

  /** `writeMessage`: the array layout for the two writable types; StreamItem
      and Completion are "not supported", anything else is an invalid type. */
  function WriteMessage(codes: MessageTypeCodes, m: HubMessage): (r: Result<Value, ProtocolError>)
    ensures r.Ok? <==> m.InvocationMessage? || m.StreamInvocationMessage?
    ensures r.Ok? ==> r.value.Arr? && |r.value.elems| == 5 && r.value.elems[0] == Int(CodeOf(codes, TypeOf(m)))
    ensures m.InvocationMessage? ==> r == Ok(WriteInvocation(codes, m))
    ensures m.StreamInvocationMessage? ==> r == Ok(WriteStreamInvocation(codes, m))
    ensures m.StreamItemMessage? || m.CompletionMessage? ==> r == Err(WritingNotSupported(TypeOf(m)))
    ensures m.CancelInvocationMessage? || m.PingMessage? || m.CloseMessage? ==> r == Err(InvalidMessageType)
  {
    match m
    case InvocationMessage(_, _, _, _) => Ok(WriteInvocation(codes, m))
    case StreamInvocationMessage(_, _, _, _) => Ok(WriteStreamInvocation(codes, m))
    case StreamItemMessage(_, _, _) => Err(WritingNotSupported(StreamItem))
    case CompletionMessage(_, _, _, _) => Err(WritingNotSupported(Completion))
    case _ => Err(InvalidMessageType)
  }
}
