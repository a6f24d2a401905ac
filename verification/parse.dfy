/** Reading hub messages: the checks `parseMessage` applies to a decoded
    msgpack value, the switch on the message-type tag, and the per-type
    constructors with their minimum-length checks. */
module Parse {
  import opened Results
  import opened Values
  import opened Messages

  /** The message types whose constructor receives `readHeaders(properties)`. */
  predicate ReadsHeaders(t: MessageType) {
    t == Invocation || t == StreamItem || t == Completion
  }

  /** The case of the switch on `properties[0]` a tag selects.  The switch
      compares with `===` in source order; `None` is its `default` case. */
  function SwitchCase(codes: MessageTypeCodes, tag: Value): (r: Option<MessageType>)
    ensures r.Some? ==> r.value in ParsedTypes && tag == Int(CodeOf(codes, r.value))
    ensures r.None? <==> forall t :: t in ParsedTypes ==> tag != Int(CodeOf(codes, t))
  {
    if tag == Int(codes.invocation) then Some(Invocation)
    else if tag == Int(codes.streamItem) then Some(StreamItem)
    else if tag == Int(codes.completion) then Some(Completion)
    else if tag == Int(codes.ping) then Some(Ping)
    else if tag == Int(codes.close) then Some(Close)
    else None
  }

  /** `readHeaders`: slot 1 must have object type, which admits `null` and
      arrays as well as maps; a missing slot 1 reads as `undefined` and fails. */
  function ReadHeaders(properties: seq<Value>): (r: Result<Value, ProtocolError>)
    ensures r.Ok? <==> IsObjectType(At(properties, 1))
    ensures r.Ok? ==> r.value == At(properties, 1)
    ensures r.Err? ==> r.error == InvalidHeaders
  {
    var headers := At(properties, 1);
    if !IsObjectType(headers) then Err(InvalidHeaders) else Ok(headers)
  }

  /** `createCloseMessage`: at least two slots; the error is slot 1 whatever it
      holds, and no headers are read. */
  function CreateClose(properties: seq<Value>): (r: Result<HubMessage, ProtocolError>)
    ensures r.Ok? <==> 2 <= |properties|
    ensures r.Err? ==> r.error == InvalidPayloadFor(Close)
    ensures r.Ok? ==> r.value.CloseMessage? && r.value.error == properties[1]
  {
    if |properties| < 2 then Err(InvalidPayloadFor(Close))
    else Ok(CloseMessage(properties[1]))
  }

  /** `createPingMessage`: at least one slot; nothing but the type is kept. */
  function CreatePing(properties: seq<Value>): (r: Result<HubMessage, ProtocolError>)
    ensures r.Ok? <==> 1 <= |properties|
    ensures r.Err? ==> r.error == InvalidPayloadFor(Ping)
    ensures r.Ok? ==> r.value == PingMessage
  {
    if |properties| < 1 then Err(InvalidPayloadFor(Ping))
    else Ok(PingMessage)
  }

  /** `createInvocationMessage`: at least five slots; target is slot 3,
      arguments slot 4, and the invocation id (slot 2) is kept only when it is
      truthy. */
  function CreateInvocation(headers: Value, properties: seq<Value>): (r: Result<HubMessage, ProtocolError>)
    ensures r.Ok? <==> 5 <= |properties|
    ensures r.Err? ==> r.error == InvalidPayloadFor(Invocation)
    ensures r.Ok? ==> r.value.InvocationMessage? && r.value.headers == Some(headers)
    ensures r.Ok? ==> r.value.target == properties[3] && r.value.arguments == properties[4]
    ensures r.Ok? ==> (r.value.invocationId.Some? <==> Truthy(properties[2]))
    ensures r.Ok? && r.value.invocationId.Some? ==> r.value.invocationId.value == properties[2]
  {
    if |properties| < 5 then Err(InvalidPayloadFor(Invocation))
    else
      var invocationId := properties[2];
      if Truthy(invocationId) then
        Ok(InvocationMessage(Some(headers), Some(invocationId), properties[3], properties[4]))
      else
        Ok(InvocationMessage(Some(headers), None, properties[3], properties[4]))
  }

  /** `createStreamItemMessage`: at least four slots; invocation id is slot 2
      (kept whatever its truthiness) and the item slot 3. */
  function CreateStreamItem(headers: Value, properties: seq<Value>): (r: Result<HubMessage, ProtocolError>)
    ensures r.Ok? <==> 4 <= |properties|
    ensures r.Err? ==> r.error == InvalidPayloadFor(StreamItem)
    ensures r.Ok? ==> r.value.StreamItemMessage? && r.value.headers == Some(headers)
    ensures r.Ok? ==> r.value.invocationId == Some(properties[2]) && r.value.item == properties[3]
  {
    if |properties| < 4 then Err(InvalidPayloadFor(StreamItem))
    else Ok(StreamItemMessage(Some(headers), Some(properties[2]), properties[3]))
  }

  /** `createCompletionMessage`: at least four slots, and a fifth unless the
      result kind in slot 3 is exactly the void kind.  An error result puts slot
      4 in `error`, a non-void result puts it in `result`; every other kind
      leaves both `null`. */
  function CreateCompletion(headers: Value, properties: seq<Value>): (r: Result<HubMessage, ProtocolError>)
    ensures r.Ok? <==> 5 <= |properties| || (|properties| == 4 && properties[3] == Int(VoidResult))
    ensures r.Err? ==> r.error == InvalidPayloadFor(Completion)
    ensures r.Ok? ==> r.value.CompletionMessage? && r.value.headers == Some(headers)
    ensures r.Ok? ==> r.value.invocationId == Some(properties[2])
    ensures r.Ok? && properties[3] == Int(ErrorResult) ==> r.value.error == properties[4] && r.value.result == Nil
    ensures r.Ok? && properties[3] == Int(NonVoidResult) ==> r.value.error == Nil && r.value.result == properties[4]
    ensures r.Ok? && properties[3] != Int(ErrorResult) && properties[3] != Int(NonVoidResult) ==>
              r.value.error == Nil && r.value.result == Nil
  {
    if |properties| < 4 then Err(InvalidPayloadFor(Completion))
    else
      var resultKind := properties[3];
      if resultKind != Int(VoidResult) && |properties| < 5 then Err(InvalidPayloadFor(Completion))
      else
        var error := if resultKind == Int(ErrorResult) then properties[4] else Nil;
        var result := if resultKind == Int(NonVoidResult) then properties[4] else Nil;
        Ok(CompletionMessage(Some(headers), Some(properties[2]), error, result))
  }

  /** A constructed message, or the constructor's error, as a parse result. */
  function Found(r: Result<HubMessage, ProtocolError>): Result<Option<HubMessage>, ProtocolError> {
    match r
    case Ok(m) => Ok(Some(m))
    case Err(e) => Err(e)
  }

  /** The switch of `parseMessage` over a non-empty property array.  Headers
      are read before the constructor runs, so a header error takes precedence
      over a length error; an unhandled tag yields no message. */
  function ParseProperties(codes: MessageTypeCodes, properties: seq<Value>): (r: Result<Option<HubMessage>, ProtocolError>)
    requires |properties| > 0
    ensures r == Ok(None) <==> SwitchCase(codes, properties[0]).None?
    ensures r == Err(InvalidHeaders) <==>
              SwitchCase(codes, properties[0]).Some? && ReadsHeaders(SwitchCase(codes, properties[0]).value)
              && !IsObjectType(At(properties, 1))
    ensures r.Ok? && r.value.Some? ==> SwitchCase(codes, properties[0]) == Some(TypeOf(r.value.value))
    ensures r.Err? ==> SwitchCase(codes, properties[0]).Some?
    ensures r.Err? && r.error != InvalidHeaders ==> r.error == InvalidPayloadFor(SwitchCase(codes, properties[0]).value)
  {
    match SwitchCase(codes, properties[0])
    case Some(Invocation) =>
      var headers :- ReadHeaders(properties);
      Found(CreateInvocation(headers, properties))
    case Some(StreamItem) =>
      var headers :- ReadHeaders(properties);
      Found(CreateStreamItem(headers, properties))
    case Some(Completion) =>
      var headers :- ReadHeaders(properties);
      Found(CreateCompletion(headers, properties))
    case Some(Ping) =>
      Found(CreatePing(properties))
    case Some(Close) =>
      Found(CreateClose(properties))
    case _ => Ok(None)
  }

  /** The payload check of `parseMessage` as it is meant: the decoded value must
      be a non-empty array. */
  function CheckPayload(decoded: Value): (r: Result<seq<Value>, ProtocolError>)
    ensures r.Ok? <==> decoded.Arr? && |decoded.elems| > 0
    ensures r.Ok? ==> r.value == decoded.elems
    ensures r.Err? ==> r.error == InvalidPayload
  {
    if decoded.Arr? && |decoded.elems| > 0 then Ok(decoded.elems) else Err(InvalidPayload)
  }

  /** The JavaScript property read `v.length`, which throws on `null` and
      `undefined`. */
  function LengthProperty(v: Value): Result<Value, ProtocolError> {
    match v
    case Undefined => Err(NullPropertyAccess)
    case Nil => Err(NullPropertyAccess)
    case Bool(_) => Ok(Undefined)
    case Int(_) => Ok(Undefined)
    case Str(s) => Ok(Int(|s|))
    case Bin(bytes) => Ok(Int(|bytes|))
    case Arr(elems) => Ok(Int(|elems|))
    case Obj(fields) => Ok(if "length" in fields then fields["length"] else Undefined)
  }

  /** The payload check as written, `properties.length === 0 || !(properties
      instanceof Array)`: the length is read before the array test, so a
      decoded `null` throws a TypeError instead of "Invalid payload.".
      Everywhere else it agrees with `CheckPayload`. */
  function CheckPayloadAsWritten(decoded: Value): (r: Result<seq<Value>, ProtocolError>)
    ensures r == Err(NullPropertyAccess) <==> decoded.Nil? || decoded.Undefined?
    ensures !decoded.Nil? && !decoded.Undefined? ==> r == CheckPayload(decoded)
  {
    var length :- LengthProperty(decoded);
    if length == Int(0) || !decoded.Arr? then Err(InvalidPayload) else Ok(decoded.elems)
  }

  /** A decoded msgpack `nil` shows the difference between the two checks. */
  lemma NilPayloadCounterexample()
    ensures CheckPayloadAsWritten(Nil) == Err(NullPropertyAccess)
    ensures CheckPayload(Nil) == Err(InvalidPayload)
  {
  }

  /** `parseMessage` from the decoded value on: reject anything but a
      non-empty array, then dispatch on the tag. */
  function ParseDecoded(codes: MessageTypeCodes, decoded: Value): (r: Result<Option<HubMessage>, ProtocolError>)
    ensures r == Err(InvalidPayload) <==> !(decoded.Arr? && |decoded.elems| > 0)
    ensures decoded.Arr? && |decoded.elems| > 0 ==> r == ParseProperties(codes, decoded.elems)
  {
    var properties :- CheckPayload(decoded);
    ParseProperties(codes, properties)
  }

  /** `parseMessage` from the decoded value on, with the payload check as it
      is written. */
  function ParseDecodedAsWritten(codes: MessageTypeCodes, decoded: Value): (r: Result<Option<HubMessage>, ProtocolError>)
    ensures r == Err(NullPropertyAccess) <==> decoded.Nil? || decoded.Undefined?
    ensures decoded.Arr? && |decoded.elems| > 0 ==> r == ParseProperties(codes, decoded.elems)
  {
    var properties :- CheckPayloadAsWritten(decoded);
    ParseProperties(codes, properties)
  }

  /** The two readers differ only on a decoded `null` or `undefined`. */
  lemma ParseDecodedDiffersOnlyOnNull(codes: MessageTypeCodes, decoded: Value)
    ensures !decoded.Nil? && !decoded.Undefined? ==>
              ParseDecodedAsWritten(codes, decoded) == ParseDecoded(codes, decoded)
    ensures decoded.Nil? || decoded.Undefined? ==>
              ParseDecodedAsWritten(codes, decoded) == Err(NullPropertyAccess)
              && ParseDecoded(codes, decoded) == Err(InvalidPayload)
  {
  }

  /** `parseMessage` on one frame.  An empty frame is rejected before the
      msgpack decoder (a parameter: `None` when it throws) is consulted. */
  function ParseMessage(codes: MessageTypeCodes, input: seq<byte>, decode: seq<byte> -> Option<Value>)
    : (r: Result<Option<HubMessage>, ProtocolError>)
    ensures |input| == 0 ==> r == Err(InvalidPayload)
    ensures 0 < |input| && decode(input).None? ==> r == Err(DecodeFailed)
    ensures 0 < |input| && decode(input).Some? ==> r == ParseDecoded(codes, decode(input).value)
    ensures r.Ok? ==> 0 < |input| && decode(input).Some? && decode(input).value.Arr?
                      && |decode(input).value.elems| > 0
  {
    if |input| == 0 then Err(InvalidPayload)
    else
      match decode(input)
      case None => Err(DecodeFailed)
      case Some(properties) => ParseDecoded(codes, properties)
  }

  /** `parseMessages`: every frame is parsed in order and the first frame that
      fails makes the whole call fail with that frame's error. */
  method ParseMessages(codes: MessageTypeCodes, frames: seq<seq<byte>>, decode: seq<byte> -> Option<Value>)
    returns (r: Result<seq<Option<HubMessage>>, ProtocolError>)
    ensures r.Ok? <==> forall i :: 0 <= i < |frames| ==> ParseMessage(codes, frames[i], decode).Ok?
    ensures r.Ok? ==> |r.value| == |frames|
    ensures r.Ok? ==> forall i :: 0 <= i < |frames| ==> ParseMessage(codes, frames[i], decode) == Ok(r.value[i])
    ensures r.Err? ==> exists k :: 0 <= k < |frames| && ParseMessage(codes, frames[k], decode) == Err(r.error)
                        && forall j :: 0 <= j < k ==> ParseMessage(codes, frames[j], decode).Ok?
  {
    var messages: seq<Option<HubMessage>> := [];
    var i := 0;
    while i < |frames|
      invariant 0 <= i <= |frames|
      invariant |messages| == i
      invariant forall j :: 0 <= j < i ==> ParseMessage(codes, frames[j], decode) == Ok(messages[j])
    {
      var parsed := ParseMessage(codes, frames[i], decode);
      if parsed.Err? {
        return Err(parsed.error);
      }
      messages := messages + [parsed.value];
      i := i + 1;
    }
    return Ok(messages);
  }
}
