/** What `parseMessage` does with each message type, stated over every
    property array: which tags it ignores, which slots it reads, which lengths
    it accepts, and that trailing slots never matter. */
module ParseFacts {
  import opened Results
  import opened Values
  import opened Messages
  import opened Parse

  /** With distinct codes, each parsed type's code selects its own case and
      the codes of StreamInvocation and CancelInvocation fall to `default`. */
  lemma DispatchByCode(codes: MessageTypeCodes, t: MessageType)
    requires Distinct(codes)
    ensures t in ParsedTypes ==> SwitchCase(codes, Int(CodeOf(codes, t))) == Some(t)
    ensures t !in ParsedTypes ==> SwitchCase(codes, Int(CodeOf(codes, t))) == None
  {
  }

  /** A tag that is the code of a type the parser has no case for (in
      particular StreamInvocation) yields no message and no error, whatever
      the rest of the array holds. */
  lemma UnparsedTypesIgnored(codes: MessageTypeCodes, properties: seq<Value>, t: MessageType)
    requires Distinct(codes) && t !in ParsedTypes
    requires |properties| > 0 && properties[0] == Int(CodeOf(codes, t))
    ensures ParseProperties(codes, properties) == Ok(None)
  {
    DispatchByCode(codes, t);
  }

  /** Invocation: headers are checked first, then the length (at least five);
      target and arguments are slots 3 and 4, and the invocation id is present
      exactly when slot 2 is truthy. */
  lemma InvocationParse(codes: MessageTypeCodes, properties: seq<Value>)
    requires |properties| > 0 && SwitchCase(codes, properties[0]) == Some(Invocation)
    ensures ParseProperties(codes, properties) == Err(InvalidHeaders) <==> !IsObjectType(At(properties, 1))
    ensures ParseProperties(codes, properties) == Err(InvalidPayloadFor(Invocation)) <==>
              IsObjectType(At(properties, 1)) && |properties| < 5
    ensures ParseProperties(codes, properties).Ok? ==>
              ParseProperties(codes, properties) ==
              Ok(Some(InvocationMessage(Some(properties[1]),
                                        if Truthy(properties[2]) then Some(properties[2]) else None,
                                        properties[3], properties[4])))
  {
  }

  /** StreamItem: headers first, then at least four slots; the id is slot 2
      and the item slot 3. */
  lemma StreamItemParse(codes: MessageTypeCodes, properties: seq<Value>)
    requires |properties| > 0 && SwitchCase(codes, properties[0]) == Some(StreamItem)
    ensures ParseProperties(codes, properties) == Err(InvalidHeaders) <==> !IsObjectType(At(properties, 1))
    ensures ParseProperties(codes, properties) == Err(InvalidPayloadFor(StreamItem)) <==>
              IsObjectType(At(properties, 1)) && |properties| < 4
    ensures ParseProperties(codes, properties).Ok? ==>
              ParseProperties(codes, properties) ==
              Ok(Some(StreamItemMessage(Some(properties[1]), Some(properties[2]), properties[3])))
  {
  }

  /** Completion: headers first, then at least four slots, and a fifth unless
      the result kind is void; the kind decides which of `error` and `result`
      receives slot 4. */
  lemma CompletionParse(codes: MessageTypeCodes, properties: seq<Value>)
    requires |properties| > 0 && SwitchCase(codes, properties[0]) == Some(Completion)
    ensures ParseProperties(codes, properties) == Err(InvalidHeaders) <==> !IsObjectType(At(properties, 1))
    ensures ParseProperties(codes, properties) == Err(InvalidPayloadFor(Completion)) <==>
              IsObjectType(At(properties, 1))
              && (|properties| < 4 || (|properties| == 4 && properties[3] != Int(VoidResult)))
    ensures ParseProperties(codes, properties).Ok? ==>
              var kind := properties[3];
              ParseProperties(codes, properties) ==
              Ok(Some(CompletionMessage(Some(properties[1]), Some(properties[2]),
                                        if kind == Int(ErrorResult) then properties[4] else Nil,
                                        if kind == Int(NonVoidResult) then properties[4] else Nil)))
  {
  }

  /** Ping never fails once the array is non-empty and never looks at slot 1. */
  lemma PingParse(codes: MessageTypeCodes, properties: seq<Value>)
    requires |properties| > 0 && SwitchCase(codes, properties[0]) == Some(Ping)
    ensures ParseProperties(codes, properties) == Ok(Some(PingMessage))
  {
  }

  /** Close needs two slots and takes slot 1 as its error without checking it
      as headers. */
  lemma CloseParse(codes: MessageTypeCodes, properties: seq<Value>)
    requires |properties| > 0 && SwitchCase(codes, properties[0]) == Some(Close)
    ensures |properties| < 2 ==> ParseProperties(codes, properties) == Err(InvalidPayloadFor(Close))
    ensures 2 <= |properties| ==> ParseProperties(codes, properties) == Ok(Some(CloseMessage(properties[1])))
  {
  }

  /** Only minimum lengths are checked: slots appended to an array that
      parses do not change the result. */
  lemma TrailingElementsIgnored(codes: MessageTypeCodes, properties: seq<Value>, extra: seq<Value>)
    requires |properties| > 0 && ParseProperties(codes, properties).Ok?
    ensures ParseProperties(codes, properties + extra) == ParseProperties(codes, properties)
  {
  }
}
