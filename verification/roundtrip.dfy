/** The write layout checked against the read layout: what `parseMessage`
    makes of the arrays `writeMessage` lays out, and which messages survive the
    trip unchanged. */
module RoundTrip {
  import opened Results
  import opened Values
  import opened Messages
  import opened Parse
  import opened ParseFacts
  import opened Write

  /** The invocation id a reader sees after `invocationId || null` is written:
      the id itself when truthy, otherwise nothing. */
  function SurvivingId(invocationId: Option<Value>): (r: Option<Value>)
    ensures r.Some? <==> invocationId.Some? && Truthy(invocationId.value)
    ensures r.Some? ==> r == invocationId
  {
    if invocationId.Some? && Truthy(invocationId.value) then invocationId else None
  }

  /** An invocation that a write and a read reproduce exactly: its headers are
      present, truthy and of object type, and an id it carries is truthy. */
  predicate Canonical(m: HubMessage) {
    && m.InvocationMessage?
    && m.headers.Some? && Truthy(m.headers.value) && IsObjectType(m.headers.value)
    && (m.invocationId.Some? ==> Truthy(m.invocationId.value))
  }

  /** Reading back a written invocation: it fails only when the written
      headers lack object type; otherwise it returns the same target and
      arguments, the written headers, and the id exactly when it was truthy. */
  lemma InvocationLayoutParses(codes: MessageTypeCodes, m: HubMessage)
    requires m.InvocationMessage?
    ensures ParseDecoded(codes, WriteInvocation(codes, m)) ==
              if IsObjectType(WrittenHeaders(m.headers))
              then Ok(Some(InvocationMessage(Some(WrittenHeaders(m.headers)), SurvivingId(m.invocationId),
                                             m.target, m.arguments)))
              else Err(InvalidHeaders)
  {
    var layout := WriteInvocation(codes, m);
    assert SwitchCase(codes, layout.elems[0]) == Some(Invocation);
    InvocationParse(codes, layout.elems);
  }

  /** A written invocation reads back as itself exactly when it is canonical. */
  lemma CanonicalRoundTrip(codes: MessageTypeCodes, m: HubMessage)
    requires m.InvocationMessage?
    ensures ParseDecoded(codes, WriteInvocation(codes, m)) == Ok(Some(m)) <==> Canonical(m)
  {
    InvocationLayoutParses(codes, m);
  }

  /** The other direction: an invocation array of exactly five slots whose
      headers are truthy and whose id slot is truthy or `null` is written back
      as the same array. */
  lemma ParsedInvocationRewrites(codes: MessageTypeCodes, properties: seq<Value>, m: HubMessage)
    requires |properties| == 5 && ParseProperties(codes, properties) == Ok(Some(m)) && m.InvocationMessage?
    requires Truthy(properties[1]) && (Truthy(properties[2]) || properties[2] == Nil)
    ensures WriteInvocation(codes, m) == Arr(properties)
  {
    InvocationParse(codes, properties);
    var written := WriteInvocation(codes, m);
    assert written.elems == properties;
  }

  /** A written StreamInvocation is ignored by the reader exactly when its code
      differs from those of the five types the reader handles. */
  lemma StreamInvocationLayoutIgnored(codes: MessageTypeCodes, m: HubMessage)
    requires m.StreamInvocationMessage?
    ensures ParseDecoded(codes, WriteStreamInvocation(codes, m)) == Ok(None) <==>
              forall t :: t in ParsedTypes ==> CodeOf(codes, StreamInvocation) != CodeOf(codes, t)
    ensures Distinct(codes) ==> ParseDecoded(codes, WriteStreamInvocation(codes, m)) == Ok(None)
  {
    var layout := WriteStreamInvocation(codes, m);
    assert ParseDecoded(codes, layout) == ParseProperties(codes, layout.elems);
    if Distinct(codes) {
      UnparsedTypesIgnored(codes, layout.elems, StreamInvocation);
    }
  }

  /** Over every message: whatever `writeMessage` lays out reads back as a
      message only for an invocation with object-typed written headers, and
      then as a message of the same type. */
  lemma WrittenMessagesReadBack(codes: MessageTypeCodes, m: HubMessage)
    requires Distinct(codes) && WriteMessage(codes, m).Ok?
    ensures ParseDecoded(codes, WriteMessage(codes, m).value).Ok?
            && ParseDecoded(codes, WriteMessage(codes, m).value).value.Some?
            <==> m.InvocationMessage? && IsObjectType(WrittenHeaders(m.headers))
    ensures ParseDecoded(codes, WriteMessage(codes, m).value).Ok?
            && ParseDecoded(codes, WriteMessage(codes, m).value).value.Some? ==>
              TypeOf(ParseDecoded(codes, WriteMessage(codes, m).value).value.value) == TypeOf(m)
  {
    if m.InvocationMessage? {
      InvocationLayoutParses(codes, m);
    } else {
      StreamInvocationLayoutIgnored(codes, m);
    }
  }
}
