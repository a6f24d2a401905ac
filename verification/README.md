# MessagePack hub protocol: message construction and validation

This project models the message layer of the MessagePack hub protocol that the
push-notification demo's browser client uses to talk to its SignalR hub. After
the msgpack decoder turns a frame into an array of "properties", `parseMessage`
does three things. It rejects payloads that are not non-empty arrays. It
switches on the message-type tag in slot 0. It builds an Invocation,
StreamItem, Completion, Ping or Close message, reading the headers in slot 1
for the first three and checking a minimum length for each. Unknown tags yield
no message. `writeMessage` goes the other way, but only for Invocation and
StreamInvocation. It lays them out as the five-slot array
`[type, headers, invocationId, target, arguments]`.

Modules:

- `Results`: `Option` and `Result`. A `Result` error is what the JavaScript code throws.
- `Values`: the decoded JavaScript value (`Undefined | Nil | Bool | Int | Str | Bin | Arr | Obj`). It also gives JavaScript truthiness (`Truthy`), `typeof v === "object"` (`IsObjectType`, true for `null` and arrays too), `a || b` (`Or`) and out-of-range array reads (`At`).
- `Messages`: the runtime's `MessageType` enumeration, the hub messages and the protocol errors. The numeric codes of the enumeration are a parameter, `MessageTypeCodes`. `Distinct` says that no two types share a code.
- `Parse`: `readHeaders`, the five `create…Message` constructors, the tag switch, the payload check, `parseMessage` and `parseMessages`.
- `ParseFacts`: the reader's behaviour per message type over all property arrays.
- `Write`: `writeInvocation`, `writeStreamInvocation` and `writeMessage`, up to the array handed to the encoder.
- `RoundTrip`: the write layout checked against the read layout.

The msgpack decoder is a parameter `decode: seq<byte> -> Option<Value>`, where `None` means the decoder threw. The frames produced by `BinaryMessageFormat.parse` are an input.

## Model

| member | source | states |
|---|---|---|
| Parse.SwitchCase | node_modules/@aspnet/signalr-protocol-msgpack/dist/esm/MessagePackHubProtocol.js:61-77 | The tag selects a parsed type only if it equals that type's code. It falls to the default case exactly when it equals none of the five parsed codes. |
| Parse.ReadHeaders | node_modules/@aspnet/signalr-protocol-msgpack/dist/esm/MessagePackHubProtocol.js:177-183 | Headers are accepted exactly when slot 1 has object type, which includes null and arrays. A missing slot reads as undefined and fails with "Invalid headers.". |
| Parse.CreateClose | node_modules/@aspnet/signalr-protocol-msgpack/dist/esm/MessagePackHubProtocol.js:79-89 | Succeeds exactly when there are at least 2 slots. The error is slot 1. A shorter array gives "Invalid payload for Close message.". |
| Parse.CreatePing | node_modules/@aspnet/signalr-protocol-msgpack/dist/esm/MessagePackHubProtocol.js:90-99 | Succeeds exactly when there is at least 1 slot, and yields a bare Ping. |
| Parse.CreateInvocation | node_modules/@aspnet/signalr-protocol-msgpack/dist/esm/MessagePackHubProtocol.js:100-123 | Succeeds exactly when there are at least 5 slots. Target is slot 3 and arguments slot 4. The invocation id is present exactly when slot 2 is truthy, and then equals it. |
| Parse.CreateStreamItem | node_modules/@aspnet/signalr-protocol-msgpack/dist/esm/MessagePackHubProtocol.js:124-135 | Succeeds exactly when there are at least 4 slots. The id is slot 2 and the item slot 3. |
| Parse.CreateCompletion | node_modules/@aspnet/signalr-protocol-msgpack/dist/esm/MessagePackHubProtocol.js:136-164 | Succeeds exactly with 5 or more slots, or with 4 slots and result kind 2 (void). Kind 1 puts slot 4 in error, kind 3 puts it in result, and any other kind leaves both null. |
| Parse.ParseProperties | node_modules/@aspnet/signalr-protocol-msgpack/dist/esm/MessagePackHubProtocol.js:61-77 | Yields no message exactly for an unhandled tag. "Invalid headers." happens exactly when a header-reading type has a non-object slot 1. Any other error is the selected type's payload error. A message carries the type the tag selected. |
| Parse.CheckPayload | node_modules/@aspnet/signalr-protocol-msgpack/dist/esm/MessagePackHubProtocol.js:58-60 | Accepts exactly a non-empty array and returns its elements. Anything else is "Invalid payload.". |
| Parse.CheckPayloadAsWritten | node_modules/@aspnet/signalr-protocol-msgpack/dist/esm/MessagePackHubProtocol.js:58 | The check as written throws a TypeError exactly for null and undefined. On every other value it agrees with the corrected check. |
| Parse.NilPayloadCounterexample | node_modules/@aspnet/signalr-protocol-msgpack/dist/esm/MessagePackHubProtocol.js:58-59 | A decoded msgpack nil gives a TypeError as written, but "Invalid payload." as intended. |
| Parse.ParseDecoded | node_modules/@aspnet/signalr-protocol-msgpack/dist/esm/MessagePackHubProtocol.js:57-77 | With the corrected payload check from "## Findings": "Invalid payload." happens exactly when the decoded value is not a non-empty array. Otherwise the result is the tag switch over its elements. |
| Parse.ParseDecodedAsWritten | node_modules/@aspnet/signalr-protocol-msgpack/dist/esm/MessagePackHubProtocol.js:57-77 | With the payload check as written, reading a decoded null or undefined throws a TypeError exactly for those values. A non-empty array goes to the tag switch over its elements. |
| Parse.ParseDecodedDiffersOnlyOnNull | node_modules/@aspnet/signalr-protocol-msgpack/dist/esm/MessagePackHubProtocol.js:58-60 | The as-written and corrected readers agree on every decoded value except null and undefined. On those, the as-written reader throws a TypeError and the corrected one gives "Invalid payload.". |
| Parse.ParseMessage | node_modules/@aspnet/signalr-protocol-msgpack/dist/esm/MessagePackHubProtocol.js:52-78 | An empty frame is "Invalid payload." whatever the decoder would do. A decoder failure propagates. Otherwise the result is what the decoded value reads as. |
| Parse.ParseMessages | node_modules/@aspnet/signalr-protocol-msgpack/dist/esm/MessagePackHubProtocol.js:23-33 | Succeeds exactly when every frame parses, and then holds one result per frame in order. Otherwise it fails with the error of the first failing frame. |
| ParseFacts.DispatchByCode | node_modules/@aspnet/signalr-protocol-msgpack/dist/esm/MessagePackHubProtocol.js:62-76 | With distinct codes, each parsed type's code selects that type. The StreamInvocation and CancelInvocation codes select the default case. |
| ParseFacts.UnparsedTypesIgnored | node_modules/@aspnet/signalr-protocol-msgpack/dist/esm/MessagePackHubProtocol.js:73-76 | A StreamInvocation or CancelInvocation tag yields no message and no error, whatever else the array holds. |
| ParseFacts.InvocationParse | node_modules/@aspnet/signalr-protocol-msgpack/dist/esm/MessagePackHubProtocol.js:100-123 | For an Invocation tag, a header error comes before the length error. The length error happens exactly below 5 slots. The parsed message has the slot 1 headers, the id iff slot 2 is truthy, and slots 3 and 4. |
| ParseFacts.StreamItemParse | node_modules/@aspnet/signalr-protocol-msgpack/dist/esm/MessagePackHubProtocol.js:124-135 | For a StreamItem tag, a header error comes first. The length error happens exactly below 4 slots. The message holds slots 1, 2 and 3. |
| ParseFacts.CompletionParse | node_modules/@aspnet/signalr-protocol-msgpack/dist/esm/MessagePackHubProtocol.js:136-164 | For a Completion tag, a header error comes first. The length error happens exactly below 4 slots, or at 4 slots with a non-void kind. Slot 4 goes to error, to result or to neither, by kind. |
| ParseFacts.PingParse | node_modules/@aspnet/signalr-protocol-msgpack/dist/esm/MessagePackHubProtocol.js:69-70 | A Ping tag always parses to Ping. Slot 1 is never checked as headers, and the length check at line 92 cannot fail through the parser. |
| ParseFacts.CloseParse | node_modules/@aspnet/signalr-protocol-msgpack/dist/esm/MessagePackHubProtocol.js:71-89 | A Close tag needs 2 slots. It takes slot 1 as the error without checking it as headers. |
| ParseFacts.TrailingElementsIgnored | node_modules/@aspnet/signalr-protocol-msgpack/dist/esm/MessagePackHubProtocol.js:79-164 | Only minimum lengths are checked. Appending slots to an array that parses leaves the result unchanged. |
| Write.WrittenHeaders | node_modules/@aspnet/signalr-protocol-msgpack/dist/esm/MessagePackHubProtocol.js:167 | The written headers are always truthy. They are the message's headers when those are truthy, and {} otherwise. |
| Write.WriteInvocation | node_modules/@aspnet/signalr-protocol-msgpack/dist/esm/MessagePackHubProtocol.js:165-170 | Five slots headed by the Invocation code. The id slot is truthy exactly when the message has a truthy id, and null otherwise. Target and arguments follow. |
| Write.WriteStreamInvocation | node_modules/@aspnet/signalr-protocol-msgpack/dist/esm/MessagePackHubProtocol.js:171-176 | Five slots headed by the StreamInvocation code. The id is written as it is, undefined when absent. |
| Write.WriteMessage | node_modules/@aspnet/signalr-protocol-msgpack/dist/esm/MessagePackHubProtocol.js:39-51 | Succeeds exactly for Invocation and StreamInvocation, giving the writeInvocation or writeStreamInvocation layout with slot 0 the message's type code. StreamItem and Completion get "not supported". Every other type gets "Invalid message type.". |
| RoundTrip.SurvivingId | node_modules/@aspnet/signalr-protocol-msgpack/dist/esm/MessagePackHubProtocol.js:167 | Definition: the id that a read after a write recovers, namely the message's id when it is present and truthy and none otherwise. InvocationLayoutParses proves that a real write followed by a read yields this id. |\| null` is present exactly when the written id was present and truthy. |
| RoundTrip.InvocationLayoutParses | node_modules/@aspnet/signalr-protocol-msgpack/dist/esm/MessagePackHubProtocol.js:165-168 | A written invocation reads back with the same target and arguments, the written headers, and the id exactly when it was truthy. It fails with "Invalid headers." exactly when the written headers lack object type. |
| RoundTrip.CanonicalRoundTrip | node_modules/@aspnet/signalr-protocol-msgpack/dist/esm/MessagePackHubProtocol.js:165-168 | At the array level, write then read reproduces an invocation exactly when its headers are present, truthy and object-typed, and any id it carries is truthy. |
| RoundTrip.ParsedInvocationRewrites | node_modules/@aspnet/signalr-protocol-msgpack/dist/esm/MessagePackHubProtocol.js:100-123 | A parsed five-slot invocation array is written back unchanged when it has truthy headers and an id slot that is truthy or null. |
| RoundTrip.StreamInvocationLayoutIgnored | node_modules/@aspnet/signalr-protocol-msgpack/dist/esm/MessagePackHubProtocol.js:171-174 | The reader ignores a written StreamInvocation exactly when its code differs from the five parsed codes. With distinct codes it always does. |
| RoundTrip.WrittenMessagesReadBack | node_modules/@aspnet/signalr-protocol-msgpack/dist/esm/MessagePackHubProtocol.js:39-51 | Among all writable messages, only an invocation with object-typed written headers reads back as a message, and then as one of the same type. |

## Left out

- Parse.ParseDecoded: uses the corrected payload check named under "## Findings", and so do `Parse.ParseMessage` and `Parse.ParseMessages`. For a decoded null they give "Invalid payload." where the code as written throws a TypeError. `Parse.ParseDecodedAsWritten` models the code as written.
- The RoundTrip lemmas relate the writer's array directly to the reader's input. They assume that msgpack decoding of the encoded array gives back the same array. msgpack has no undefined, so a written undefined would not actually survive the trip. An absent StreamInvocation id, or an undefined target or arguments, is one example.

- msgpack5 `encode`/`decode` and the `BinaryMessageFormat` length-prefix framing are library code outside this model. The decoder is a parameter and the writer stops at the array handed to the encoder.
- The `instanceof ArrayBuffer` check and the null-logger default in `parseMessages` (lines 26-31) are runtime typing. The model starts from the already split frames.
- The "Unknown message type ... ignored." log line (line 75) is a logging side effect. Only its result, no message, is modelled.
- The numeric values of `MessageType` live in the `@aspnet/signalr` package, which is not part of this model. They are a parameter, and lemmas that need an enumeration assume only `Distinct`.
- The `name`, `version` and `transferFormat` fields (lines 10-17) are constants with no behaviour.
- Floating-point numbers are left out of `Value`. JavaScript `===` makes `2.0` equal `2`, so a float tag or result kind behaves like the matching integer. A fractional one behaves like a tag no code equals.
- `Str` lengths count Unicode scalar values rather than UTF-16 units. Only a comparison of that length with zero is ever used, so results do not change.
- The error texts are represented by the `ProtocolError` constructors rather than strings. The number printed in "Writing messages of type '…'" is the message's type.
- `Hub/PushHub.cs` only calls the framework's group manager. `Services/FakeOrderService.cs` is timer scheduling, wall-clock time, fire-and-forget sends and a library HTML encoder. `wwwroot/scripts/push-client.js` is browser DOM and notification code. None of these has logic of its own to state.

## Findings

| source | as written | input that shows it | evidently intended | confidence | as-written member | corrected member |
|---|---|---|---|---|---|---|
| node_modules/@aspnet/signalr-protocol-msgpack/dist/esm/MessagePackHubProtocol.js:58 | `properties.length === 0` is evaluated before `properties instanceof Array`, so a decoded `null` throws a TypeError reading `length` | a frame holding the single msgpack byte `0xc0` (nil), which decodes to `null` | every value that is not a non-empty array is rejected with "Invalid payload." | not executed; high that JavaScript throws here, medium that the authors meant the message | Parse.CheckPayloadAsWritten (Parse.NilPayloadCounterexample, Parse.ParseDecodedAsWritten) | Parse.CheckPayload (used by Parse.ParseDecoded) |
