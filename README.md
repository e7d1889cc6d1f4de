# ctjson in Dafny

ctjson is a header-only C++ library that turns JSON into C++ values and back,
steered entirely by the target's static type. A stream of lexer tokens is read
by `parse<T>`, which picks one strategy from `T`:

- a JSON value: bool, integer, floating point or string;
- `std::optional`;
- an array-like container: vector, set or unordered set;
- a string-keyed dictionary;
- a class with its own `json_parse`.

Such a class binds its members by name through `Field` descriptors (`parse_object`), or converts from another parsable type (`parse_from`). `dump<T>`
walks a value the same way and drives a writer with start/key/end events.
Every failure is a `ParseResult` with a message and, when the stream tracks
it, a path such as `root.inners[0].str`.

This project models that core as Dafny:

| module | file | models |
|---|---|---|
| `Wrappers` | `wrappers.dfy` | `Option` |
| `Tokens` | `tokens.dfy` | `Token.hpp`: token kinds, payloads, `create`, `is_of_type`, `value`, names, the meta and value token lists |
| `TypeUtils` | `type_utils.dfy` | `TypeUtils.hpp`: the sign-safe integer comparisons, `in_range`, `compile_switch`, `call_on_nth`; integer widths and two's-complement ranges are explicit |
| `Results` | `parse_result.dfy` | `ParseResult.hpp`: the three-way result, its constructors, `convert_error`, `Error::render` |
| `Paths` | `path.dfy` | `Path.hpp`: the component stack as functions on `seq<Component>`, and class `Path` with the same operations as methods |
| `Typing` | `typing.dfy` | `Typing.hpp`: type descriptors, values, the strategy categories, and the insertion each container performs |
| `Streams` | `token_stream.dfy` | `TokenStream.hpp`: the lexer as a sequence of outcomes, the stream state, `peek`/`next`/`advance` as specification functions, and class `TokenStream` whose methods are proved equal to them |
| `ParseSpec` | `parse_spec.dfy` | `Deserializer.hpp` and `DeserializationHelper.hpp` as recursive functions from a stream state to a result and the state after it |
| `Deserializer` | `deserializer.dfy` | the same parsers as methods over a mutable `TokenStream` and mutable `Field` slots, each proved equal to its `ParseSpec` function |
| `ParseErrors` | `parse_errors.dfy` | the error behaviour: which kind of error each parse returns, and the exact message and path of each refusal |
| `Serializer` | `serializer.dfy` | `Serializer.hpp`, `SerializationHelper.hpp`, `SimpleWriter.hpp`: the event sequence `Dumped` a value produces, and the writer methods and `dump` methods proved to emit exactly it |
| `RoundTrip` | `roundtrip.dfy` | parsing what `dump` wrote gives the value back; members of a class may come in any order, and optional ones may be left out |
| `Nesting` | `nesting.dfy` | every dump is well nested for the path tracker, so the round trip needs no assumption about the path |

How the model is built:

- The lexer (rapidjson's `Reader`) is not modelled as text. It is the parameter
  `Config.lexer`, a sequence of outcomes. Each step of `Reader::IterativeParseNext`
  yields a token, a parse failure with its code and message, or nothing. It can
  also yield a token and then fail. rapidjson does that when more text follows
  the root: it reports the root's last token, then
  `kParseErrorDocumentRootNotSingular`. No caller checks the stream's error once
  the root value is parsed.
  So `parse<int>` of `1 2` returns 1, while `parse<std::optional<int>>` of it
  returns the error (`ParseErrors.TrailingTextAfterRoot`).
- `is_complete()` asks whether the reader reached its finish state. The reader
  reaches it with the document's last token, which in the model is the last
  outcome of the lexer. A failure on text after the document also leaves it
  finished. A failure inside the document, or a step without a token, does not.
  An empty lexer counts as finished; the reader's own empty-document error is a
  `Fail` outcome.
- Every set and map, ordered or not, is dumped in the order the parameter
  `Order` lists it. `Order` is an oracle, and `Lawful` requires that it lists
  every element exactly once. Only `std::vector` order is exact.
- Where the library's own documentation and its code differ, the model follows
  the code. `ParseResult.hpp:20` calls `JSON_ERROR` an "Error in json structure".
  But a `parse_from` conversion may itself return `json_error`, and the code
  passes that through unchanged. A JSON error therefore does not always
  come from the lexer. `ParseErrors.ParseKind` states that it does only under
  `HonestKinds`, which says no conversion returns a JSON error.

## Model

| member | source | states |
|---|---|---|
| Tokens.Create | include/ctjson/detail/Token.hpp:165-170 | a token is created exactly when the payload fits the kind; the token then has that kind and carries that payload |
| Tokens.IsOfType | include/ctjson/detail/Token.hpp:176-180 | a token is of type k exactly when k is its kind |
| Tokens.ValueOf | include/ctjson/detail/Token.hpp:187-202 | the payload read from a token always fits the token's kind |
| Tokens.CreateValueRoundTrip | include/ctjson/detail/Token.hpp:165-202 | recreating a token from its own kind and payload gives the same token |
| Tokens.Name | include/ctjson/detail/Token.hpp:246-252 | a token's name is the static name of its kind |
| Tokens.StaticNamesDistinct | include/ctjson/detail/Token.hpp:208-241 | different kinds have different names, so a message names the kind unambiguously |
| Tokens.StaticName | include/ctjson/detail/Token.hpp:208-241 | every kind has a non-empty name, of two words exactly for the structural start and end kinds |
| Tokens.TokenListsPartition | include/ctjson/detail/Token.hpp:128-134 | every kind is in exactly one of the meta and value token lists; the meta kinds are null and the structural ones |
| TypeUtils.ToUnsigned | include/ctjson/detail/TypeUtils.hpp:27-37 | the unsigned cast lands in the unsigned range of the width |
| TypeUtils.ToUnsignedKeepsNonNegative | include/ctjson/detail/TypeUtils.hpp:27-37 | the unsigned cast keeps a non-negative value unchanged, which is what makes the mixed-sign comparison safe |
| TypeUtils.CmpEqual | include/ctjson/detail/TypeUtils.hpp:27-37 | true exactly when the two integers are mathematically equal, whatever their signedness and width |
| TypeUtils.CmpNotEqual | include/ctjson/detail/TypeUtils.hpp:39-42 | true exactly when the mathematical values differ |
| TypeUtils.CmpLess | include/ctjson/detail/TypeUtils.hpp:44-54 | true exactly when the first value is mathematically below the second, across signedness |
| TypeUtils.CmpGreater | include/ctjson/detail/TypeUtils.hpp:56-59 | true exactly when the first value is mathematically above the second |
| TypeUtils.CmpLessEqual | include/ctjson/detail/TypeUtils.hpp:61-64 | true exactly when the first value is at most the second |
| TypeUtils.CmpGreaterEqual | include/ctjson/detail/TypeUtils.hpp:66-69 | true exactly when the first value is at least the second |
| TypeUtils.LimitsInType | include/ctjson/detail/TypeUtils.hpp:74-78 | the limits of a type lie in that type |
| TypeUtils.InRange | include/ctjson/detail/TypeUtils.hpp:74-78 | a value of one integer type is accepted exactly when it is representable in the target type |
| TypeUtils.CompileSwitchOverIndices | include/ctjson/detail/TypeUtils.hpp:10-15 | switching on i over the indices 0 to n-1 selects exactly the one case i, or none when i is out of range |
| TypeUtils.CallOnNth | include/ctjson/detail/TypeUtils.hpp:17-22 | the callback runs once, on the n-th argument, when there is one, and not at all otherwise |
| Results.ExactlyOneKind | include/ctjson/ParseResult.hpp:185-195 | every result is exactly one of ok, JSON error and parse error |
| Results.Result | include/ctjson/ParseResult.hpp:134-140 | an ok result carrying the given value |
| Results.Done | include/ctjson/ParseResult.hpp:120-126 | the valueless ok result is ok |
| Results.JsonError | include/ctjson/ParseResult.hpp:149-154 | a JSON error carrying exactly the message and path given |
| Results.ParseError | include/ctjson/ParseResult.hpp:163-168 | a parse error carrying exactly the message and path given |
| Results.ConvertError | include/ctjson/ParseResult.hpp:177-180 | re-typing an error keeps its kind, message and path |
| Results.ConvertErrorComposes | include/ctjson/ParseResult.hpp:177-180 | converting twice equals converting once, so errors propagate unchanged through nested parses |
| Results.Render | include/ctjson/ParseResult.hpp:28-40 | the rendered text starts with the message; it is the message alone without a path, and continues with " at " and the path otherwise |
| Paths.Advanced | include/ctjson/detail/Path.hpp:103-110 | advancing keeps the depth and every component below the top |
| Paths.OnStartObject | include/ctjson/detail/Path.hpp:45-48 | pushes a key-less object component over the advanced path |
| Paths.OnKey | include/ctjson/detail/Path.hpp:53-56 | names the key of the top object and leaves the rest |
| Paths.OnEndObject | include/ctjson/detail/Path.hpp:61-64 | pops exactly the top component |
| Paths.OnStartArray | include/ctjson/detail/Path.hpp:69-72 | pushes an array component with index -1 over the advanced path |
| Paths.OnValue | include/ctjson/detail/Path.hpp:77 | a scalar value keeps the depth |
| Paths.OnEndArray | include/ctjson/detail/Path.hpp:82-85 | pops exactly the top component |
| Paths.ValueOnlyAdvancesArrays | include/ctjson/detail/Path.hpp:103-110 | a value inside an object or at top level changes nothing; inside an array it adds one to the index of the top only |
| Paths.StartEndObject | include/ctjson/detail/Path.hpp:45-64 | opening then closing an object leaves the advanced path |
| Paths.StartEndArray | include/ctjson/detail/Path.hpp:69-85 | opening then closing an array leaves the advanced path |
| Paths.FirstElementIsZero | include/ctjson/detail/Path.hpp:28-37 | the first element of an array, whether scalar, object or array, is at index 0 |
| Paths.NatToString | include/ctjson/detail/Path.hpp:28-37 | the decimal rendering of an index is non-empty, all digits, ends in the index's last digit, and is one character exactly for indices below ten |
| Paths.ComponentText | include/ctjson/detail/Path.hpp:16-37 | a component renders as nothing exactly before its first key or element; a keyed object level renders as "." and the key, an indexed array level between brackets |
| Paths.FreshComponentsRenderNothing | include/ctjson/detail/Path.hpp:16-37 | a fresh object or array component renders as nothing, so a path shows only keys and reached indices |
| Paths.ComponentsTextAppend | include/ctjson/detail/Path.hpp:90-97 | the rendering of a stack is the concatenation of its components' renderings |
| Paths.TextStep | include/ctjson/detail/Path.hpp:90-97 | the rendering loop adds one component's text per step |
| Paths.NestedPathRendering | tests/Deserialization.cpp:485-489 | a key a, an array opening under it, its first element an object with key b renders as "root." a "[0]." b |
| Paths.Path.constructor | include/ctjson/detail/Path.hpp:112-113 | a new path is empty |
| Paths.Path.StartObject | include/ctjson/detail/Path.hpp:45-48 | the stack becomes OnStartObject of the old one |
| Paths.Path.Key | include/ctjson/detail/Path.hpp:53-56 | the stack becomes OnKey of the old one |
| Paths.Path.EndObject | include/ctjson/detail/Path.hpp:61-64 | the stack becomes OnEndObject of the old one |
| Paths.Path.StartArray | include/ctjson/detail/Path.hpp:69-72 | the stack becomes OnStartArray of the old one |
| Paths.Path.Value | include/ctjson/detail/Path.hpp:77 | the stack becomes OnValue of the old one |
| Paths.Path.EndArray | include/ctjson/detail/Path.hpp:82-85 | the stack becomes OnEndArray of the old one |
| Paths.Path.Render | include/ctjson/detail/Path.hpp:90-97 | the loop returns "root" followed by every component's text in order |
| Paths.Path.AdvanceArrayIfNeeded | include/ctjson/detail/Path.hpp:103-110 | the stack becomes Advanced of the old one |
| Typing.StrategyOf | include/ctjson/detail/Typing.hpp:19-117 | the strategy chosen is json-value, optional, array-like, dict-like or custom exactly when the type is in that category |
| Typing.IsOpt | include/ctjson/detail/Field.hpp:37 | a field is optional exactly when its declared type is an optional |
| Typing.ExactlyOneStrategy | include/ctjson/Deserializer.hpp:36-237 | every type falls in exactly one category, so exactly one parse overload applies |
| Typing.EmptyContainer | include/ctjson/Deserializer.hpp:94-217 | a container parse starts from an empty container of the target's kind |
| Typing.EmplaceBack | include/ctjson/detail/Typing.hpp:39-44 | a vector appends the element at the end and keeps the earlier ones |
| Typing.EmplaceSet | include/ctjson/detail/Typing.hpp:46-60 | a set gains the element and nothing else, and a repeated element changes nothing |
| Typing.EmplaceEntry | include/ctjson/detail/Typing.hpp:69-94 | a map gains the key; a repeated key keeps the first value; a new key maps to the value and other keys are untouched |
| Typing.Insert | include/ctjson/Deserializer.hpp:94-149 | inserting one parsed element into a vector or set follows its emplace rule and keeps the container kind |
| Streams.OnAdvanceDepth | include/ctjson/TokenStream.hpp:242-256 | a start token deepens the path by one, an end token shortens it by one, others keep it |
| Streams.Initial | include/ctjson/TokenStream.hpp:103-105 | a new stream is at the start, with no buffered token, no error and an empty path |
| Streams.InitialInv | include/ctjson/TokenStream.hpp:103-105 | the stream invariant holds at the start exactly when, with path tracking on, the lexer's token sequence keeps the path well-formed, and no step delivers a null together with a failure |
| Streams.ParseErrorMessage | include/ctjson/TokenStream.hpp:192-199 | a parse failure records the lexer's message, wrapped as a possible bug for the none and termination codes |
| Streams.AdvanceSpec | include/ctjson/TokenStream.hpp:178-187 | one lexer step moves forward by one; a token is buffered exactly when the step delivered one, including a token delivered together with a failure; a failure or an empty step records its error, and only a plain token advances the path |
| Streams.AcquireSpec | include/ctjson/TokenStream.hpp:163-173 | acquiring succeeds exactly when a token is buffered afterwards, and does nothing with an error or a token already present |
| Streams.PeekSpec | include/ctjson/TokenStream.hpp:131-135 | peek returns the buffered token, never consumes lexer input beyond the acquire, and returns a buffered token as is |
| Streams.NextSpec | include/ctjson/TokenStream.hpp:142-148 | with an error recorded, next returns nothing and changes nothing; otherwise it empties the buffer; it never raises the amount of remaining input and strictly lowers it when it returns a token |
| Streams.GetPathSpec | include/ctjson/TokenStream.hpp:156 | a path is reported exactly when tracking is on, and is then the rendered component stack |
| Streams.PeekIdempotent | include/ctjson/TokenStream.hpp:131-135 | peeking twice equals peeking once |
| Streams.NextIsPeekThenTake | include/ctjson/TokenStream.hpp:142-148 | unless a token is held next to an error, next returns what peek would and leaves peek's state with the buffer emptied; a token held next to an error is shown by peek and never returned by next |
| Streams.ErrorIsSticky | include/ctjson/TokenStream.hpp:163-173 | once an error is recorded, peek shows only the token still held, next returns nothing, and neither changes anything |
| Streams.ErrorPersists | include/ctjson/TokenStream.hpp:163-173 | a recorded error is never cleared |
| Streams.FailureIsRecorded | include/ctjson/TokenStream.hpp:192-199 | a lexer failure makes next return nothing and records the failure's message; the reader has not finished, so the stream is not complete |
| Streams.EmptyStepIsRecorded | include/ctjson/TokenStream.hpp:178-187 | a lexer step without a token makes next return nothing and records the no-token error; the stream is not complete afterwards |
| Streams.TokenStepTracks | include/ctjson/TokenStream.hpp:242-256 | a lexer token is returned by next, and with tracking on the path advances by that token |
| Streams.CompleteYieldsNothing | include/ctjson/TokenStream.hpp:121-124 | on a complete stream next returns nothing and changes nothing |
| Streams.TrailingFailureDelivers | include/ctjson/TokenStream.hpp:163-187 | a step that delivers a token and then fails: next returns the token, records the failure, keeps the path and leaves the stream complete; after a peek took that step, next returns nothing |
| Streams.OnAdvance | include/ctjson/TokenStream.hpp:242-256 | each token moves the path depth by at most one and leaves every component below the top unchanged |
| Streams.IsCompleteSpec | include/ctjson/TokenStream.hpp:121-124 | a complete stream holds no token, and either the lexer is exhausted after a token step or the last step failed on text after the document; after a failure inside the document or an empty step it is not complete |
| Streams.TokenStream.constructor | include/ctjson/TokenStream.hpp:103-105 | a new stream is valid and in the initial state |
| Streams.TokenStream.HasError | include/ctjson/TokenStream.hpp:110 | true exactly when an error is recorded |
| Streams.TokenStream.GetError | include/ctjson/TokenStream.hpp:116 | returns the recorded error |
| Streams.TokenStream.IsComplete | include/ctjson/TokenStream.hpp:121-124 | agrees with `IsCompleteSpec`: true only once the reader has finished the document and no token is held |
| Streams.TokenStream.Peek | include/ctjson/TokenStream.hpp:131-135 | the token and new state are those of PeekSpec |
| Streams.TokenStream.Next | include/ctjson/TokenStream.hpp:142-148 | the token and new state are those of NextSpec |
| Streams.TokenStream.GetPath | include/ctjson/TokenStream.hpp:236 | returns GetPathSpec of the current state |
| Streams.TokenStream.AcquireToken | include/ctjson/TokenStream.hpp:163-173 | the result and new state are those of AcquireSpec |
| Streams.TokenStream.Advance | include/ctjson/TokenStream.hpp:178-187 | the new state is that of AdvanceSpec |
| Streams.TokenStream.HandleParseError | include/ctjson/TokenStream.hpp:192-199 | records the failure's message and leaves position and buffer unchanged |
| Streams.TokenStream.OnAdvanceStep | include/ctjson/TokenStream.hpp:242-256 | the path becomes OnAdvance of the old one for that token |
| ParseSpec.EndOrError | include/ctjson/Deserializer.hpp:244-255 | with no token to read, the result is the stream's JSON error when it has one and "Unexpected end" otherwise, at the current path |
| ParseSpec.ExpectedStartArrayMessage | include/ctjson/Deserializer.hpp:244-248 | the message when an array does not open is "Expected start array, got " and the token's name |
| ParseSpec.ExpectedStartObjectMessage | include/ctjson/Deserializer.hpp:244-248 | the message when an object does not open is "Expected start object, got " and the token's name |
| ParseSpec.ExpectedKeyMessage | include/ctjson/Deserializer.hpp:244-248 | the message inside an object is "Expected key,end object, got " and the token's name |
| ParseSpec.UnexpectedTokenError | include/ctjson/Deserializer.hpp:244-248 | the message starts with "Expected " and ends with the name of the token that was met |
| ParseSpec.PayloadInType | include/ctjson/Deserializer.hpp:272-327 | an integer token's payload lies in the range of its own integer type |
| ParseSpec.Convert | include/ctjson/Deserializer.hpp:272-327 | a conversion is never a JSON error, and a token kind the target does not accept gives "Unexpected " and the token's name |
| ParseSpec.ParseValueImpl | include/ctjson/Deserializer.hpp:272-327 | trying the token kinds in turn never produces a JSON error |
| ParseSpec.ParseValueImplFindsKind | include/ctjson/Deserializer.hpp:272-327 | trying the kinds in turn equals converting at the token's own kind when it is listed, and refusing it by name otherwise |
| ParseSpec.ParseValue | include/ctjson/Deserializer.hpp:258-264 | a value token is converted at its own kind; a meta token is refused by name |
| ParseSpec.ParseValueAccepts | include/ctjson/Deserializer.hpp:272-327 | a value parse succeeds exactly when the target accepts the token's kind and, for integer targets, the payload is in range; otherwise the kind is refused by name |
| ParseSpec.BoolOnlyFromBool | include/ctjson/Deserializer.hpp:272-327 | a bool is read exactly from a bool token, with its value |
| ParseSpec.IntegerInRangeOrRefused | include/ctjson/Deserializer.hpp:272-327 | an integer target refuses a bool, takes an in-range integer of any width and sign as is, and refuses an out-of-range one with "Integer value not in range" |
| ParseSpec.FloatAndStringSources | include/ctjson/Deserializer.hpp:272-327 | a floating target casts integers and doubles; a string target takes a string token's text and a number token's raw text |
| ParseSpec.MetaTokensRefused | include/ctjson/Deserializer.hpp:258-264 | a JSON value target refuses null and structural tokens by name |
| ParseSpec.Parse | include/ctjson/Deserializer.hpp:36-237 | the dispatching parse keeps the stream invariant, never raises the remaining input, and consumes input when it succeeds |
| ParseSpec.ParsePrimitive | include/ctjson/Deserializer.hpp:36-53 | keeps the stream invariant and consumes the token it reads when it succeeds |
| ParseSpec.ParseOptional | include/ctjson/Deserializer.hpp:58-88 | keeps the stream invariant and consumes input when it succeeds |
| ParseSpec.ParseArray | include/ctjson/Deserializer.hpp:94-149 | keeps the stream invariant; a success consumes input and is a container of the target's kind |
| ParseSpec.ArrayLoop | include/ctjson/Deserializer.hpp:121-148 | each element round keeps the invariant; a success is a container of the target's kind and consumes input, except when it meets an end array held next to a failure |
| ParseSpec.ParseDict | include/ctjson/Deserializer.hpp:154-217 | keeps the stream invariant; a success consumes input and is a dictionary |
| ParseSpec.DictLoop | include/ctjson/Deserializer.hpp:181-216 | each entry round keeps the invariant; a success consumes input and is a dictionary |
| ParseSpec.Initials | include/ctjson/DeserializationHelper.hpp:57-58 | every field starts with its default value and unset |
| ParseSpec.Values | include/ctjson/DeserializationHelper.hpp:49-81 | the object's members are the fields' current values, in order |
| ParseSpec.ParseObjectType | include/ctjson/DeserializationHelper.hpp:92-172 | a class parse keeps the invariant; a success consumes input and holds one member per declared field |
| ParseSpec.FieldsTable | include/ctjson/DeserializationHelper.hpp:210-219 | every key of the name table is the name of the field it maps to |
| ParseSpec.FieldsTableLastWins | include/ctjson/DeserializationHelper.hpp:210-219 | every field's name is in the table, mapped to that field or a later one with the same name |
| ParseSpec.FieldsTableIndexes | include/ctjson/DeserializationHelper.hpp:210-219 | with distinct names the table maps each name to its own field and holds no other keys |
| ParseSpec.MissingKeysError | include/ctjson/DeserializationHelper.hpp:265-270 | the message starts with "Missing keys: " and ends with "got end object" |
| ParseSpec.ParseObject | include/ctjson/DeserializationHelper.hpp:92-172 | keeps the invariant and one binding per field; a success consumes input |
| ParseSpec.ObjectLoop | include/ctjson/DeserializationHelper.hpp:118-171 | each key round keeps the invariant and one binding per field |
| ParseSpec.ParseField | include/ctjson/DeserializationHelper.hpp:231-260 | a failed field leaves every binding unchanged; a successful one sets exactly the named field and marks it set |
| ParseSpec.ParseFrom | include/ctjson/DeserializationHelper.hpp:187-202 | keeps the invariant and consumes input when it succeeds |
| ParseErrors.ParseKind | include/ctjson/Deserializer.hpp:36-237 | when no conversion returns a JSON error, a JSON error carries the message the stream recorded; a stream failure on a step that delivered no token always gives a JSON error |
| ParseErrors.PrimitiveKind | include/ctjson/Deserializer.hpp:36-53 | a value parse is a JSON error exactly when the stream failed, with its message |
| ParseErrors.OptionalKind | include/ctjson/Deserializer.hpp:58-88 | the same for an optional |
| ParseErrors.ArrayKind | include/ctjson/Deserializer.hpp:94-149 | the same for an array-like parse |
| ParseErrors.ArrayLoopKind | include/ctjson/Deserializer.hpp:121-148 | the same for every element round |
| ParseErrors.DictKind | include/ctjson/Deserializer.hpp:154-217 | the same for a dictionary parse |
| ParseErrors.DictLoopKind | include/ctjson/Deserializer.hpp:181-216 | the same for every entry round |
| ParseErrors.ObjectTypeKind | include/ctjson/DeserializationHelper.hpp:92-172 | the same for a class parse |
| ParseErrors.ObjectKind | include/ctjson/DeserializationHelper.hpp:92-172 | the same for the object parse with its bindings |
| ParseErrors.ObjectLoopKind | include/ctjson/DeserializationHelper.hpp:118-171 | the same for every key round |
| ParseErrors.FieldKind | include/ctjson/DeserializationHelper.hpp:231-260 | the same for one field |
| ParseErrors.FromKind | include/ctjson/DeserializationHelper.hpp:187-202 | the same for a conversion that never reports a JSON error itself |
| ParseErrors.FailedStreamFailsEveryParse | include/ctjson/Deserializer.hpp:244-255 | on a stream that already failed, every parse returns that JSON error at the current path and consumes nothing |
| ParseErrors.TokenWithError | include/ctjson/TokenStream.hpp:131-173 | a token that peek or next shows next to an error came from a step that delivered it and then failed |
| ParseErrors.TrailingTextAfterRoot | include/ctjson/TokenStream.hpp:163-187 | `1 2` read as an int gives 1, with the stream left failed; read as an optional int it gives the lexer's JSON error at the root |
| ParseErrors.ExhaustedStreamFailsEveryParse | include/ctjson/Deserializer.hpp:253-255 | on a complete stream, every parse returns "Unexpected end" at the current path and consumes nothing |
| ParseErrors.ArrayNeedsStart | include/ctjson/Deserializer.hpp:113-119 | an array-like parse whose first token is not a start array fails with "Expected start array, got " and that token's name, at the path after it |
| ParseErrors.DictNeedsStart | include/ctjson/Deserializer.hpp:173-179 | a dictionary parse whose first token is not a start object fails with "Expected start object, got " and that token's name |
| ParseErrors.DictNeedsKey | include/ctjson/Deserializer.hpp:199-205 | inside a dictionary a token that is neither key nor end object fails with "Expected key,end object, got " and its name |
| ParseErrors.ObjectNeedsStart | include/ctjson/DeserializationHelper.hpp:95-114 | a class parse whose first token is not a start object fails with that message and binds nothing |
| ParseErrors.ObjectNeedsKey | include/ctjson/DeserializationHelper.hpp:150-157 | inside a class a token that is neither key nor end object fails with "Expected key,end object, got " and its name, binding nothing |
| ParseErrors.OptionalOnNull | include/ctjson/Deserializer.hpp:58-88 | an optional meeting null is absent and consumes exactly the null; any other token is left for the inner parse |
| ParseErrors.InnerFailurePropagates | include/ctjson/Deserializer.hpp:82-87 | an optional whose inner parse fails returns that failure with its kind, message and path, where the inner parse stopped |
| ParseErrors.ElementFailurePropagates | include/ctjson/Deserializer.hpp:140-144 | an array element that fails ends the array parse with that failure's kind, message and path, where the element's parse stopped |
| ParseErrors.EntryFailurePropagates | include/ctjson/Deserializer.hpp:208-212 | a dictionary value that fails ends the dictionary parse with that failure's kind, message and path, where the value's parse stopped |
| ParseErrors.MemberFailurePropagates | include/ctjson/DeserializationHelper.hpp:246-251 | a member value that fails makes `parse_field` return that failure's kind, message and path, binding nothing |
| ParseErrors.FieldFailureEndsLoop | include/ctjson/DeserializationHelper.hpp:166-170 | a failed `parse_field` for a known key is exactly what the key loop returns |
| ParseErrors.ObjectFailurePropagates | include/ctjson/DeserializationHelper.hpp:27-38 | a class parse returns a failure of `parse_object` with its kind, message and path |
| ParseErrors.FromOutcomes | include/ctjson/DeserializationHelper.hpp:187-202 | `parse_from` returns a failed source parse with its kind, message and path, wraps a plain converted value as a result, and passes a converted `ParseResult` through; the stream is left where the source parse stopped |
| ParseErrors.UnknownKeyRefused | include/ctjson/DeserializationHelper.hpp:159-164 | a key that names no field fails with "Unexpected key: " and the key, binding nothing |
| ParseErrors.DuplicateKeyRefused | include/ctjson/DeserializationHelper.hpp:243-245 | a key whose field is already set fails with "Duplicate key: " and the key, binding nothing and consuming nothing more |
| ParseErrors.EndOfObjectChecksReadiness | include/ctjson/DeserializationHelper.hpp:133-148 | an end object succeeds exactly when every field is set or optional; otherwise it fails with the missing-keys message; bindings are unchanged |
| ParseErrors.NoMissingNames | include/ctjson/DeserializationHelper.hpp:265-270 | the list of missing names is empty exactly when every field is ready |
| ParseErrors.OneMissingName | include/ctjson/DeserializationHelper.hpp:265-270 | with one field not ready, the list is that field's name and ", " |
| ParseErrors.OneMissingKeyMessage | tests/Deserialization.cpp:184-198 | with one required field absent, the message is "Missing keys: ", its name, ", got end object" |
| Deserializer.Slot.constructor | include/ctjson/detail/Field.hpp:31-39 | a slot holds the given member value |
| Deserializer.Field.constructor | include/ctjson/DeserializationHelper.hpp:57-58 | a field binds its name, type and slot, starts unset and remembers the default value |
| Deserializer.Field.IsSet | include/ctjson/DeserializationHelper.hpp:68 | a field that was set is ready |
| Deserializer.Field.IsReady | include/ctjson/DeserializationHelper.hpp:63 | a field is ready exactly when it is set or optional |
| Deserializer.Field.Set | include/ctjson/DeserializationHelper.hpp:73-77 | the member takes the parsed value and the field is set |
| Deserializer.EndOrErrorOf | include/ctjson/Deserializer.hpp:244-255 | returns EndOrError of the stream's state |
| Deserializer.ErrorHere | include/ctjson/Deserializer.hpp:244-248 | a parse error with the message at the stream's current path |
| Deserializer.Parse | include/ctjson/Deserializer.hpp:36-237 | result and new stream state are those of ParseSpec.Parse |
| Deserializer.ParsePrimitive | include/ctjson/Deserializer.hpp:36-53 | result and new state are those of ParseSpec.ParsePrimitive |
| Deserializer.ParseOptional | include/ctjson/Deserializer.hpp:58-88 | result and new state are those of ParseSpec.ParseOptional |
| Deserializer.ParseArray | include/ctjson/Deserializer.hpp:94-149 | the loop's result and new state are those of ParseSpec.ParseArray |
| Deserializer.ParseDict | include/ctjson/Deserializer.hpp:154-217 | the loop's result and new state are those of ParseSpec.ParseDict |
| Deserializer.ParseObjectType | include/ctjson/Deserializer.hpp:232-237 | result and new state are those of ParseSpec.ParseObjectType |
| Deserializer.BindFields | include/ctjson/DeserializationHelper.hpp:57-58 | fresh, separate fields describing the members, all unset with their defaults |
| Deserializer.ReadMembers | include/ctjson/DeserializationHelper.hpp:49-81 | returns the fields' current values in order |
| Deserializer.BuildFieldsMap | include/ctjson/DeserializationHelper.hpp:210-219 | the loop builds exactly FieldsTable of the fields |
| Deserializer.AllFieldsReady | include/ctjson/DeserializationHelper.hpp:133-148 | the loop answers whether every field is ready |
| Deserializer.MissingKeysErrorOf | include/ctjson/DeserializationHelper.hpp:265-270 | the loop builds exactly the missing-keys message |
| Deserializer.EndOfObject | include/ctjson/DeserializationHelper.hpp:133-148 | done when every field is ready, the missing-keys error at the current path otherwise |
| Deserializer.ParseObject | include/ctjson/DeserializationHelper.hpp:92-172 | result, new bindings and new state are those of ParseSpec.ParseObject |
| Deserializer.KeyLoop | include/ctjson/DeserializationHelper.hpp:118-171 | the loop's result, bindings and state are those of ObjectLoop |
| Deserializer.KeyRound | include/ctjson/DeserializationHelper.hpp:118-171 | one round either ends with the loop's outcome or consumes input and leaves the same remaining outcome |
| Deserializer.KeyEntry | include/ctjson/DeserializationHelper.hpp:159-170 | a key round either ends with the loop's outcome or leaves the same remaining outcome with less input |
| Deserializer.ParseField | include/ctjson/DeserializationHelper.hpp:231-260 | result, bindings and state are those of ParseSpec.ParseField |
| Deserializer.ParseFrom | include/ctjson/DeserializationHelper.hpp:187-202 | result and new state are those of ParseSpec.ParseFrom |
| Serializer.IntegerEvent | include/ctjson/SimpleWriter.hpp:19-33 | positives go out unsigned and the rest signed, the narrowest fitting width is chosen, and the token's payload is the value itself |
| Serializer.Dumped | include/ctjson/Serializer.hpp:15-79 | a dump emits at least one event |
| Serializer.Visited | include/ctjson/Serializer.hpp:43-53 | a vector is visited in order; a set is visited listing each element exactly once |
| Serializer.KeyOrder | include/ctjson/Serializer.hpp:55-66 | a map's keys are visited listing each key exactly once |
| Serializer.EmptyObjectDump | include/ctjson/SerializationHelper.hpp:62-74 | a class without fields dumps as start object and end object |
| Serializer.AbsentOptionalDump | include/ctjson/Serializer.hpp:31-41 | an absent optional dumps as null |
| Serializer.AbsentOptionalMemberDump | tests/Serialization.cpp:268-269 | an absent optional member is still written, as its key then null |
| Serializer.FirstEvent | include/ctjson/Serializer.hpp:15-79 | a dump never starts with a key or an end token, and starts with null only for an optional |
| Serializer.SimpleWriter.constructor | include/ctjson/SimpleWriter.hpp:11 | a new writer has emitted nothing |
| Serializer.SimpleWriter.Null | include/ctjson/SimpleWriter.hpp:15 | appends a null event |
| Serializer.SimpleWriter.Boolean | include/ctjson/SimpleWriter.hpp:17 | appends the bool |
| Serializer.SimpleWriter.Integer | include/ctjson/SimpleWriter.hpp:19-33 | appends IntegerEvent of the value |
| Serializer.SimpleWriter.Floating | include/ctjson/SimpleWriter.hpp:35-37 | appends the double |
| Serializer.SimpleWriter.String | include/ctjson/SimpleWriter.hpp:39-41 | appends the string |
| Serializer.SimpleWriter.StartObject | include/ctjson/SimpleWriter.hpp:43 | appends a start object |
| Serializer.SimpleWriter.Key | include/ctjson/SimpleWriter.hpp:45-47 | appends the key |
| Serializer.SimpleWriter.EndObject | include/ctjson/SimpleWriter.hpp:49 | appends an end object |
| Serializer.SimpleWriter.StartArray | include/ctjson/SimpleWriter.hpp:51 | appends a start array |
| Serializer.SimpleWriter.EndArray | include/ctjson/SimpleWriter.hpp:53 | appends an end array |
| Serializer.Field.constructor | include/ctjson/SerializationHelper.hpp:37-52 | a field binds a name, a type and a member |
| Serializer.Field.Ref | include/ctjson/SerializationHelper.hpp:51 | the field reads the bound member |
| Serializer.Dump | include/ctjson/Serializer.hpp:15-79 | the writer gets exactly Dumped of the value after what it already had |
| Serializer.DumpValue | include/ctjson/Serializer.hpp:15-29 | the writer gets exactly the value's one event |
| Serializer.DumpOptional | include/ctjson/Serializer.hpp:31-41 | the writer gets null or the inner dump |
| Serializer.DumpArray | include/ctjson/Serializer.hpp:43-53 | the writer gets start array, every element's dump in visiting order, end array |
| Serializer.DumpElements | include/ctjson/Serializer.hpp:49-51 | the loop emits the elements' dumps in order |
| Serializer.DumpDict | include/ctjson/Serializer.hpp:55-66 | the writer gets start object, each key with its value's dump, end object |
| Serializer.DumpEntries | include/ctjson/Serializer.hpp:61-64 | the loop emits each key then its value's dump |
| Serializer.DumpObjectType | include/ctjson/Serializer.hpp:68-79 | a class dumps through its fields exactly as Dumped says |
| Serializer.DumpFields | include/ctjson/SerializationHelper.hpp:62-74 | the writer gets start object, each field's key and member dump in declaration order, end object |
| Serializer.Members | include/ctjson/SerializationHelper.hpp:62-74 | the fields write at least a key and a value each, starting with the first field's name as a key |
| RoundTrip.NextFeeds | include/ctjson/TokenStream.hpp:142-148 | on a stream delivering the written events, next returns the first one and the rest are still delivered |
| RoundTrip.PeekFeeds | include/ctjson/TokenStream.hpp:131-135 | peek returns the first delivered event and keeps them all |
| RoundTrip.PrimitiveReadsBack | include/ctjson/Deserializer.hpp:36-53 | a dumped JSON value is parsed back to itself, consuming exactly its event |
| RoundTrip.ValueReadsBack | include/ctjson/Deserializer.hpp:272-327 | the token a value is written as converts back to that value |
| RoundTrip.BoolReadsBack | include/ctjson/SimpleWriter.hpp:17 | a written bool reads back |
| RoundTrip.IntegerReadsBack | include/ctjson/SimpleWriter.hpp:19-33 | an in-range integer written at any width reads back as the same number |
| RoundTrip.StringReadsBack | include/ctjson/SimpleWriter.hpp:39-41 | a written string reads back |
| RoundTrip.ParseDumped | include/ctjson/Deserializer.hpp:222-227 | parsing the events a value's dump wrote gives the value and leaves exactly what followed |
| RoundTrip.OptionalReadsBack | include/ctjson/Deserializer.hpp:58-88 | an optional reads back, present or absent |
| RoundTrip.ArrayReadsBack | include/ctjson/Deserializer.hpp:94-149 | a vector reads back in order, a set reads back with the same elements |
| RoundTrip.ArrayOpens | include/ctjson/Deserializer.hpp:99-119 | a start array leads into the element loop with an empty container |
| RoundTrip.ArrayLoopEnds | include/ctjson/Deserializer.hpp:134-139 | an end array returns what was collected |
| RoundTrip.ArrayLoopSteps | include/ctjson/Deserializer.hpp:141-147 | a dumped element is parsed and inserted, and the loop continues after it |
| RoundTrip.ElementsReadBack | include/ctjson/Deserializer.hpp:121-148 | the loop collects every dumped element and stops at the end array |
| RoundTrip.DictReadsBack | include/ctjson/Deserializer.hpp:154-217 | a map reads back with the same keys and values |
| RoundTrip.DictOpens | include/ctjson/Deserializer.hpp:159-179 | a start object leads into the entry loop with an empty map |
| RoundTrip.DictLoopEnds | include/ctjson/Deserializer.hpp:194-197 | an end object returns the map collected |
| RoundTrip.DictLoopSteps | include/ctjson/Deserializer.hpp:207-215 | a key and a dumped value are parsed and emplaced, and the loop continues |
| RoundTrip.EntriesReadBack | include/ctjson/Deserializer.hpp:181-216 | the loop adds every dumped entry and stops at the end object |
| RoundTrip.ObjectReadsBack | tests/Deserialization.cpp:353-372 | a class with distinct field names reads back member for member |
| RoundTrip.ObjectOpens | include/ctjson/DeserializationHelper.hpp:95-114 | a start object leads into the key loop with the initial bindings |
| RoundTrip.ObjectLoopEnds | include/ctjson/DeserializationHelper.hpp:133-148 | an end object with every field ready finishes and keeps the bindings |
| RoundTrip.ObjectLoopSteps | include/ctjson/DeserializationHelper.hpp:159-170 | a known key with a dumped value sets exactly that field, and the loop continues |
| RoundTrip.FieldsReadBack | include/ctjson/DeserializationHelper.hpp:118-171 | the key loop reads every dumped member in declaration order and finishes with all set |
| RoundTrip.Filled | tests/Deserialization.cpp:353-372 | a field given in the input has its value; one left out keeps its default |
| RoundTrip.ListedReadBack | include/ctjson/DeserializationHelper.hpp:118-171 | the key loop reads the members listed, in the listed order, and sets exactly them |
| RoundTrip.AnyKeyOrderReadsBack | include/ctjson/DeserializationHelper.hpp:92-172 | a class reads back from its keys in any order, with optional fields omitted and left at their defaults |
| RoundTrip.DumpThenParse | include/ctjson/Json.hpp:18-38 | parsing from the start of a stream that delivers what dump wrote gives the value back |
| RoundTrip.NestedAbsentIsLost | include/ctjson/Serializer.hpp:31-41 | an optional holding an absent optional is written as the same single null as an absent one, and that null reads back as the outer optional absent |
| Nesting.DumpWalk | include/ctjson/Serializer.hpp:15-79 | from any path, the path tracker accepts every token of a dump (no pop of an empty stack, no key outside an object) and ends where one scalar value would leave it |
| Nesting.ItemsWalk | include/ctjson/Serializer.hpp:49-51 | inside an array, the elements written advance the index by their number and leave the levels below unchanged |
| Nesting.EntriesWalk | include/ctjson/Serializer.hpp:61-64 | inside an object, the entries written keep the depth, leave the levels below unchanged and end inside the same object |
| Nesting.MembersWalk | include/ctjson/SerializationHelper.hpp:62-74 | inside an object, the members written keep the depth, leave the levels below unchanged and end inside the same object |
| Nesting.DumpIsTrackable | include/ctjson/TokenStream.hpp:242-256 | a lexer that delivers exactly a dump, possibly followed by one final empty or failed step, keeps the tracked path well-formed from the empty path |
| Nesting.DumpThenParseExactly | include/ctjson/Json.hpp:18-38 | a lexer that delivers exactly what `dump` wrote satisfies the stream invariant, and parsing it gives the value back |

## Left out

- The rapidjson lexer and writer are not modelled as text. The lexer is the parameter `Config.lexer`. The writer is the event sequence a `SimpleWriter` records. So the model has no JSON syntax, no string escaping, no number formatting and no trailing-comma flag.
- Floating point is an opaque 64-bit payload. The casts `static_cast<T>` and the widening in `floating` are descriptor parameters. A floating value is not read back by the round trip, because its cast need not invert the widening.
- `Json.hpp` only glues parse and dump to rapidjson. The model always uses the context-tracking stream, with path tracking as a flag, and does not model the choice between the plain and the context stream.
- The `Deserializable` and `Serializable` concepts and `has_parse`/`has_dump` are folded into the `Custom` strategy. Their template machinery, and the check that `json_parse` returns exactly `ParseResult<T>`, are compile-time matters with no run-time behaviour.
- Conversions (`TFrom`) have no `dump` overload and are not dumpable in the model. Nested optionals are dumped, but the round trip excludes them (`Readable`): an inner absent value is written as the same null as an outer one, and reads back as the outer absent (`RoundTrip.NestedAbsentIsLost`). The round trip also excludes floats and duplicate field names. Declaring two fields with the same name is a caller error that the code does not detect; `FieldsTableLastWins` states what it then does.
- Every set and map, ordered (`std::set`, `std::map`) or not, is dumped in the order `Order` lists. So the ascending order of the ordered containers and the hash order of the unordered ones are not modelled; only `std::vector` order is exact.
- Stack depth, allocation failure and exceptions are not modelled.
- Field descriptors are not copyable in C++. That is a lifetime rule with no counterpart in the model.
- `Path.key` with an array on top throws `std::bad_variant_access` (`std::get<Object>` at `Path.hpp:54`); the model does not carry exceptions. `Path.key`, `end_object` and `end_array` on an empty stack are undefined behaviour. All three are preconditions in the model, and `Trackable` states that the lexer's token sequence never reaches them.
- "An error result holds no value" is structural: the `ParseResult` datatype has no value field in its error variants.
- The text of rapidjson's `GetParseError_En` is the `text` carried by a lexer failure, not a table.
- ParseErrors.ParseKind: states the error kind only for descriptors whose conversions never report a JSON error themselves (`HonestKinds`), because the code passes a conversion's own result through unchanged.
- ParseErrors.DuplicateKeyRefused: is stated for the field step, given that the key's field is already set, and not for the whole key loop with its name table.
- ParseSpec.Parse: its own contract gives only the invariant and progress. What it returns is stated by `ParseErrors.ParseKind`, `ParseErrors.FailedStreamFailsEveryParse`, `ParseErrors.ExhaustedStreamFailsEveryParse`, `RoundTrip.ParseDumped` and `Nesting.DumpThenParseExactly`.
- ParseSpec.ParsePrimitive: its own contract gives the invariant, progress and result shape. Its errors are stated by `ParseErrors.PrimitiveKind` and the `ParseSpec.ParseValue*` lemmas, its results by `RoundTrip.PrimitiveReadsBack`.
- ParseSpec.ParseOptional: its own contract gives the invariant, progress and result shape. Its errors are stated by `ParseErrors.OptionalKind`, `ParseErrors.OptionalOnNull` and `ParseErrors.InnerFailurePropagates`, its results by `RoundTrip.OptionalReadsBack`.
- ParseSpec.ParseArray: its own contract gives the invariant, progress and result shape. Its errors are stated by `ParseErrors.ArrayKind` and `ParseErrors.ArrayNeedsStart`, its results by `RoundTrip.ArrayReadsBack` and `RoundTrip.ArrayOpens`.
- ParseSpec.ArrayLoop: its own contract gives the invariant, progress and result shape. Its errors are stated by `ParseErrors.ArrayLoopKind` and `ParseErrors.ElementFailurePropagates`, its results by `RoundTrip.ArrayLoopEnds`, `RoundTrip.ArrayLoopSteps` and `RoundTrip.ElementsReadBack`.
- ParseSpec.ParseDict: its own contract gives the invariant, progress and result shape. Its errors are stated by `ParseErrors.DictKind` and `ParseErrors.DictNeedsStart`, its results by `RoundTrip.DictReadsBack` and `RoundTrip.DictOpens`.
- ParseSpec.DictLoop: its own contract gives the invariant, progress and result shape. Its errors are stated by `ParseErrors.DictLoopKind`, `ParseErrors.DictNeedsKey` and `ParseErrors.EntryFailurePropagates`, its results by `RoundTrip.DictLoopEnds`, `RoundTrip.DictLoopSteps` and `RoundTrip.EntriesReadBack`.
- ParseSpec.ParseObjectType: its own contract gives the invariant, progress and result shape. Its errors are stated by `ParseErrors.ObjectTypeKind` and `ParseErrors.ObjectFailurePropagates`, its results by `RoundTrip.ObjectReadsBack` and `RoundTrip.AnyKeyOrderReadsBack`.
- ParseSpec.ParseObject: its own contract gives the invariant, progress and result shape. Its errors are stated by `ParseErrors.ObjectKind` and `ParseErrors.ObjectNeedsStart`, its results by `RoundTrip.ObjectOpens`.
- ParseSpec.ObjectLoop: its own contract gives the invariant, progress and result shape. Its errors are stated by `ParseErrors.ObjectLoopKind`, `ParseErrors.ObjectNeedsKey`, `ParseErrors.UnknownKeyRefused`, `ParseErrors.FieldFailureEndsLoop` and `ParseErrors.EndOfObjectChecksReadiness`, its results by `RoundTrip.ObjectLoopEnds`, `RoundTrip.ObjectLoopSteps` and `RoundTrip.FieldsReadBack`.
- ParseSpec.ParseFrom: its own contract gives the invariant, progress and result shape. Its errors and results are stated by `ParseErrors.FromKind` and `ParseErrors.FromOutcomes`. Conversions are not dumped, so no round trip covers them.
- A root `null` followed by more text is not modelled: `TrailersNotNull` in the stream invariant excludes a null delivered together with a failure. The lexer here is any sequence of outcomes, and such a step inside an array of optionals would let the element loop go round without consuming input. rapidjson delivers a token with a failure only for the root's last token, so this is the one input left out.
