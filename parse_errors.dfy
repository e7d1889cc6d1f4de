/**
 * The error behaviour of the parser over whole inputs: which of the two
 * error kinds a parse returns, what a failed or exhausted stream makes of
 * every parse, and the key rules of the object protocol
 * (include/ctjson/Deserializer.hpp, include/ctjson/DeserializationHelper.hpp).
 */
module ParseErrors {
  import opened Wrappers
  import opened Tokens
  import opened Results
  import opened Streams
  import opened Typing
  import opened ParseSpec
  import TypeUtils
  import Paths

  /**
   * The types whose parse reports a JSON error only for the lexer: every
   * type except a `parse_from` class whose conversion itself returns
   * `json_error`.
   */
  ghost predicate HonestKinds(t: TypeDesc)
    decreases t
  {
    match t
    case TOptional(u) => HonestKinds(u)
    case TVector(e) => HonestKinds(e)
    case TSet(e) => HonestKinds(e)
    case TMap(e) => HonestKinds(e)
    case TObject(fs) => forall i :: 0 <= i < |fs| ==> HonestKinds(fs[i].ty)
    case TFrom(src, f) => HonestKinds(src) && forall v :: !(f(v).Fallible? && f(v).r.IsJsonError())
    case _ => true
  }

  /**
   * A JSON error is the failure the stream it leaves has recorded, with the
   * stream's message; and a stream that failed on a step delivering no token
   * always makes the result a JSON error. Only the last token of a document
   * followed by more text is delivered next to a failure, and a parse that
   * has used it may still succeed or fail with a parse error.
   */
  predicate KindFaithful<T>(c: Config, r: ParseResult<T>, rest: State) {
    && (r.IsJsonError() ==> rest.error.Some? && r.GetError().error == rest.error.value)
    && (rest.error.Some? && !TrailingFailure(c, rest) ==> r.IsJsonError())
  }

  /** A token shown by `peek` or `next`, or a `next` after a `peek` that showed one, next to an error: that error came with the token. */
  lemma TokenWithError(c: Config, s: State)
    requires Inv(c, s)
    ensures PeekSpec(c, s).token.Some? && PeekSpec(c, s).state.error.Some? ==> TrailingFailure(c, PeekSpec(c, s).state)
    ensures NextSpec(c, s).token.Some? && NextSpec(c, s).state.error.Some? ==> TrailingFailure(c, NextSpec(c, s).state)
    ensures PeekSpec(c, s).token.Some? && NextSpec(c, PeekSpec(c, s).state).state.error.Some? ==>
      TrailingFailure(c, NextSpec(c, PeekSpec(c, s).state).state)
  {
  }

  /**
   * Whatever the type (bar a conversion that invents a JSON error), a parse
   * returns a JSON error only for the lexer's failure, with the lexer's
   * message, and always for a lexer failure that delivered no token; every
   * other failure is a parse error.
   */
  lemma {:induction false} ParseKind(c: Config, t: TypeDesc, s: State)
    requires Inv(c, s) && HonestKinds(t)
    ensures KindFaithful(c, Parse(c, t, s).result, Parse(c, t, s).rest)
    decreases Measure(c, s), t, 2
  {
    match t
    case TBool => PrimitiveKind(c, t, s);
    case TInt(_) => PrimitiveKind(c, t, s);
    case TFloat(_, _, _) => PrimitiveKind(c, t, s);
    case TString => PrimitiveKind(c, t, s);
    case TOptional(_) => OptionalKind(c, t, s);
    case TVector(_) => ArrayKind(c, t, s);
    case TSet(_) => ArrayKind(c, t, s);
    case TMap(_) => DictKind(c, t, s);
    case TObject(_) => ObjectTypeKind(c, t, s);
    case TFrom(_, _) => FromKind(c, t, s);
  }

  lemma PrimitiveKind(c: Config, t: TypeDesc, s: State)
    requires Inv(c, s) && IsJsonValue(t)
    ensures KindFaithful(c, ParsePrimitive(c, t, s).result, ParsePrimitive(c, t, s).rest)
    decreases Measure(c, s), t, 1
  {
    TokenWithError(c, s);
  }

  lemma {:induction false} OptionalKind(c: Config, t: TypeDesc, s: State)
    requires Inv(c, s) && t.TOptional? && HonestKinds(t)
    ensures KindFaithful(c, ParseOptional(c, t, s).result, ParseOptional(c, t, s).rest)
    decreases Measure(c, s), t, 1
  {
    var p := PeekSpec(c, s);
    TokenWithError(c, s);
    if p.token.Some? {
      if p.token.value.NullToken? {
        TokenWithError(c, p.state);
      } else {
        ParseKind(c, t.inner, p.state);
      }
    }
  }

  lemma {:induction false} ArrayKind(c: Config, t: TypeDesc, s: State)
    requires Inv(c, s) && IsArrayLike(t) && HonestKinds(t)
    ensures KindFaithful(c, ParseArray(c, t, s).result, ParseArray(c, t, s).rest)
    decreases Measure(c, s), t, 1
  {
    var n := NextSpec(c, s);
    TokenWithError(c, s);
    if n.token.Some? && n.token.value.StartArrayToken? {
      ArrayLoopKind(c, t, EmptyContainer(t), n.state);
    }
  }

  lemma {:induction false} ArrayLoopKind(c: Config, t: TypeDesc, acc: Value, s: State)
    requires Inv(c, s) && IsArrayLike(t) && ContainerOf(t, acc) && HonestKinds(t)
    ensures KindFaithful(c, ArrayLoop(c, t, acc, s).result, ArrayLoop(c, t, acc, s).rest)
    decreases Measure(c, s), t, 0
  {
    var p := PeekSpec(c, s);
    TokenWithError(c, s);
    if p.token.Some? {
      if p.token.value.EndArrayToken? {
        TokenWithError(c, p.state);
      } else {
        var m := Parse(c, t.elem, p.state);
        ParseKind(c, t.elem, p.state);
        if m.result.IsOk() {
          ArrayLoopKind(c, t, Insert(t, acc, m.result.value), m.rest);
        }
      }
    }
  }

  lemma {:induction false} DictKind(c: Config, t: TypeDesc, s: State)
    requires Inv(c, s) && IsDictLike(t) && HonestKinds(t)
    ensures KindFaithful(c, ParseDict(c, t, s).result, ParseDict(c, t, s).rest)
    decreases Measure(c, s), t, 1
  {
    var n := NextSpec(c, s);
    TokenWithError(c, s);
    if n.token.Some? && n.token.value.StartObjectToken? {
      DictLoopKind(c, t, map[], n.state);
    }
  }

  lemma {:induction false} DictLoopKind(c: Config, t: TypeDesc, acc: map<string, Value>, s: State)
    requires Inv(c, s) && IsDictLike(t) && HonestKinds(t)
    ensures KindFaithful(c, DictLoop(c, t, acc, s).result, DictLoop(c, t, acc, s).rest)
    decreases Measure(c, s), t, 0
  {
    var n := NextSpec(c, s);
    TokenWithError(c, s);
    if n.token.Some? && n.token.value.KeyToken? {
      var m := Parse(c, t.elem, n.state);
      ParseKind(c, t.elem, n.state);
      if m.result.IsOk() {
        DictLoopKind(c, t, EmplaceEntry(acc, n.token.value.key, m.result.value), m.rest);
      }
    }
  }

  lemma {:induction false} ObjectTypeKind(c: Config, t: TypeDesc, s: State)
    requires Inv(c, s) && t.TObject? && HonestKinds(t)
    ensures KindFaithful(c, ParseObjectType(c, t, s).result, ParseObjectType(c, t, s).rest)
    decreases Measure(c, s), t, 1
  {
    ObjectKind(c, t.fields, Initials(t.fields), s);
  }

  lemma {:induction false} ObjectKind(c: Config, fields: seq<FieldDesc>, bs: seq<Binding>, s: State)
    requires Inv(c, s) && |bs| == |fields| && HonestKinds(TObject(fields))
    ensures KindFaithful(c, ParseObject(c, fields, bs, s).result, ParseObject(c, fields, bs, s).rest)
    decreases Measure(c, s), TObject(fields), 0
  {
    var n := NextSpec(c, s);
    TokenWithError(c, s);
    if n.token.Some? && n.token.value.StartObjectToken? {
      ObjectLoopKind(c, fields, bs, n.state);
    }
  }

  lemma {:induction false} ObjectLoopKind(c: Config, fields: seq<FieldDesc>, bs: seq<Binding>, s: State)
    requires Inv(c, s) && |bs| == |fields| && HonestKinds(TObject(fields))
    ensures KindFaithful(c, ObjectLoop(c, fields, FieldsTable(fields), bs, s).result, ObjectLoop(c, fields, FieldsTable(fields), bs, s).rest)
    decreases Measure(c, s), TObject(fields), 0
  {
    var table := FieldsTable(fields);
    var n := NextSpec(c, s);
    TokenWithError(c, s);
    if n.token.Some? && n.token.value.KeyToken? && n.token.value.key in table {
      var f := ParseField(c, fields, n.token.value.key, table[n.token.value.key], bs, n.state);
      FieldKind(c, fields, n.token.value.key, table[n.token.value.key], bs, n.state);
      if f.result.IsOk() {
        ObjectLoopKind(c, fields, f.bindings, f.rest);
      }
    }
  }

  lemma {:induction false} FieldKind(c: Config, fields: seq<FieldDesc>, key: string, index: nat, bs: seq<Binding>, s: State)
    requires Inv(c, s) && |bs| == |fields| && index < |fields| && HonestKinds(TObject(fields))
    requires s.error.Some? ==> TrailingFailure(c, s)
    ensures KindFaithful(c, ParseField(c, fields, key, index, bs, s).result, ParseField(c, fields, key, index, bs, s).rest)
    decreases Measure(c, s), TObject(fields), 0
  {
    if !bs[index].isSet {
      assert fields[index] in fields;
      ParseKind(c, fields[index].ty, s);
    }
  }

  lemma {:induction false} FromKind(c: Config, t: TypeDesc, s: State)
    requires Inv(c, s) && t.TFrom? && HonestKinds(t)
    ensures KindFaithful(c, ParseFrom(c, t, s).result, ParseFrom(c, t, s).rest)
    decreases Measure(c, s), t, 1
  {
    var m := Parse(c, t.source, s);
    ParseKind(c, t.source, s);
    if m.result.IsOk() {
      var conv := t.convert(m.result.value);
      assert !(conv.Fallible? && conv.r.IsJsonError());
    }
  }

  /** Once the stream has failed, every parse returns the stream's error as a JSON error at the current path, and consumes nothing. */
  lemma {:induction false} FailedStreamFailsEveryParse(c: Config, t: TypeDesc, s: State)
    requires Inv(c, s) && s.error.Some?
    ensures Parse(c, t, s) == Parsed(JsonError(s.error.value, GetPathSpec(c, s)), s)
    decreases t
  {
    ErrorIsSticky(c, s);
    match t
    case TOptional(u) =>
      if s.buffer.Some? {
        assert c.lexer[s.pos - 1].EventThenFail?;
        FailedStreamFailsEveryParse(c, u, s);
      }
    case TObject(fs) =>
      assert ParseObject(c, fs, Initials(fs), s).result == JsonError(s.error.value, GetPathSpec(c, s));
    case TFrom(src, _) =>
      FailedStreamFailsEveryParse(c, src, s);
    case _ =>
  }

  /** rapidjson's `kParseErrorDocumentRootNotSingular` (code 2) with its English text. */
  const RootNotSingular := "The document root must not be followed by other values."

  /** The lexer of `1 2`: the number is delivered by the step that then fails on the text after it. */
  function TrailingTwo(withPath: bool): (c: Config)
    ensures Inv(c, Initial())
  {
    Config([EventThenFail(IntToken(1), OtherCode(2), RootNotSingular)], withPath)
  }

  /**
   * `parse<int>` on `1 2` succeeds with 1 (nothing checks that the stream
   * is complete), but `parse<std::optional<int>>` fails with the lexer's
   * error: its `peek` took the failing step, and the inner `next` then
   * yields nothing.
   */
  lemma TrailingTextAfterRoot(withPath: bool)
    ensures Parse(TrailingTwo(withPath), TInt(TypeUtils.Int32), Initial()) ==
      Parsed(Ok(VInt(1)), State(1, None, Some(RootNotSingular), []))
    ensures Parse(TrailingTwo(withPath), TOptional(TInt(TypeUtils.Int32)), Initial()).result ==
      JsonError(RootNotSingular, if withPath then Some("root") else None)
  {
    var c := TrailingTwo(withPath);
    var held := State(1, Some(IntToken(1)), Some(RootNotSingular), []);
    assert PeekSpec(c, Initial()) == Step(Some(IntToken(1)), held);
    assert NextSpec(c, held) == Step(None, held);
    assert Paths.Rendered([]) == "root";
    var inner := Parse(c, TInt(TypeUtils.Int32), held);
    assert inner == Parsed(EndOrError(c, held), held);
    assert ParseOptional(c, TOptional(TInt(TypeUtils.Int32)), Initial()).result == ConvertError(inner.result);
  }

  /** On a complete stream without error, every parse fails with "Unexpected end of json" at the current path. */
  lemma {:induction false} ExhaustedStreamFailsEveryParse(c: Config, t: TypeDesc, s: State)
    requires Inv(c, s) && s.error.None? && IsCompleteSpec(c, s)
    ensures Parse(c, t, s) == Parsed(ParseError(UnexpectedEnd, GetPathSpec(c, s)), s)
    decreases t
  {
    CompleteYieldsNothing(c, s);
    NextIsPeekThenTake(c, s);
    assert PeekSpec(c, s) == Step(None, s);
    match t
    case TObject(fs) =>
      assert ParseObject(c, fs, Initials(fs), s).result == ParseError(UnexpectedEnd, GetPathSpec(c, s));
    case TFrom(src, _) =>
      ExhaustedStreamFailsEveryParse(c, src, s);
    case _ =>
  }

  /** A vector or set must open with a start array; any other token is refused by name, at the path after it. */
  lemma ArrayNeedsStart(c: Config, t: TypeDesc, s: State, tok: Token)
    requires Inv(c, s) && IsArrayLike(t)
    requires NextSpec(c, s).token == Some(tok) && !tok.StartArrayToken?
    ensures ParseArray(c, t, s) ==
      Parsed(ParseError("Expected start array, got " + Name(tok), GetPathSpec(c, NextSpec(c, s).state)), NextSpec(c, s).state)
  {
    ExpectedStartArrayMessage(tok);
  }

  /** A map must open with a start object; any other token is refused by name. */
  lemma DictNeedsStart(c: Config, t: TypeDesc, s: State, tok: Token)
    requires Inv(c, s) && IsDictLike(t)
    requires NextSpec(c, s).token == Some(tok) && !tok.StartObjectToken?
    ensures ParseDict(c, t, s) ==
      Parsed(ParseError("Expected start object, got " + Name(tok), GetPathSpec(c, NextSpec(c, s).state)), NextSpec(c, s).state)
  {
    ExpectedStartObjectMessage(tok);
  }

  /** Inside a map, a token that is neither a key nor an end object is refused by name. */
  lemma DictNeedsKey(c: Config, t: TypeDesc, acc: map<string, Value>, s: State, tok: Token)
    requires Inv(c, s) && IsDictLike(t)
    requires NextSpec(c, s).token == Some(tok) && !tok.KeyToken? && !tok.EndObjectToken?
    ensures DictLoop(c, t, acc, s) ==
      Parsed(ParseError("Expected key,end object, got " + Name(tok), GetPathSpec(c, NextSpec(c, s).state)), NextSpec(c, s).state)
  {
    ExpectedKeyMessage(tok);
  }

  /** A class must open with a start object; any other token is refused by name and nothing is bound. */
  lemma ObjectNeedsStart(c: Config, fields: seq<FieldDesc>, bs: seq<Binding>, s: State, tok: Token)
    requires Inv(c, s) && |bs| == |fields|
    requires NextSpec(c, s).token == Some(tok) && !tok.StartObjectToken?
    ensures ParseObject(c, fields, bs, s) ==
      ObjectParsed(ParseError("Expected start object, got " + Name(tok), GetPathSpec(c, NextSpec(c, s).state)), bs, NextSpec(c, s).state)
  {
    ExpectedStartObjectMessage(tok);
  }

  /** Inside a class, a token that is neither a key nor an end object is refused by name and nothing is bound. */
  lemma ObjectNeedsKey(c: Config, fields: seq<FieldDesc>, bs: seq<Binding>, s: State, tok: Token)
    requires Inv(c, s) && |bs| == |fields|
    requires NextSpec(c, s).token == Some(tok) && !tok.KeyToken? && !tok.EndObjectToken?
    ensures ObjectLoop(c, fields, FieldsTable(fields), bs, s) ==
      ObjectParsed(ParseError("Expected key,end object, got " + Name(tok), GetPathSpec(c, NextSpec(c, s).state)), bs, NextSpec(c, s).state)
  {
    ExpectedKeyMessage(tok);
  }

  /** An optional meeting null consumes exactly that token and is absent; on any other token it consumes nothing before the inner parse. */
  lemma OptionalOnNull(c: Config, t: TypeDesc, s: State)
    requires Inv(c, s) && t.TOptional?
    ensures PeekSpec(c, s).token == Some(NullToken) ==>
      ParseOptional(c, t, s) == Parsed(Ok(VOpt(None)), NextSpec(c, s).state)
    ensures PeekSpec(c, s).token.Some? && !PeekSpec(c, s).token.value.NullToken? ==>
      ParseOptional(c, t, s).rest == Parse(c, t.inner, PeekSpec(c, s).state).rest
  {
    NextIsPeekThenTake(c, s);
  }

  /** `r` fails with the same kind, message and path as the nested failure `m`. */
  predicate SameFailure<U, T>(r: ParseResult<T>, m: ParseResult<U>) {
    && !m.IsOk() && !r.IsOk()
    && r.IsJsonError() == m.IsJsonError() && r.IsParseError() == m.IsParseError()
    && r.GetError() == m.GetError()
  }

  /** A failed inner value makes the optional fail with its error, where the inner parse stopped. */
  lemma InnerFailurePropagates(c: Config, t: TypeDesc, s: State)
    requires Inv(c, s) && t.TOptional?
    requires PeekSpec(c, s).token.Some? && !PeekSpec(c, s).token.value.NullToken?
    requires !Parse(c, t.inner, PeekSpec(c, s).state).result.IsOk()
    ensures SameFailure(ParseOptional(c, t, s).result, Parse(c, t.inner, PeekSpec(c, s).state).result)
    ensures ParseOptional(c, t, s).rest == Parse(c, t.inner, PeekSpec(c, s).state).rest
  {
  }

  /** A failed element ends the array loop with that element's error, where the element's parse stopped. */
  lemma ElementFailurePropagates(c: Config, t: TypeDesc, acc: Value, s: State)
    requires Inv(c, s) && IsArrayLike(t) && ContainerOf(t, acc)
    requires PeekSpec(c, s).token.Some? && !PeekSpec(c, s).token.value.EndArrayToken?
    requires !Parse(c, t.elem, PeekSpec(c, s).state).result.IsOk()
    ensures SameFailure(ArrayLoop(c, t, acc, s).result, Parse(c, t.elem, PeekSpec(c, s).state).result)
    ensures ArrayLoop(c, t, acc, s).rest == Parse(c, t.elem, PeekSpec(c, s).state).rest
  {
  }

  /** A failed value after a key ends the dict loop with that value's error, where the value's parse stopped. */
  lemma EntryFailurePropagates(c: Config, t: TypeDesc, acc: map<string, Value>, s: State)
    requires Inv(c, s) && IsDictLike(t)
    requires NextSpec(c, s).token.Some? && NextSpec(c, s).token.value.KeyToken?
    requires !Parse(c, t.elem, NextSpec(c, s).state).result.IsOk()
    ensures SameFailure(DictLoop(c, t, acc, s).result, Parse(c, t.elem, NextSpec(c, s).state).result)
    ensures DictLoop(c, t, acc, s).rest == Parse(c, t.elem, NextSpec(c, s).state).rest
  {
  }

  /** A failed value of a field not yet set fails `parse_field` with that value's error, where its parse stopped, binding nothing. */
  lemma MemberFailurePropagates(c: Config, fields: seq<FieldDesc>, key: string, index: nat, bs: seq<Binding>, s: State)
    requires Inv(c, s) && |bs| == |fields| && index < |fields| && !bs[index].isSet
    requires !Parse(c, fields[index].ty, s).result.IsOk()
    ensures SameFailure(ParseField(c, fields, key, index, bs, s).result, Parse(c, fields[index].ty, s).result)
    ensures ParseField(c, fields, key, index, bs, s).rest == Parse(c, fields[index].ty, s).rest
    ensures ParseField(c, fields, key, index, bs, s).bindings == bs
  {
  }

  /** A failed `parse_field` for a known key ends the object loop with exactly that failure. */
  lemma FieldFailureEndsLoop(c: Config, fields: seq<FieldDesc>, bs: seq<Binding>, s: State, k: string)
    requires Inv(c, s) && |bs| == |fields|
    requires NextSpec(c, s).token == Some(KeyToken(k))
    ensures k in FieldsTable(fields) && !ParseField(c, fields, k, FieldsTable(fields)[k], bs, NextSpec(c, s).state).result.IsOk() ==>
      ObjectLoop(c, fields, FieldsTable(fields), bs, s) == ParseField(c, fields, k, FieldsTable(fields)[k], bs, NextSpec(c, s).state)
  {
  }

  /** The class overload returns a failure of `parse_object` with its kind, message and path. */
  lemma ObjectFailurePropagates(c: Config, t: TypeDesc, s: State)
    requires Inv(c, s) && t.TObject?
    requires !ParseObject(c, t.fields, Initials(t.fields), s).result.IsOk()
    ensures SameFailure(ParseObjectType(c, t, s).result, ParseObject(c, t.fields, Initials(t.fields), s).result)
    ensures ParseObjectType(c, t, s).rest == ParseObject(c, t.fields, Initials(t.fields), s).rest
  {
  }

  /**
   * The three outcomes of `parse_from`: a failed source parse is returned
   * with its kind, message and path; a plain converted value is wrapped as
   * a result; a converted `ParseResult` is returned as it is. The stream is
   * left where the source parse stopped.
   */
  lemma FromOutcomes(c: Config, t: TypeDesc, s: State)
    requires Inv(c, s) && t.TFrom?
    ensures ParseFrom(c, t, s).rest == Parse(c, t.source, s).rest
    ensures !Parse(c, t.source, s).result.IsOk() ==> SameFailure(ParseFrom(c, t, s).result, Parse(c, t.source, s).result)
    ensures Parse(c, t.source, s).result.IsOk() && t.convert(Parse(c, t.source, s).result.value).Total? ==>
      ParseFrom(c, t, s).result == Ok(t.convert(Parse(c, t.source, s).result.value).v)
    ensures Parse(c, t.source, s).result.IsOk() && t.convert(Parse(c, t.source, s).result.value).Fallible? ==>
      ParseFrom(c, t, s).result == t.convert(Parse(c, t.source, s).result.value).r
  {
  }

  /** A key no field is named after is refused as unexpected, at the path of that key, and binds nothing. */
  lemma UnknownKeyRefused(c: Config, fields: seq<FieldDesc>, bs: seq<Binding>, s: State, k: string)
    requires Inv(c, s) && |bs| == |fields|
    requires NextSpec(c, s).token == Some(KeyToken(k))
    requires forall i :: 0 <= i < |fields| ==> fields[i].name != k
    ensures ObjectLoop(c, fields, FieldsTable(fields), bs, s) ==
      ObjectParsed(ParseError("Unexpected key: " + k, GetPathSpec(c, NextSpec(c, s).state)), bs, NextSpec(c, s).state)
  {
  }

  /** A key whose field is already set is a duplicate, optional or not: a parse error at that key, nothing bound, the value left unread. */
  lemma DuplicateKeyRefused(c: Config, fields: seq<FieldDesc>, key: string, index: nat, bs: seq<Binding>, s: State)
    requires Inv(c, s) && |bs| == |fields| && index < |fields| && bs[index].isSet
    ensures ParseField(c, fields, key, index, bs, s) ==
      ObjectParsed(ParseError("Duplicate key: " + key, GetPathSpec(c, s)), bs, s)
  {
  }

  /** The end of an object succeeds exactly when every field is ready, and otherwise reports the missing keys at that point. */
  lemma EndOfObjectChecksReadiness(c: Config, fields: seq<FieldDesc>, bs: seq<Binding>, s: State, n: U32)
    requires Inv(c, s) && |bs| == |fields|
    requires NextSpec(c, s).token == Some(EndObjectToken(n))
    ensures ObjectLoop(c, fields, FieldsTable(fields), bs, s).result.IsOk() <==> AllReady(fields, bs)
    ensures !AllReady(fields, bs) ==>
      ObjectLoop(c, fields, FieldsTable(fields), bs, s).result == ParseError(MissingKeysError(fields, bs), GetPathSpec(c, NextSpec(c, s).state))
    ensures ObjectLoop(c, fields, FieldsTable(fields), bs, s).bindings == bs
  {
  }

  /** The missing-keys list is empty exactly when the first `n` fields are all ready. */
  lemma {:induction false} NoMissingNames(fields: seq<FieldDesc>, bs: seq<Binding>, n: nat)
    requires |bs| == |fields| && n <= |fields|
    ensures MissingNames(fields, bs, n) == "" <==> forall i :: 0 <= i < n ==> Ready(fields[i], bs[i])
    decreases n
  {
    if n > 0 {
      NoMissingNames(fields, bs, n - 1);
      if !Ready(fields[n - 1], bs[n - 1]) {
        assert |MissingNames(fields, bs, n)| >= |fields[n - 1].name + ", "|;
      }
    }
  }

  /** With one field `i` not ready, the missing-keys list is that field's name and a comma, from the field after it on. */
  lemma {:induction false} OneMissingName(fields: seq<FieldDesc>, bs: seq<Binding>, i: nat, n: nat)
    requires |bs| == |fields| && i < n <= |fields| && !Ready(fields[i], bs[i])
    requires forall j :: 0 <= j < |fields| && j != i ==> Ready(fields[j], bs[j])
    ensures MissingNames(fields, bs, n) == fields[i].name + ", "
    decreases n
  {
    if n - 1 == i {
      NoMissingNames(fields, bs, i);
    } else {
      OneMissingName(fields, bs, i, n - 1);
    }
  }

  /** The message for a single missing field names just that field. */
  lemma OneMissingKeyMessage(fields: seq<FieldDesc>, bs: seq<Binding>, i: nat)
    requires |bs| == |fields| && i < |fields| && !Ready(fields[i], bs[i])
    requires forall j :: 0 <= j < |fields| && j != i ==> Ready(fields[j], bs[j])
    ensures MissingKeysError(fields, bs) == "Missing keys: " + fields[i].name + ", got end object"
  {
    OneMissingName(fields, bs, i, |fields|);
  }
}
