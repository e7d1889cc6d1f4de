/**
 * What parsing a typed value from a token stream computes, as functions of
 * the stream's input and state: the `parse` overloads and `parse_value_impl`
 * (include/ctjson/Deserializer.hpp) and the field-driven object protocol
 * and `parse_from` (include/ctjson/DeserializationHelper.hpp).
 */
module ParseSpec {
  import opened Wrappers
  import opened Tokens
  import opened TypeUtils
  import opened Results
  import opened Paths
  import opened Streams
  import opened Typing

  /** A parse result and the stream state the parse leaves. */
  datatype Parsed = Parsed(result: ParseResult<Value>, rest: State)

  /** The state of one bound member during `parse_object`: the destination's value and the field's `m_set` flag. */
  datatype Binding = Binding(value: Value, isSet: bool)

  /** A `parse_object` result, the members' bindings afterwards, and the stream state it leaves. */
  datatype ObjectParsed = ObjectParsed(result: ParseResult<()>, bindings: seq<Binding>, rest: State)

  /** `unexpected_end_error()` */
  const UnexpectedEnd := "Unexpected end of json"

  /** The error every overload returns when no token came: the stream's own error if it has one, otherwise "Unexpected end of json". */
  function EndOrError<T>(c: Config, s: State): (r: ParseResult<T>)
    ensures !r.IsOk() && r.GetError().path == GetPathSpec(c, s)
    ensures r.IsJsonError() <==> s.error.Some?
    ensures s.error.Some? ==> r.GetError().error == s.error.value
    ensures s.error.None? ==> r.GetError().error == UnexpectedEnd
  {
    if s.error.Some? then JsonError(s.error.value, GetPathSpec(c, s))
    else ParseError(UnexpectedEnd, GetPathSpec(c, s))
  }

  /** The names of the expected kinds, each followed by a comma (the fold of `unexpected_token_error`). */
  function ExpectedList(kinds: seq<TokenType>): string {
    if kinds == [] then "" else StaticName(kinds[0]) + "," + ExpectedList(kinds[1..])
  }

  /** `unexpected_token_error<kinds...>(token)` */
  function UnexpectedTokenError(kinds: seq<TokenType>, tok: Token): (m: string)
    ensures |m| >= 9 + |Name(tok)| && m[..9] == "Expected "
    ensures m[|m| - |Name(tok)|..] == Name(tok)
  {
    "Expected " + ExpectedList(kinds) + " got " + Name(tok)
  }

  /** The message of array parsing on a token other than a start array. */
  lemma ExpectedStartArrayMessage(tok: Token)
    ensures UnexpectedTokenError([TokenType.StartArray], tok) == "Expected start array, got " + Name(tok)
  {
    var l := ExpectedList([TokenType.StartArray]);
    assert l == "start array," by {
      assert ExpectedList([TokenType.StartArray][1..]) == "";
    }
    assert "Expected " + l + " got " == "Expected start array, got ";
  }

  /** The message of dict and object parsing on a token other than a start object. */
  lemma ExpectedStartObjectMessage(tok: Token)
    ensures UnexpectedTokenError([TokenType.StartObject], tok) == "Expected start object, got " + Name(tok)
  {
    var l := ExpectedList([TokenType.StartObject]);
    assert l == "start object," by {
      assert ExpectedList([TokenType.StartObject][1..]) == "";
    }
    assert "Expected " + l + " got " == "Expected start object, got ";
  }

  /** The message of dict and object parsing on a token that is neither a key nor an end object. */
  lemma ExpectedKeyMessage(tok: Token)
    ensures UnexpectedTokenError([TokenType.Key, TokenType.EndObject], tok) == "Expected key,end object, got " + Name(tok)
  {
    var tail := ExpectedList([TokenType.EndObject]);
    assert tail == "end object," by {
      assert ExpectedList([TokenType.EndObject][1..]) == "";
    }
    var l := ExpectedList([TokenType.Key, TokenType.EndObject]);
    assert l == "key," + tail by {
      assert [TokenType.Key, TokenType.EndObject][1..] == [TokenType.EndObject];
    }
    assert "Expected " + l + " got " == "Expected key,end object, got ";
  }

  /** The integer kinds: their payload is an `int`, `unsigned`, `int64_t` or `uint64_t`. */
  predicate IsIntegerKind(k: TokenType) {
    k.Int? || k.Uint? || k.Int64? || k.Uint64?
  }

  /** The C++ type of an integer kind's payload. */
  function PayloadType(k: TokenType): (it: IntType)
    requires IsIntegerKind(k)
  {
    match k
    case Int => Int32
    case Uint => Uint32
    case Int64 => TypeUtils.Int64
    case Uint64 => TypeUtils.Uint64
  }

  /** The payload of an integer token is a value of its payload type. */
  lemma PayloadInType(tok: Token, k: TokenType)
    requires IsOfType(tok, k) && IsIntegerKind(k)
    ensures ValueOf(tok, k).IntegerValue? && InType(PayloadType(k), ValueOf(tok, k).n)
  {
  }

  /** Which value kinds a primitive target accepts (the `is_bool`, `is_integer`, `is_floating`, `is_string` cases). */
  predicate Accepts(t: TypeDesc, k: TokenType) {
    || (t.TBool? && k.Bool?)
    || (t.TInt? && IsIntegerKind(k))
    || (t.TFloat? && (IsIntegerKind(k) || k.Double?))
    || (t.TString? && (k.String? || k.RawNumber?))
  }

  /** The conversion of `parse_value_impl` once the token's kind `k` is found. */
  function Convert(t: TypeDesc, tok: Token, k: TokenType, path: Option<string>): (r: ParseResult<Value>)
    requires IsJsonValue(t) && IsOfType(tok, k)
    ensures r.IsOk() || r.IsParseError()
    ensures !Accepts(t, k) ==> r == ParseError("Unexpected " + Name(tok), path)
  {
    var p := ValueOf(tok, k);
    if t.TBool? && k.Bool? then Ok(VBool(p.b))
    else if t.TInt? && IsIntegerKind(k) then
      PayloadInType(tok, k);
      if InRange(t.it, PayloadType(k), p.n) then Ok(VInt(p.n))
      else ParseError("Integer value not in range", path)
    else if t.TFloat? && IsIntegerKind(k) then Ok(VFloat(t.fromInteger(p.n)))
    else if t.TFloat? && k.Double? then Ok(VFloat(t.fromDouble(p.d)))
    else if t.TString? && (k.String? || k.RawNumber?) then Ok(VStr(p.s))
    else ParseError("Unexpected " + Name(tok), path)
  }

  /** `parse_value_impl<T, Head, Tail...>`: try the kinds in order; the first one the token has decides. */
  function ParseValueImpl(t: TypeDesc, tok: Token, path: Option<string>, kinds: seq<TokenType>): (r: ParseResult<Value>)
    requires IsJsonValue(t) && |kinds| > 0
    ensures r.IsOk() || r.IsParseError()
  {
    if !IsOfType(tok, kinds[0]) then
      if |kinds| > 1 then ParseValueImpl(t, tok, path, kinds[1..])
      else ParseError("Unexpected " + Name(tok), path)
    else Convert(t, tok, kinds[0], path)
  }

  /** The search over the kinds finds the token's own kind when it is listed, and fails with "Unexpected <name>" when not. */
  lemma {:induction false} ParseValueImplFindsKind(t: TypeDesc, tok: Token, path: Option<string>, kinds: seq<TokenType>)
    requires IsJsonValue(t) && |kinds| > 0
    ensures ParseValueImpl(t, tok, path, kinds) ==
      if Kind(tok) in kinds then Convert(t, tok, Kind(tok), path) else ParseError("Unexpected " + Name(tok), path)
  {
    if !IsOfType(tok, kinds[0]) && |kinds| > 1 {
      ParseValueImplFindsKind(t, tok, path, kinds[1..]);
      assert kinds == [kinds[0]] + kinds[1..];
    }
  }

  /** `parse_value<T>(token, path)`: over the value kinds in priority order. */
  function ParseValue(t: TypeDesc, tok: Token, path: Option<string>): (r: ParseResult<Value>)
    requires IsJsonValue(t)
    ensures r == if Kind(tok) in ValueTokens then Convert(t, tok, Kind(tok), path) else ParseError("Unexpected " + Name(tok), path)
  {
    ParseValueImplFindsKind(t, tok, path, ValueTokens);
    ParseValueImpl(t, tok, path, ValueTokens)
  }

  /** A primitive succeeds exactly on the kinds it accepts (integers also in range), and otherwise names the token. */
  lemma ParseValueAccepts(t: TypeDesc, tok: Token, path: Option<string>)
    requires IsJsonValue(t)
    ensures !Accepts(t, Kind(tok)) ==> ParseValue(t, tok, path) == ParseError("Unexpected " + Name(tok), path)
    ensures ParseValue(t, tok, path).IsOk() <==>
      Accepts(t, Kind(tok)) && (t.TInt? ==> InType(t.it, ValueOf(tok, Kind(tok)).n))
  {
    TokenListsPartition(Kind(tok));
    if Accepts(t, Kind(tok)) && t.TInt? {
      PayloadInType(tok, Kind(tok));
    }
  }

  /** A bool target takes only a bool token, and yields its value. */
  lemma BoolOnlyFromBool(tok: Token, path: Option<string>)
    ensures ParseValue(TBool, tok, path).IsOk() <==> tok.BoolToken?
    ensures tok.BoolToken? ==> ParseValue(TBool, tok, path) == Ok(VBool(tok.b))
  {
    ParseValueAccepts(TBool, tok, path);
  }

  /** An integer target rejects bool tokens, keeps in-range integers exactly, and refuses the others instead of truncating. */
  lemma IntegerInRangeOrRefused(it: IntType, tok: Token, path: Option<string>)
    ensures tok.BoolToken? ==> ParseValue(TInt(it), tok, path) == ParseError("Unexpected bool", path)
    ensures IsIntegerKind(Kind(tok)) && InType(it, ValueOf(tok, Kind(tok)).n) ==>
      ParseValue(TInt(it), tok, path) == Ok(VInt(ValueOf(tok, Kind(tok)).n))
    ensures IsIntegerKind(Kind(tok)) && !InType(it, ValueOf(tok, Kind(tok)).n) ==>
      ParseValue(TInt(it), tok, path) == ParseError("Integer value not in range", path)
  {
    TokenListsPartition(Kind(tok));
    if IsIntegerKind(Kind(tok)) {
      PayloadInType(tok, Kind(tok));
    }
  }

  /** A floating target takes integer and double tokens through its casts; a string target takes string and raw-number payloads. */
  lemma FloatAndStringSources(fi: int -> Double, fd: Double -> Double, td: Double -> Double, tok: Token, path: Option<string>)
    ensures IsIntegerKind(Kind(tok)) ==> ParseValue(TFloat(fi, fd, td), tok, path) == Ok(VFloat(fi(ValueOf(tok, Kind(tok)).n)))
    ensures tok.DoubleToken? ==> ParseValue(TFloat(fi, fd, td), tok, path) == Ok(VFloat(fd(tok.d)))
    ensures tok.StringToken? ==> ParseValue(TString, tok, path) == Ok(VStr(tok.str))
    ensures tok.NumberToken? ==> ParseValue(TString, tok, path) == Ok(VStr(tok.raw))
  {
    TokenListsPartition(Kind(tok));
  }

  /** No primitive target takes null or a structural token. */
  lemma MetaTokensRefused(t: TypeDesc, tok: Token, path: Option<string>)
    requires IsJsonValue(t) && Kind(tok) in MetaTokens
    ensures ParseValue(t, tok, path) == ParseError("Unexpected " + Name(tok), path)
  {
    TokenListsPartition(Kind(tok));
  }

  /** `parse<T>(tokens)`: the overload of the type's strategy. */
  function Parse(c: Config, t: TypeDesc, s: State): (r: Parsed)
    requires Inv(c, s)
    ensures Inv(c, r.rest) && Measure(c, r.rest) <= Measure(c, s)
    ensures r.result.IsOk() ==> Measure(c, r.rest) < Measure(c, s)
    decreases Measure(c, s), t, 2
  {
    match t
    case TBool => ParsePrimitive(c, t, s)
    case TInt(_) => ParsePrimitive(c, t, s)
    case TFloat(_, _, _) => ParsePrimitive(c, t, s)
    case TString => ParsePrimitive(c, t, s)
    case TOptional(_) => ParseOptional(c, t, s)
    case TVector(_) => ParseArray(c, t, s)
    case TSet(_) => ParseArray(c, t, s)
    case TMap(_) => ParseDict(c, t, s)
    case TObject(_) => ParseObjectType(c, t, s)
    case TFrom(_, _) => ParseFrom(c, t, s)
  }

  /** The overload for numbers, bools and strings: exactly one token. */
  function ParsePrimitive(c: Config, t: TypeDesc, s: State): (r: Parsed)
    requires Inv(c, s) && IsJsonValue(t)
    ensures Inv(c, r.rest) && Measure(c, r.rest) <= Measure(c, s)
    ensures r.result.IsOk() ==> Measure(c, r.rest) < Measure(c, s)
    decreases Measure(c, s), t, 1
  {
    var n := NextSpec(c, s);
    if n.token.None? then Parsed(EndOrError(c, n.state), n.state)
    else Parsed(ParseValue(t, n.token.value, GetPathSpec(c, n.state)), n.state)
  }

  /** The overload for `std::optional<U>`: a null token is consumed and means absent; anything else is left to `U`. */
  function ParseOptional(c: Config, t: TypeDesc, s: State): (r: Parsed)
    requires Inv(c, s) && t.TOptional?
    ensures Inv(c, r.rest) && Measure(c, r.rest) <= Measure(c, s)
    ensures r.result.IsOk() ==> Measure(c, r.rest) < Measure(c, s)
    decreases Measure(c, s), t, 1
  {
    var p := PeekSpec(c, s);
    if p.token.None? then Parsed(EndOrError(c, p.state), p.state)
    else if p.token.value.NullToken? then
      var n := NextSpec(c, p.state);
      Parsed(Ok(VOpt(None)), n.state)
    else
      var m := Parse(c, t.inner, p.state);
      if m.result.IsOk() then Parsed(Ok(VOpt(Some(m.result.value))), m.rest)
      else Parsed(ConvertError(m.result), m.rest)
  }

  /** The overload for vectors and sets: a start array, elements inserted in input order, an end array. */
  function ParseArray(c: Config, t: TypeDesc, s: State): (r: Parsed)
    requires Inv(c, s) && IsArrayLike(t)
    ensures Inv(c, r.rest) && Measure(c, r.rest) <= Measure(c, s)
    ensures r.result.IsOk() ==> Measure(c, r.rest) < Measure(c, s) && ContainerOf(t, r.result.value)
    decreases Measure(c, s), t, 1
  {
    var n := NextSpec(c, s);
    if n.token.None? then Parsed(EndOrError(c, n.state), n.state)
    else if !n.token.value.StartArrayToken? then
      Parsed(ParseError(UnexpectedTokenError([TokenType.StartArray], n.token.value), GetPathSpec(c, n.state)), n.state)
    else ArrayLoop(c, t, EmptyContainer(t), n.state)
  }

  /**
   * The `while (true)` loop of array parsing, from the elements collected so
   * far. It can succeed without consuming only by meeting an end array that
   * a failed stream still holds.
   */
  function ArrayLoop(c: Config, t: TypeDesc, acc: Value, s: State): (r: Parsed)
    requires Inv(c, s) && IsArrayLike(t) && ContainerOf(t, acc)
    ensures Inv(c, r.rest) && Measure(c, r.rest) <= Measure(c, s)
    ensures r.result.IsOk() ==> ContainerOf(t, r.result.value)
    ensures r.result.IsOk() ==> Measure(c, r.rest) < Measure(c, s) || (r.rest == s && s.error.Some?)
    decreases Measure(c, s), t, 0
  {
    var p := PeekSpec(c, s);
    if p.token.None? then Parsed(EndOrError(c, p.state), p.state)
    else if p.token.value.EndArrayToken? then
      var n := NextSpec(c, p.state);
      Parsed(Ok(acc), n.state)
    else
      var m := Parse(c, t.elem, p.state);
      if !m.result.IsOk() then Parsed(ConvertError(m.result), m.rest)
      else ArrayLoop(c, t, Insert(t, acc, m.result.value), m.rest)
  }

  /** The overload for string-keyed maps: a start object, key/value pairs, an end object. */
  function ParseDict(c: Config, t: TypeDesc, s: State): (r: Parsed)
    requires Inv(c, s) && IsDictLike(t)
    ensures Inv(c, r.rest) && Measure(c, r.rest) <= Measure(c, s)
    ensures r.result.IsOk() ==> Measure(c, r.rest) < Measure(c, s) && r.result.value.VDict?
    decreases Measure(c, s), t, 1
  {
    var n := NextSpec(c, s);
    if n.token.None? then Parsed(EndOrError(c, n.state), n.state)
    else if !n.token.value.StartObjectToken? then
      Parsed(ParseError(UnexpectedTokenError([TokenType.StartObject], n.token.value), GetPathSpec(c, n.state)), n.state)
    else DictLoop(c, t, map[], n.state)
  }

  /** The `while (true)` loop of dict parsing, from the entries collected so far. */
  function DictLoop(c: Config, t: TypeDesc, acc: map<string, Value>, s: State): (r: Parsed)
    requires Inv(c, s) && IsDictLike(t)
    ensures Inv(c, r.rest) && Measure(c, r.rest) <= Measure(c, s)
    ensures r.result.IsOk() ==> Measure(c, r.rest) < Measure(c, s) && r.result.value.VDict?
    decreases Measure(c, s), t, 0
  {
    var n := NextSpec(c, s);
    if n.token.None? then Parsed(EndOrError(c, n.state), n.state)
    else if n.token.value.EndObjectToken? then Parsed(Ok(VDict(acc)), n.state)
    else if !n.token.value.KeyToken? then
      Parsed(ParseError(UnexpectedTokenError([TokenType.Key, TokenType.EndObject], n.token.value), GetPathSpec(c, n.state)), n.state)
    else
      var m := Parse(c, t.elem, n.state);
      if !m.result.IsOk() then Parsed(ConvertError(m.result), m.rest)
      else DictLoop(c, t, EmplaceEntry(acc, n.token.value.key, m.result.value), m.rest)
  }

  /** The members before parsing: each holds its default value and is unset. */
  function Initials(fields: seq<FieldDesc>): (bs: seq<Binding>)
    ensures |bs| == |fields|
    ensures forall i :: 0 <= i < |fields| ==> bs[i] == Binding(fields[i].initial, false)
  {
    seq(|fields|, i requires 0 <= i < |fields| => Binding(fields[i].initial, false))
  }

  /** The members' values, in declaration order. */
  function Values(bs: seq<Binding>): (vs: seq<Value>)
    ensures |vs| == |bs| && forall i :: 0 <= i < |bs| ==> vs[i] == bs[i].value
  {
    seq(|bs|, i requires 0 <= i < |bs| => bs[i].value)
  }

  /**
   * A class whose `json_parse` default-constructs the object, binds every
   * member as a field and calls `parse_object`, returning the object on
   * success and converting the error otherwise.
   */
  function ParseObjectType(c: Config, t: TypeDesc, s: State): (r: Parsed)
    requires Inv(c, s) && t.TObject?
    ensures Inv(c, r.rest) && Measure(c, r.rest) <= Measure(c, s)
    ensures r.result.IsOk() ==> Measure(c, r.rest) < Measure(c, s)
    ensures r.result.IsOk() ==> r.result.value.VObj? && |r.result.value.members| == |t.fields|
    decreases Measure(c, s), t, 1
  {
    var o := ParseObject(c, t.fields, Initials(t.fields), s);
    if o.result.IsOk() then Parsed(Ok(VObj(Values(o.bindings))), o.rest)
    else Parsed(ConvertError(o.result), o.rest)
  }

  /** `build_fields_map(fields...)`: each name mapped to its index; a later field of the same name overwrites an earlier one. */
  function FieldsTable(fields: seq<FieldDesc>): (m: map<string, nat>)
    ensures forall k :: k in m ==> m[k] < |fields| && fields[m[k]].name == k
  {
    if fields == [] then map[]
    else FieldsTable(fields[..|fields| - 1])[fields[|fields| - 1].name := |fields| - 1]
  }

  /** Every field's name is in the table, at the index of the last field of that name. */
  lemma {:induction false} FieldsTableLastWins(fields: seq<FieldDesc>)
    ensures forall i :: 0 <= i < |fields| ==> fields[i].name in FieldsTable(fields)
    ensures forall i :: 0 <= i < |fields| ==> i <= FieldsTable(fields)[fields[i].name]
    decreases |fields|
  {
    if fields != [] {
      var init := fields[..|fields| - 1];
      FieldsTableLastWins(init);
      forall i | 0 <= i < |fields| - 1
        ensures fields[i].name in FieldsTable(fields) && i <= FieldsTable(fields)[fields[i].name]
      {
        assert fields[i] == init[i];
      }
    }
  }

  /** No two fields share a name. */
  predicate DistinctNames(fields: seq<FieldDesc>) {
    forall i, j :: 0 <= i < j < |fields| ==> fields[i].name != fields[j].name
  }

  /** With distinct names, the table maps the i-th field's name to i, and knows no other key. */
  lemma FieldsTableIndexes(fields: seq<FieldDesc>)
    requires DistinctNames(fields)
    ensures forall i :: 0 <= i < |fields| ==> fields[i].name in FieldsTable(fields) && FieldsTable(fields)[fields[i].name] == i
    ensures forall k :: k in FieldsTable(fields) <==> exists i :: 0 <= i < |fields| && fields[i].name == k
  {
    var m := FieldsTable(fields);
    FieldsTableLastWins(fields);
    forall i | 0 <= i < |fields|
      ensures m[fields[i].name] == i
    {
      var j := m[fields[i].name];
      assert fields[j].name == fields[i].name;
    }
  }

  /** `is_ready()`: set, or optional. */
  predicate Ready(f: FieldDesc, b: Binding) {
    b.isSet || IsOpt(f)
  }

  /** Every bound member is ready. */
  predicate AllReady(fields: seq<FieldDesc>, bs: seq<Binding>)
    requires |bs| == |fields|
  {
    forall i :: 0 <= i < |fields| ==> Ready(fields[i], bs[i])
  }

  /** The names in `missing_keys_error`, each followed by ", ", of the first `n` members that are not ready. */
  function MissingNames(fields: seq<FieldDesc>, bs: seq<Binding>, n: nat): string
    requires |bs| == |fields| && n <= |fields|
  {
    if n == 0 then ""
    else MissingNames(fields, bs, n - 1) + (if Ready(fields[n - 1], bs[n - 1]) then "" else fields[n - 1].name + ", ")
  }

  /** `missing_keys_error(fields...)` */
  function MissingKeysError(fields: seq<FieldDesc>, bs: seq<Binding>): (m: string)
    requires |bs| == |fields|
    ensures |m| >= 28 && m[..14] == "Missing keys: " && m[|m| - 14..] == "got end object"
  {
    "Missing keys: " + MissingNames(fields, bs, |fields|) + "got " + StaticName(TokenType.EndObject)
  }

  /** `parse_object(tokens, fields...)`: a start object, then the key loop. */
  function ParseObject(c: Config, fields: seq<FieldDesc>, bs: seq<Binding>, s: State): (r: ObjectParsed)
    requires Inv(c, s) && |bs| == |fields|
    ensures Inv(c, r.rest) && Measure(c, r.rest) <= Measure(c, s) && |r.bindings| == |fields|
    ensures r.result.IsOk() ==> Measure(c, r.rest) < Measure(c, s)
    decreases Measure(c, s), TObject(fields), 0
  {
    var n := NextSpec(c, s);
    if n.token.None? then ObjectParsed(EndOrError(c, n.state), bs, n.state)
    else if !n.token.value.StartObjectToken? then
      ObjectParsed(ParseError(UnexpectedTokenError([TokenType.StartObject], n.token.value), GetPathSpec(c, n.state)), bs, n.state)
    else ObjectLoop(c, fields, FieldsTable(fields), bs, n.state)
  }

  /** The `while (true)` loop of `parse_object`: one key and its value per round, until the end object. */
  function ObjectLoop(c: Config, fields: seq<FieldDesc>, table: map<string, nat>, bs: seq<Binding>, s: State): (r: ObjectParsed)
    requires Inv(c, s) && |bs| == |fields| && table == FieldsTable(fields)
    ensures Inv(c, r.rest) && Measure(c, r.rest) <= Measure(c, s) && |r.bindings| == |fields|
    ensures r.result.IsOk() ==> Measure(c, r.rest) < Measure(c, s)
    decreases Measure(c, s), TObject(fields), 0
  {
    var n := NextSpec(c, s);
    if n.token.None? then ObjectParsed(EndOrError(c, n.state), bs, n.state)
    else if n.token.value.EndObjectToken? then
      if AllReady(fields, bs) then ObjectParsed(Done(), bs, n.state)
      else ObjectParsed(ParseError(MissingKeysError(fields, bs), GetPathSpec(c, n.state)), bs, n.state)
    else if !n.token.value.KeyToken? then
      ObjectParsed(ParseError(UnexpectedTokenError([TokenType.Key, TokenType.EndObject], n.token.value), GetPathSpec(c, n.state)), bs, n.state)
    else if n.token.value.key !in table then
      ObjectParsed(ParseError("Unexpected key: " + n.token.value.key, GetPathSpec(c, n.state)), bs, n.state)
    else
      var f := ParseField(c, fields, n.token.value.key, table[n.token.value.key], bs, n.state);
      if !f.result.IsOk() then f
      else ObjectLoop(c, fields, table, f.bindings, f.rest)
  }

  /** `parse_field(tokens, key, index, fields...)`: a second occurrence is a duplicate; otherwise the member's value is parsed and set. */
  function ParseField(c: Config, fields: seq<FieldDesc>, key: string, index: nat, bs: seq<Binding>, s: State): (r: ObjectParsed)
    requires Inv(c, s) && |bs| == |fields| && index < |fields|
    ensures Inv(c, r.rest) && Measure(c, r.rest) <= Measure(c, s) && |r.bindings| == |fields|
    ensures !r.result.IsOk() ==> r.bindings == bs
    ensures r.result.IsOk() ==> r.bindings == bs[index := Binding(r.bindings[index].value, true)]
    decreases Measure(c, s), TObject(fields), 0
  {
    if bs[index].isSet then ObjectParsed(ParseError("Duplicate key: " + key, GetPathSpec(c, s)), bs, s)
    else
      assert fields[index] in fields;
      var m := Parse(c, fields[index].ty, s);
      if !m.result.IsOk() then ObjectParsed(ConvertError(m.result), bs, m.rest)
      else ObjectParsed(Done(), bs[index := Binding(m.result.value, true)], m.rest)
  }

  /** `parse_from<source>(tokens, f)`: a failed source parse is converted, a plain result wrapped, a `ParseResult` passed through. */
  function ParseFrom(c: Config, t: TypeDesc, s: State): (r: Parsed)
    requires Inv(c, s) && t.TFrom?
    ensures Inv(c, r.rest) && Measure(c, r.rest) <= Measure(c, s)
    ensures r.result.IsOk() ==> Measure(c, r.rest) < Measure(c, s)
    decreases Measure(c, s), t, 1
  {
    var m := Parse(c, t.source, s);
    if !m.result.IsOk() then Parsed(ConvertError(m.result), m.rest)
    else match t.convert(m.result.value)
      case Total(v) => Parsed(Ok(v), m.rest)
      case Fallible(res) => Parsed(res, m.rest)
  }
}
