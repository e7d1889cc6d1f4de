/**
 * The parser as the source runs it: recursive methods that consume from a
 * mutable token stream, `while (true)` loops that accumulate a container, and
 * the field protocol whose descriptors write through to the object under
 * construction (include/ctjson/Deserializer.hpp,
 * include/ctjson/DeserializationHelper.hpp, include/ctjson/detail/Field.hpp).
 * Each method is proved to compute what its `ParseSpec` function says.
 */
module Deserializer {
  import opened Wrappers
  import opened Tokens
  import opened Results
  import opened Streams
  import opened Typing
  import opened ParseSpec

  /** A member of the object under construction, which a field refers to (`T &m_ref`). */
  class Slot {
    var value: Value

    constructor (v: Value)
      ensures value == v
    {
      value := v;
    }
  }

  /** `DeserializationHelper::Field<T>`: the JSON key, the member's type, the bound member, and whether it was parsed. */
  class Field {
    const name: string
    const ty: TypeDesc
    const slot: Slot
    /** The member's value when it was bound. */
    ghost const initial: Value
    var isSet: bool

    /** `Field(name, ref)`: bound to `slot` and not set. */
    constructor (name: string, ty: TypeDesc, slot: Slot)
      ensures this.name == name && this.ty == ty && this.slot == slot
      ensures initial == slot.value && !isSet
    {
      this.name := name;
      this.ty := ty;
      this.slot := slot;
      this.initial := slot.value;
      isSet := false;
    }

    /** The member this field describes. */
    ghost function Desc(): FieldDesc {
      FieldDesc(name, ty, initial)
    }

    /** `is_set()`: a set field is always ready. */
    predicate IsSet()
      reads this
      ensures IsSet() ==> IsReady()
    {
      isSet
    }

    /** `is_ready()`: set, or of an optional type. */
    predicate IsReady()
      reads this
      ensures IsReady() <==> isSet || IsOpt(Desc())
    {
      isSet || ty.TOptional?
    }

    /** `set(value)`: store through the reference and mark the field set. */
    method Set(v: Value)
      modifies this, slot
      ensures slot.value == v && isSet
    {
      slot.value := v;
      isSet := true;
    }
  }

  /** The members the fields describe. */
  ghost function Descs(fields: seq<Field>): (ds: seq<FieldDesc>)
    ensures |ds| == |fields| && forall i :: 0 <= i < |fields| ==> ds[i] == fields[i].Desc()
  {
    seq(|fields|, i requires 0 <= i < |fields| => fields[i].Desc())
  }

  /** The current value and `m_set` flag of every field. */
  ghost function Bindings(fields: seq<Field>): (bs: seq<Binding>)
    reads fields, Slots(fields)
    ensures |bs| == |fields|
    ensures forall i :: 0 <= i < |fields| ==> bs[i] == Binding(fields[i].slot.value, fields[i].isSet)
  {
    seq(|fields|, i requires 0 <= i < |fields| reads fields, Slots(fields) => Binding(fields[i].slot.value, fields[i].isSet))
  }

  /** Distinct fields bound to distinct members. */
  ghost predicate Separate(fields: seq<Field>) {
    forall i, j :: 0 <= i < j < |fields| ==> fields[i] != fields[j] && fields[i].slot != fields[j].slot
  }

  /** The members the fields are bound to, in field order. */
  ghost function Slots(fields: seq<Field>): (ss: seq<Slot>)
    ensures |ss| == |fields| && forall i :: 0 <= i < |fields| ==> ss[i] == fields[i].slot
  {
    seq(|fields|, i requires 0 <= i < |fields| => fields[i].slot)
  }

  /** The error of a parse step that got no token, with the path after that step. */
  method EndOrErrorOf<T>(ts: TokenStream) returns (r: ParseResult<T>)
    ensures r == EndOrError(ts.Setup(), ts.Snapshot())
  {
    var path := ts.GetPath();
    if ts.HasError() {
      r := JsonError(ts.GetError(), path);
    } else {
      r := ParseError(UnexpectedEnd, path);
    }
  }

  /** A parse error at the current path. */
  method ErrorHere<T>(ts: TokenStream, message: string) returns (r: ParseResult<T>)
    ensures r == ParseError(message, GetPathSpec(ts.Setup(), ts.Snapshot()))
  {
    var path := ts.GetPath();
    r := ParseError(message, path);
  }

  /** `Deserializer::parse<T>(tokens)` */
  method Parse(ts: TokenStream, t: TypeDesc) returns (r: ParseResult<Value>)
    requires ts.Valid()
    modifies ts, ts.path
    ensures ts.Valid()
    ensures Parsed(r, ts.Snapshot()) == ParseSpec.Parse(ts.Setup(), t, old(ts.Snapshot()))
    decreases Measure(ts.Setup(), ts.Snapshot()), t, 2
  {
    if IsJsonValue(t) {
      r := ParsePrimitive(ts, t);
    } else if IsOptional(t) {
      r := ParseOptional(ts, t);
    } else if IsArrayLike(t) {
      r := ParseArray(ts, t);
    } else if IsDictLike(t) {
      r := ParseDict(ts, t);
    } else if t.TObject? {
      r := ParseObjectType(ts, t);
    } else {
      r := ParseFrom(ts, t);
    }
  }

  /** The overload for numbers, bools and strings. */
  method ParsePrimitive(ts: TokenStream, t: TypeDesc) returns (r: ParseResult<Value>)
    requires ts.Valid() && IsJsonValue(t)
    modifies ts, ts.path
    ensures ts.Valid()
    ensures Parsed(r, ts.Snapshot()) == ParseSpec.ParsePrimitive(ts.Setup(), t, old(ts.Snapshot()))
    decreases Measure(ts.Setup(), ts.Snapshot()), t, 1
  {
    var token := ts.Next();
    if token.None? {
      r := EndOrErrorOf(ts);
      return;
    }
    var path := ts.GetPath();
    r := ParseValue(t, token.value, path);
  }

  /** The overload for `std::optional<U>`. */
  method ParseOptional(ts: TokenStream, t: TypeDesc) returns (r: ParseResult<Value>)
    requires ts.Valid() && t.TOptional?
    modifies ts, ts.path
    ensures ts.Valid()
    ensures Parsed(r, ts.Snapshot()) == ParseSpec.ParseOptional(ts.Setup(), t, old(ts.Snapshot()))
    decreases Measure(ts.Setup(), ts.Snapshot()), t, 1
  {
    var token := ts.Peek();
    if token.None? {
      r := EndOrErrorOf(ts);
      return;
    }
    if token.value.NullToken? {
      var _ := ts.Next();
      return Ok(VOpt(None));
    }
    var inner := Parse(ts, t.inner);
    if inner.IsOk() {
      return Ok(VOpt(Some(inner.value)));
    }
    return ConvertError(inner);
  }

  /** The overload for vectors and sets. */
  method ParseArray(ts: TokenStream, t: TypeDesc) returns (r: ParseResult<Value>)
    requires ts.Valid() && IsArrayLike(t)
    modifies ts, ts.path
    ensures ts.Valid()
    ensures Parsed(r, ts.Snapshot()) == ParseSpec.ParseArray(ts.Setup(), t, old(ts.Snapshot()))
    decreases Measure(ts.Setup(), ts.Snapshot()), t, 1
  {
    ghost var c := ts.Setup();
    ghost var s0 := ts.Snapshot();
    var result := EmptyContainer(t);
    var token := ts.Next();
    if token.None? {
      r := EndOrErrorOf(ts);
      return;
    }
    if !token.value.StartArrayToken? {
      r := ErrorHere(ts, UnexpectedTokenError([TokenType.StartArray], token.value));
      return;
    }
    while true
      invariant ts.Valid() && ContainerOf(t, result)
      invariant Measure(c, ts.Snapshot()) < Measure(c, s0)
      invariant ArrayLoop(c, t, result, ts.Snapshot()) == ParseSpec.ParseArray(c, t, s0)
      decreases Measure(c, ts.Snapshot())
    {
      var next := ts.Peek();
      if next.None? {
        r := EndOrErrorOf(ts);
        return;
      }
      if next.value.EndArrayToken? {
        var _ := ts.Next();
        return Ok(result);
      }
      var member := Parse(ts, t.elem);
      if !member.IsOk() {
        return ConvertError(member);
      }
      result := Insert(t, result, member.value);
    }
  }

  /** The overload for string-keyed maps. */
  method ParseDict(ts: TokenStream, t: TypeDesc) returns (r: ParseResult<Value>)
    requires ts.Valid() && IsDictLike(t)
    modifies ts, ts.path
    ensures ts.Valid()
    ensures Parsed(r, ts.Snapshot()) == ParseSpec.ParseDict(ts.Setup(), t, old(ts.Snapshot()))
    decreases Measure(ts.Setup(), ts.Snapshot()), t, 1
  {
    ghost var c := ts.Setup();
    ghost var s0 := ts.Snapshot();
    var result: map<string, Value> := map[];
    var token := ts.Next();
    if token.None? {
      r := EndOrErrorOf(ts);
      return;
    }
    if !token.value.StartObjectToken? {
      r := ErrorHere(ts, UnexpectedTokenError([TokenType.StartObject], token.value));
      return;
    }
    while true
      invariant ts.Valid()
      invariant Measure(c, ts.Snapshot()) < Measure(c, s0)
      invariant DictLoop(c, t, result, ts.Snapshot()) == ParseSpec.ParseDict(c, t, s0)
      decreases Measure(c, ts.Snapshot())
    {
      var next := ts.Next();
      if next.None? {
        r := EndOrErrorOf(ts);
        return;
      }
      if next.value.EndObjectToken? {
        return Ok(VDict(result));
      }
      if !next.value.KeyToken? {
        r := ErrorHere(ts, UnexpectedTokenError([TokenType.Key, TokenType.EndObject], next.value));
        return;
      }
      var key := next.value.key;
      var member := Parse(ts, t.elem);
      if !member.IsOk() {
        return ConvertError(member);
      }
      result := EmplaceEntry(result, key, member.value);
    }
  }

  /**
   * A class's `json_parse`: default-construct the object, bind each member
   * to a field, `parse_object`, then return the object or convert the error.
   */
  method ParseObjectType(ts: TokenStream, t: TypeDesc) returns (r: ParseResult<Value>)
    requires ts.Valid() && t.TObject?
    modifies ts, ts.path
    ensures ts.Valid()
    ensures Parsed(r, ts.Snapshot()) == ParseSpec.ParseObjectType(ts.Setup(), t, old(ts.Snapshot()))
    decreases Measure(ts.Setup(), ts.Snapshot()), t, 1
  {
    var fields := BindFields(t.fields);
    var result := ParseObject(ts, fields);
    if result.IsOk() {
      var members := ReadMembers(fields);
      return Ok(VObj(members));
    }
    return ConvertError(result);
  }

  /** `ParseClass object;` and one `Field(name, object.member)` per member, in declaration order. */
  method BindFields(members: seq<FieldDesc>) returns (fields: seq<Field>)
    ensures Descs(fields) == members && Separate(fields)
    ensures Bindings(fields) == Initials(members)
    ensures forall f :: f in fields ==> fresh(f) && fresh(f.slot)
  {
    fields := [];
    var i := 0;
    while i < |members|
      invariant 0 <= i <= |members| && |fields| == i
      invariant forall k :: 0 <= k < i ==> fields[k].Desc() == members[k] && !fields[k].isSet && fields[k].slot.value == members[k].initial
      invariant Separate(fields)
      invariant forall f :: f in fields ==> fresh(f) && fresh(f.slot)
    {
      var slot := new Slot(members[i].initial);
      var field := new Field(members[i].name, members[i].ty, slot);
      fields := fields + [field];
      i := i + 1;
    }
  }

  /** The object's members after parsing, in declaration order. */
  method ReadMembers(fields: seq<Field>) returns (vs: seq<Value>)
    ensures vs == Values(Bindings(fields))
  {
    vs := [];
    var i := 0;
    while i < |fields|
      invariant 0 <= i <= |fields| && |vs| == i
      invariant forall k :: 0 <= k < i ==> vs[k] == fields[k].slot.value
    {
      vs := vs + [fields[i].slot.value];
      i := i + 1;
    }
  }

  /** `build_fields_map(fields...)`: `result[field.name] = counter++` for each field in turn. */
  method BuildFieldsMap(fields: seq<Field>) returns (m: map<string, nat>)
    ensures m == FieldsTable(Descs(fields))
  {
    m := map[];
    var counter := 0;
    while counter < |fields|
      invariant 0 <= counter <= |fields|
      invariant m == FieldsTable(Descs(fields)[..counter])
    {
      assert Descs(fields)[..counter + 1][..counter] == Descs(fields)[..counter];
      m := m[fields[counter].name := counter];
      counter := counter + 1;
    }
    assert Descs(fields)[..counter] == Descs(fields);
  }

  /** `(fields.is_ready() && ... && true)` */
  method AllFieldsReady(fields: seq<Field>) returns (ready: bool)
    ensures ready == AllReady(Descs(fields), Bindings(fields))
  {
    ready := true;
    var i := 0;
    while i < |fields|
      invariant 0 <= i <= |fields|
      invariant ready <==> forall k :: 0 <= k < i ==> Ready(Descs(fields)[k], Bindings(fields)[k])
    {
      assert Ready(Descs(fields)[i], Bindings(fields)[i]) <==> fields[i].IsReady();
      ready := ready && fields[i].IsReady();
      i := i + 1;
    }
  }

  /** `missing_keys_error(fields...)` */
  method MissingKeysErrorOf(fields: seq<Field>) returns (m: string)
    ensures m == MissingKeysError(Descs(fields), Bindings(fields))
  {
    var names := "";
    var i := 0;
    while i < |fields|
      invariant 0 <= i <= |fields|
      invariant names == MissingNames(Descs(fields), Bindings(fields), i)
    {
      if !fields[i].IsReady() {
        names := names + fields[i].name + ", ";
      }
      i := i + 1;
    }
    m := "Missing keys: " + names + "got " + StaticName(TokenType.EndObject);
  }

  /** At the end object: done when every field is ready, otherwise the missing keys at the current path. */
  method EndOfObject(ts: TokenStream, fields: seq<Field>) returns (r: ParseResult<()>)
    ensures r == if AllReady(Descs(fields), Bindings(fields)) then Done()
      else ParseError(MissingKeysError(Descs(fields), Bindings(fields)), GetPathSpec(ts.Setup(), ts.Snapshot()))
  {
    var path := ts.GetPath();
    var ready := AllFieldsReady(fields);
    if ready {
      return Done();
    }
    var message := MissingKeysErrorOf(fields);
    r := ParseError(message, path);
  }

  /** `parse_object(tokens, fields...)`: a start object, then the key loop. */
  method ParseObject(ts: TokenStream, fields: seq<Field>) returns (r: ParseResult<()>)
    requires ts.Valid() && Separate(fields)
    modifies ts, ts.path, fields, Slots(fields)
    ensures ts.Valid()
    ensures ObjectParsed(r, Bindings(fields), ts.Snapshot()) ==
      ParseSpec.ParseObject(ts.Setup(), Descs(fields), old(Bindings(fields)), old(ts.Snapshot()))
    decreases Measure(ts.Setup(), ts.Snapshot()), TObject(Descs(fields)), 0
  {
    ghost var bs := Bindings(fields);
    var token := ts.Next();
    assert Bindings(fields) == bs;
    if token.None? {
      r := EndOrErrorOf(ts);
      return;
    }
    if !token.value.StartObjectToken? {
      r := ErrorHere(ts, UnexpectedTokenError([TokenType.StartObject], token.value));
      return;
    }
    var table := BuildFieldsMap(fields);
    r := KeyLoop(ts, fields, table);
  }

  /** The `while (true)` loop of `parse_object`: a key and its value per round, until the end object. */
  method KeyLoop(ts: TokenStream, fields: seq<Field>, table: map<string, nat>) returns (r: ParseResult<()>)
    requires ts.Valid() && Separate(fields) && table == FieldsTable(Descs(fields))
    modifies ts, ts.path, fields, Slots(fields)
    ensures ts.Valid()
    ensures ObjectParsed(r, Bindings(fields), ts.Snapshot()) ==
      ObjectLoop(ts.Setup(), Descs(fields), table, old(Bindings(fields)), old(ts.Snapshot()))
    decreases Measure(ts.Setup(), ts.Snapshot()), TObject(Descs(fields)), 1
  {
    ghost var m0 := Measure(ts.Setup(), ts.Snapshot());
    ghost var goal := ObjectLoop(ts.Setup(), Descs(fields), table, Bindings(fields), ts.Snapshot());
    var stop := false;
    r := Done();
    while !stop
      invariant ts.Valid() && Measure(ts.Setup(), ts.Snapshot()) <= m0
      invariant !stop ==> ObjectLoop(ts.Setup(), Descs(fields), table, Bindings(fields), ts.Snapshot()) == goal
      invariant stop ==> ObjectParsed(r, Bindings(fields), ts.Snapshot()) == goal
      decreases !stop, Measure(ts.Setup(), ts.Snapshot())
    {
      stop, r := KeyRound(ts, fields, table, goal);
    }
  }

  /**
   * One round of the key loop, on a stream and bindings from which the loop
   * computes `goal`: the next key and its value, or the end of the loop with
   * `goal` as its result.
   */
  method KeyRound(ts: TokenStream, fields: seq<Field>, table: map<string, nat>, ghost goal: ObjectParsed) returns (stop: bool, r: ParseResult<()>)
    requires ts.Valid() && Separate(fields) && table == FieldsTable(Descs(fields))
    requires ObjectLoop(ts.Setup(), Descs(fields), table, Bindings(fields), ts.Snapshot()) == goal
    modifies ts, ts.path, fields, Slots(fields)
    ensures ts.Valid()
    ensures stop ==> ObjectParsed(r, Bindings(fields), ts.Snapshot()) == goal
    ensures !stop ==> Measure(ts.Setup(), ts.Snapshot()) < Measure(ts.Setup(), old(ts.Snapshot()))
    ensures !stop ==> ObjectLoop(ts.Setup(), Descs(fields), table, Bindings(fields), ts.Snapshot()) == goal
    decreases Measure(ts.Setup(), ts.Snapshot()), TObject(Descs(fields)), 0
  {
    ghost var bs := Bindings(fields);
    var next := ts.Next();
    assert Bindings(fields) == bs;
    stop := true;
    if next.None? {
      r := EndOrErrorOf(ts);
      return;
    }
    if next.value.EndObjectToken? {
      r := EndOfObject(ts, fields);
      return;
    }
    stop, r := KeyEntry(ts, fields, table, next.value, old(ts.Snapshot()), goal);
  }

  /** The round of the key loop that met `token`, neither absent nor an end object, in state `s0`: a known key's value, or an error. */
  method KeyEntry(ts: TokenStream, fields: seq<Field>, table: map<string, nat>, token: Token, ghost s0: State, ghost goal: ObjectParsed)
    returns (stop: bool, r: ParseResult<()>)
    requires ts.Valid() && Separate(fields) && table == FieldsTable(Descs(fields)) && !token.EndObjectToken?
    requires Inv(ts.Setup(), s0) && NextSpec(ts.Setup(), s0) == Step(Some(token), ts.Snapshot())
    requires ObjectLoop(ts.Setup(), Descs(fields), table, Bindings(fields), s0) == goal
    modifies ts, ts.path, fields, Slots(fields)
    ensures ts.Valid()
    ensures stop ==> ObjectParsed(r, Bindings(fields), ts.Snapshot()) == goal
    ensures !stop ==> Measure(ts.Setup(), ts.Snapshot()) < Measure(ts.Setup(), s0)
    ensures !stop ==> ObjectLoop(ts.Setup(), Descs(fields), table, Bindings(fields), ts.Snapshot()) == goal
    decreases Measure(ts.Setup(), ts.Snapshot()), TObject(Descs(fields)), 1
  {
    stop := true;
    if !token.KeyToken? {
      r := ErrorHere(ts, UnexpectedTokenError([TokenType.Key, TokenType.EndObject], token));
      return;
    }
    var key := token.key;
    if key !in table {
      r := ErrorHere(ts, "Unexpected key: " + key);
      return;
    }
    r := ParseField(ts, fields, key, table[key]);
    stop := !r.IsOk();
  }

  /** `parse_field(tokens, key, index, fields...)`: the field at `index` (`call_on_nth`) is parsed unless already set. */
  method ParseField(ts: TokenStream, fields: seq<Field>, key: string, index: nat) returns (r: ParseResult<()>)
    requires ts.Valid() && Separate(fields) && index < |fields|
    modifies ts, ts.path, fields, Slots(fields)
    ensures ts.Valid()
    ensures ObjectParsed(r, Bindings(fields), ts.Snapshot()) ==
      ParseSpec.ParseField(ts.Setup(), Descs(fields), key, index, old(Bindings(fields)), old(ts.Snapshot()))
    decreases Measure(ts.Setup(), ts.Snapshot()), TObject(Descs(fields)), 0
  {
    var field := fields[index];
    if field.IsSet() {
      r := ErrorHere(ts, "Duplicate key: " + key);
      return;
    }
    assert Descs(fields)[index] in Descs(fields);
    var result := Parse(ts, field.ty);
    if !result.IsOk() {
      return ConvertError(result);
    }
    field.Set(result.value);
    r := Done();
  }

  /** `parse_from<source>(tokens, f)` */
  method ParseFrom(ts: TokenStream, t: TypeDesc) returns (r: ParseResult<Value>)
    requires ts.Valid() && t.TFrom?
    modifies ts, ts.path
    ensures ts.Valid()
    ensures Parsed(r, ts.Snapshot()) == ParseSpec.ParseFrom(ts.Setup(), t, old(ts.Snapshot()))
    decreases Measure(ts.Setup(), ts.Snapshot()), t, 1
  {
    var source := Parse(ts, t.source);
    if !source.IsOk() {
      return ConvertError(source);
    }
    match t.convert(source.value)
    case Total(v) => r := Ok(v);
    case Fallible(res) => r := res;
  }
}
