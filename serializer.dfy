/**
 * Writing a typed value: the writer that records the calls it receives
 * (include/ctjson/SimpleWriter.hpp), what each overload of `dump` emits
 * (include/ctjson/Serializer.hpp), and the field protocol of
 * `SerializationHelper` (include/ctjson/SerializationHelper.hpp).
 */
module Serializer {
  import opened Wrappers
  import opened Tokens
  import opened TypeUtils
  import opened Typing

  /**
   * `SimpleWriter::integer`: a positive value is written unsigned, any other
   * signed, each as the 32-bit call when the value fits and the 64-bit one
   * otherwise.
   */
  function IntegerEvent(it: IntType, v: int): (tok: Token)
    requires InType(it, v)
    ensures v > 0 ==> tok.UintToken? || tok.Uint64Token?
    ensures v <= 0 ==> tok.IntToken? || tok.Int64Token?
    ensures tok.UintToken? <==> 0 < v < 0x1_0000_0000
    ensures tok.IntToken? <==> -0x8000_0000 <= v <= 0
    ensures ValueOf(tok, Kind(tok)) == IntegerValue(v)
  {
    LimitsInType(it);
    if v > 0 then
      if InRange(Uint32, it, v) then UintToken(v) else Uint64Token(v)
    else
      if InRange(Int32, it, v) then IntToken(v) else Int64Token(v)
  }

  /** The order in which a set's elements and a map's keys are visited; the source leaves it to the container. */
  datatype Order = Order(elements: set<Value> -> seq<Value>, keys: set<string> -> seq<string>)

  /** `xs` lists the members of `s`, each once. */
  ghost predicate Enumerates<T(!new)>(xs: seq<T>, s: set<T>) {
    && (forall i, j :: 0 <= i < j < |xs| ==> xs[i] != xs[j])
    && (forall i :: 0 <= i < |xs| ==> xs[i] in s)
    && (forall x :: x in s ==> x in xs)
  }

  /** An iteration visits every member exactly once. */
  ghost predicate Lawful(o: Order) {
    (forall s :: Enumerates(o.elements(s), s)) && (forall k :: Enumerates(o.keys(k), k))
  }

  /** A type every part of which has a `dump` overload: a `parse_from` class has none. */
  predicate Dumpable(t: TypeDesc)
    decreases t
  {
    match t
    case TBool => true
    case TInt(_) => true
    case TFloat(_, _, _) => true
    case TString => true
    case TOptional(u) => Dumpable(u)
    case TVector(e) => Dumpable(e)
    case TSet(e) => Dumpable(e)
    case TMap(e) => Dumpable(e)
    case TObject(fs) => forall i :: 0 <= i < |fs| ==> Dumpable(fs[i].ty)
    case TFrom(_, _) => false
  }

  /** The writer calls `dump<T>(v, writer)` makes, in order. */
  function Dumped(t: TypeDesc, v: Value, o: Order): (evs: seq<Token>)
    requires Dumpable(t) && Conforms(t, v) && Lawful(o)
    ensures |evs| > 0
    decreases t, 1
  {
    match t
    case TBool => [BoolToken(v.b)]
    case TInt(it) => [IntegerEvent(it, v.i)]
    case TFloat(_, _, toDouble) => [DoubleToken(toDouble(v.d))]
    case TString => [StringToken(v.s)]
    case TOptional(u) => if v.o.Some? then Dumped(u, v.o.value, o) else [NullToken]
    case TVector(_) => var xs := Visited(t, v, o); [StartArrayToken] + Items(t, xs, |xs|, o) + [EndArrayToken(0)]
    case TSet(_) => var xs := Visited(t, v, o); [StartArrayToken] + Items(t, xs, |xs|, o) + [EndArrayToken(0)]
    case TMap(_) =>
      var ks := KeyOrder(v.entries, o);
      [StartObjectToken] + Entries(t, v.entries, ks, |ks|, o) + [EndObjectToken(0)]
    case TObject(_) => [StartObjectToken] + Members(t, v.members, |v.members|, o) + [EndObjectToken(0)]
  }

  /** The elements the range-for over an array-like value visits: a vector's in order, a set's in iteration order. */
  function Visited(t: TypeDesc, v: Value, o: Order): (xs: seq<Value>)
    requires IsArrayLike(t) && Conforms(t, v) && Lawful(o)
    ensures forall k :: 0 <= k < |xs| ==> Conforms(t.elem, xs[k])
    ensures t.TVector? ==> xs == v.items
    ensures t.TSet? ==> Enumerates(xs, v.elems)
  {
    if t.TVector? then v.items else o.elements(v.elems)
  }

  /** The first `n` elements of an array-like value, each dumped in turn. */
  function Items(t: TypeDesc, xs: seq<Value>, n: nat, o: Order): (evs: seq<Token>)
    requires IsArrayLike(t) && Dumpable(t.elem) && Lawful(o) && n <= |xs|
    requires forall k :: 0 <= k < |xs| ==> Conforms(t.elem, xs[k])
    decreases t, 0, n
  {
    if n == 0 then [] else Items(t, xs, n - 1, o) + Dumped(t.elem, xs[n - 1], o)
  }

  /** The keys the range-for over a dict-like value visits, in iteration order. */
  function KeyOrder(m: map<string, Value>, o: Order): (ks: seq<string>)
    requires Lawful(o)
    ensures forall i :: 0 <= i < |ks| ==> ks[i] in m
    ensures Enumerates(ks, m.Keys)
  {
    o.keys(m.Keys)
  }

  /** The first `n` entries of a dict-like value in key order `ks`: the key, then the value. */
  function Entries(t: TypeDesc, m: map<string, Value>, ks: seq<string>, n: nat, o: Order): (evs: seq<Token>)
    requires t.TMap? && Dumpable(t.elem) && Lawful(o) && n <= |ks|
    requires forall i :: 0 <= i < |ks| ==> ks[i] in m
    requires forall k :: k in m ==> Conforms(t.elem, m[k])
    decreases t, 0, n
  {
    if n == 0 then []
    else Entries(t, m, ks, n - 1, o) + [KeyToken(ks[n - 1])] + Dumped(t.elem, m[ks[n - 1]], o)
  }

  /** `SerializationHelper::dump` for the first `n` fields: each field's name as a key, then its member. */
  function Members(t: TypeDesc, ms: seq<Value>, n: nat, o: Order): (evs: seq<Token>)
    requires t.TObject? && Dumpable(t) && Conforms(t, VObj(ms)) && Lawful(o) && n <= |ms|
    ensures |evs| >= 2 * n
    ensures n > 0 ==> evs[0] == KeyToken(t.fields[0].name)
    decreases t, 0, n
  {
    if n == 0 then []
    else
      assert t.fields[n - 1] in t.fields;
      Members(t, ms, n - 1, o) + [KeyToken(t.fields[n - 1].name)] + Dumped(t.fields[n - 1].ty, ms[n - 1], o)
  }

  /** A class without fields is written as an empty object. */
  lemma EmptyObjectDump(o: Order)
    requires Lawful(o)
    ensures Dumped(TObject([]), VObj([]), o) == [StartObjectToken, EndObjectToken(0)]
  {
  }

  /** An absent optional is written as null. */
  lemma AbsentOptionalDump(u: TypeDesc, o: Order)
    requires Dumpable(TOptional(u)) && Lawful(o)
    ensures Dumped(TOptional(u), VOpt(None), o) == [NullToken]
  {
  }

  /** An absent optional member is still written: its key, then null. */
  lemma AbsentOptionalMemberDump(t: TypeDesc, ms: seq<Value>, i: nat, o: Order)
    requires t.TObject? && Dumpable(t) && Conforms(t, VObj(ms)) && Lawful(o) && i < |ms|
    requires t.fields[i].ty.TOptional? && ms[i] == VOpt(None)
    ensures Members(t, ms, i + 1, o) == Members(t, ms, i, o) + [KeyToken(t.fields[i].name)] + [NullToken]
  {
    assert t.fields[i] in t.fields;
    AbsentOptionalDump(t.fields[i].ty.inner, o);
  }

  /** A dump never starts with an end token, and starts with null only for an absent optional. */
  lemma FirstEvent(t: TypeDesc, v: Value, o: Order)
    requires Dumpable(t) && Conforms(t, v) && Lawful(o)
    ensures !Dumped(t, v, o)[0].EndObjectToken? && !Dumped(t, v, o)[0].EndArrayToken? && !Dumped(t, v, o)[0].KeyToken?
    ensures Dumped(t, v, o)[0].NullToken? ==> t.TOptional?
    decreases t
  {
    if t.TOptional? && v.o.Some? {
      FirstEvent(t.inner, v.o.value, o);
    }
  }

  /**
   * The writer as the calls it has received: every method appends one token
   * for its call, and a reader of the written text reports a token `RoundTrip.Same` as
   * it (an integer 0 is recorded as signed but read back as unsigned; the end
   * calls pass no count).
   */
  class SimpleWriter {
    var events: seq<Token>

    constructor ()
      ensures events == []
    {
      events := [];
    }

    /** `null()` */
    method Null()
      modifies this
      ensures events == old(events) + [NullToken]
    {
      events := events + [NullToken];
    }

    /** `boolean(value)` */
    method Boolean(b: bool)
      modifies this
      ensures events == old(events) + [BoolToken(b)]
    {
      events := events + [BoolToken(b)];
    }

    /** `integer(value)`, for a value of integer type `it`. */
    method Integer(it: IntType, v: int)
      requires InType(it, v)
      modifies this
      ensures events == old(events) + [IntegerEvent(it, v)]
    {
      LimitsInType(it);
      var tok: Token;
      if v > 0 {
        var fits := InRange(Uint32, it, v);
        if fits {
          tok := UintToken(v);
        } else {
          tok := Uint64Token(v);
        }
      } else {
        var fits := InRange(Int32, it, v);
        if fits {
          tok := IntToken(v);
        } else {
          tok := Int64Token(v);
        }
      }
      events := events + [tok];
    }

    /** `floating(value)`, once widened to `double`. */
    method Floating(d: Double)
      modifies this
      ensures events == old(events) + [DoubleToken(d)]
    {
      events := events + [DoubleToken(d)];
    }

    /** `string(value)` */
    method String(s: string)
      modifies this
      ensures events == old(events) + [StringToken(s)]
    {
      events := events + [StringToken(s)];
    }

    /** `start_object()` */
    method StartObject()
      modifies this
      ensures events == old(events) + [StartObjectToken]
    {
      events := events + [StartObjectToken];
    }

    /** `key(key)` */
    method Key(k: string)
      modifies this
      ensures events == old(events) + [KeyToken(k)]
    {
      events := events + [KeyToken(k)];
    }

    /** `end_object()` */
    method EndObject()
      modifies this
      ensures events == old(events) + [EndObjectToken(0)]
    {
      events := events + [EndObjectToken(0)];
    }

    /** `start_array()` */
    method StartArray()
      modifies this
      ensures events == old(events) + [StartArrayToken]
    {
      events := events + [StartArrayToken];
    }

    /** `end_array()` */
    method EndArray()
      modifies this
      ensures events == old(events) + [EndArrayToken(0)]
    {
      events := events + [EndArrayToken(0)];
    }
  }

  /** `SerializationHelper::Field<T>`: a JSON key and a read-only reference to the member. */
  class Field {
    const name: string
    const ty: TypeDesc
    const member: Value

    /** `Field(name, ref)` */
    constructor (name: string, ty: TypeDesc, member: Value)
      ensures this.name == name && this.ty == ty && this.member == member
    {
      this.name := name;
      this.ty := ty;
      this.member := member;
    }

    /** `ref()` */
    function Ref(): (v: Value)
      ensures v == member
    {
      member
    }
  }

  /** `Serializer::dump<T>(value, writer)`: the overload of the type's strategy. */
  method Dump(w: SimpleWriter, t: TypeDesc, v: Value, o: Order)
    requires Dumpable(t) && Conforms(t, v) && Lawful(o)
    modifies w
    ensures w.events == old(w.events) + Dumped(t, v, o)
    decreases t, 2
  {
    match t
    case TBool => DumpValue(w, t, v, o);
    case TInt(_) => DumpValue(w, t, v, o);
    case TFloat(_, _, _) => DumpValue(w, t, v, o);
    case TString => DumpValue(w, t, v, o);
    case TOptional(_) => DumpOptional(w, t, v, o);
    case TVector(_) => DumpArray(w, t, v, o);
    case TSet(_) => DumpArray(w, t, v, o);
    case TMap(_) => DumpDict(w, t, v, o);
    case TObject(_) => DumpObjectType(w, t, v, o);
  }

  /** The overload for bools, integers, floating types and strings. */
  method DumpValue(w: SimpleWriter, t: TypeDesc, v: Value, o: Order)
    requires IsJsonValue(t) && Conforms(t, v) && Lawful(o)
    modifies w
    ensures w.events == old(w.events) + Dumped(t, v, o)
    decreases t, 1
  {
    match t
    case TBool => w.Boolean(v.b);
    case TInt(it) => w.Integer(it, v.i);
    case TFloat(_, _, toDouble) => w.Floating(toDouble(v.d));
    case TString => w.String(v.s);
  }

  /** The overload for `std::optional<U>`: the value if present, `null` otherwise. */
  method DumpOptional(w: SimpleWriter, t: TypeDesc, v: Value, o: Order)
    requires t.TOptional? && Dumpable(t) && Conforms(t, v) && Lawful(o)
    modifies w
    ensures w.events == old(w.events) + Dumped(t, v, o)
    decreases t, 1
  {
    if v.o.Some? {
      Dump(w, t.inner, v.o.value, o);
    } else {
      w.Null();
    }
  }

  /** The overload for vectors and sets: the elements in iteration order between array brackets. */
  method DumpArray(w: SimpleWriter, t: TypeDesc, v: Value, o: Order)
    requires IsArrayLike(t) && Dumpable(t) && Conforms(t, v) && Lawful(o)
    modifies w
    ensures w.events == old(w.events) + Dumped(t, v, o)
    decreases t, 1
  {
    var xs := Visited(t, v, o);
    w.StartArray();
    DumpElements(w, t, xs, o);
    w.EndArray();
    Bracketed(old(w.events), StartArrayToken, Items(t, xs, |xs|, o), EndArrayToken(0));
  }

  /** The range-for of the array overload: `dump(element, writer)` for each visited element. */
  method DumpElements(w: SimpleWriter, t: TypeDesc, xs: seq<Value>, o: Order)
    requires IsArrayLike(t) && Dumpable(t.elem) && Lawful(o)
    requires forall k :: 0 <= k < |xs| ==> Conforms(t.elem, xs[k])
    modifies w
    ensures w.events == old(w.events) + Items(t, xs, |xs|, o)
    decreases t, 0
  {
    for i := 0 to |xs|
      invariant w.events == old(w.events) + Items(t, xs, i, o)
    {
      ItemsSnoc(old(w.events), t, xs, i, o);
      Dump(w, t.elem, xs[i], o);
    }
  }

  /** One more element of `xs` adds its dump at the end. */
  lemma ItemsSnoc(before: seq<Token>, t: TypeDesc, xs: seq<Value>, i: nat, o: Order)
    requires IsArrayLike(t) && Dumpable(t.elem) && Lawful(o) && i < |xs|
    requires forall k :: 0 <= k < |xs| ==> Conforms(t.elem, xs[k])
    ensures before + Items(t, xs, i + 1, o) == before + Items(t, xs, i, o) + Dumped(t.elem, xs[i], o)
  {
    AppendAssociates(before, Items(t, xs, i, o), Dumped(t.elem, xs[i], o));
  }

  /** The writer calls of a bracketed dump, appended one after the other, make up the whole dump. */
  lemma Bracketed(before: seq<Token>, open: Token, body: seq<Token>, close: Token)
    ensures before + [open] + body + [close] == before + ([open] + body + [close])
  {
  }

  /** The overload for string-keyed maps: each key and its value in iteration order, between object brackets. */
  method DumpDict(w: SimpleWriter, t: TypeDesc, v: Value, o: Order)
    requires IsDictLike(t) && Dumpable(t) && Conforms(t, v) && Lawful(o)
    modifies w
    ensures w.events == old(w.events) + Dumped(t, v, o)
    decreases t, 1
  {
    var ks := KeyOrder(v.entries, o);
    w.StartObject();
    DumpEntries(w, t, v.entries, ks, o);
    w.EndObject();
    Bracketed(old(w.events), StartObjectToken, Entries(t, v.entries, ks, |ks|, o), EndObjectToken(0));
  }

  /** The range-for of the dict overload: `key(k)` then `dump(value, writer)` for each visited entry. */
  method DumpEntries(w: SimpleWriter, t: TypeDesc, m: map<string, Value>, ks: seq<string>, o: Order)
    requires t.TMap? && Dumpable(t.elem) && Lawful(o)
    requires forall i :: 0 <= i < |ks| ==> ks[i] in m
    requires forall k :: k in m ==> Conforms(t.elem, m[k])
    modifies w
    ensures w.events == old(w.events) + Entries(t, m, ks, |ks|, o)
    decreases t, 0
  {
    for i := 0 to |ks|
      invariant w.events == old(w.events) + Entries(t, m, ks, i, o)
    {
      EntriesSnoc(old(w.events), t, m, ks, i, o);
      w.Key(ks[i]);
      Dump(w, t.elem, m[ks[i]], o);
    }
  }

  /** One more key of `ks` adds the key and its value's dump at the end. */
  lemma EntriesSnoc(before: seq<Token>, t: TypeDesc, m: map<string, Value>, ks: seq<string>, i: nat, o: Order)
    requires t.TMap? && Dumpable(t.elem) && Lawful(o) && i < |ks|
    requires forall j :: 0 <= j < |ks| ==> ks[j] in m
    requires forall k :: k in m ==> Conforms(t.elem, m[k])
    ensures before + Entries(t, m, ks, i + 1, o) == before + Entries(t, m, ks, i, o) + [KeyToken(ks[i])] + Dumped(t.elem, m[ks[i]], o)
  {
    var e, k, d := Entries(t, m, ks, i, o), [KeyToken(ks[i])], Dumped(t.elem, m[ks[i]], o);
    AppendAssociates(before, e + k, d);
    AppendAssociates(before, e, k);
  }

  /** A class's `json_dump`: one field per member, in declaration order, then `SerializationHelper::dump`. */
  method DumpObjectType(w: SimpleWriter, t: TypeDesc, v: Value, o: Order)
    requires t.TObject? && Dumpable(t) && Conforms(t, v) && Lawful(o)
    modifies w
    ensures w.events == old(w.events) + Dumped(t, v, o)
    decreases t, 1
  {
    var fields: seq<Field> := [];
    for i := 0 to |t.fields|
      invariant |fields| == i && w.events == old(w.events)
      invariant forall k :: 0 <= k < i ==>
        fields[k].name == t.fields[k].name && fields[k].ty == t.fields[k].ty && fields[k].Ref() == v.members[k]
    {
      var field := new Field(t.fields[i].name, t.fields[i].ty, v.members[i]);
      fields := fields + [field];
    }
    assert v == VObj(v.members);
    DumpFields(w, fields, t, v.members, o);
    Bracketed(old(w.events), StartObjectToken, Members(t, v.members, |v.members|, o), EndObjectToken(0));
  }

  /** `SerializationHelper::dump(writer, fields...)` for fields bound to the members `ms` of a `t`. */
  method DumpFields(w: SimpleWriter, fields: seq<Field>, ghost t: TypeDesc, ghost ms: seq<Value>, o: Order)
    requires t.TObject? && Dumpable(t) && Conforms(t, VObj(ms)) && Lawful(o) && |fields| == |ms|
    requires forall k :: 0 <= k < |fields| ==>
      fields[k].name == t.fields[k].name && fields[k].ty == t.fields[k].ty && fields[k].Ref() == ms[k]
    modifies w
    ensures w.events == old(w.events) + [StartObjectToken] + Members(t, ms, |ms|, o) + [EndObjectToken(0)]
    decreases t, 0
  {
    w.StartObject();
    for i := 0 to |fields|
      invariant w.events == old(w.events) + [StartObjectToken] + Members(t, ms, i, o)
    {
      MembersSnoc(old(w.events) + [StartObjectToken], t, ms, i, o);
      w.Key(fields[i].name);
      Dump(w, fields[i].ty, fields[i].Ref(), o);
    }
    w.EndObject();
  }

  /** One more field adds its key and its member's dump at the end. */
  lemma MembersSnoc(before: seq<Token>, t: TypeDesc, ms: seq<Value>, i: nat, o: Order)
    requires t.TObject? && Dumpable(t) && Conforms(t, VObj(ms)) && Lawful(o) && i < |ms|
    ensures t.fields[i] in t.fields && Dumpable(t.fields[i].ty) && Conforms(t.fields[i].ty, ms[i])
    ensures before + Members(t, ms, i + 1, o)
      == before + Members(t, ms, i, o) + [KeyToken(t.fields[i].name)] + Dumped(t.fields[i].ty, ms[i], o)
  {
    assert t.fields[i] in t.fields;
    var m, k, d := Members(t, ms, i, o), [KeyToken(t.fields[i].name)], Dumped(t.fields[i].ty, ms[i], o);
    assert Members(t, ms, i + 1, o) == m + k + d;
    AppendAssociates(before, m + k, d);
    AppendAssociates(before, m, k);
  }

  lemma AppendAssociates(a: seq<Token>, b: seq<Token>, c: seq<Token>)
    ensures a + (b + c) == a + b + c
  {
  }
}
