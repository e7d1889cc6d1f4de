/**
 * The C++ types the (de)serialiser dispatches on, as descriptors, the values
 * of those types, the category of each descriptor, and the insertion rule of
 * each container (include/ctjson/detail/Typing.hpp).
 */
module Typing {
  import opened Wrappers
  import opened Tokens
  import opened TypeUtils
  import opened Results

  /**
   * The target types. `TFloat` carries the casts `static_cast<T>` from an
   * integer and from a double, and the widening to `double` the writer's
   * `floating` performs; `TObject` is a class whose `json_parse` /
   * `json_dump` bind its members as fields (or whose `Deserializable` /
   * `Serializable` instance does); `TFrom` is a class whose `json_parse`
   * is `parse_from<source>(tokens, convert)`.
   */
  datatype TypeDesc =
    | TBool
    | TInt(it: IntType)
    | TFloat(fromInteger: int -> Double, fromDouble: Double -> Double, toDouble: Double -> Double)
    | TString
    | TOptional(inner: TypeDesc)
    | TVector(elem: TypeDesc)
    | TSet(elem: TypeDesc)
    | TMap(elem: TypeDesc)
    | TObject(fields: seq<FieldDesc>)
    | TFrom(source: TypeDesc, convert: Value -> Conversion)

  /**
   * One member bound by a field: its JSON key, its type, and its value in the
   * default-constructed object before parsing.
   */
  datatype FieldDesc = FieldDesc(name: string, ty: TypeDesc, initial: Value)

  /** Values of the target types; `VObj` holds the members in declaration order. */
  datatype Value =
    | VBool(b: bool)
    | VInt(i: int)
    | VFloat(d: Double)
    | VStr(s: string)
    | VOpt(o: Option<Value>)
    | VSeq(items: seq<Value>)
    | VSet(elems: set<Value>)
    | VDict(entries: map<string, Value>)
    | VObj(members: seq<Value>)

  /** What the conversion of `parse_from` returns: a plain value, or a `ParseResult`. */
  datatype Conversion = Total(v: Value) | Fallible(r: ParseResult<Value>)

  /** `is_json_value<T>`: arithmetic types and `std::string`. */
  predicate IsJsonValue(t: TypeDesc) {
    t.TBool? || t.TInt? || t.TFloat? || t.TString?
  }

  /** `is_optional_v<T>`: exactly `std::optional<U>`. */
  predicate IsOptional(t: TypeDesc) {
    t.TOptional?
  }

  /** `is_array_like_v<T>`: `std::vector`, `std::set` and `std::unordered_set`. */
  predicate IsArrayLike(t: TypeDesc) {
    t.TVector? || t.TSet?
  }

  /** `is_dict_like_v<T>`: string-keyed `std::map` and `std::unordered_map`. */
  predicate IsDictLike(t: TypeDesc) {
    t.TMap?
  }

  /** `has_parse_v` / `Deserializable` (and `has_dump_v` / `Serializable`): a class with its own strategy. */
  predicate IsCustom(t: TypeDesc) {
    t.TObject? || t.TFrom?
  }

  /** The overload of `parse`/`dump` a type selects. */
  datatype Strategy = JsonValue | Optional | ArrayLike | DictLike | Custom

  function StrategyOf(t: TypeDesc): (s: Strategy)
    ensures s.JsonValue? <==> IsJsonValue(t)
    ensures s.Optional? <==> IsOptional(t)
    ensures s.ArrayLike? <==> IsArrayLike(t)
    ensures s.DictLike? <==> IsDictLike(t)
    ensures s.Custom? <==> IsCustom(t)
  {
    match t
    case TBool | TInt(_) | TFloat(_, _, _) | TString => JsonValue
    case TOptional(_) => Optional
    case TVector(_) | TSet(_) => ArrayLike
    case TMap(_) => DictLike
    case TObject(_) | TFrom(_, _) => Custom
  }

  /** A field is optional exactly when its declared type is `std::optional<_>` (`FieldBase::is_opt`). */
  predicate IsOpt(f: FieldDesc)
    ensures IsOpt(f) <==> f.ty.TOptional?
  {
    IsOptional(f.ty)
  }

  /** Does `v` have type `t`? Integers must lie in their type's range, objects carry one value per declared member. */
  predicate Conforms(t: TypeDesc, v: Value)
    decreases t
  {
    match t
    case TBool => v.VBool?
    case TInt(it) => v.VInt? && InType(it, v.i)
    case TFloat(_, _, _) => v.VFloat?
    case TString => v.VStr?
    case TOptional(u) => v.VOpt? && (v.o.Some? ==> Conforms(u, v.o.value))
    case TVector(e) => v.VSeq? && forall k :: 0 <= k < |v.items| ==> Conforms(e, v.items[k])
    case TSet(e) => v.VSet? && forall x :: x in v.elems ==> Conforms(e, x)
    case TMap(e) => v.VDict? && forall k :: k in v.entries ==> Conforms(e, v.entries[k])
    case TObject(fs) =>
      v.VObj? && |v.members| == |fs| && forall k :: 0 <= k < |fs| ==> Conforms(fs[k].ty, v.members[k])
    case TFrom(_, _) => true
  }

  /** The container an array-like or dict-like parse starts from: `T result = {}`. */
  function EmptyContainer(t: TypeDesc): (r: Value)
    requires IsArrayLike(t) || IsDictLike(t)
    ensures ContainerOf(t, r)
    ensures r == VSeq([]) || r == VSet({}) || r == VDict(map[])
  {
    match t
    case TVector(_) => VSeq([])
    case TSet(_) => VSet({})
    case TMap(_) => VDict(map[])
  }

  /** `r` has the representation of container type `t`. */
  predicate ContainerOf(t: TypeDesc, r: Value) {
    (t.TVector? && r.VSeq?) || (t.TSet? && r.VSet?) || (t.TMap? && r.VDict?)
  }

  /** `is_array_like<std::vector<T>>::emplace`: append at the end. */
  function EmplaceBack(items: seq<Value>, x: Value): (r: seq<Value>)
    ensures |r| == |items| + 1 && r[..|items|] == items && r[|items|] == x
  {
    items + [x]
  }

  /** `is_array_like<std::set<T>>::emplace` (and the unordered one): insert unless present. */
  function EmplaceSet(s: set<Value>, x: Value): (r: set<Value>)
    ensures x in r && s <= r && r - s <= {x}
    ensures x in s ==> r == s
  {
    s + {x}
  }

  /** `is_dict_like<...>::emplace(key, value)`: insert unless the key is present, in which case the old value stays. */
  function EmplaceEntry(m: map<string, Value>, k: string, v: Value): (r: map<string, Value>)
    ensures k in r && r.Keys == m.Keys + {k}
    ensures k in m ==> r == m
    ensures k !in m ==> r[k] == v && forall j :: j in m ==> r[j] == m[j]
  {
    if k in m then m else m[k := v]
  }

  /** The insertion an array-like parse performs for one parsed element. */
  function Insert(t: TypeDesc, acc: Value, x: Value): (r: Value)
    requires IsArrayLike(t) && ContainerOf(t, acc)
    ensures ContainerOf(t, r)
    ensures t.TVector? ==> r.items == EmplaceBack(acc.items, x)
    ensures t.TSet? ==> r.elems == EmplaceSet(acc.elems, x)
  {
    if t.TVector? then VSeq(EmplaceBack(acc.items, x)) else VSet(EmplaceSet(acc.elems, x))
  }

  /** Every type selects exactly one strategy: the custom strategies are folded into one, so no overload is ambiguous. */
  lemma ExactlyOneStrategy(t: TypeDesc)
    ensures IsJsonValue(t) || IsOptional(t) || IsArrayLike(t) || IsDictLike(t) || IsCustom(t)
    ensures !(IsJsonValue(t) && IsOptional(t)) && !(IsJsonValue(t) && IsArrayLike(t))
    ensures !(IsJsonValue(t) && IsDictLike(t)) && !(IsJsonValue(t) && IsCustom(t))
    ensures !(IsOptional(t) && IsArrayLike(t)) && !(IsOptional(t) && IsDictLike(t)) && !(IsOptional(t) && IsCustom(t))
    ensures !(IsArrayLike(t) && IsDictLike(t)) && !(IsArrayLike(t) && IsCustom(t)) && !(IsDictLike(t) && IsCustom(t))
  {
  }
}
