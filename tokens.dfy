/**
 * The token model: the closed variant of lexical JSON events that the
 * lexer delivers and the writer accepts (include/ctjson/detail/Token.hpp).
 */
module Tokens {
  import opened Wrappers

  /** The fixed-width payload types of the numeric tokens. */
  type I32 = x: int | -0x8000_0000 <= x < 0x8000_0000
  type U32 = x: int | 0 <= x < 0x1_0000_0000
  type I64 = x: int | -0x8000_0000_0000_0000 <= x < 0x8000_0000_0000_0000
  type U64 = x: int | 0 <= x < 0x1_0000_0000_0000_0000

  /** A double is carried as an opaque 64-bit pattern: no floating arithmetic is modelled. */
  datatype Double = Double(bits: bv64)

  /** The 14 token kinds, in the order of the source's enumeration. */
  datatype TokenType =
    | Null | Bool | Int | Uint | Int64 | Uint64 | Double | RawNumber | String
    | StartObject | Key | EndObject | StartArray | EndArray

  /** A token: exactly one kind, with the payload of that kind's fixed type. */
  datatype Token =
    | NullToken
    | BoolToken(b: bool)
    | IntToken(i32: I32)
    | UintToken(u32: U32)
    | Int64Token(i64: I64)
    | Uint64Token(u64: U64)
    | DoubleToken(d: Double)
    | NumberToken(raw: string)
    | StringToken(str: string)
    | StartObjectToken
    | KeyToken(key: string)
    | EndObjectToken(members: U32)
    | StartArrayToken
    | EndArrayToken(elements: U32)

  /** What a token carries, independently of its kind (the `value` member of `TokenValue<T>`). */
  datatype Payload =
    | NoValue
    | BoolValue(b: bool)
    | IntegerValue(n: int)
    | DoubleValue(d: Double)
    | StringValue(s: string)

  /** The kind of the alternative a token holds. */
  function Kind(t: Token): TokenType {
    match t
    case NullToken => TokenType.Null
    case BoolToken(_) => TokenType.Bool
    case IntToken(_) => TokenType.Int
    case UintToken(_) => TokenType.Uint
    case Int64Token(_) => TokenType.Int64
    case Uint64Token(_) => TokenType.Uint64
    case DoubleToken(_) => TokenType.Double
    case NumberToken(_) => TokenType.RawNumber
    case StringToken(_) => TokenType.String
    case StartObjectToken => TokenType.StartObject
    case KeyToken(_) => TokenType.Key
    case EndObjectToken(_) => TokenType.EndObject
    case StartArrayToken => TokenType.StartArray
    case EndArrayToken(_) => TokenType.EndArray
  }

  /** Does payload `p` have the value type that `ExactToken` fixes for kind `k`? */
  predicate Fits(k: TokenType, p: Payload) {
    match k
    case Null | StartObject | StartArray => p.NoValue?
    case EndObject | EndArray | Uint => p.IntegerValue? && 0 <= p.n < 0x1_0000_0000
    case Bool => p.BoolValue?
    case Int => p.IntegerValue? && -0x8000_0000 <= p.n < 0x8000_0000
    case Int64 => p.IntegerValue? && -0x8000_0000_0000_0000 <= p.n < 0x8000_0000_0000_0000
    case Uint64 => p.IntegerValue? && 0 <= p.n < 0x1_0000_0000_0000_0000
    case Double => p.DoubleValue?
    case RawNumber | String | Key => p.StringValue?
  }

  /**
   * `Token::create<k>(args...)`: builds the alternative of kind `k` from its
   * payload; the C++ only compiles when the arguments have the payload type,
   * which is `Fits` here.
   */
  function Create(k: TokenType, p: Payload): (r: Option<Token>)
    ensures r.Some? <==> Fits(k, p)
    ensures r.Some? ==> IsOfType(r.value, k) && ValueOf(r.value, k) == p
  {
    if !Fits(k, p) then None
    else match k
      case Null => Some(NullToken)
      case Bool => Some(BoolToken(p.b))
      case Int => Some(IntToken(p.n))
      case Uint => Some(UintToken(p.n))
      case Int64 => Some(Int64Token(p.n))
      case Uint64 => Some(Uint64Token(p.n))
      case Double => Some(DoubleToken(p.d))
      case RawNumber => Some(NumberToken(p.s))
      case String => Some(StringToken(p.s))
      case StartObject => Some(StartObjectToken)
      case Key => Some(KeyToken(p.s))
      case EndObject => Some(EndObjectToken(p.n))
      case StartArray => Some(StartArrayToken)
      case EndArray => Some(EndArrayToken(p.n))
  }

  /** `is_of_type<k>()`: true for exactly the kind the token holds. */
  predicate IsOfType(t: Token, k: TokenType)
    ensures IsOfType(t, k) <==> k == Kind(t)
  {
    match t
    case NullToken => k.Null?
    case BoolToken(_) => k.Bool?
    case IntToken(_) => k.Int?
    case UintToken(_) => k.Uint?
    case Int64Token(_) => k.Int64?
    case Uint64Token(_) => k.Uint64?
    case DoubleToken(_) => k.Double?
    case NumberToken(_) => k.RawNumber?
    case StringToken(_) => k.String?
    case StartObjectToken => k.StartObject?
    case KeyToken(_) => k.Key?
    case EndObjectToken(_) => k.EndObject?
    case StartArrayToken => k.StartArray?
    case EndArrayToken(_) => k.EndArray?
  }

  /** `value<k>()`: only defined on a token of kind `k`; yields a payload of that kind's type. */
  function ValueOf(t: Token, k: TokenType): (p: Payload)
    requires IsOfType(t, k)
    ensures Fits(k, p)
  {
    match t
    case NullToken | StartObjectToken | StartArrayToken => NoValue
    case BoolToken(b) => BoolValue(b)
    case IntToken(n) => IntegerValue(n)
    case UintToken(n) => IntegerValue(n)
    case Int64Token(n) => IntegerValue(n)
    case Uint64Token(n) => IntegerValue(n)
    case DoubleToken(d) => DoubleValue(d)
    case NumberToken(s) => StringValue(s)
    case StringToken(s) => StringValue(s)
    case KeyToken(s) => StringValue(s)
    case EndObjectToken(n) => IntegerValue(n)
    case EndArrayToken(n) => IntegerValue(n)
  }

  /** Reading a token's payload and creating a token of the same kind from it gives the token back. */
  lemma CreateValueRoundTrip(t: Token)
    ensures Create(Kind(t), ValueOf(t, Kind(t))) == Some(t)
  {
    match t
    case NullToken =>
    case BoolToken(_) =>
    case IntToken(_) =>
    case UintToken(_) =>
    case Int64Token(_) =>
    case Uint64Token(_) =>
    case DoubleToken(_) =>
    case NumberToken(_) =>
    case StringToken(_) =>
    case StartObjectToken =>
    case KeyToken(_) =>
    case EndObjectToken(_) =>
    case StartArrayToken =>
    case EndArrayToken(_) =>
  }

  /** The static `name<k>()` of each kind, as it appears in error messages: two words exactly for the structural start and end kinds. */
  function StaticName(k: TokenType): (r: string)
    ensures |r| > 0
    ensures ' ' in r <==> k == StartObject || k == EndObject || k == StartArray || k == EndArray
  {
    match k
    case Null => "null"
    case Bool => "bool"
    case Int => "int"
    case Int64 => "int64"
    case Uint => "uint"
    case Uint64 => "uint64"
    case Double => "double"
    case RawNumber => "number"
    case String => "string"
    case StartObject => "start object"
    case Key => "key"
    case EndObject => "end object"
    case StartArray => "start array"
    case EndArray => "end array"
  }

  /** `name()` of a token: the name of the alternative it holds (a visit over the variant). */
  function Name(t: Token): (r: string)
    ensures r == StaticName(Kind(t))
  {
    match t
    case NullToken => "null"
    case BoolToken(_) => "bool"
    case IntToken(_) => "int"
    case UintToken(_) => "uint"
    case Int64Token(_) => "int64"
    case Uint64Token(_) => "uint64"
    case DoubleToken(_) => "double"
    case NumberToken(_) => "number"
    case StringToken(_) => "string"
    case StartObjectToken => "start object"
    case KeyToken(_) => "key"
    case EndObjectToken(_) => "end object"
    case StartArrayToken => "start array"
    case EndArrayToken(_) => "end array"
  }

  /** No two kinds share a name, so a message names the kind unambiguously. */
  lemma StaticNamesDistinct(k1: TokenType, k2: TokenType)
    requires k1 != k2
    ensures StaticName(k1) != StaticName(k2)
  {
  }

  /** The kinds that carry no scalar value, in `MetaTokens` order. */
  const MetaTokens: seq<TokenType> := [TokenType.Null, TokenType.StartObject, TokenType.Key, TokenType.EndObject, TokenType.StartArray, TokenType.EndArray]

  /** The scalar kinds, in the priority order in which primitive parsing tries them (`ValueTokens`). */
  const ValueTokens: seq<TokenType> := [TokenType.Bool, TokenType.Int, TokenType.Uint, TokenType.Int64, TokenType.Uint64, TokenType.Double, TokenType.RawNumber, TokenType.String]

  /** Meta and value kinds partition the 14 kinds: null and the structural kinds are not value kinds. */
  lemma TokenListsPartition(k: TokenType)
    ensures (k in ValueTokens) != (k in MetaTokens)
    ensures k in ValueTokens <==> !(k.Null? || k.StartObject? || k.Key? || k.EndObject? || k.StartArray? || k.EndArray?)
  {
  }
}
