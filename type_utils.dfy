/**
 * Sign-aware integer comparison and range check across mismatched widths,
 * and selection of the n-th argument (include/ctjson/detail/TypeUtils.hpp).
 */
module TypeUtils {

  /** The widths of C++ integer types. */
  datatype Width = W8 | W16 | W32 | W64

  /** 2^width: the number of values of a type of that width. */
  function Modulus(w: Width): (m: nat)
    ensures m >= 256
  {
    match w
    case W8 => 0x100
    case W16 => 0x1_0000
    case W32 => 0x1_0000_0000
    case W64 => 0x1_0000_0000_0000_0000
  }

  /** A C++ integral type other than bool: its signedness and width. */
  datatype IntType = IntType(signed: bool, width: Width)

  /** `std::numeric_limits<T>::min()`: -2^(width-1) for signed types, 0 for unsigned ones. */
  function Min(t: IntType): int {
    if t.signed then -(Modulus(t.width) / 2) else 0
  }

  /** `std::numeric_limits<T>::max()`: 2^(width-1) - 1 for signed types, 2^width - 1 for unsigned ones. */
  function Max(t: IntType): int {
    if t.signed then Modulus(t.width) / 2 - 1 else Modulus(t.width) - 1
  }

  /** `x` is a value of type `t`. */
  predicate InType(t: IntType, x: int) {
    Min(t) <= x <= Max(t)
  }

  /** The payload types of the lexer's integer tokens: int, unsigned, int64_t, uint64_t. */
  const Int32 := IntType(true, W32)
  const Uint32 := IntType(false, W32)
  const Int64 := IntType(true, W64)
  const Uint64 := IntType(false, W64)

  /**
   * `std::make_unsigned_t<T>(x)`: conversion to the unsigned type of the same
   * width, which C++ defines as reduction modulo 2^width.
   */
  function ToUnsigned(t: IntType, x: int): (r: int)
    ensures 0 <= r < Modulus(t.width)
  {
    x % Modulus(t.width)
  }

  /** A non-negative value of a type survives the conversion to its unsigned counterpart. */
  lemma ToUnsignedKeepsNonNegative(t: IntType, x: int)
    requires InType(t, x) && x >= 0
    ensures ToUnsigned(t, x) == x
  {
  }

  /** `cmp_equal(t, u)`: the same-signedness branch compares directly, the mixed ones rule out a negative side first. */
  function CmpEqual(T: IntType, t: int, U: IntType, u: int): (r: bool)
    requires InType(T, t) && InType(U, u)
    ensures r <==> t == u
  {
    if T.signed == U.signed then t == u
    else if T.signed then
      if t < 0 then false else (ToUnsignedKeepsNonNegative(T, t); ToUnsigned(T, t) == u)
    else
      if u < 0 then false else (ToUnsignedKeepsNonNegative(U, u); t == ToUnsigned(U, u))
  }

  /** `cmp_not_equal` */
  function CmpNotEqual(T: IntType, t: int, U: IntType, u: int): (r: bool)
    requires InType(T, t) && InType(U, u)
    ensures r <==> t != u
  {
    !CmpEqual(T, t, U, u)
  }

  /** `cmp_less(t, u)`: a negative signed value is below every unsigned one. */
  function CmpLess(T: IntType, t: int, U: IntType, u: int): (r: bool)
    requires InType(T, t) && InType(U, u)
    ensures r <==> t < u
  {
    if T.signed == U.signed then t < u
    else if T.signed then
      if t < 0 then true else (ToUnsignedKeepsNonNegative(T, t); ToUnsigned(T, t) < u)
    else
      if u < 0 then false else (ToUnsignedKeepsNonNegative(U, u); t < ToUnsigned(U, u))
  }

  /** `cmp_greater(t, u) == cmp_less(u, t)` */
  function CmpGreater(T: IntType, t: int, U: IntType, u: int): (r: bool)
    requires InType(T, t) && InType(U, u)
    ensures r <==> t > u
  {
    CmpLess(U, u, T, t)
  }

  /** `cmp_less_equal == !cmp_greater` */
  function CmpLessEqual(T: IntType, t: int, U: IntType, u: int): (r: bool)
    requires InType(T, t) && InType(U, u)
    ensures r <==> t <= u
  {
    !CmpGreater(T, t, U, u)
  }

  /** `cmp_greater_equal == !cmp_less` */
  function CmpGreaterEqual(T: IntType, t: int, U: IntType, u: int): (r: bool)
    requires InType(T, t) && InType(U, u)
    ensures r <==> t >= u
  {
    !CmpLess(T, t, U, u)
  }

  lemma LimitsInType(R: IntType)
    ensures InType(R, Min(R)) && InType(R, Max(R))
  {
  }

  /** `in_range<R>(t)` for a value `t` of type `T`: holds iff the value is representable in `R`. */
  function InRange(R: IntType, T: IntType, t: int): (r: bool)
    requires InType(T, t)
    ensures r <==> InType(R, t)
  {
    LimitsInType(R);
    CmpGreaterEqual(T, t, R, Min(R)) && CmpLessEqual(T, t, R, Max(R))
  }

  /** The indices `0 .. n-1` that `std::index_sequence_for<Args...>` enumerates. */
  function Indices(n: nat): (r: seq<nat>)
    ensures |r| == n
    ensures forall k :: 0 <= k < n ==> r[k] == k
  {
    if n == 0 then [] else Indices(n - 1) + [n - 1]
  }

  /** `compile_switch(i, ints, f)`: calls `f` once for every listed index equal to `i`; the result lists those calls. */
  function CompileSwitch(i: nat, ints: seq<nat>): seq<nat> {
    if ints == [] then []
    else CompileSwitch(i, ints[..|ints| - 1]) + (if ints[|ints| - 1] == i then [i] else [])
  }

  lemma {:induction false} CompileSwitchOverIndices(i: nat, n: nat)
    ensures CompileSwitch(i, Indices(n)) == if i < n then [i] else []
  {
    if n > 0 {
      assert Indices(n)[..n - 1] == Indices(n - 1);
      CompileSwitchOverIndices(i, n - 1);
    }
  }

  /** The results of the calls that `CompileSwitch` selects, in order. */
  function ApplyAt<A, B>(f: A -> B, args: seq<A>, at: seq<nat>): (r: seq<B>)
    requires forall k :: 0 <= k < |at| ==> at[k] < |args|
    ensures |r| == |at|
  {
    if at == [] then [] else [f(args[at[0]])] + ApplyAt(f, args, at[1..])
  }

  /** `call_on_nth(n, f, args...)`: `f` is applied to exactly the n-th argument, or to none when `n` is out of range. */
  function CallOnNth<A, B>(n: nat, f: A -> B, args: seq<A>): (calls: seq<B>)
    ensures calls == if n < |args| then [f(args[n])] else []
  {
    CompileSwitchOverIndices(n, |args|);
    ApplyAt(f, args, CompileSwitch(n, Indices(|args|)))
  }
}
