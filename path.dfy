/**
 * The path tracker: a stack of components, one per open object or array,
 * rendered as `root.key[3].other` (include/ctjson/detail/Path.hpp).
 */
module Paths {
  import opened Wrappers

  /** `Path::Object` (the last key seen, none before the first) or `Path::Array` (running index, -1 before the first element). */
  datatype Component = Object(key: Option<string>) | Array(index: int)

  function Top(p: seq<Component>): Component
    requires |p| > 0
  {
    p[|p| - 1]
  }

  /** `advance_array_if_needed()`: the index of a top Array component moves on by one; nothing else changes. */
  function Advanced(p: seq<Component>): (r: seq<Component>)
    ensures |r| == |p| && r[..|p| - 1] == p[..|p| - 1] <== |p| > 0
    ensures |r| == |p|
  {
    if |p| == 0 || !Top(p).Array? then p
    else p[..|p| - 1] + [Array(Top(p).index + 1)]
  }

  /** `start_object()`: advance a parent array, then push an Object component without a key. */
  function OnStartObject(p: seq<Component>): (r: seq<Component>)
    ensures |r| == |p| + 1 && r[..|p|] == Advanced(p) && Top(r) == Object(None)
  {
    Advanced(p) + [Object(None)]
  }

  /** `key(k)`: overwrite the key of the top Object component. */
  function OnKey(p: seq<Component>, k: string): (r: seq<Component>)
    requires |p| > 0 && Top(p).Object?
    ensures |r| == |p| && r[..|p| - 1] == p[..|p| - 1] && Top(r) == Object(Some(k))
  {
    p[..|p| - 1] + [Object(Some(k))]
  }

  /** `end_object()`: pop the top component. */
  function OnEndObject(p: seq<Component>): (r: seq<Component>)
    requires |p| > 0
    ensures r == p[..|p| - 1]
  {
    p[..|p| - 1]
  }

  /** `start_array()`: advance a parent array, then push an Array component at index -1. */
  function OnStartArray(p: seq<Component>): (r: seq<Component>)
    ensures |r| == |p| + 1 && r[..|p|] == Advanced(p) && Top(r) == Array(-1)
  {
    Advanced(p) + [Array(-1)]
  }

  /** `value()`: advance a parent array. */
  function OnValue(p: seq<Component>): (r: seq<Component>)
    ensures |r| == |p|
  {
    Advanced(p)
  }

  /** `end_array()`: pop the top component. */
  function OnEndArray(p: seq<Component>): (r: seq<Component>)
    requires |p| > 0
    ensures r == p[..|p| - 1]
  {
    p[..|p| - 1]
  }

  /** A scalar value changes the path only inside an array, and there only the top index, by one. */
  lemma ValueOnlyAdvancesArrays(p: seq<Component>)
    ensures |p| == 0 || Top(p).Object? ==> OnValue(p) == p
    ensures |p| > 0 && Top(p).Array? ==>
      OnValue(p)[..|p| - 1] == p[..|p| - 1] && Top(OnValue(p)) == Array(Top(p).index + 1)
  {
  }

  /** An object opened and closed at once leaves the stack as before, except that a parent array has advanced. */
  lemma StartEndObject(p: seq<Component>)
    ensures OnEndObject(OnStartObject(p)) == Advanced(p)
  {
  }

  /** An array opened and closed at once leaves the stack as before, except that a parent array has advanced. */
  lemma StartEndArray(p: seq<Component>)
    ensures OnEndArray(OnStartArray(p)) == Advanced(p)
  {
  }

  /** The first element of an array, whatever its kind, gets index 0. */
  lemma FirstElementIsZero(p: seq<Component>)
    ensures Top(OnValue(OnStartArray(p))) == Array(0)
    ensures Top(OnStartObject(OnStartArray(p)))  == Object(None) && OnStartObject(OnStartArray(p))[|p|] == Array(0)
    ensures OnStartArray(OnStartArray(p))[|p|] == Array(0)
  {
  }

  /** Every character is a decimal digit. */
  predicate AllDigits(s: string) {
    forall i :: 0 <= i < |s| ==> '0' <= s[i] <= '9'
  }

  /** `std::to_string` of a non-negative integer: its decimal digits. */
  function NatToString(n: nat): (r: string)
    ensures |r| > 0
    ensures AllDigits(r)
    ensures r[|r| - 1] == ['0', '1', '2', '3', '4', '5', '6', '7', '8', '9'][n % 10]
    ensures n < 10 <==> |r| == 1
    decreases n
  {
    var d := ['0', '1', '2', '3', '4', '5', '6', '7', '8', '9'][n % 10];
    if n < 10 then [d] else NatToString(n / 10) + [d]
  }

  /** `std::to_string` of an integer. */
  function IntToString(n: int): string {
    if n < 0 then "-" + NatToString(-n) else NatToString(n)
  }

  /** `Object::render()` / `Array::render()`: ".key", "[i]", or nothing before the first key or element. */
  function ComponentText(c: Component): (r: string)
    ensures r == "" <==> c == Object(None) || c == Array(-1)
    ensures c.Object? && c.key.Some? ==> r[0] == '.' && r[1..] == c.key.value
    ensures c.Array? && c.index != -1 ==> r[0] == '[' && r[|r| - 1] == ']'
  {
    match c
    case Object(k) => if k.Some? then "." + k.value else ""
    case Array(i) => if i == -1 then "" else "[" + IntToString(i) + "]"
  }

  /** The rendered components, in stack order. */
  function ComponentsText(p: seq<Component>): string {
    if p == [] then "" else ComponentsText(p[..|p| - 1]) + ComponentText(Top(p))
  }

  /** What `render()` returns. */
  function Rendered(p: seq<Component>): string {
    "root" + ComponentsText(p)
  }

  /** Entering an object or an array does not change the rendered path until its first key or element. */
  lemma {:induction false} FreshComponentsRenderNothing(p: seq<Component>)
    ensures Rendered(OnStartObject(p)) == Rendered(Advanced(p))
    ensures Rendered(OnStartArray(p)) == Rendered(Advanced(p))
  {
    assert OnStartObject(p)[..|p|] == Advanced(p);
    assert OnStartArray(p)[..|p|] == Advanced(p);
  }

  /** Rendering distributes over stacking: the text of a stack is the text of its bottom followed by that of its top. */
  lemma {:induction false} ComponentsTextAppend(p: seq<Component>, q: seq<Component>)
    ensures ComponentsText(p + q) == ComponentsText(p) + ComponentsText(q)
    decreases |q|
  {
    if q == [] {
      assert p + q == p;
    } else {
      var q' := q[..|q| - 1];
      var last := Top(q);
      assert (p + q)[..|p + q| - 1] == p + q';
      assert Top(p + q) == last;
      TextSnoc(p + q);
      TextSnoc(q);
      ComponentsTextAppend(p, q');
      StringsAssociate(ComponentsText(p), ComponentsText(q'), ComponentText(last));
    }
  }

  /** The text of a non-empty stack: that of all but its top, then its top's. */
  lemma TextSnoc(p: seq<Component>)
    requires |p| > 0
    ensures ComponentsText(p) == ComponentsText(p[..|p| - 1]) + ComponentText(Top(p))
  {
  }

  /** Concatenation of texts associates. */
  lemma StringsAssociate(a: string, b: string, c: string)
    ensures a + b + c == a + (b + c)
  {
  }

  /** One more component adds its own text at the end. */
  lemma TextStep(p: seq<Component>, i: nat)
    requires i < |p|
    ensures ComponentsText(p[..i + 1]) == ComponentsText(p[..i]) + ComponentText(p[i])
  {
    assert p[..i + 1][..i] == p[..i];
  }

  /**
   * The path at a string member `b` of the first object of the array under
   * key `a` of the root object, once its value is read: `root.a[0].b`.
   */
  lemma NestedPathRendering(a: string, b: string)
    ensures Rendered(OnValue(OnKey(OnStartObject(OnStartArray(OnKey(OnStartObject([]), a))), b)))
      == "root." + a + "[0]." + b
  {
    NestedStack(a, b);
    ThreeTexts(Object(Some(a)), Array(0), Object(Some(b)));
    assert NatToString(0) == "0";
    assert ComponentText(Array(0)) == "[0]";
    KeyIndexKey(a, b);
  }

  /** The strings of that path, glued: "root", ".a", "[0]", ".b". */
  lemma KeyIndexKey(a: string, b: string)
    ensures "root" + (("." + a) + "[0]" + ("." + b)) == "root." + a + "[0]." + b
  {
  }

  /** The stack of that path: the key `a`, the first element, the key `b`. */
  lemma NestedStack(a: string, b: string)
    ensures OnValue(OnKey(OnStartObject(OnStartArray(OnKey(OnStartObject([]), a))), b))
      == [Object(Some(a)), Array(0), Object(Some(b))]
  {
    assert OnStartArray(OnKey(OnStartObject([]), a)) == [Object(Some(a)), Array(-1)];
  }

  /** The text of a three-component stack is its components' texts in order. */
  lemma ThreeTexts(x: Component, y: Component, z: Component)
    ensures ComponentsText([x, y, z]) == ComponentText(x) + ComponentText(y) + ComponentText(z)
  {
    assert [x, y, z][..2] == [x, y] && Top([x, y, z]) == z;
    assert [x, y][..1] == [x] && Top([x, y]) == y;
    assert [x][..0] == [] && Top([x]) == x;
    var tx, ty, tz := ComponentText(x), ComponentText(y), ComponentText(z);
    assert ComponentsText([x]) == tx;
    assert ComponentsText([x, y]) == tx + ty;
  }

  /** `detail::Path`: the component stack, updated in place on every token. */
  class Path {
    var components: seq<Component>

    constructor ()
      ensures components == []
    {
      components := [];
    }

    method StartObject()
      modifies this
      ensures components == OnStartObject(old(components))
    {
      AdvanceArrayIfNeeded();
      components := components + [Object(None)];
    }

    /** Requires an Object on top: `std::get<Object>` of the back of the stack. */
    method Key(k: string)
      requires |components| > 0 && Top(components).Object?
      modifies this
      ensures components == OnKey(old(components), k)
    {
      components := components[..|components| - 1] + [Object(Some(k))];
    }

    /** Requires a non-empty stack: `pop_back()`. */
    method EndObject()
      requires |components| > 0
      modifies this
      ensures components == OnEndObject(old(components))
    {
      components := components[..|components| - 1];
    }

    method StartArray()
      modifies this
      ensures components == OnStartArray(old(components))
    {
      AdvanceArrayIfNeeded();
      components := components + [Array(-1)];
    }

    method Value()
      modifies this
      ensures components == OnValue(old(components))
    {
      AdvanceArrayIfNeeded();
    }

    method EndArray()
      requires |components| > 0
      modifies this
      ensures components == OnEndArray(old(components))
    {
      components := components[..|components| - 1];
    }

    /** `render()`: "root" followed by each component's text, accumulated in a loop. */
    method Render() returns (r: string)
      ensures r == Rendered(components)
    {
      var cs := components;
      var text := "";
      var i := 0;
      while i < |cs|
        invariant 0 <= i <= |cs|
        invariant text == ComponentsText(cs[..i])
      {
        TextStep(cs, i);
        text := text + ComponentText(cs[i]);
        i := i + 1;
      }
      assert cs[..i] == cs;
      r := "root" + text;
    }

    method AdvanceArrayIfNeeded()
      modifies this
      ensures components == Advanced(old(components))
    {
      if |components| == 0 || !components[|components| - 1].Array? {
        return;
      }
      var top := components[|components| - 1];
      components := components[..|components| - 1] + [Array(top.index + 1)];
    }
  }
}
