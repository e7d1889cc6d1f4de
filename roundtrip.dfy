/**
 * Dumping a value and parsing the written events back with the same type
 * gives the value back (include/ctjson/Serializer.hpp against
 * include/ctjson/Deserializer.hpp and include/ctjson/DeserializationHelper.hpp).
 *
 * The text between the writer and the reader is not modelled: a reader of
 * the written text reports, for each writer call, a token that is `Same` as
 * the one the writer recorded. Numbers are re-read by value, so an `int` 0
 * may come back as `unsigned` 0; an end token comes back with its count.
 */
module RoundTrip {
  import opened Wrappers
  import opened Tokens
  import opened TypeUtils
  import opened Results
  import opened Streams
  import opened Typing
  import opened ParseSpec
  import opened Serializer

  /** A token `read` back from the text of the writer call recorded as `written`. */
  predicate Same(read: Token, written: Token) {
    if IsIntegerKind(Kind(written)) then
      IsIntegerKind(Kind(read)) && ValueOf(read, Kind(read)).n == ValueOf(written, Kind(written)).n
    else if written.EndObjectToken? then read.EndObjectToken?
    else if written.EndArrayToken? then read.EndArrayToken?
    else read == written
  }

  /** The first `|evs|` lexer steps are token events, each read back from the corresponding writer call. */
  predicate Delivers(outs: seq<Outcome>, evs: seq<Token>)
    decreases |evs|
  {
    |evs| == 0 || (|outs| > 0 && outs[0].Event? && Same(outs[0].token, evs[0]) && Delivers(outs[1..], evs[1..]))
  }

  /** The stream, error-free, is about to yield tokens read back from `evs` (the held token first, if any). */
  predicate Feeds(c: Config, s: State, evs: seq<Token>) {
    && Inv(c, s) && s.error.None?
    && (s.buffer.None? ==> Delivers(c.lexer[s.pos..], evs))
    && (s.buffer.Some? ==> |evs| > 0 && Same(s.buffer.value, evs[0]) && Delivers(c.lexer[s.pos..], evs[1..]))
  }

  /** A token read back is null, a key, a start or an end exactly when the written one is. */
  lemma SameShape(read: Token, written: Token)
    requires Same(read, written)
    ensures read.NullToken? <==> written.NullToken?
    ensures read.KeyToken? <==> written.KeyToken?
    ensures read.StartObjectToken? <==> written.StartObjectToken?
    ensures read.StartArrayToken? <==> written.StartArrayToken?
    ensures read.EndObjectToken? <==> written.EndObjectToken?
    ensures read.EndArrayToken? <==> written.EndArrayToken?
    ensures written.KeyToken? ==> read == written
  {
  }

  /** `next` on a stream fed with `evs` yields a token read back from the first event, and is fed with the others. */
  lemma NextFeeds(c: Config, s: State, evs: seq<Token>)
    requires Feeds(c, s, evs) && |evs| > 0
    ensures NextSpec(c, s).token.Some? && Same(NextSpec(c, s).token.value, evs[0])
    ensures Feeds(c, NextSpec(c, s).state, evs[1..])
  {
    if s.buffer.None? {
      var outs := c.lexer[s.pos..];
      assert outs[0] == c.lexer[s.pos];
      TokenStepTracks(c, s);
      assert outs[1..] == c.lexer[s.pos + 1..];
    }
  }

  /** `peek` on a stream fed with `evs` holds a token read back from the first event, and is still fed with all of them. */
  lemma PeekFeeds(c: Config, s: State, evs: seq<Token>)
    requires Feeds(c, s, evs) && |evs| > 0
    ensures PeekSpec(c, s).token.Some? && Same(PeekSpec(c, s).token.value, evs[0])
    ensures Feeds(c, PeekSpec(c, s).state, evs)
  {
    if s.buffer.None? {
      var outs := c.lexer[s.pos..];
      assert outs[0] == c.lexer[s.pos];
      assert !ReaderComplete(c, s.pos);
      var r := PeekSpec(c, s).state;
      assert r == AdvanceSpec(c, s);
      assert outs[1..] == c.lexer[s.pos + 1..];
    }
  }

  /**
   * The types whose written form reads back as the same value: no floating
   * types (their text is not modelled), no `std::optional` directly inside
   * another (an inner absent value is written as `null`, which reads back as
   * the outer one absent), and no class with two fields of one name (the
   * second key is a duplicate).
   */
  predicate Readable(t: TypeDesc)
    decreases t
  {
    match t
    case TBool => true
    case TInt(_) => true
    case TFloat(_, _, _) => false
    case TString => true
    case TOptional(u) => !u.TOptional? && Readable(u)
    case TVector(e) => Readable(e)
    case TSet(e) => Readable(e)
    case TMap(e) => Readable(e)
    case TObject(fs) => DistinctNames(fs) && forall i :: 0 <= i < |fs| ==> Readable(fs[i].ty)
    case TFrom(_, _) => false
  }

  /**
   * Why a directly nested optional is not readable: a present optional
   * holding an absent one is written as the same single `null` as an absent
   * outer optional, and that `null` reads back as the outer one absent.
   */
  lemma NestedAbsentIsLost(c: Config, u: TypeDesc, o: Order)
    requires Dumpable(u) && Lawful(o)
    requires Feeds(c, Initial(), [NullToken])
    ensures Dumped(TOptional(TOptional(u)), VOpt(Some(VOpt(None))), o) == [NullToken]
    ensures Dumped(TOptional(TOptional(u)), VOpt(None), o) == [NullToken]
    ensures Parse(c, TOptional(TOptional(u)), Initial()).result == Ok(VOpt(None))
  {
    PeekFeeds(c, Initial(), [NullToken]);
    var p := PeekSpec(c, Initial());
    SameShape(p.token.value, NullToken);
    NextIsPeekThenTake(c, Initial());
  }

  /** A bool, integer or string written with one writer call reads back as the same value. */
  lemma PrimitiveReadsBack(c: Config, t: TypeDesc, v: Value, o: Order, s: State, tail: seq<Token>)
    requires IsJsonValue(t) && Readable(t) && Conforms(t, v) && Lawful(o)
    requires Feeds(c, s, Dumped(t, v, o) + tail)
    ensures ParsePrimitive(c, t, s).result == Ok(v)
    ensures Feeds(c, ParsePrimitive(c, t, s).rest, tail)
  {
    var evs := Dumped(t, v, o) + tail;
    NextFeeds(c, s, evs);
    assert evs[1..] == tail;
    var n := NextSpec(c, s);
    assert evs[0] == WrittenAs(t, v);
    ValueReadsBack(t, v, n.token.value, GetPathSpec(c, n.state));
  }

  /** The one event a bool, integer or string is written as. */
  function WrittenAs(t: TypeDesc, v: Value): Token
    requires IsJsonValue(t) && Readable(t) && Conforms(t, v)
  {
    match t
    case TBool => BoolToken(v.b)
    case TInt(it) => IntegerEvent(it, v.i)
    case TString => StringToken(v.s)
  }

  /** A token read back from the event a bool, integer or string is written as converts to that value. */
  lemma ValueReadsBack(t: TypeDesc, v: Value, tok: Token, path: Option<string>)
    requires IsJsonValue(t) && Readable(t) && Conforms(t, v)
    requires Same(tok, WrittenAs(t, v))
    ensures ParseValue(t, tok, path) == Ok(v)
  {
    match t
    case TBool => BoolReadsBack(v.b, tok, path);
    case TInt(it) => IntegerReadsBack(it, v.i, tok, path);
    case TString => StringReadsBack(v.s, tok, path);
  }

  /** A bool token read back from a written bool is that bool. */
  lemma BoolReadsBack(b: bool, tok: Token, path: Option<string>)
    requires Same(tok, BoolToken(b))
    ensures ParseValue(TBool, tok, path) == Ok(VBool(b))
  {
    BoolOnlyFromBool(tok, path);
  }

  /** An integer token read back from a written integer of type `it` has the same value, which is in range. */
  lemma IntegerReadsBack(it: IntType, i: int, tok: Token, path: Option<string>)
    requires InType(it, i) && Same(tok, IntegerEvent(it, i))
    ensures ParseValue(TInt(it), tok, path) == Ok(VInt(i))
  {
    IntegerInRangeOrRefused(it, tok, path);
  }

  /** A string token read back from a written string is that string. */
  lemma StringReadsBack(str: string, tok: Token, path: Option<string>)
    requires Same(tok, StringToken(str))
    ensures ParseValue(TString, tok, path) == Ok(VStr(str))
  {
    FloatAndStringSources(x => Double.Double(0), x => x, x => x, tok, path);
  }

  /** The elements from the `n`-th on, each dumped in turn. */
  function ItemsFrom(t: TypeDesc, xs: seq<Value>, n: nat, o: Order): (evs: seq<Token>)
    requires IsArrayLike(t) && Dumpable(t.elem) && Lawful(o) && n <= |xs|
    requires forall k :: 0 <= k < |xs| ==> Conforms(t.elem, xs[k])
    decreases |xs| - n
  {
    if n == |xs| then [] else Dumped(t.elem, xs[n], o) + ItemsFrom(t, xs, n + 1, o)
  }

  /** The elements before the `n`-th, then those from it on, are all the elements. */
  lemma {:induction false} ItemsSplit(t: TypeDesc, xs: seq<Value>, n: nat, o: Order)
    requires IsArrayLike(t) && Dumpable(t.elem) && Lawful(o) && n <= |xs|
    requires forall k :: 0 <= k < |xs| ==> Conforms(t.elem, xs[k])
    ensures Items(t, xs, n, o) + ItemsFrom(t, xs, n, o) == Items(t, xs, |xs|, o)
    decreases |xs| - n
  {
    if n < |xs| {
      ItemsSplit(t, xs, n + 1, o);
      AppendAssociates(Items(t, xs, n, o), Dumped(t.elem, xs[n], o), ItemsFrom(t, xs, n + 1, o));
    }
  }

  /** The entries from the `n`-th key of `ks` on: the key, then the value. */
  function EntriesFrom(t: TypeDesc, m: map<string, Value>, ks: seq<string>, n: nat, o: Order): (evs: seq<Token>)
    requires t.TMap? && Dumpable(t.elem) && Lawful(o) && n <= |ks|
    requires forall i :: 0 <= i < |ks| ==> ks[i] in m
    requires forall k :: k in m ==> Conforms(t.elem, m[k])
    decreases |ks| - n
  {
    if n == |ks| then [] else [KeyToken(ks[n])] + Dumped(t.elem, m[ks[n]], o) + EntriesFrom(t, m, ks, n + 1, o)
  }

  /** The entries before the `n`-th, then those from it on, are all the entries. */
  lemma {:induction false} EntriesSplit(t: TypeDesc, m: map<string, Value>, ks: seq<string>, n: nat, o: Order)
    requires t.TMap? && Dumpable(t.elem) && Lawful(o) && n <= |ks|
    requires forall i :: 0 <= i < |ks| ==> ks[i] in m
    requires forall k :: k in m ==> Conforms(t.elem, m[k])
    ensures Entries(t, m, ks, n, o) + EntriesFrom(t, m, ks, n, o) == Entries(t, m, ks, |ks|, o)
    decreases |ks| - n
  {
    if n < |ks| {
      EntriesSplit(t, m, ks, n + 1, o);
      var e, k, d, f := Entries(t, m, ks, n, o), [KeyToken(ks[n])], Dumped(t.elem, m[ks[n]], o), EntriesFrom(t, m, ks, n + 1, o);
      AppendAssociates(e, k + d, f);
      AppendAssociates(e, k, d);
    }
  }

  /** The fields from the `n`-th on: each name as a key, then its member's dump. */
  function MembersFrom(t: TypeDesc, ms: seq<Value>, n: nat, o: Order): (evs: seq<Token>)
    requires t.TObject? && Dumpable(t) && Conforms(t, VObj(ms)) && Lawful(o) && n <= |ms|
    decreases |ms| - n
  {
    if n == |ms| then []
    else
      assert t.fields[n] in t.fields;
      [KeyToken(t.fields[n].name)] + Dumped(t.fields[n].ty, ms[n], o) + MembersFrom(t, ms, n + 1, o)
  }

  /** The fields before the `n`-th, then those from it on, are all the fields. */
  lemma {:induction false} MembersSplit(t: TypeDesc, ms: seq<Value>, n: nat, o: Order)
    requires t.TObject? && Dumpable(t) && Conforms(t, VObj(ms)) && Lawful(o) && n <= |ms|
    ensures Members(t, ms, n, o) + MembersFrom(t, ms, n, o) == Members(t, ms, |ms|, o)
    decreases |ms| - n
  {
    if n < |ms| {
      MembersSplit(t, ms, n + 1, o);
      assert t.fields[n] in t.fields;
      var e, k, d, f := Members(t, ms, n, o), [KeyToken(t.fields[n].name)], Dumped(t.fields[n].ty, ms[n], o), MembersFrom(t, ms, n + 1, o);
      AppendAssociates(e, k + d, f);
      AppendAssociates(e, k, d);
    }
  }

  /** Events `d` then `f`, an end and the tail: `d` first, then the rest. */
  lemma Regroup(d: seq<Token>, f: seq<Token>, e: seq<Token>, tail: seq<Token>)
    ensures d + f + e + tail == d + (f + e + tail)
  {
    AppendAssociates(d, f, e);
    AppendAssociates(d, f + e, tail);
  }

  /** The dump of a readable value, parsed with its type, gives the value back and leaves the stream after the dump. */
  lemma {:induction false} ParseDumped(c: Config, t: TypeDesc, v: Value, o: Order, s: State, tail: seq<Token>)
    requires Dumpable(t) && Readable(t) && Conforms(t, v) && Lawful(o)
    requires Feeds(c, s, Dumped(t, v, o) + tail)
    ensures Parse(c, t, s).result == Ok(v)
    ensures Feeds(c, Parse(c, t, s).rest, tail)
    decreases t, 2
  {
    match t
    case TBool => PrimitiveReadsBack(c, t, v, o, s, tail);
    case TInt(_) => PrimitiveReadsBack(c, t, v, o, s, tail);
    case TString => PrimitiveReadsBack(c, t, v, o, s, tail);
    case TOptional(_) => OptionalReadsBack(c, t, v, o, s, tail);
    case TVector(_) => ArrayReadsBack(c, t, v, o, s, tail);
    case TSet(_) => ArrayReadsBack(c, t, v, o, s, tail);
    case TMap(_) => DictReadsBack(c, t, v, o, s, tail);
    case TObject(_) => ObjectReadsBack(c, t, v, o, s, tail);
  }

  /** An optional reads back: `null` as absent, and a present value through its own type. */
  lemma {:induction false} OptionalReadsBack(c: Config, t: TypeDesc, v: Value, o: Order, s: State, tail: seq<Token>)
    requires t.TOptional? && Dumpable(t) && Readable(t) && Conforms(t, v) && Lawful(o)
    requires Feeds(c, s, Dumped(t, v, o) + tail)
    ensures ParseOptional(c, t, s).result == Ok(v)
    ensures Feeds(c, ParseOptional(c, t, s).rest, tail)
    decreases t, 1
  {
    var evs := Dumped(t, v, o) + tail;
    PeekFeeds(c, s, evs);
    var p := PeekSpec(c, s);
    SameShape(p.token.value, evs[0]);
    if v.o.Some? {
      FirstEvent(t.inner, v.o.value, o);
      ParseDumped(c, t.inner, v.o.value, o, p.state, tail);
    } else {
      NextFeeds(c, p.state, evs);
      assert evs[1..] == tail;
    }
  }

  /** A vector or set reads back: the elements in the order written, inserted one by one. */
  lemma ArrayReadsBack(c: Config, t: TypeDesc, v: Value, o: Order, s: State, tail: seq<Token>)
    requires IsArrayLike(t) && Dumpable(t) && Readable(t) && Conforms(t, v) && Lawful(o)
    requires Feeds(c, s, Dumped(t, v, o) + tail)
    ensures ParseArray(c, t, s).result == Ok(v)
    ensures Feeds(c, ParseArray(c, t, s).rest, tail)
    decreases t, 1
  {
    var xs := Visited(t, v, o);
    var body := ItemsFrom(t, xs, 0, o) + [EndArrayToken(0)] + tail;
    ArrayDumpShape(t, v, o, tail);
    var s' := ArrayOpens(c, t, s, body);
    CollectedBounds(t, v, o);
    ElementsReadBack(c, t, xs, 0, o, s', tail);
  }

  /** The elements of `xs` before the `i`-th, as the container type `t` holds them. */
  function Collected(t: TypeDesc, xs: seq<Value>, i: nat): (r: Value)
    requires IsArrayLike(t) && i <= |xs|
    ensures ContainerOf(t, r)
    ensures t.TVector? ==> r.items == xs[..i]
    ensures t.TSet? ==> forall x :: x in r.elems <==> x in xs[..i]
  {
    if t.TVector? then VSeq(xs[..i]) else VSet(set x | x in xs[..i])
  }

  /** None of a value's visited elements are collected before the first, and all of them give the value. */
  lemma CollectedBounds(t: TypeDesc, v: Value, o: Order)
    requires IsArrayLike(t) && Conforms(t, v) && Lawful(o)
    ensures Collected(t, Visited(t, v, o), 0) == EmptyContainer(t)
    ensures Collected(t, Visited(t, v, o), |Visited(t, v, o)|) == v
  {
    var xs := Visited(t, v, o);
    assert xs[..|xs|] == xs;
    if t.TSet? {
      assert (set x | x in xs[..0]) == {};
      assert (set x | x in xs) == v.elems;
    }
  }

  /** The dump of a vector or set: a start array, the elements' dumps from the first on, an end array. */
  lemma ArrayDumpShape(t: TypeDesc, v: Value, o: Order, tail: seq<Token>)
    requires IsArrayLike(t) && Dumpable(t) && Conforms(t, v) && Lawful(o)
    ensures Dumped(t, v, o) + tail == [StartArrayToken] + (ItemsFrom(t, Visited(t, v, o), 0, o) + [EndArrayToken(0)] + tail)
  {
    var xs := Visited(t, v, o);
    var f := ItemsFrom(t, xs, 0, o);
    ItemsSplit(t, xs, 0, o);
    assert Items(t, xs, 0, o) == [];
    assert Items(t, xs, |xs|, o) == f;
    assert Dumped(t, v, o) == [StartArrayToken] + f + [EndArrayToken(0)];
    Regroup([StartArrayToken], f, [EndArrayToken(0)], tail);
  }

  /** Array parsing fed with a start array: the loop from an empty container, on the stream after the start. */
  lemma ArrayOpens(c: Config, t: TypeDesc, s: State, body: seq<Token>) returns (s': State)
    requires IsArrayLike(t) && Feeds(c, s, [StartArrayToken] + body)
    ensures Feeds(c, s', body) && Inv(c, s')
    ensures ParseArray(c, t, s) == ArrayLoop(c, t, EmptyContainer(t), s')
  {
    var evs := [StartArrayToken] + body;
    NextFeeds(c, s, evs);
    SameShape(NextSpec(c, s).token.value, evs[0]);
    assert evs[1..] == body;
    s' := NextSpec(c, s).state;
  }

  /** The array loop fed with an end array: the collected container, and the end array consumed. */
  lemma ArrayLoopEnds(c: Config, t: TypeDesc, acc: Value, s: State, tail: seq<Token>)
    requires IsArrayLike(t) && ContainerOf(t, acc)
    requires Feeds(c, s, [EndArrayToken(0)] + tail)
    ensures ArrayLoop(c, t, acc, s).result == Ok(acc)
    ensures Feeds(c, ArrayLoop(c, t, acc, s).rest, tail)
  {
    var evs := [EndArrayToken(0)] + tail;
    PeekFeeds(c, s, evs);
    var p := PeekSpec(c, s);
    SameShape(p.token.value, evs[0]);
    NextFeeds(c, p.state, evs);
    assert evs[1..] == tail;
  }

  /** The array loop fed with an element's dump: the element inserted, and the loop again from the stream after it. */
  lemma ArrayLoopSteps(c: Config, t: TypeDesc, acc: Value, x: Value, o: Order, s: State, rest: seq<Token>) returns (s': State)
    requires IsArrayLike(t) && ContainerOf(t, acc) && Dumpable(t.elem) && Readable(t.elem) && Conforms(t.elem, x) && Lawful(o)
    requires Feeds(c, s, Dumped(t.elem, x, o) + rest)
    ensures Feeds(c, s', rest)
    ensures ArrayLoop(c, t, acc, s) == ArrayLoop(c, t, Insert(t, acc, x), s')
    decreases t, 0, 0
  {
    var evs := Dumped(t.elem, x, o) + rest;
    PeekFeeds(c, s, evs);
    var p := PeekSpec(c, s);
    SameShape(p.token.value, evs[0]);
    FirstEvent(t.elem, x, o);
    ParseDumped(c, t.elem, x, o, p.state, rest);
    s' := Parse(c, t.elem, p.state).rest;
  }

  /** Inserting the `i`-th element into the first `i` collected gives the first `i + 1`. */
  lemma InsertNext(t: TypeDesc, xs: seq<Value>, i: nat)
    requires IsArrayLike(t) && i < |xs|
    ensures Insert(t, Collected(t, xs, i), xs[i]) == Collected(t, xs, i + 1)
  {
    assert xs[..i + 1] == xs[..i] + [xs[i]];
    if t.TSet? {
      var before, after := Collected(t, xs, i).elems, Collected(t, xs, i + 1).elems;
      assert forall x :: x in after <==> x in before + {xs[i]};
    }
  }

  /** The array loop over the dumps of the elements from the `i`-th on and an end array collects all of `xs`. */
  lemma {:induction false} ElementsReadBack(c: Config, t: TypeDesc, xs: seq<Value>, i: nat, o: Order, s: State, tail: seq<Token>)
    requires IsArrayLike(t) && Dumpable(t.elem) && Readable(t.elem) && Lawful(o) && i <= |xs|
    requires forall k :: 0 <= k < |xs| ==> Conforms(t.elem, xs[k])
    requires Feeds(c, s, ItemsFrom(t, xs, i, o) + [EndArrayToken(0)] + tail)
    ensures ArrayLoop(c, t, Collected(t, xs, i), s).result == Ok(Collected(t, xs, |xs|))
    ensures Feeds(c, ArrayLoop(c, t, Collected(t, xs, i), s).rest, tail)
    decreases t, 0, |xs| - i
  {
    if i == |xs| {
      assert ItemsFrom(t, xs, i, o) + [EndArrayToken(0)] + tail == [EndArrayToken(0)] + tail;
      ArrayLoopEnds(c, t, Collected(t, xs, i), s, tail);
    } else {
      var rest := ItemsFrom(t, xs, i + 1, o) + [EndArrayToken(0)] + tail;
      Regroup(Dumped(t.elem, xs[i], o), ItemsFrom(t, xs, i + 1, o), [EndArrayToken(0)], tail);
      var s' := ArrayLoopSteps(c, t, Collected(t, xs, i), xs[i], o, s, rest);
      InsertNext(t, xs, i);
      ElementsReadBack(c, t, xs, i + 1, o, s', tail);
    }
  }

  /** What the dict loop builds from `acc` when it meets the keys of `ks` from the `n`-th on, each with its value in `m`. */
  function AddEntries(acc: map<string, Value>, m: map<string, Value>, ks: seq<string>, n: nat): map<string, Value>
    requires n <= |ks| && forall i :: 0 <= i < |ks| ==> ks[i] in m
    decreases |ks| - n
  {
    if n == |ks| then acc else AddEntries(EmplaceEntry(acc, ks[n], m[ks[n]]), m, ks, n + 1)
  }

  /** Keys met for the first time are added with their values; `acc` keeps the others. */
  lemma {:induction false} AddEntriesContents(acc: map<string, Value>, m: map<string, Value>, ks: seq<string>, n: nat)
    requires n <= |ks| && forall i :: 0 <= i < |ks| ==> ks[i] in m
    requires forall i :: n <= i < |ks| ==> ks[i] !in acc
    requires forall i, j :: n <= i < j < |ks| ==> ks[i] != ks[j]
    ensures AddEntries(acc, m, ks, n).Keys == acc.Keys + set i | n <= i < |ks| :: ks[i]
    ensures forall k :: k in AddEntries(acc, m, ks, n) ==> AddEntries(acc, m, ks, n)[k] == if k in acc then acc[k] else m[k]
    decreases |ks| - n
  {
    if n < |ks| {
      var acc' := EmplaceEntry(acc, ks[n], m[ks[n]]);
      AddEntriesContents(acc', m, ks, n + 1);
      assert (set i | n <= i < |ks| :: ks[i]) == {ks[n]} + set i | n + 1 <= i < |ks| :: ks[i];
    }
  }

  /** A string-keyed map reads back: each key once, with its value. */
  lemma DictReadsBack(c: Config, t: TypeDesc, v: Value, o: Order, s: State, tail: seq<Token>)
    requires IsDictLike(t) && Dumpable(t) && Readable(t) && Conforms(t, v) && Lawful(o)
    requires Feeds(c, s, Dumped(t, v, o) + tail)
    ensures ParseDict(c, t, s).result == Ok(v)
    ensures Feeds(c, ParseDict(c, t, s).rest, tail)
    decreases t, 1
  {
    var m := v.entries;
    var ks := KeyOrder(m, o);
    var body := EntriesFrom(t, m, ks, 0, o) + [EndObjectToken(0)] + tail;
    DictDumpShape(t, v, o, tail);
    var s' := DictOpens(c, t, s, body);
    EntriesReadBack(c, t, m, ks, 0, map[], o, s', tail);
    AddEntriesAll(m, ks);
  }

  /** Meeting every key of `m` once, from an empty map, rebuilds `m`. */
  lemma AddEntriesAll(m: map<string, Value>, ks: seq<string>)
    requires Enumerates(ks, m.Keys)
    ensures AddEntries(map[], m, ks, 0) == m
  {
    AddEntriesContents(map[], m, ks, 0);
    var r := AddEntries(map[], m, ks, 0);
    assert r.Keys == m.Keys;
  }

  /** The dump of a map: a start object, the entries from the first key on, an end object. */
  lemma DictDumpShape(t: TypeDesc, v: Value, o: Order, tail: seq<Token>)
    requires IsDictLike(t) && Dumpable(t) && Conforms(t, v) && Lawful(o)
    ensures Dumped(t, v, o) + tail ==
      [StartObjectToken] + (EntriesFrom(t, v.entries, KeyOrder(v.entries, o), 0, o) + [EndObjectToken(0)] + tail)
  {
    var ks := KeyOrder(v.entries, o);
    EntriesSplit(t, v.entries, ks, 0, o);
    assert Entries(t, v.entries, ks, 0, o) == [];
  }

  /** Dict parsing fed with a start object: the loop from an empty map, on the stream after the start. */
  lemma DictOpens(c: Config, t: TypeDesc, s: State, body: seq<Token>) returns (s': State)
    requires IsDictLike(t) && Feeds(c, s, [StartObjectToken] + body)
    ensures Feeds(c, s', body) && Inv(c, s')
    ensures ParseDict(c, t, s) == DictLoop(c, t, map[], s')
  {
    var evs := [StartObjectToken] + body;
    NextFeeds(c, s, evs);
    SameShape(NextSpec(c, s).token.value, evs[0]);
    assert evs[1..] == body;
    s' := NextSpec(c, s).state;
  }

  /** The dict loop fed with an end object: the collected entries, and the end object consumed. */
  lemma DictLoopEnds(c: Config, t: TypeDesc, acc: map<string, Value>, s: State, tail: seq<Token>)
    requires IsDictLike(t) && Feeds(c, s, [EndObjectToken(0)] + tail)
    ensures DictLoop(c, t, acc, s).result == Ok(VDict(acc))
    ensures Feeds(c, DictLoop(c, t, acc, s).rest, tail)
  {
    var evs := [EndObjectToken(0)] + tail;
    NextFeeds(c, s, evs);
    SameShape(NextSpec(c, s).token.value, evs[0]);
    assert evs[1..] == tail;
  }

  /** The dict loop fed with a key and its value's dump: the entry emplaced, and the loop again from the stream after it. */
  lemma DictLoopSteps(c: Config, t: TypeDesc, acc: map<string, Value>, k: string, x: Value, o: Order, s: State, rest: seq<Token>)
    returns (s': State)
    requires IsDictLike(t) && Dumpable(t.elem) && Readable(t.elem) && Conforms(t.elem, x) && Lawful(o)
    requires Feeds(c, s, [KeyToken(k)] + (Dumped(t.elem, x, o) + rest))
    ensures Feeds(c, s', rest)
    ensures DictLoop(c, t, acc, s) == DictLoop(c, t, EmplaceEntry(acc, k, x), s')
    decreases t, 0, 0
  {
    var evs := [KeyToken(k)] + (Dumped(t.elem, x, o) + rest);
    NextFeeds(c, s, evs);
    var n := NextSpec(c, s);
    SameShape(n.token.value, evs[0]);
    assert evs[1..] == Dumped(t.elem, x, o) + rest;
    ParseDumped(c, t.elem, x, o, n.state, rest);
    s' := Parse(c, t.elem, n.state).rest;
  }

  /** The dict loop over the entries of the keys from the `i`-th on and an end object adds each of them with its value. */
  lemma {:induction false} EntriesReadBack(c: Config, t: TypeDesc, m: map<string, Value>, ks: seq<string>, i: nat,
                                           acc: map<string, Value>, o: Order, s: State, tail: seq<Token>)
    requires t.TMap? && Dumpable(t.elem) && Readable(t.elem) && Lawful(o) && i <= |ks|
    requires forall j :: 0 <= j < |ks| ==> ks[j] in m
    requires forall k :: k in m ==> Conforms(t.elem, m[k])
    requires Feeds(c, s, EntriesFrom(t, m, ks, i, o) + [EndObjectToken(0)] + tail)
    ensures DictLoop(c, t, acc, s).result == Ok(VDict(AddEntries(acc, m, ks, i)))
    ensures Feeds(c, DictLoop(c, t, acc, s).rest, tail)
    decreases t, 0, |ks| - i
  {
    if i == |ks| {
      assert EntriesFrom(t, m, ks, i, o) + [EndObjectToken(0)] + tail == [EndObjectToken(0)] + tail;
      DictLoopEnds(c, t, acc, s, tail);
    } else {
      var d := Dumped(t.elem, m[ks[i]], o);
      var rest := EntriesFrom(t, m, ks, i + 1, o) + [EndObjectToken(0)] + tail;
      Regroup([KeyToken(ks[i])] + d, EntriesFrom(t, m, ks, i + 1, o), [EndObjectToken(0)], tail);
      AppendAssociates([KeyToken(ks[i])], d, rest);
      var s' := DictLoopSteps(c, t, acc, ks[i], m[ks[i]], o, s, rest);
      EntriesReadBack(c, t, m, ks, i + 1, EmplaceEntry(acc, ks[i], m[ks[i]]), o, s', tail);
    }
  }

  /** A class reads back: its fields' keys in declaration order, each parsed into its member. */
  lemma ObjectReadsBack(c: Config, t: TypeDesc, v: Value, o: Order, s: State, tail: seq<Token>)
    requires t.TObject? && Dumpable(t) && Readable(t) && Conforms(t, v) && Lawful(o)
    requires Feeds(c, s, Dumped(t, v, o) + tail)
    ensures ParseObjectType(c, t, s).result == Ok(v)
    ensures Feeds(c, ParseObjectType(c, t, s).rest, tail)
    decreases t, 1
  {
    var ms := v.members;
    var body := MembersFrom(t, ms, 0, o) + [EndObjectToken(0)] + tail;
    ObjectDumpShape(t, v, o, tail);
    var s' := ObjectOpens(c, t.fields, s, body);
    AssignedInitially(t.fields, ms);
    FieldsReadBack(c, t, ms, 0, o, s', tail);
    AssignedAll(t.fields, ms);
  }

  /** The dump of a class: a start object, the fields from the first on, an end object. */
  lemma ObjectDumpShape(t: TypeDesc, v: Value, o: Order, tail: seq<Token>)
    requires t.TObject? && Dumpable(t) && Conforms(t, v) && Lawful(o)
    ensures v == VObj(v.members)
    ensures Dumped(t, v, o) + tail == [StartObjectToken] + (MembersFrom(t, v.members, 0, o) + [EndObjectToken(0)] + tail)
  {
    assert v == VObj(v.members);
    MembersSplit(t, v.members, 0, o);
    assert Members(t, v.members, 0, o) == [];
  }

  /** `parse_object` fed with a start object: the key loop over the fresh bindings, on the stream after the start. */
  lemma ObjectOpens(c: Config, fields: seq<FieldDesc>, s: State, body: seq<Token>) returns (s': State)
    requires Feeds(c, s, [StartObjectToken] + body)
    ensures Feeds(c, s', body) && Inv(c, s')
    ensures ParseObject(c, fields, Initials(fields), s) == ObjectLoop(c, fields, FieldsTable(fields), Initials(fields), s')
  {
    var evs := [StartObjectToken] + body;
    NextFeeds(c, s, evs);
    SameShape(NextSpec(c, s).token.value, evs[0]);
    assert evs[1..] == body;
    s' := NextSpec(c, s).state;
  }

  /** The key loop fed with an end object, every field ready: done, and the end object consumed. */
  lemma ObjectLoopEnds(c: Config, fields: seq<FieldDesc>, bs: seq<Binding>, s: State, tail: seq<Token>)
    requires |bs| == |fields| && AllReady(fields, bs)
    requires Feeds(c, s, [EndObjectToken(0)] + tail)
    ensures ObjectLoop(c, fields, FieldsTable(fields), bs, s).result == Done()
    ensures ObjectLoop(c, fields, FieldsTable(fields), bs, s).bindings == bs
    ensures Feeds(c, ObjectLoop(c, fields, FieldsTable(fields), bs, s).rest, tail)
  {
    var evs := [EndObjectToken(0)] + tail;
    NextFeeds(c, s, evs);
    SameShape(NextSpec(c, s).token.value, evs[0]);
    assert evs[1..] == tail;
  }

  /** The key loop fed with the key of an unset field and its member's dump: that field set, and the loop again after it. */
  lemma ObjectLoopSteps(c: Config, t: TypeDesc, bs: seq<Binding>, i: nat, x: Value, o: Order, s: State, rest: seq<Token>)
    returns (s': State)
    requires t.TObject? && Dumpable(t) && Readable(t) && Lawful(o) && i < |t.fields| && |bs| == |t.fields| && !bs[i].isSet
    requires Conforms(t.fields[i].ty, x)
    requires Feeds(c, s, [KeyToken(t.fields[i].name)] + (Dumped(t.fields[i].ty, x, o) + rest))
    ensures Feeds(c, s', rest) && Inv(c, s')
    ensures ObjectLoop(c, t.fields, FieldsTable(t.fields), bs, s) ==
      ObjectLoop(c, t.fields, FieldsTable(t.fields), bs[i := Binding(x, true)], s')
    decreases t, 0, 0
  {
    var fields := t.fields;
    assert fields[i] in fields;
    var evs := [KeyToken(fields[i].name)] + (Dumped(fields[i].ty, x, o) + rest);
    NextFeeds(c, s, evs);
    var n := NextSpec(c, s);
    SameShape(n.token.value, evs[0]);
    assert evs[1..] == Dumped(fields[i].ty, x, o) + rest;
    FieldsTableIndexes(fields);
    ParseDumped(c, fields[i].ty, x, o, n.state, rest);
    s' := Parse(c, fields[i].ty, n.state).rest;
  }

  /** The bindings after the key loop has met the fields before the `i`-th: those set to their members, the others fresh. */
  function Assigned(fields: seq<FieldDesc>, ms: seq<Value>, i: nat): (bs: seq<Binding>)
    requires i <= |ms| == |fields|
    ensures |bs| == |fields|
  {
    seq(|fields|, j requires 0 <= j < |fields| => if j < i then Binding(ms[j], true) else Binding(fields[j].initial, false))
  }

  /** Before any key, the bindings are the fresh ones `parse_object` starts from. */
  lemma AssignedInitially(fields: seq<FieldDesc>, ms: seq<Value>)
    requires |ms| == |fields|
    ensures Assigned(fields, ms, 0) == Initials(fields)
  {
  }

  /** The `i`-th field is still unset, and setting it to its member gives the bindings after it. */
  lemma AssignedNext(fields: seq<FieldDesc>, ms: seq<Value>, i: nat)
    requires i < |ms| == |fields|
    ensures !Assigned(fields, ms, i)[i].isSet
    ensures Assigned(fields, ms, i)[i := Binding(ms[i], true)] == Assigned(fields, ms, i + 1)
  {
  }

  /** After every field, all are ready and their values are the members. */
  lemma AssignedAll(fields: seq<FieldDesc>, ms: seq<Value>)
    requires |ms| == |fields|
    ensures AllReady(fields, Assigned(fields, ms, |ms|))
    ensures Values(Assigned(fields, ms, |ms|)) == ms
  {
  }

  /** The key loop over the fields from the `i`-th on and an end object sets each of them to its member. */
  lemma {:induction false} FieldsReadBack(c: Config, t: TypeDesc, ms: seq<Value>, i: nat, o: Order, s: State, tail: seq<Token>)
    requires t.TObject? && Dumpable(t) && Readable(t) && Conforms(t, VObj(ms)) && Lawful(o) && i <= |ms|
    requires Feeds(c, s, MembersFrom(t, ms, i, o) + [EndObjectToken(0)] + tail)
    ensures ObjectLoop(c, t.fields, FieldsTable(t.fields), Assigned(t.fields, ms, i), s).result == Done()
    ensures ObjectLoop(c, t.fields, FieldsTable(t.fields), Assigned(t.fields, ms, i), s).bindings == Assigned(t.fields, ms, |ms|)
    ensures Feeds(c, ObjectLoop(c, t.fields, FieldsTable(t.fields), Assigned(t.fields, ms, i), s).rest, tail)
    decreases t, 0, |ms| - i + 1
  {
    if i == |ms| {
      assert MembersFrom(t, ms, i, o) + [EndObjectToken(0)] + tail == [EndObjectToken(0)] + tail;
      AssignedAll(t.fields, ms);
      ObjectLoopEnds(c, t.fields, Assigned(t.fields, ms, i), s, tail);
    } else {
      AssignedNext(t.fields, ms, i);
      var s' := FieldsStep(c, t, ms, i, Assigned(t.fields, ms, i), o, s, tail);
      FieldsReadBack(c, t, ms, i + 1, o, s', tail);
    }
  }

  /** One round of the key loop over the fields from the `i`-th on: the `i`-th field set, and its events consumed. */
  lemma FieldsStep(c: Config, t: TypeDesc, ms: seq<Value>, i: nat, bs: seq<Binding>, o: Order, s: State, tail: seq<Token>)
    returns (s': State)
    requires t.TObject? && Dumpable(t) && Readable(t) && Conforms(t, VObj(ms)) && Lawful(o) && i < |ms|
    requires |bs| == |t.fields| && !bs[i].isSet
    requires Feeds(c, s, MembersFrom(t, ms, i, o) + [EndObjectToken(0)] + tail)
    ensures Feeds(c, s', MembersFrom(t, ms, i + 1, o) + [EndObjectToken(0)] + tail)
    ensures ObjectLoop(c, t.fields, FieldsTable(t.fields), bs, s) ==
      ObjectLoop(c, t.fields, FieldsTable(t.fields), bs[i := Binding(ms[i], true)], s')
    decreases t, 0, 1
  {
    assert t.fields[i] in t.fields;
    var k := [KeyToken(t.fields[i].name)];
    var d := Dumped(t.fields[i].ty, ms[i], o);
    var f := MembersFrom(t, ms, i + 1, o);
    var rest := f + [EndObjectToken(0)] + tail;
    assert MembersFrom(t, ms, i, o) == k + d + f;
    Regroup(k + d, f, [EndObjectToken(0)], tail);
    AppendAssociates(k, d, rest);
    s' := ObjectLoopSteps(c, t, bs, i, ms[i], o, s, rest);
  }

  /** No index is listed twice. */
  predicate Distinct(order: seq<nat>) {
    forall i, j :: 0 <= i < j < |order| ==> order[i] != order[j]
  }

  /** The members listed by `order` from its `j`-th entry on: each field's key, then its member's dump. */
  function Listed(t: TypeDesc, ms: seq<Value>, order: seq<nat>, j: nat, o: Order): (evs: seq<Token>)
    requires t.TObject? && Dumpable(t) && Conforms(t, VObj(ms)) && Lawful(o) && j <= |order|
    requires forall k :: 0 <= k < |order| ==> order[k] < |ms|
    decreases |order| - j
  {
    if j == |order| then []
    else
      assert t.fields[order[j]] in t.fields;
      [KeyToken(t.fields[order[j]].name)] + Dumped(t.fields[order[j]].ty, ms[order[j]], o) + Listed(t, ms, order, j + 1, o)
  }

  /** The bindings once the keys of `order[..j]` are met: those fields set to their members, the others fresh. */
  function Provided(fields: seq<FieldDesc>, ms: seq<Value>, order: seq<nat>, j: nat): (bs: seq<Binding>)
    requires |ms| == |fields| && j <= |order|
    ensures |bs| == |fields|
  {
    seq(|fields|, f requires 0 <= f < |fields| =>
      if f in order[..j] then Binding(ms[f], true) else Binding(fields[f].initial, false))
  }

  /** The object a parse of the keys in `order` builds: the listed members, and the default value of every other one. */
  function Filled(fields: seq<FieldDesc>, ms: seq<Value>, order: seq<nat>): (vs: seq<Value>)
    requires |ms| == |fields|
    ensures |vs| == |fields|
    ensures forall f :: 0 <= f < |fields| ==> vs[f] == if f in order then ms[f] else fields[f].initial
  {
    seq(|fields|, f requires 0 <= f < |fields| => if f in order then ms[f] else fields[f].initial)
  }

  /** Before any key, the bindings are the fresh ones. */
  lemma ProvidedInitially(fields: seq<FieldDesc>, ms: seq<Value>, order: seq<nat>)
    requires |ms| == |fields|
    ensures Provided(fields, ms, order, 0) == Initials(fields)
  {
    assert order[..0] == [];
  }

  /** The field of the `j`-th key is still unset, and setting it gives the bindings after that key. */
  lemma ProvidedNext(fields: seq<FieldDesc>, ms: seq<Value>, order: seq<nat>, j: nat)
    requires |ms| == |fields| && j < |order| && Distinct(order) && order[j] < |fields|
    ensures !Provided(fields, ms, order, j)[order[j]].isSet
    ensures Provided(fields, ms, order, j)[order[j] := Binding(ms[order[j]], true)] == Provided(fields, ms, order, j + 1)
  {
    assert order[..j + 1] == order[..j] + [order[j]];
    assert order[j] !in order[..j];
  }

  /** After every listed key, with only optional fields left out, all fields are ready and hold the filled object. */
  lemma ProvidedAll(fields: seq<FieldDesc>, ms: seq<Value>, order: seq<nat>)
    requires |ms| == |fields|
    requires forall f :: 0 <= f < |fields| && f !in order ==> IsOpt(fields[f])
    ensures AllReady(fields, Provided(fields, ms, order, |order|))
    ensures Values(Provided(fields, ms, order, |order|)) == Filled(fields, ms, order)
  {
    assert order[..|order|] == order;
  }

  /** One round of the key loop over the keys listed from the `j`-th on: that field set, and its events consumed. */
  lemma ListedStep(c: Config, t: TypeDesc, ms: seq<Value>, order: seq<nat>, j: nat, o: Order, s: State, tail: seq<Token>)
    returns (s': State)
    requires t.TObject? && Dumpable(t) && Readable(t) && Conforms(t, VObj(ms)) && Lawful(o) && j < |order|
    requires Distinct(order) && forall k :: 0 <= k < |order| ==> order[k] < |ms|
    requires Feeds(c, s, Listed(t, ms, order, j, o) + [EndObjectToken(0)] + tail)
    ensures Feeds(c, s', Listed(t, ms, order, j + 1, o) + [EndObjectToken(0)] + tail)
    ensures ObjectLoop(c, t.fields, FieldsTable(t.fields), Provided(t.fields, ms, order, j), s) ==
      ObjectLoop(c, t.fields, FieldsTable(t.fields), Provided(t.fields, ms, order, j + 1), s')
  {
    var i := order[j];
    assert t.fields[i] in t.fields;
    var k := [KeyToken(t.fields[i].name)];
    var d := Dumped(t.fields[i].ty, ms[i], o);
    var f := Listed(t, ms, order, j + 1, o);
    var rest := f + [EndObjectToken(0)] + tail;
    assert Listed(t, ms, order, j, o) == k + d + f;
    Regroup(k + d, f, [EndObjectToken(0)], tail);
    AppendAssociates(k, d, rest);
    ProvidedNext(t.fields, ms, order, j);
    s' := ObjectLoopSteps(c, t, Provided(t.fields, ms, order, j), i, ms[i], o, s, rest);
  }

  /** The key loop over the keys listed from the `j`-th on and an end object sets each listed field to its member. */
  lemma {:induction false} ListedReadBack(c: Config, t: TypeDesc, ms: seq<Value>, order: seq<nat>, j: nat, o: Order, s: State, tail: seq<Token>)
    requires t.TObject? && Dumpable(t) && Readable(t) && Conforms(t, VObj(ms)) && Lawful(o) && j <= |order|
    requires Distinct(order) && forall k :: 0 <= k < |order| ==> order[k] < |ms|
    requires forall f :: 0 <= f < |ms| && f !in order ==> IsOpt(t.fields[f])
    requires Feeds(c, s, Listed(t, ms, order, j, o) + [EndObjectToken(0)] + tail)
    ensures ObjectLoop(c, t.fields, FieldsTable(t.fields), Provided(t.fields, ms, order, j), s).result == Done()
    ensures ObjectLoop(c, t.fields, FieldsTable(t.fields), Provided(t.fields, ms, order, j), s).bindings ==
      Provided(t.fields, ms, order, |order|)
    ensures Feeds(c, ObjectLoop(c, t.fields, FieldsTable(t.fields), Provided(t.fields, ms, order, j), s).rest, tail)
    decreases |order| - j
  {
    if j == |order| {
      assert Listed(t, ms, order, j, o) + [EndObjectToken(0)] + tail == [EndObjectToken(0)] + tail;
      ProvidedAll(t.fields, ms, order);
      ObjectLoopEnds(c, t.fields, Provided(t.fields, ms, order, j), s, tail);
    } else {
      var s' := ListedStep(c, t, ms, order, j, o, s, tail);
      ListedReadBack(c, t, ms, order, j + 1, o, s', tail);
    }
  }

  /**
   * A class reads back from its keys in any order, each at most once, with
   * any optional fields left out: the listed members are parsed, the others
   * keep their default value.
   */
  lemma AnyKeyOrderReadsBack(c: Config, t: TypeDesc, ms: seq<Value>, order: seq<nat>, o: Order, s: State, tail: seq<Token>)
    requires t.TObject? && Dumpable(t) && Readable(t) && Conforms(t, VObj(ms)) && Lawful(o)
    requires Distinct(order) && forall k :: 0 <= k < |order| ==> order[k] < |ms|
    requires forall f :: 0 <= f < |ms| && f !in order ==> IsOpt(t.fields[f])
    requires Feeds(c, s, [StartObjectToken] + (Listed(t, ms, order, 0, o) + [EndObjectToken(0)] + tail))
    ensures ParseObjectType(c, t, s).result == Ok(VObj(Filled(t.fields, ms, order)))
    ensures Feeds(c, ParseObjectType(c, t, s).rest, tail)
  {
    var body := Listed(t, ms, order, 0, o) + [EndObjectToken(0)] + tail;
    var s' := ObjectOpens(c, t.fields, s, body);
    ProvidedInitially(t.fields, ms, order);
    ListedReadBack(c, t, ms, order, 0, o, s', tail);
    ProvidedAll(t.fields, ms, order);
  }

  /**
   * What `dump` writes, read back by a fresh stream (either variant), gives
   * the dumped value back: the round trip of a readable type.
   */
  lemma DumpThenParse(c: Config, t: TypeDesc, v: Value, o: Order)
    requires Dumpable(t) && Readable(t) && Conforms(t, v) && Lawful(o)
    requires Delivers(c.lexer, Dumped(t, v, o))
    requires c.withPath ==> Trackable([], c.lexer)
    requires TrailersNotNull(c.lexer)
    ensures Parse(c, t, Initial()).result == Ok(v)
  {
    InitialInv(c);
    assert c.lexer[0..] == c.lexer;
    assert Dumped(t, v, o) + [] == Dumped(t, v, o);
    ParseDumped(c, t, v, o, Initial(), []);
  }
}
