/**
 * Every dump is well nested: followed token by token through the path
 * tracker of the context stream (include/ctjson/detail/Path.hpp), the
 * writer calls of `dump` (include/ctjson/Serializer.hpp) never pop an empty
 * stack nor set a key outside an object, and leave the path exactly as one
 * scalar value would.
 */
module Nesting {
  import opened Wrappers
  import opened Tokens
  import opened Paths
  import opened Typing
  import Results
  import opened Streams
  import ParseSpec
  import opened Serializer
  import opened RoundTrip

  /** The path after `on_advance` of each token of `evs` in turn from `p`; none once some token's operation is undefined. */
  function Walk(p: seq<Component>, evs: seq<Token>): Option<seq<Component>>
    decreases |evs|
  {
    if evs == [] then Some(p)
    else if !Enabled(p, evs[0]) then None
    else Walk(OnAdvance(p, evs[0]), evs[1..])
  }

  /** Walking two runs of tokens is walking the first, then the second from where the first ended. */
  lemma {:induction false} WalkAppend(p: seq<Component>, a: seq<Token>, b: seq<Token>)
    ensures Walk(p, a + b) == if Walk(p, a).Some? then Walk(Walk(p, a).value, b) else None
    decreases |a|
  {
    if a == [] {
      assert a + b == b;
    } else {
      assert (a + b)[0] == a[0] && (a + b)[1..] == a[1..] + b;
      if Enabled(p, a[0]) {
        WalkAppend(OnAdvance(p, a[0]), a[1..], b);
      }
    }
  }

  /** A single token walks by its own path operation. */
  lemma WalkOne(p: seq<Component>, t: Token)
    ensures Walk(p, [t]) == if Enabled(p, t) then Some(OnAdvance(p, t)) else None
  {
    assert [t][1..] == [];
  }

  /**
   * From any path, the dump of a value walks to the path one scalar value
   * gives: every end token closes a start of the same dump, every key sits
   * in an object the dump opened, and the depth returns to where it began.
   */
  lemma {:induction false} DumpWalk(p: seq<Component>, t: TypeDesc, v: Value, o: Order)
    requires Dumpable(t) && Conforms(t, v) && Lawful(o)
    ensures Walk(p, Dumped(t, v, o)) == Some(OnValue(p))
    ensures |Walk(p, Dumped(t, v, o)).value| == |p|
    decreases t, 1
  {
    match t
    case TBool => WalkOne(p, BoolToken(v.b));
    case TInt(it) => WalkOne(p, IntegerEvent(it, v.i));
    case TFloat(_, _, toDouble) => WalkOne(p, DoubleToken(toDouble(v.d)));
    case TString => WalkOne(p, StringToken(v.s));
    case TOptional(u) =>
      if v.o.Some? {
        DumpWalk(p, u, v.o.value, o);
      } else {
        WalkOne(p, NullToken);
      }
    case TVector(_) =>
      var xs := Visited(t, v, o);
      ArrayWalk(p, t, xs, o);
    case TSet(_) =>
      var xs := Visited(t, v, o);
      ArrayWalk(p, t, xs, o);
    case TMap(_) =>
      var ks := KeyOrder(v.entries, o);
      var body := Entries(t, v.entries, ks, |ks|, o);
      var q := OnStartObject(p);
      EntriesWalk(q, t, v.entries, ks, |ks|, o);
      Bracket(p, StartObjectToken, q, body, EndObjectToken(0));
    case TObject(_) =>
      var body := Members(t, v.members, |v.members|, o);
      var q := OnStartObject(p);
      MembersWalk(q, t, v.members, |v.members|, o);
      Bracket(p, StartObjectToken, q, body, EndObjectToken(0));
  }

  /** The dump of an array-like value: a start array, its elements, an end array. */
  lemma ArrayWalk(p: seq<Component>, t: TypeDesc, xs: seq<Value>, o: Order)
    requires IsArrayLike(t) && Dumpable(t.elem) && Lawful(o)
    requires forall k :: 0 <= k < |xs| ==> Conforms(t.elem, xs[k])
    ensures Walk(p, [StartArrayToken] + Items(t, xs, |xs|, o) + [EndArrayToken(0)]) == Some(OnValue(p))
    decreases t, 0, |xs| + 1
  {
    var q := OnStartArray(p);
    assert q == Advanced(p) + [Array(-1)];
    assert q[..|q| - 1] == Advanced(p) && Top(q) == Array(-1);
    ItemsWalk(q, t, xs, |xs|, o);
    var inside := Advanced(p) + [Array(-1 + |xs|)];
    assert Walk(q, Items(t, xs, |xs|, o)) == Some(inside);
    assert |inside| == |p| + 1 && inside[..|p|] == Advanced(p);
    Bracket(p, StartArrayToken, q, Items(t, xs, |xs|, o), EndArrayToken(0));
  }

  /** A body that walks from just inside a start token back to one component above `p` walks, bracketed, to `OnValue(p)`. */
  lemma Bracket(p: seq<Component>, open: Token, q: seq<Component>, body: seq<Token>, close: Token)
    requires open.StartObjectToken? || open.StartArrayToken?
    requires close.EndObjectToken? || close.EndArrayToken?
    requires q == OnAdvance(p, open)
    requires Walk(q, body).Some? && |Walk(q, body).value| == |p| + 1 && Walk(q, body).value[..|p|] == Advanced(p)
    ensures Walk(p, [open] + body + [close]) == Some(OnValue(p))
  {
    WalkAppend(p, [open] + body, [close]);
    WalkAppend(p, [open], body);
    WalkOne(p, open);
    WalkOne(Walk(q, body).value, close);
  }

  /** The first `n` elements of an array walk from an Array component at index `i` to the same component at `i + n`. */
  lemma {:induction false} ItemsWalk(q: seq<Component>, t: TypeDesc, xs: seq<Value>, n: nat, o: Order)
    requires IsArrayLike(t) && Dumpable(t.elem) && Lawful(o) && n <= |xs|
    requires forall k :: 0 <= k < |xs| ==> Conforms(t.elem, xs[k])
    requires |q| > 0 && Top(q).Array?
    ensures Walk(q, Items(t, xs, n, o)) == Some(q[..|q| - 1] + [Array(Top(q).index + n)])
    decreases t, 0, n
  {
    if n == 0 {
      assert q == q[..|q| - 1] + [Array(Top(q).index)];
    } else {
      ItemsWalk(q, t, xs, n - 1, o);
      var q' := q[..|q| - 1] + [Array(Top(q).index + n - 1)];
      var before := Items(t, xs, n - 1, o);
      var d := Dumped(t.elem, xs[n - 1], o);
      assert Items(t, xs, n, o) == before + d;
      WalkAppend(q, before, d);
      DumpWalk(q', t.elem, xs[n - 1], o);
      assert q'[..|q'| - 1] == q[..|q| - 1];
      assert Advanced(q') == q[..|q| - 1] + [Array(Top(q).index + n)];
    }
  }

  /** A key, then the dump of its value, walks from an Object component to that component keyed by the key. */
  lemma KeyThenValue(r: seq<Component>, k: string, t: TypeDesc, v: Value, o: Order)
    requires Dumpable(t) && Conforms(t, v) && Lawful(o)
    requires |r| > 0 && Top(r).Object?
    ensures Walk(r, [KeyToken(k)] + Dumped(t, v, o)) == Some(OnKey(r, k))
    decreases t, 2
  {
    var keyed := OnKey(r, k);
    WalkOne(r, KeyToken(k));
    assert Walk(r, [KeyToken(k)]) == Some(keyed);
    DumpWalk(keyed, t, v, o);
    ValueOnlyAdvancesArrays(keyed);
    assert Walk(keyed, Dumped(t, v, o)) == Some(keyed);
    WalkAppend(r, [KeyToken(k)], Dumped(t, v, o));
  }

  /** The first `n` entries of a dict walk from an Object component to the same component keyed by the last key written. */
  lemma {:induction false} EntriesWalk(q: seq<Component>, t: TypeDesc, m: map<string, Value>, ks: seq<string>, n: nat, o: Order)
    requires t.TMap? && Dumpable(t.elem) && Lawful(o) && n <= |ks|
    requires forall i :: 0 <= i < |ks| ==> ks[i] in m
    requires forall k :: k in m ==> Conforms(t.elem, m[k])
    requires |q| > 0 && Top(q).Object?
    ensures Walk(q, Entries(t, m, ks, n, o)).Some?
    ensures |Walk(q, Entries(t, m, ks, n, o)).value| == |q| && Top(Walk(q, Entries(t, m, ks, n, o)).value).Object?
    ensures Walk(q, Entries(t, m, ks, n, o)).value[..|q| - 1] == q[..|q| - 1]
    decreases t, 0, n
  {
    if n > 0 {
      EntriesWalk(q, t, m, ks, n - 1, o);
      var before := Entries(t, m, ks, n - 1, o);
      var entry := [KeyToken(ks[n - 1])] + Dumped(t.elem, m[ks[n - 1]], o);
      assert Entries(t, m, ks, n, o) == before + entry;
      WalkAppend(q, before, entry);
      KeyThenValue(Walk(q, before).value, ks[n - 1], t.elem, m[ks[n - 1]], o);
    }
  }

  /** The first `n` members of an object walk from an Object component to the same component keyed by the last field written. */
  lemma {:induction false} MembersWalk(q: seq<Component>, t: TypeDesc, ms: seq<Value>, n: nat, o: Order)
    requires t.TObject? && Dumpable(t) && Conforms(t, VObj(ms)) && Lawful(o) && n <= |ms|
    requires |q| > 0 && Top(q).Object?
    ensures Walk(q, Members(t, ms, n, o)).Some?
    ensures |Walk(q, Members(t, ms, n, o)).value| == |q| && Top(Walk(q, Members(t, ms, n, o)).value).Object?
    ensures Walk(q, Members(t, ms, n, o)).value[..|q| - 1] == q[..|q| - 1]
    decreases t, 0, n
  {
    if n > 0 {
      MembersWalk(q, t, ms, n - 1, o);
      assert t.fields[n - 1] in t.fields;
      var f := t.fields[n - 1];
      assert Dumpable(f.ty) && Conforms(f.ty, ms[n - 1]);
      AppendKeyed(q, Members(t, ms, n - 1, o), f.name, f.ty, ms[n - 1], o);
    }
  }

  /** A key and its value, written after a run that walked from an Object component back to one, end in an Object component again. */
  lemma AppendKeyed(q: seq<Component>, before: seq<Token>, k: string, t: TypeDesc, v: Value, o: Order)
    requires Dumpable(t) && Conforms(t, v) && Lawful(o)
    requires |q| > 0 && Walk(q, before).Some?
    requires |Walk(q, before).value| == |q| && Top(Walk(q, before).value).Object?
    requires Walk(q, before).value[..|q| - 1] == q[..|q| - 1]
    ensures Walk(q, before + [KeyToken(k)] + Dumped(t, v, o)).Some?
    ensures |Walk(q, before + [KeyToken(k)] + Dumped(t, v, o)).value| == |q|
    ensures Top(Walk(q, before + [KeyToken(k)] + Dumped(t, v, o)).value).Object?
    ensures Walk(q, before + [KeyToken(k)] + Dumped(t, v, o)).value[..|q| - 1] == q[..|q| - 1]
    decreases t, 3
  {
    var member := [KeyToken(k)] + Dumped(t, v, o);
    assert before + [KeyToken(k)] + Dumped(t, v, o) == before + member;
    WalkAppend(q, before, member);
    var r := Walk(q, before).value;
    KeyThenValue(r, k, t, v, o);
  }

  /** A token read back has the same path operation, defined at the same paths, as the writer call it was read from. */
  lemma SameAdvance(p: seq<Component>, read: Token, written: Token)
    requires Same(read, written)
    ensures Enabled(p, read) == Enabled(p, written)
    ensures Enabled(p, read) ==> OnAdvance(p, read) == OnAdvance(p, written)
  {
    SameShape(read, written);
  }

  /** Outcomes that deliver a run of tokens walkable from `p`, followed by outcomes trackable where the walk ends, are trackable from `p`. */
  lemma {:induction false} DeliveredWalkTrackable(p: seq<Component>, outs: seq<Outcome>, evs: seq<Token>)
    requires Delivers(outs, evs) && |evs| <= |outs| && Walk(p, evs).Some?
    requires Trackable(Walk(p, evs).value, outs[|evs|..])
    ensures Trackable(p, outs)
    decreases |evs|
  {
    if evs != [] {
      SameAdvance(p, outs[0].token, evs[0]);
      assert outs[1..][|evs| - 1..] == outs[|evs|..];
      DeliveredWalkTrackable(OnAdvance(p, evs[0]), outs[1..], evs[1..]);
    }
  }

  /**
   * A lexer that delivers exactly a dump, optionally followed by one step
   * that fails, satisfies the context stream's nesting discipline: the
   * path condition of the round trip always holds.
   */
  lemma DumpIsTrackable(outs: seq<Outcome>, t: TypeDesc, v: Value, o: Order)
    requires Dumpable(t) && Conforms(t, v) && Lawful(o)
    requires Delivers(outs, Dumped(t, v, o))
    requires |outs| == |Dumped(t, v, o)| || (|outs| == |Dumped(t, v, o)| + 1 && !outs[|outs| - 1].Event?)
    ensures Trackable([], outs)
  {
    var evs := Dumped(t, v, o);
    DumpWalk([], t, v, o);
    DeliveredWalkTrackable([], outs, evs);
  }

  /** Outcomes that deliver a run of tokens hold at least that many steps, each of them a plain event. */
  lemma {:induction false} DeliveredAreEvents(outs: seq<Outcome>, evs: seq<Token>)
    requires Delivers(outs, evs)
    ensures |evs| <= |outs| && forall i :: 0 <= i < |evs| ==> outs[i].Event?
    decreases |evs|
  {
    if evs != [] {
      DeliveredAreEvents(outs[1..], evs[1..]);
      assert forall i :: 1 <= i < |evs| ==> outs[i] == outs[1..][i - 1];
    }
  }

  /** Reading back exactly what `dump` wrote gives the value back, with either stream: no condition on the path is left. */
  lemma DumpThenParseExactly(c: Config, t: TypeDesc, v: Value, o: Order)
    requires Dumpable(t) && Readable(t) && Conforms(t, v) && Lawful(o)
    requires Delivers(c.lexer, Dumped(t, v, o)) && |c.lexer| == |Dumped(t, v, o)|
    ensures Inv(c, Initial())
    ensures ParseSpec.Parse(c, t, Initial()).result == Results.Ok(v)
  {
    DeliveredAreEvents(c.lexer, Dumped(t, v, o));
    DumpIsTrackable(c.lexer, t, v, o);
    DumpThenParse(c, t, v, o);
  }
}
