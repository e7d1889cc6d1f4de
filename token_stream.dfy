/**
 * A one-token-lookahead cursor over a push lexer, and the variant that
 * keeps the path of the current token (include/ctjson/TokenStream.hpp).
 *
 * The lexer is given as the sequence of outcomes its successive steps
 * produce: a token event, a failure with its error code and English text,
 * a successful step that delivered no token, or a step that delivered the
 * document's last token and then failed on text after it.
 */
module Streams {
  import opened Wrappers
  import opened Tokens
  import opened Paths

  /** The error codes of the lexer that the stream tells apart; every other code is `OtherCode`. */
  datatype ErrorCode = ParseErrorNone | ParseErrorTermination | OtherCode(code: nat)

  /**
   * What one step of the lexer (`IterativeParseNext`) produces; `text` is the
   * code's `GetParseError_En`. Without the stop-when-done flag the reader
   * hands the token that completes the document to the handler and then
   * fails the same step when more text follows: `EventThenFail`.
   */
  datatype Outcome =
    | Event(token: Token)
    | Fail(code: ErrorCode, text: string)
    | NoToken
    | EventThenFail(token: Token, code: ErrorCode, text: string)

  /** The step reported failure, whether or not it delivered a token first. */
  predicate Failed(o: Outcome) {
    o.Fail? || o.EventThenFail?
  }

  /**
   * A token delivered together with a failure is never null. The reader only
   * does that for the token completing the document; a root `null` followed
   * by more text is the one such step this model leaves out.
   */
  predicate TrailersNotNull(outs: seq<Outcome>) {
    forall i :: 0 <= i < |outs| && outs[i].EventThenFail? ==> !outs[i].token.NullToken?
  }

  /** The input of a stream: the lexer's outcomes, and whether the stream keeps a path (`ContextTokenStream`). */
  datatype Config = Config(lexer: seq<Outcome>, withPath: bool)

  /**
   * The state of a stream: how many lexer steps were taken, the token held
   * by the handler, the sticky error, and the path stack.
   */
  datatype State = State(pos: nat, buffer: Option<Token>, error: Option<string>, path: seq<Component>)

  /** What the result of `peek`/`next` is, together with the new state. */
  datatype Step = Step(token: Option<Token>, state: State)

  /** The path operation `on_advance` applies to `t` is defined at `p`: a key needs an Object on top, an end needs a component to pop. */
  predicate Enabled(p: seq<Component>, t: Token) {
    match t
    case KeyToken(_) => |p| > 0 && Top(p).Object?
    case EndObjectToken(_) => |p| > 0
    case EndArrayToken(_) => |p| > 0
    case _ => true
  }

  /** `ContextTokenStream::on_advance`: the one path operation that corresponds to the token's kind. */
  function OnAdvance(p: seq<Component>, t: Token): (r: seq<Component>)
    requires Enabled(p, t)
    ensures |p| - 1 <= |r| <= |p| + 1
    ensures |p| > 0 ==> r[..|p| - 1] == p[..|p| - 1]
  {
    match t
    case StartObjectToken => OnStartObject(p)
    case KeyToken(k) => OnKey(p, k)
    case EndObjectToken(_) => OnEndObject(p)
    case StartArrayToken => OnStartArray(p)
    case EndArrayToken(_) => OnEndArray(p)
    case _ => OnValue(p)
  }

  /** Each token changes the stack depth by the nesting it expresses: +1 on a start, -1 on an end, 0 otherwise. */
  lemma OnAdvanceDepth(p: seq<Component>, t: Token)
    requires Enabled(p, t)
    ensures |OnAdvance(p, t)| == |p| + (if t.StartObjectToken? || t.StartArrayToken? then 1
                                       else if t.EndObjectToken? || t.EndArrayToken? then -1 else 0)
  {
  }

  /**
   * Every token of the outcomes, up to the first step that is not an event,
   * has its path operation defined: the nesting discipline of a JSON reader.
   */
  predicate Trackable(p: seq<Component>, outs: seq<Outcome>)
    decreases |outs|
  {
    |outs| == 0 || !outs[0].Event? || (Enabled(p, outs[0].token) && Trackable(OnAdvance(p, outs[0].token), outs[1..]))
  }

  /**
   * `IterativeParseComplete()`: the reader reached its finish state. It does
   * so with the document's last token, so after an event step it is complete
   * exactly when the lexer has no more steps. A step that failed on text after
   * the document also finished it. A failure inside the document, or an
   * empty step, leaves the reader where it was, so it is not complete.
   */
  predicate ReaderComplete(c: Config, pos: nat) {
    if 0 < pos <= |c.lexer| && !c.lexer[pos - 1].Event? then c.lexer[pos - 1].EventThenFail?
    else pos >= |c.lexer|
  }

  /** The recorded error came from a step that also delivered a token. */
  predicate TrailingFailure(c: Config, s: State) {
    0 < s.pos <= |c.lexer| && c.lexer[s.pos - 1].EventThenFail?
  }

  /**
   * What holds of every reachable state: an error was recorded by the last
   * step taken; a token held next to an error is the one that step delivered;
   * an error-free stream took only event steps; the context stream's
   * remaining events are trackable; and the base stream keeps no path.
   */
  predicate Inv(c: Config, s: State) {
    && s.pos <= |c.lexer|
    && TrailersNotNull(c.lexer)
    && (s.error.Some? ==> s.pos > 0 && !c.lexer[s.pos - 1].Event?)
    && (s.error.Some? && s.buffer.Some? ==> TrailingFailure(c, s) && s.buffer.value == c.lexer[s.pos - 1].token)
    && (s.error.None? && s.pos > 0 ==> c.lexer[s.pos - 1].Event?)
    && (c.withPath && s.error.None? ==> Trackable(s.path, c.lexer[s.pos..]))
    && (!c.withPath ==> s.path == [])
  }

  /** The state of a freshly constructed stream. */
  function Initial(): (s: State)
    ensures s.pos == 0 && s.buffer.None? && s.error.None? && s.path == []
  {
    State(0, None, None, [])
  }

  /** A fresh stream satisfies the invariant exactly when its lexer is trackable from the empty path (or no path is kept) and delivers no null with a failure. */
  lemma InitialInv(c: Config)
    ensures Inv(c, Initial()) <==> (c.withPath ==> Trackable([], c.lexer)) && TrailersNotNull(c.lexer)
  {
    assert c.lexer[0..] == c.lexer;
  }

  /** `handle_parse_error(code)`: the English text, wrapped as a bug report for the two codes that cannot come from malformed input. */
  function ParseErrorMessage(code: ErrorCode, text: string): (m: string)
    ensures (code.ParseErrorNone? || code.ParseErrorTermination?) ==> m == "Unexpected error: " + text + ", possibly a bug"
    ensures code.OtherCode? ==> m == text
  {
    if code.ParseErrorTermination? || code.ParseErrorNone? then "Unexpected error: " + text + ", possibly a bug" else text
  }

  /** The error of a successful lexer step that delivered no token. */
  const NoTokenMessage := "Unexpected state: no token acquired, possibly a bug"

  /** `is_complete()`: the reader is complete and no token is held that a peek left behind. */
  predicate IsCompleteSpec(c: Config, s: State)
    ensures IsCompleteSpec(c, s) ==> s.buffer.None? && (s.pos < |c.lexer| ==> s.pos > 0 && c.lexer[s.pos - 1].EventThenFail?)
    ensures 0 < s.pos <= |c.lexer| && (c.lexer[s.pos - 1].Fail? || c.lexer[s.pos - 1].NoToken?) ==> !IsCompleteSpec(c, s)
  {
    ReaderComplete(c, s.pos) && s.buffer.None?
  }

  /**
   * `advance()`: one lexer step; a failure records its message, an empty step
   * records a bug, a token is buffered and tracked. A token delivered by a
   * failing step is buffered, but the failure skips `on_advance`.
   */
  function AdvanceSpec(c: Config, s: State): (r: State)
    requires Inv(c, s) && !ReaderComplete(c, s.pos) && s.buffer.None? && s.error.None?
    ensures Inv(c, r) && r.pos == s.pos + 1
    ensures c.lexer[s.pos].Event? || c.lexer[s.pos].EventThenFail? <==> r.buffer.Some?
    ensures c.lexer[s.pos].Event? ==> r.buffer == Some(c.lexer[s.pos].token) && r.error.None?
    ensures Failed(c.lexer[s.pos]) ==> r.error == Some(ParseErrorMessage(c.lexer[s.pos].code, c.lexer[s.pos].text))
    ensures c.lexer[s.pos].EventThenFail? ==> r.buffer == Some(c.lexer[s.pos].token) && r.path == s.path
    ensures c.lexer[s.pos].NoToken? ==> r.error == Some(NoTokenMessage)
  {
    var outs := c.lexer[s.pos..];
    assert outs[0] == c.lexer[s.pos] && outs[1..] == c.lexer[s.pos + 1..];
    match c.lexer[s.pos]
    case Fail(code, text) => s.(pos := s.pos + 1, error := Some(ParseErrorMessage(code, text)))
    case NoToken => s.(pos := s.pos + 1, error := Some(NoTokenMessage))
    case EventThenFail(t, code, text) => s.(pos := s.pos + 1, buffer := Some(t), error := Some(ParseErrorMessage(code, text)))
    case Event(t) =>
      s.(pos := s.pos + 1, buffer := Some(t), path := if c.withPath then OnAdvance(s.path, t) else s.path)
  }

  /** The result of `acquire_token()` and the state it leaves. */
  datatype Acquired = Acquired(ok: bool, state: State)

  /** `acquire_token()`: nothing on an error or at the end; otherwise one lexer step unless a token is already held. */
  function AcquireSpec(c: Config, s: State): (r: Acquired)
    requires Inv(c, s)
    ensures Inv(c, r.state) && r.ok == (s.error.None? && r.state.buffer.Some?)
    ensures s.error.Some? ==> r.state == s
    ensures s.buffer.Some? ==> r.state == s
    ensures r.state.pos <= s.pos + 1
  {
    if s.error.Some? || IsCompleteSpec(c, s) then Acquired(false, s)
    else
      var s' := if s.buffer.None? then AdvanceSpec(c, s) else s;
      Acquired(s'.buffer.Some?, s')
  }

  /** `peek()`: the held token after acquiring one. */
  function PeekSpec(c: Config, s: State): (r: Step)
    requires Inv(c, s)
    ensures Inv(c, r.state) && r.token == r.state.buffer
    ensures Measure(c, r.state) <= Measure(c, s)
    ensures s.buffer.Some? ==> r == Step(s.buffer, s)
  {
    var a := AcquireSpec(c, s);
    Step(a.state.buffer, a.state)
  }

  /**
   * `next()`: the held token after acquiring one, taken out of the handler.
   * Once an error is recorded it yields nothing, even with a token still held.
   */
  function NextSpec(c: Config, s: State): (r: Step)
    requires Inv(c, s)
    ensures Inv(c, r.state)
    ensures s.error.None? || s.buffer.None? ==> r.state.buffer.None?
    ensures Measure(c, r.state) <= Measure(c, s)
    ensures r.token.Some? ==> Measure(c, r.state) < Measure(c, s)
    ensures s.buffer.Some? && s.error.None? ==> r == Step(s.buffer, s.(buffer := None))
    ensures s.error.Some? ==> r == Step(None, s)
  {
    var a := AcquireSpec(c, s);
    if a.ok then Step(a.state.buffer, a.state.(buffer := None)) else Step(None, a.state)
  }

  /** `get_path()`: none for the base stream, the rendered path for the context stream. */
  function GetPathSpec(c: Config, s: State): (r: Option<string>)
    ensures c.withPath <==> r.Some?
    ensures c.withPath ==> r == Some(Rendered(s.path))
  {
    if c.withPath then Some(Rendered(s.path)) else None
  }

  /** Twice the steps still to take, plus one for a held token: `next` with a token strictly lowers it, `peek` never raises it. */
  function Measure(c: Config, s: State): nat {
    if s.pos <= |c.lexer| then 2 * (|c.lexer| - s.pos) + (if s.buffer.Some? then 1 else 0) else 0
  }

  /** Peeking twice is peeking once: the same token, and no further lexer step. */
  lemma PeekIdempotent(c: Config, s: State)
    requires Inv(c, s)
    ensures PeekSpec(c, PeekSpec(c, s).state) == PeekSpec(c, s)
    ensures PeekSpec(c, s).state.pos <= s.pos + 1
  {
  }

  /**
   * `next` gives what `peek` gives, in the state `peek` leaves except that the
   * buffer is emptied; but a token left held next to an error is shown by
   * `peek` and withheld by `next`.
   */
  lemma NextIsPeekThenTake(c: Config, s: State)
    requires Inv(c, s)
    ensures s.error.None? || s.buffer.None? ==> NextSpec(c, s).token == PeekSpec(c, s).token
    ensures s.error.None? || s.buffer.None? ==> NextSpec(c, s).state == PeekSpec(c, s).state.(buffer := None)
    ensures s.error.Some? && s.buffer.Some? ==> PeekSpec(c, s).token == s.buffer && NextSpec(c, s).token.None?
  {
  }

  /** Once an error is recorded it stays: `peek` shows at most the token still held, `next` yields nothing, and neither steps the lexer. */
  lemma ErrorIsSticky(c: Config, s: State)
    requires Inv(c, s) && s.error.Some?
    ensures PeekSpec(c, s) == Step(s.buffer, s)
    ensures NextSpec(c, s) == Step(None, s)
  {
  }

  /**
   * A step that delivers a token and then fails: `next` still returns the
   * token and records the failure, the path is not advanced, and the stream
   * is complete. Had `peek` taken the step, a later `next` yields nothing.
   */
  lemma TrailingFailureDelivers(c: Config, s: State)
    requires Inv(c, s) && s.buffer.None? && s.error.None? && s.pos < |c.lexer|
    requires c.lexer[s.pos].EventThenFail?
    ensures NextSpec(c, s).token == Some(c.lexer[s.pos].token)
    ensures NextSpec(c, s).state.error == Some(ParseErrorMessage(c.lexer[s.pos].code, c.lexer[s.pos].text))
    ensures NextSpec(c, s).state.path == s.path
    ensures IsCompleteSpec(c, NextSpec(c, s).state)
    ensures PeekSpec(c, s).token == Some(c.lexer[s.pos].token)
    ensures NextSpec(c, PeekSpec(c, s).state).token.None?
  {
    assert !ReaderComplete(c, s.pos);
  }

  /** A recorded error is never cleared or replaced by `peek` or `next`. */
  lemma ErrorPersists(c: Config, s: State)
    requires Inv(c, s) && s.error.Some?
    ensures PeekSpec(c, s).state.error == s.error && NextSpec(c, s).state.error == s.error
  {
  }

  /** A failing lexer step records its message and yields no token; the reader did not finish, so the stream is not complete. */
  lemma FailureIsRecorded(c: Config, s: State)
    requires Inv(c, s) && s.buffer.None? && s.error.None? && s.pos < |c.lexer|
    requires c.lexer[s.pos].Fail?
    ensures NextSpec(c, s).token.None?
    ensures NextSpec(c, s).state.error == Some(ParseErrorMessage(c.lexer[s.pos].code, c.lexer[s.pos].text))
    ensures NextSpec(c, s).state.pos == s.pos + 1
    ensures !IsCompleteSpec(c, NextSpec(c, s).state)
  {
    assert !ReaderComplete(c, s.pos);
  }

  /** A successful lexer step without a token records the bug message and yields no token. */
  lemma EmptyStepIsRecorded(c: Config, s: State)
    requires Inv(c, s) && s.buffer.None? && s.error.None? && s.pos < |c.lexer|
    requires c.lexer[s.pos].NoToken?
    ensures NextSpec(c, s).token.None?
    ensures NextSpec(c, s).state.error == Some(NoTokenMessage)
    ensures !IsCompleteSpec(c, NextSpec(c, s).state)
  {
    assert !ReaderComplete(c, s.pos);
  }

  /** A token step delivers that token; the context stream has applied its one path operation, the base stream keeps no path. */
  lemma TokenStepTracks(c: Config, s: State)
    requires Inv(c, s) && s.buffer.None? && s.error.None? && s.pos < |c.lexer|
    requires c.lexer[s.pos].Event?
    ensures NextSpec(c, s).token == Some(c.lexer[s.pos].token)
    ensures NextSpec(c, s).state.pos == s.pos + 1 && NextSpec(c, s).state.error.None?
    ensures c.withPath ==> Enabled(s.path, c.lexer[s.pos].token)
    ensures c.withPath ==> NextSpec(c, s).state.path == OnAdvance(s.path, c.lexer[s.pos].token)
    ensures !c.withPath ==> NextSpec(c, s).state.path == []
  {
    assert !ReaderComplete(c, s.pos);
    assert c.lexer[s.pos..][0] == c.lexer[s.pos];
  }

  /** With every step taken and no token held, the stream is complete and yields nothing more. */
  lemma CompleteYieldsNothing(c: Config, s: State)
    requires Inv(c, s) && IsCompleteSpec(c, s)
    ensures NextSpec(c, s) == Step(None, s)
  {
  }

  /**
   * `TokenStream` (`withPath` false) and `ContextTokenStream` (`withPath`
   * true): the handler's buffered token, the reader's position, the sticky
   * error and, for the context variant, the path.
   */
  class TokenStream {
    const lexer: seq<Outcome>
    const withPath: bool
    const path: Path
    var pos: nat
    var buffer: Option<Token>
    var error: Option<string>

    ghost function Setup(): Config {
      Config(lexer, withPath)
    }

    ghost function Snapshot(): State
      reads this, path
    {
      State(pos, buffer, error, path.components)
    }

    ghost predicate Valid()
      reads this, path
    {
      Inv(Setup(), Snapshot())
    }

    /** A stream over the lexer; the context variant needs the lexer's events to be well nested. */
    constructor (lexer: seq<Outcome>, withPath: bool)
      requires withPath ==> Trackable([], lexer)
      requires TrailersNotNull(lexer)
      ensures this.lexer == lexer && this.withPath == withPath
      ensures Valid() && Snapshot() == Initial()
      ensures fresh(path)
    {
      this.lexer := lexer;
      this.withPath := withPath;
      this.path := new Path();
      pos := 0;
      buffer := None;
      error := None;
      new;
      InitialInv(Config(lexer, withPath));
    }

    /** `has_error()` */
    function HasError(): (r: bool)
      reads this
      ensures r <==> error.Some?
    {
      error.Some?
    }

    /** `get_error()`, only defined once an error is recorded. */
    function GetError(): (r: string)
      reads this
      requires error.Some?
      ensures Some(r) == error
    {
      error.value
    }

    /** `is_complete()` */
    function IsComplete(): (r: bool)
      reads this
      ensures r <==> IsCompleteSpec(Config(lexer, withPath), State(pos, buffer, error, []))
    {
      var finished := if 0 < pos <= |lexer| && !lexer[pos - 1].Event? then lexer[pos - 1].EventThenFail? else pos >= |lexer|;
      finished && buffer.None?
    }

    /** `peek()` */
    method Peek() returns (token: Option<Token>)
      requires Valid()
      modifies this, path
      ensures Valid()
      ensures Step(token, Snapshot()) == PeekSpec(Setup(), old(Snapshot()))
    {
      var _ := AcquireToken();
      token := buffer;
    }

    /** `next()` */
    method Next() returns (token: Option<Token>)
      requires Valid()
      modifies this, path
      ensures Valid()
      ensures Step(token, Snapshot()) == NextSpec(Setup(), old(Snapshot()))
    {
      var ok := AcquireToken();
      if ok {
        token := buffer;
        buffer := None;
      } else {
        token := None;
      }
    }

    /** `get_path()`: the rendered path for the context variant, none for the base stream. */
    method GetPath() returns (r: Option<string>)
      ensures r == GetPathSpec(Setup(), Snapshot())
    {
      if withPath {
        var rendered := path.Render();
        r := Some(rendered);
      } else {
        r := None;
      }
    }

    /** `acquire_token()` */
    method AcquireToken() returns (ok: bool)
      requires Valid()
      modifies this, path
      ensures Valid()
      ensures Acquired(ok, Snapshot()) == AcquireSpec(Setup(), old(Snapshot()))
    {
      if HasError() || IsComplete() {
        return false;
      }
      if buffer.None? {
        Advance();
      }
      ok := buffer.Some?;
    }

    /** `advance()`: one lexer step. */
    method Advance()
      requires Valid() && !ReaderComplete(Setup(), pos) && buffer.None? && error.None?
      modifies this, path
      ensures Valid()
      ensures Snapshot() == AdvanceSpec(Setup(), old(Snapshot()))
    {
      var outs := lexer[pos..];
      assert outs[0] == lexer[pos] && outs[1..] == lexer[pos + 1..];
      var outcome := lexer[pos];
      pos := pos + 1;
      match outcome
      case Fail(code, text) =>
        HandleParseError(code, text);
      case NoToken =>
        error := Some(NoTokenMessage);
      case EventThenFail(t, code, text) =>
        buffer := Some(t);
        HandleParseError(code, text);
      case Event(t) =>
        buffer := Some(t);
        if withPath {
          OnAdvanceStep(t);
        }
    }

    /** `handle_parse_error(code)` */
    method HandleParseError(code: ErrorCode, text: string)
      modifies this
      ensures error == Some(ParseErrorMessage(code, text))
      ensures pos == old(pos) && buffer == old(buffer)
    {
      var message := text;
      if code == ParseErrorTermination || code == ParseErrorNone {
        message := "Unexpected error: " + message + ", possibly a bug";
      }
      error := Some(message);
    }

    /** `on_advance(token)`: exactly one path operation. */
    method OnAdvanceStep(t: Token)
      requires Enabled(path.components, t)
      modifies path
      ensures path.components == OnAdvance(old(path.components), t)
    {
      match t
      case StartObjectToken => path.StartObject();
      case KeyToken(k) => path.Key(k);
      case EndObjectToken(_) => path.EndObject();
      case StartArrayToken => path.StartArray();
      case EndArrayToken(_) => path.EndArray();
      case _ => path.Value();
    }
  }
}
