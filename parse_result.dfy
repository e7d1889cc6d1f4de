/**
 * The result of a parse: a value, or an error of one of two kinds, each
 * carrying a message and an optional path (include/ctjson/ParseResult.hpp).
 */
module Results {
  import opened Wrappers

  /** `ParseResultBase::Error`: the message and, when known, the path where it occurred. */
  datatype Error = Error(error: string, path: Option<string>)

  /**
   * `ParseResult<T>`: exactly one of a value (`NO_ERROR`), a malformed-JSON
   * error (`JSON_ERROR`) or a domain error (`PARSE_ERROR`). `ParseResult<void>`
   * is `ParseResult<()>`.
   */
  datatype ParseResult<+T> =
    | Ok(value: T)
    | JsonErr(jsonError: Error)
    | ParseErr(parseError: Error)
  {
    predicate IsOk() { Ok? }
    predicate IsJsonError() { JsonErr? }
    predicate IsParseError() { ParseErr? }

    /** `error()`: the error information, only defined on an error result. */
    function GetError(): (e: Error)
      requires !IsOk()
    {
      if JsonErr? then jsonError else parseError
    }
  }

  /** Exactly one of the three predicates holds of every result. */
  lemma ExactlyOneKind<T>(r: ParseResult<T>)
    ensures r.IsOk() || r.IsJsonError() || r.IsParseError()
    ensures !(r.IsOk() && r.IsJsonError()) && !(r.IsOk() && r.IsParseError()) && !(r.IsJsonError() && r.IsParseError())
  {
  }

  /** `ParseResult<T>::result(v)` */
  function Result<T>(v: T): (r: ParseResult<T>)
    ensures r.IsOk() && r.value == v
  {
    Ok(v)
  }

  /** `ParseResult<void>::result()` */
  function Done(): (r: ParseResult<()>)
    ensures r.IsOk()
  {
    Ok(())
  }

  /** `ParseResult<T>::json_error(m, p)` */
  function JsonError<T>(message: string, path: Option<string>): (r: ParseResult<T>)
    ensures r.IsJsonError() && r.GetError() == Error(message, path)
  {
    JsonErr(Error(message, path))
  }

  /** `ParseResult<T>::parse_error(m, p)` */
  function ParseError<T>(message: string, path: Option<string>): (r: ParseResult<T>)
    ensures r.IsParseError() && r.GetError() == Error(message, path)
  {
    ParseErr(Error(message, path))
  }

  /** `ParseResult<T>::convert_error(other)`: the same error kind, message and path, at another value type. */
  function ConvertError<U, T>(other: ParseResult<U>): (r: ParseResult<T>)
    requires !other.IsOk()
    ensures !r.IsOk()
    ensures r.IsJsonError() == other.IsJsonError() && r.IsParseError() == other.IsParseError()
    ensures r.GetError() == other.GetError()
  {
    match other
    case JsonErr(e) => JsonErr(e)
    case ParseErr(e) => ParseErr(e)
  }

  /** Converting an error twice, through any intermediate value type, is converting it once. */
  lemma ConvertErrorComposes<U, V, T>(other: ParseResult<U>)
    requires !other.IsOk()
    ensures ConvertError<V, T>(ConvertError<U, V>(other)) == ConvertError<U, T>(other)
  {
  }

  /** `Error::render()`: the message, then " at " and the path when there is one. */
  function Render(e: Error): (r: string)
    ensures |r| >= |e.error| && r[..|e.error|] == e.error
    ensures e.path.None? ==> r == e.error
    ensures e.path.Some? ==> r[|e.error|..] == " at " + e.path.value
  {
    e.error + if e.path.Some? then " at " + e.path.value else ""
  }
}
