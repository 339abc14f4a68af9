/**
 * The structured error value of the errors package, as far as its tests
 * observe it: rendering, unwrapping, prefix matching and the retryable flag.
 * A `Foreign` error is any other Go error (such as one from `errors.New`),
 * seen only through its text.
 */
module Errors {
  import opened Wrappers

  datatype Error =
    | Structured(code: Option<int>, prefix: string, message: string, data: map<string, string>,
                 retryable: bool, cause: Option<Error>)
    | Foreign(text: string)

  /** New: a non-retryable error with a numeric code and no cause. */
  function New(code: int, prefix: string, message: string, data: map<string, string>): (e: Error)
    ensures e.Structured? && e.prefix == prefix && e.message == message && !e.retryable
    ensures Unwrap(e).None?
  {
    Structured(Some(code), prefix, message, data, false, None)
  }

  /** NewWithAllInfo: as New, with the retryable flag chosen by the caller. */
  function NewWithAllInfo(code: int, prefix: string, message: string, data: map<string, string>, retryable: bool): (e: Error)
    ensures e.Structured? && e.prefix == prefix && e.message == message
    ensures IsRetryable(e) <==> retryable
    ensures Unwrap(e).None?
  {
    Structured(Some(code), prefix, message, data, retryable, None)
  }

  /** NewInternalErrorWithCause: an error under prefix `internal_service.<code>` wrapping `cause`. */
  function NewInternalErrorWithCause(cause: Error, message: string, data: map<string, string>, code: string): (e: Error)
    ensures Unwrap(e) == Some(cause)
    ensures PrefixMatches(e, "internal_service." + code)
  {
    Structured(None, "internal_service." + code, message, data, false, Some(cause))
  }

  /**
   * Error(): `prefix: message`, followed by `: ` and the cause's own text when
   * there is a cause.
   */
  function Message(e: Error): (s: string)
    ensures e.Structured? ==> |s| >= |e.prefix| + 2 + |e.message| && s[..|e.prefix|] == e.prefix
    ensures e.Structured? ==> s[|e.prefix|..|e.prefix| + 2 + |e.message|] == ": " + e.message
    ensures e.Structured? && e.cause.None? ==> s == e.prefix + ": " + e.message
    ensures e.Structured? && e.cause.Some? ==> s == e.prefix + ": " + e.message + ": " + Message(e.cause.value)
    ensures e.Foreign? ==> s == e.text
  {
    match e
    case Foreign(text) => text
    case Structured(_, prefix, message, _, _, cause) =>
      var head := prefix + ": " + message;
      if cause.Some? then head + ": " + Message(cause.value) else head
  }

  /** Unwrap: the wrapped cause; errors built without one, and foreign errors, have none. */
  function Unwrap(e: Error): (r: Option<Error>)
    ensures r.Some? <==> e.Structured? && e.cause.Some?
    ensures r.Some? ==> r.value < e
  {
    if e.Structured? then e.cause else None
  }

  /**
   * The free function PrefixMatches (and the method of the same name on a
   * structured error): the stored prefix equals `p` exactly; a foreign error
   * never matches.
   */
  function PrefixMatches(e: Error, p: string): (r: bool)
    ensures r <==> e.Structured? && e.prefix == p
  {
    match e
    case Structured(_, prefix, _, _, _, _) => prefix == p
    case Foreign(_) => false
  }

  /** IsPrefixMatches: the same test, under the name the package exports for error values. */
  function IsPrefixMatches(e: Error, p: string): (r: bool)
    ensures r ==> |p| <= |Message(e)| && Message(e)[..|p|] == p
    ensures e.Structured? && e.prefix == p ==> r
    ensures e.Foreign? ==> !r
  {
    PrefixMatches(e, p)
  }

  /** IsRetryable: the stored flag; a foreign error is not retryable. */
  function IsRetryable(e: Error): (r: bool)
    ensures r <==> e.Structured? && e.retryable
  {
    e.Structured? && e.retryable
  }

  /**
   * VerboseString: the message followed by a trace text supplied by the
   * caller, so it begins with the prefix.
   */
  function VerboseString(e: Error, trace: string): (s: string)
    requires e.Structured?
    ensures |s| >= |e.prefix| && s[..|e.prefix|] == e.prefix
  {
    Message(e) + trace
  }

  /** The innermost error reached by following Unwrap. */
  function RootCause(e: Error): (r: Error)
    ensures Unwrap(r).None?
    ensures r == e || r < e
  {
    match Unwrap(e)
    case None => e
    case Some(c) => RootCause(c)
  }

  /** The rendering of a wrapped error always ends with the rendering of its root cause. */
  lemma {:induction false} MessageEndsWithRootCause(e: Error)
    ensures var m := Message(e); var root := Message(RootCause(e));
      |root| <= |m| && m[|m| - |root|..] == root
  {
    match Unwrap(e)
    case None =>
    case Some(c) =>
      MessageEndsWithRootCause(c);
      var head := e.prefix + ": " + e.message + ": ";
      var m, mc, root := Message(e), Message(c), Message(RootCause(c));
      assert RootCause(e) == RootCause(c);
      assert m == head + mc;
      assert m[|m| - |root|..] == mc[|mc| - |root|..];
  }

  /** Values the package's tests build, and what they observe about them. */
  const TestError := NewWithAllInfo(1, "T", "failed", map[], true)

  lemma ObservedBehaviour()
    ensures Message(New(1, "T", "failed", map[])) == "T: failed"
    ensures Unwrap(New(1, "T", "failed", map[])).None?
    ensures Message(NewInternalErrorWithCause(Foreign("cause"), "failed", map[], "1")) == "internal_service.1: failed: cause"
    ensures Unwrap(NewInternalErrorWithCause(Foreign("cause"), "failed", map[], "1")) == Some(Foreign("cause"))
    ensures PrefixMatches(New(1, "T", "failed", map[]), "T") && !PrefixMatches(New(1, "T", "failed", map[]), "T1")
    ensures PrefixMatches(New(1, "t", "failed", map[]), "t") && !PrefixMatches(Foreign("t1: failed"), "t2")
    ensures IsRetryable(TestError) && IsPrefixMatches(TestError, "T")
    ensures forall trace :: VerboseString(New(1, "T", "failed", map[]), trace)[0] == 'T'
  {
  }
}
