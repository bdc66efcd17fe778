/** The error taxonomy every retry and dead-letter decision branches on, and the
    classification of database failures onto it. */
module Errors {

  datatype Option<+T> = None | Some(value: T)

  /** An exception, by the branch of `worker.handle` that would catch it. */
  datatype Failure =
    | Transient(text: string)
    | Permanent(text: string)
    | Unexpected(text: string)

  /** What awaiting a call gives: its value, or the exception it raised. */
  datatype Outcome<+T> = Ok(value: T) | Err(failure: Failure)

  predicate IsTransient<T>(o: Outcome<T>) {
    o.Err? && o.failure.Transient?
  }

  /** An exception leaving a database call.  `OsError` and `Driver` are the shapes listed in
      DB_EXCEPTIONS; `Foreign` is anything else, which no handler of the repository catches.
      `own` and `orig` are the SQLSTATE on the exception and on the exception it wraps. */
  datatype DbError =
    | OsError(text: string)
    | Driver(text: string, own: Option<string>, orig: Option<string>)
    | Foreign(text: string)

  const TRANSIENT_SQLSTATE_CLASSES: set<string> := {"08", "40", "53", "57"}

  /** `own or orig`: an empty string is falsy, so it falls through to `orig`. */
  function SqlState(own: Option<string>, orig: Option<string>): Option<string> {
    if own.Some? && own.value != "" then own else orig
  }

  /** `s[:2]`, which is the whole string when it is shorter. */
  function Class(s: string): string {
    if |s| <= 2 then s else s[..2]
  }

  /** The DatabaseUnavailable to raise instead, if the error looks retryable. */
  function ClassifyDbError(e: DbError): Option<Failure>
    requires !e.Foreign?
  {
    if e.OsError? then Some(Transient(e.text))
    else
      var state := SqlState(e.own, e.orig);
      if state.Some? && Class(state.value) in TRANSIENT_SQLSTATE_CLASSES
      then Some(Transient(e.text)) else None
  }

  /** What leaves the repository for an error raised inside it. */
  function Reraised(e: DbError): (f: Failure)
    ensures !f.Permanent? && f.text == e.text
  {
    if e.Foreign? then Unexpected(e.text)
    else
      match ClassifyDbError(e)
      case Some(transient) => transient
      case None => Unexpected(e.text)
  }

  /** A database failure that may pass: a socket error, or an SQLSTATE of a retryable class. */
  predicate IsOutage(e: DbError) {
    || e.OsError?
    || (e.Driver? && SqlState(e.own, e.orig).Some?
        && Class(SqlState(e.own, e.orig).value) in {"08", "40", "53", "57"})
  }

  lemma OutagesAreTransient(e: DbError)
    ensures IsOutage(e) <==> Reraised(e).Transient?
  {
    assert TRANSIENT_SQLSTATE_CLASSES == {"08", "40", "53", "57"};
  }

  /** A driver failure is retryable exactly when its SQLSTATE begins with one of the four listed
      classes.  The code on the exception itself counts, unless it is missing or empty; then the
      one on the exception it wraps does.  Without either, it is not retryable. */
  lemma RetryableSqlStates(text: string, own: Option<string>, orig: Option<string>)
    ensures own.Some? && own.value != "" ==>
      Reraised(Driver(text, own, orig)) == if IsRetryable(own.value) then Transient(text) else Unexpected(text)
    ensures (own.None? || own.value == "") && orig.Some? ==>
      Reraised(Driver(text, own, orig)) == if IsRetryable(orig.value) then Transient(text) else Unexpected(text)
    ensures (own.None? || own.value == "") && orig.None? ==> Reraised(Driver(text, own, orig)) == Unexpected(text)
  {
    if own.Some? { ClassIs(own.value); }
    if orig.Some? { ClassIs(orig.value); }
  }

  lemma ClassIs(code: string)
    ensures Class(code) in TRANSIENT_SQLSTATE_CLASSES <==> IsRetryable(code)
  {
    assert |"08"| == |"40"| == |"53"| == |"57"| == 2;
    if |code| == 2 { assert code[..2] == code; }
  }

  /** The first two characters of the code are 08, 40, 53 or 57. */
  predicate IsRetryable(code: string) {
    && |code| >= 2
    && (code[..2] == "08" || code[..2] == "40" || code[..2] == "53" || code[..2] == "57")
  }
}
