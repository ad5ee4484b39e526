/**
 * The errors `build_contract` can end with, and the outermost message of
 * each (anyhow's `Display`). The `Error: ` report that `main` ends with is
 * anyhow's `Debug` form, which for a `context` error adds the cause that
 * `Message` leaves out.
 */
module BuildErrors {

  datatype BuildError =
    | ReadFailed(path: string, cause: string)
    | NoExports
    | CompileFailed(methodName: string, cause: string)
    | SerializeFailed(methodName: string, cause: string)
    | CwdFailed(cause: string)
    | CargoFailed(cause: string)

  function Message(e: BuildError): string {
    match e
    case ReadFailed(path, _) => "failed to read " + path
    case NoExports => "no exported functions found (functions must not start with _)"
    case CompileFailed(m, cause) => "compilation failed for '" + m + "': " + cause
    case SerializeFailed(m, _) => "serialization failed for '" + m + "'"
    case CwdFailed(cause) => cause
    case CargoFailed(cause) => cause
  }

  /** `msg` holds `name` between single quotes. */
  ghost predicate Quotes(msg: string, name: string) {
    exists i :: QuotedAt(msg, name, i)
  }

  predicate QuotedAt(msg: string, name: string, i: int) {
    0 <= i && i + |name| + 2 <= |msg| && msg[i..i + |name| + 2] == "'" + name + "'"
  }

  /** A per-method failure names its method, quoted, in the message. */
  lemma MessageNamesMethod(e: BuildError)
    requires e.CompileFailed? || e.SerializeFailed?
    ensures Quotes(Message(e), e.methodName)
  {
    var m := e.methodName;
    var lead := if e.CompileFailed? then "compilation failed for " else "serialization failed for ";
    var msg := Message(e);
    var tail := if e.CompileFailed? then ": " + e.cause else "";
    assert msg == lead + ("'" + m + "'") + tail;
    assert msg[|lead|..|lead| + |m| + 2] == "'" + m + "'";
    assert QuotedAt(msg, m, |lead|);
  }
}
