/** The error taxonomy and the message formats the core produces.
    A thrown `Error` is a plain error; `NotFoundError` (an `HttpError`)
    and its subclass `NoteNotFoundError` are the typed not-found errors. */
module Errors {
  import opened Wrappers

  /** The class of a thrown error: a plain `Error`, a `NotFoundError`, or a
      `NoteNotFoundError` (which extends `NotFoundError`). */
  datatype Kind = Generic | NotFound | NoteNotFound

  datatype Error = Error(kind: Kind, message: string) {

    /** `error instanceof HttpError`: what the transport layer renders itself. */
    predicate IsHttpError() {
      kind != Generic
    }

    /** `error instanceof NotFoundError`. */
    predicate IsNotFoundError() {
      kind == NotFound || kind == NoteNotFound
    }

    /** `error instanceof NoteNotFoundError`. */
    predicate IsNoteNotFoundError() {
      kind == NoteNotFound
    }
  }

  /** Recovers the text that a message format placed between `prefix` and
      `suffix`; None when `msg` does not have that shape. */
  function Unenclose(prefix: string, suffix: string, msg: string): (r: Option<string>)
    ensures r.Some? ==> msg == prefix + r.value + suffix
  {
    if |prefix| + |suffix| <= |msg| && msg[..|prefix|] == prefix && msg[|msg| - |suffix|..] == suffix then
      var x := msg[|prefix|..|msg| - |suffix|];
      assert msg == msg[..|prefix|] + x + msg[|msg| - |suffix|..];
      Some(x)
    else
      None
  }

  /** Every message built by placing a value between a fixed prefix and suffix
      gives that value back: the message names the value unambiguously. */
  lemma {:induction false} UnencloseEnclose(prefix: string, x: string, suffix: string)
    ensures Unenclose(prefix, suffix, prefix + x + suffix) == Some(x)
  {
    var msg := prefix + x + suffix;
    assert msg[..|prefix|] == prefix;
    assert msg[|msg| - |suffix|..] == suffix;
    assert msg[|prefix|..|msg| - |suffix|] == x;
  }

  /** Two messages of one format are equal only when the enclosed values are. */
  lemma {:induction false} EncloseInjective(prefix: string, x: string, y: string, suffix: string)
    requires prefix + x + suffix == prefix + y + suffix
    ensures x == y
  {
    UnencloseEnclose(prefix, x, suffix);
    UnencloseEnclose(prefix, y, suffix);
  }
}
