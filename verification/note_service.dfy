/** The note service as written: `findByTitle` checks existence before it
    delegates to the repository; `findById`, `findAll` and `deleteById` are
    unimplemented and always throw. Each operation reports its outcome, the
    repository calls it made, in order, and the rows afterwards. */
module NoteService {
  import opened Wrappers
  import opened Errors
  import opened Notes
  import opened NoteRepository

  /** A call the service makes on its repository. */
  datatype Call = ExistCall(key: Key) | FindCall(key: Key) | FindAllCall | DeleteCall(id: int)

  /** One service operation: its outcome, the repository calls it made, and
      the rows it leaves behind. */
  datatype Step<T> = Step(result: Result<T, Error>, calls: seq<Call>, rows: Rows)

  const TitlePrefix: string := "Note with title '"
  const DoesNotExistSuffix: string := "' does not exist"

  /** The `NoteNotFoundError` for a title that no note has. */
  function TitleNotFound(title: string): (e: Error)
    ensures e.IsNoteNotFoundError() && e.IsNotFoundError() && e.IsHttpError()
    ensures Unenclose(TitlePrefix, DoesNotExistSuffix, e.message) == Some(title)
  {
    UnencloseEnclose(TitlePrefix, title, DoesNotExistSuffix);
    Error(NoteNotFound, TitlePrefix + title + DoesNotExistSuffix)
  }

  /** Two titles give the same not-found error only when they are the same
      title: the message identifies the title that was looked up. */
  lemma {:induction false} TitleNotFoundInjective(title: string, title': string)
    requires TitleNotFound(title) == TitleNotFound(title')
    ensures title == title'
  {
    EncloseInjective(TitlePrefix, title, title', DoesNotExistSuffix);
  }

  /** The message thrown by the unimplemented operations. */
  const NotImplemented: Error := Error(Generic, "Method not implemented.")

  /** `findByTitle`: ask the repository whether the title exists; if not,
      throw `NoteNotFoundError`, otherwise return what the repository finds. */
  function FindByTitle(rows: Rows, title: string): (s: Step<NoteValue>)
    ensures s.rows == rows
    ensures |s.calls| > 0 && s.calls[0] == ExistCall(ByTitle(title))
    ensures s.result == Failure(TitleNotFound(title)) <==> !Has(rows, ByTitle(title))
    ensures !Has(rows, ByTitle(title)) ==> s.calls == [ExistCall(ByTitle(title))]
    ensures !Has(rows, ByTitle(title)) ==> FindCall(ByTitle(title)) !in s.calls
    ensures Has(rows, ByTitle(title)) ==>
              s.calls == [ExistCall(ByTitle(title)), FindCall(ByTitle(title))] &&
              s.result == Find(rows, ByTitle(title))
    ensures s.result.Success? ==> s.result.value.title == title && s.result.value in rows
    ensures Has(rows, ByTitle(title)) && (forall i :: 0 <= i < |rows| ==> Buildable(rows[i])) ==>
              s.result.Success?
  {
    if !Exists(rows, ByTitle(title)) then
      Step(Failure(TitleNotFound(title)), [ExistCall(ByTitle(title))], rows)
    else
      Step(Find(rows, ByTitle(title)), [ExistCall(ByTitle(title)), FindCall(ByTitle(title))], rows)
  }

  /** `findById` as written: always throws, calls nothing, changes nothing. */
  function FindById(rows: Rows, id: int): (s: Step<NoteValue>)
    ensures s.result.Failure? && s.result.error.message == "Method not implemented."
    ensures !s.result.error.IsNotFoundError()
    ensures s.calls == [] && s.rows == rows
  {
    Step(Failure(NotImplemented), [], rows)
  }

  /** `findAll` as written: always throws, calls nothing, changes nothing. */
  function FindAll(rows: Rows): (s: Step<seq<NoteValue>>)
    ensures s.result.Failure? && s.result.error.message == "Method not implemented."
    ensures !s.result.error.IsNotFoundError()
    ensures s.calls == [] && s.rows == rows
  {
    Step(Failure(NotImplemented), [], rows)
  }

  /** `deleteById` as written: always throws and never reaches the
      repository, so no row is ever removed. */
  function DeleteById(rows: Rows, id: int): (s: Step<NoteValue>)
    ensures s.result.Failure? && s.result.error.message == "Method not implemented."
    ensures !s.result.error.IsNotFoundError()
    ensures s.calls == [] && s.rows == rows
  {
    Step(Failure(NotImplemented), [], rows)
  }
}
