/** The behaviour the service's tests describe for `findById`, `findAll` and
    `deleteById`, which the service as written does not implement (its
    versions always throw; see module NoteService). Kept apart from the
    model of the code: the same existence check before delegating that
    `findByTitle` performs, keyed by id. */
module IntendedNoteService {
  import opened Wrappers
  import opened Errors
  import opened Notes
  import opened NoteRepository
  import opened NoteService

  function DigitChar(d: nat): char
    requires d < 10
  {
    "0123456789"[d]
  }

  function Digits(n: nat): string
    decreases n
  {
    if n < 10 then [DigitChar(n)] else Digits(n / 10) + [DigitChar(n % 10)]
  }

  /** How a template literal renders an integral number. */
  function DecimalString(i: int): string {
    if i < 0 then "-" + Digits(-i) else Digits(i)
  }

  const IdPrefix: string := "Note with id '"

  /** The `NoteNotFoundError` for an id that no note has. */
  function IdNotFound(id: int): (e: Error)
    ensures e.IsNoteNotFoundError() && e.IsNotFoundError()
    ensures Unenclose(IdPrefix, DoesNotExistSuffix, e.message) == Some(DecimalString(id))
  {
    UnencloseEnclose(IdPrefix, DecimalString(id), DoesNotExistSuffix);
    Error(NoteNotFound, IdPrefix + DecimalString(id) + DoesNotExistSuffix)
  }

  /** `findById` as the tests describe it: check existence by id, throw
      `NoteNotFoundError` if absent, otherwise return the repository's note. */
  function IntendedFindById(rows: Rows, id: int): (s: Step<NoteValue>)
    ensures s.rows == rows
    ensures |s.calls| > 0 && s.calls[0] == ExistCall(ById(id))
    ensures s.result == Failure(IdNotFound(id)) <==> !Has(rows, ById(id))
    ensures !Has(rows, ById(id)) ==> s.calls == [ExistCall(ById(id))]
    ensures !Has(rows, ById(id)) ==> FindCall(ById(id)) !in s.calls
    ensures Has(rows, ById(id)) ==>
              s.calls == [ExistCall(ById(id)), FindCall(ById(id))] && s.result == Find(rows, ById(id))
    ensures s.result.Success? ==> s.result.value.id == id && s.result.value in rows
  {
    if !Exists(rows, ById(id)) then
      Step(Failure(IdNotFound(id)), [ExistCall(ById(id))], rows)
    else
      Step(Find(rows, ById(id)), [ExistCall(ById(id)), FindCall(ById(id))], rows)
  }

  /** `findAll` as the tests describe it: delegate to the repository. */
  function IntendedFindAll(rows: Rows): (s: Step<seq<NoteValue>>)
    ensures s.rows == rows && s.calls == [FindAllCall]
    ensures s.result == NoteRepository.FindAll(rows)
    ensures s.result.Success? && multiset(s.result.value) == multiset(rows)
  {
    Step(NoteRepository.FindAll(rows), [FindAllCall], rows)
  }

  /** `deleteById` as the tests describe it: check existence by id; when the
      note is absent throw `NoteNotFoundError` without calling the
      repository's delete, otherwise delete it and return the deleted note. */
  function IntendedDeleteById(rows: Rows, id: int): (s: Step<NoteValue>)
    ensures |s.calls| > 0 && s.calls[0] == ExistCall(ById(id))
    ensures !Has(rows, ById(id)) ==>
              s.result == Failure(IdNotFound(id)) && DeleteCall(id) !in s.calls && s.rows == rows &&
              s.calls == [ExistCall(ById(id))]
    ensures Has(rows, ById(id)) ==> s.calls == [ExistCall(ById(id)), DeleteCall(id)]
    ensures Has(rows, ById(id)) ==>
              s.result == NoteRepository.DeleteById(rows, id).result &&
              s.rows == NoteRepository.DeleteById(rows, id).rows
    ensures s.result.Success? ==> forall n :: n in s.rows <==> n in rows && n.id != id
    ensures s.result.Success? ==> s.result.value.id == id && s.result.value in rows && !Has(s.rows, ById(id))
    ensures s.result.Failure? ==> s.rows == rows
  {
    if !Exists(rows, ById(id)) then
      Step(Failure(IdNotFound(id)), [ExistCall(ById(id))], rows)
    else
      var d := NoteRepository.DeleteById(rows, id);
      Step(d.result, [ExistCall(ById(id)), DeleteCall(id)], d.rows)
  }

  /** Deleting a stored, well-formed note returns it and removes exactly the
      rows with its id; deleting it again at once fails with
      `NoteNotFoundError` and makes no second delete call. */
  lemma {:induction false} IntendedDeleteTwice(rows: Rows, id: int)
    requires Has(rows, ById(id))
    requires forall i :: 0 <= i < |rows| ==> Buildable(rows[i])
    ensures var first := IntendedDeleteById(rows, id);
            first.result.Success? && first.result.value.id == id && first.result.value in rows &&
            first.rows == RemoveId(rows, id) &&
            (forall n :: n in first.rows <==> n in rows && n.id != id) &&
            var second := IntendedDeleteById(first.rows, id);
            second.result == Failure(IdNotFound(id)) && DeleteCall(id) !in second.calls &&
            second.rows == first.rows
  {
    var first := IntendedDeleteById(rows, id);
    assert first.rows == RemoveId(rows, id);
  }
}
