/** The note repository, of which the source declares only the interface:
    an in-memory table of rows stands in for the relational store. Reads
    rebuild a note from the first matching row through the builder's checks;
    existence checks count the matching rows. */
module NoteRepository {
  import opened Wrappers
  import opened Errors
  import opened Notes

  /** The rows of the notes table, in the order the store returns them. */
  type Rows = seq<NoteValue>

  /** The column a query selects on. */
  datatype Key = ById(id: int) | ByTitle(title: string)

  predicate Matches(n: NoteValue, key: Key) {
    match key
    case ById(id) => n.id == id
    case ByTitle(title) => n.title == title
  }

  /** Some row matches the key. */
  predicate Has(rows: Rows, key: Key) {
    exists i :: 0 <= i < |rows| && Matches(rows[i], key)
  }

  /** The count query: the number of rows matching the key. */
  function Count(rows: Rows, key: Key): (n: nat)
    ensures n <= |rows|
    ensures n > 0 <==> Has(rows, key)
  {
    if rows == [] then 0
    else
      assert forall i :: 0 < i < |rows| ==> rows[i] == rows[1..][i - 1];
      (if Matches(rows[0], key) then 1 else 0) + Count(rows[1..], key)
  }

  /** `existById` / `existByTitle`: the count is greater than zero. */
  function Exists(rows: Rows, key: Key): (b: bool)
    ensures b <==> Has(rows, key)
  {
    Count(rows, key) > 0
  }

  /** The position of the first matching row, if any. */
  function FirstIndex(rows: Rows, key: Key): (r: Option<nat>)
    ensures r.None? <==> !Has(rows, key)
    ensures r.Some? ==> r.value < |rows| && Matches(rows[r.value], key) &&
                        forall j :: 0 <= j < r.value ==> !Matches(rows[j], key)
  {
    if rows == [] then None
    else if Matches(rows[0], key) then Some(0)
    else
      assert forall i :: 0 < i < |rows| ==> rows[i] == rows[1..][i - 1];
      match FirstIndex(rows[1..], key)
      case None => None
      case Some(i) => Some(i + 1)
  }

  /** The slots a row fills; no row fills none of them. */
  function RowSlots(rows: Rows, key: Key): Slots {
    match FirstIndex(rows, key)
    case None => EmptySlots
    case Some(i) => SlotsOf(rows[i])
  }

  /** `findById` / `findByTitle`: rebuild the first matching row through the
      builder, so that a missing row fails on the id check. */
  function Find(rows: Rows, key: Key): (r: Result<NoteValue, Error>)
    ensures r.Success? ==> Matches(r.value, key) && r.value in rows && Buildable(r.value)
    ensures r.Failure? ==> !r.error.IsHttpError()
    ensures !Has(rows, key) ==> r == Failure(MissingError(IdMember))
    ensures Has(rows, key) && (forall i :: 0 <= i < |rows| ==> Buildable(rows[i])) ==> r.Success?
  {
    var r := Validate(RowSlots(rows, key));
    if FirstIndex(rows, key).Some? then
      ValidateSlotsOf(rows[FirstIndex(rows, key).value]);
      r
    else
      r
  }

  /** `findAll`: every row, in the store's order. */
  function FindAll(rows: Rows): (r: Result<seq<NoteValue>, Error>)
    ensures r.Success? && multiset(r.value) == multiset(rows)
  {
    Success(rows)
  }

  /** The delete statement: drop every row with the given id, keep the rest
      in order. */
  function RemoveId(rows: Rows, id: int): (r: Rows)
    ensures forall n :: n in r <==> n in rows && n.id != id
    ensures !Has(r, ById(id))
    ensures |r| == |rows| - Count(rows, ById(id))
    ensures forall n :: multiset(r)[n] == if n.id == id then 0 else multiset(rows)[n]
  {
    if rows == [] then []
    else
      assert rows == [rows[0]] + rows[1..];
      assert multiset(rows) == multiset{rows[0]} + multiset(rows[1..]);
      var rest := RemoveId(rows[1..], id);
      if rows[0].id == id then rest
      else
        assert multiset([rows[0]] + rest) == multiset{rows[0]} + multiset(rest);
        [rows[0]] + rest
  }

  /** The outcome of `deleteById`: what was returned and the rows left. */
  datatype Deleted = Deleted(result: Result<NoteValue, Error>, rows: Rows)

  /** `deleteById`: look the note up first, then delete it, and return the
      note as it was before the deletion. A failed lookup deletes nothing. */
  function DeleteById(rows: Rows, id: int): (d: Deleted)
    ensures d.result.Failure? ==> d.rows == rows
    ensures d.result.Success? ==> d.result.value.id == id && d.result.value in rows && d.rows == RemoveId(rows, id)
    ensures d.result == Find(rows, ById(id))
  {
    match Find(rows, ById(id))
    case Failure(e) => Deleted(Failure(e), rows)
    case Success(n) => Deleted(Success(n), RemoveId(rows, id))
  }
}
