# cloud-note: Note entity, NoteBuilder and NoteService in Dafny

A model of the core of a small notes service. It has two parts.

- **Note and NoteBuilder** (`src/note.ts`).
  - A `Note` holds an id, a title, a body and a time stamp. Only the title and the body can be changed after construction.
  - The `NoteBuilder` fills four optional slots through chained setters. `build()` checks the slots in the fixed order id, title, body, timeStamp, using JavaScript truthiness: id `0` and an empty title or body count as missing, and a `Date` counts as missing only when it was never set. The first failing slot is reported as `'<member>' is non-nullable`.
- **NoteService** (`src/note-service.ts`).
  - `findByTitle` asks the repository whether the title exists. If not, it throws a `NoteNotFoundError` with the message `Note with title '<title>' does not exist`. Otherwise it returns what the repository's `findByTitle` returns.
  - `findById`, `findAll` and `deleteById` are unimplemented. Each always throws `Method not implemented.`.

Layout:

- `wrappers.dfy` (`Wrappers`): `Option` and `Result`. A thrown exception is modelled as a `Failure`.
- `errors.dfy` (`Errors`): the error classes. A plain `Error` is `Generic`; `NoteNotFoundError` extends `NotFoundError`, which extends `HttpError`. The module also has `Unenclose`, which reads back the value a message format places between a fixed prefix and suffix.
- `note.dfy` (`Notes`):
  - `Note` is a class. `id` and `timeStamp` are `const`, because the source has no setter for them.
  - `NoteBuilder` is a class with four `Option` fields.
  - The value-level specification is `Slots`, `Truthy`, `Validate` and `NoteValue`. `NoteBuilder.Build` is proved against `Validate`, and the lemmas are about `Validate`.
- `note_repository.dfy` (`NoteRepository`): the source declares the repository only as an interface. This module is an in-memory stand-in: a table of rows (`seq<NoteValue>`).
  - Existence checks count the matching rows and compare the count with 0.
  - The `PostgresNoteRepository` implementation is not part of this model. The stand-in therefore rests on three assumptions about it, which neither the interface nor the repository's tests (which only supply single-row results) settle:
    - a read rebuilds the first matching row through the builder's checks;
    - with no matching row, that rebuild fails on the first check, with `'id' is non-nullable`;
    - `deleteById` reads the note first, then removes every row with that id.
- `note_service.dfy` (`NoteService`): the service as written. Each operation returns a `Step`, which holds:
  - the outcome;
  - the repository calls made, in order;
  - the rows afterwards.
  This makes "which repository method was called, with what argument" and "the store did not change" provable.
- `intended_note_service.dfy` (`IntendedNoteService`): the behaviour that `test/NoteService.test.ts` expects of `findById`, `findAll` and `deleteById`. It is kept separate from the model of the code, which does not implement that behaviour.

Where the code and its tests disagree, the model follows the code: `findById`, `findAll` and `deleteById` throw instead of checking existence and delegating (src/note-service.ts:22-30), although `test/NoteService.test.ts:76-203` expects them to. The tests' expected behaviour is modelled only in `IntendedNoteService`.

`build()` rejects falsy values, not only absent ones: id `0`, an empty title and an empty body are all rejected (src/note.ts:60-63).

## Model

| member | source | states |
|---|---|---|
| Errors.UnencloseEnclose | src/note.ts:55-57 | a message built by placing a value between a fixed prefix and suffix gives that value back, so a message format names its value unambiguously |
| Errors.EncloseInjective | src/note-service.ts:18 | two messages of one format are equal only when the values they enclose are equal |
| Notes.FormatError | src/note.ts:55-57 | the builder's error text is exactly the member name in single quotes followed by `is non-nullable` |
| Notes.MissingError | src/note.ts:60-63 | the error `build()` throws is a plain `Error`: `IsHttpError()` is false, so it is neither an `HttpError` nor a `NotFoundError`. Its message names the member |
| Notes.MissingErrorInjective | src/note.ts:60-63 | different members give different errors, so an error identifies exactly one member |
| Notes.Validate | src/note.ts:59-65 | `build()` succeeds iff every slot is truthy (id non-zero, title and body non-empty, timeStamp present); on success the note's fields are exactly the slot values; on failure the error names a slot that is falsy |
| Notes.ValidateReportsFirstMissing | src/note.ts:60-63 | `build()` fails naming member m iff m's slot is falsy and every slot checked before it (order id, title, body, timeStamp) is truthy; for example, with title and body both missing, the error names title |
| Notes.ValidateSlotsOf | src/note.ts:59-64 | setting all four slots from a note's fields builds that same note iff the id is non-zero and the title and body are non-empty |
| Notes.Note.constructor | src/note.ts:2-7 | a new note holds exactly the given id, title, body and time stamp |
| Notes.Note.GetId | src/note.ts:9-11 | returns the note's current id |
| Notes.Note.GetTitle | src/note.ts:12-14 | returns the note's current title |
| Notes.Note.GetBody | src/note.ts:18-20 | returns the note's current body |
| Notes.Note.GetTimeStamp | src/note.ts:24-26 | returns the note's current time stamp |
| Notes.Note.SetTitle | src/note.ts:15-17 | only the title changes; id, body and time stamp are unchanged |
| Notes.Note.SetBody | src/note.ts:21-23 | only the body changes; id, title and time stamp are unchanged |
| Notes.NoteBuilder.constructor | src/note.ts:29-33 | a new builder has all four slots unset |
| Notes.NoteBuilder.Id | src/note.ts:35-38 | sets the id slot (overwriting any earlier value), leaves the other three slots unchanged, and returns the same builder |
| Notes.NoteBuilder.Title | src/note.ts:40-43 | sets the title slot (overwriting any earlier value), leaves the other three slots unchanged, and returns the same builder |
| Notes.NoteBuilder.Body | src/note.ts:45-48 | sets the body slot (overwriting any earlier value), leaves the other three slots unchanged, and returns the same builder |
| Notes.NoteBuilder.TimeStamp | src/note.ts:50-53 | sets the timeStamp slot (overwriting any earlier value), leaves the other three slots unchanged, and returns the same builder |
| Notes.NoteBuilder.Build | src/note.ts:59-65 | fails exactly as `Validate` does on the current slots. Otherwise it returns a fresh note whose getters return exactly the slot values. It modifies nothing, so two builds give notes with equal fields |
| NoteRepository.Count | test/PostgresNoteRepository.test.ts:126-132 | the count query gives a positive number iff some row matches the key, and never more than the number of rows |
| NoteRepository.Exists | test/PostgresNoteRepository.test.ts:164-189 | `existByTitle` / `existById` is true iff some stored row has that title / id |
| NoteRepository.Find | src/note-repository.ts:8 | a found note matches the key, is a stored row and passes the builder's checks. With no matching row, the lookup fails with the builder's `'id' is non-nullable`. When rows match and all rows are well-formed, the lookup succeeds |
| NoteRepository.FindAll | src/interfaces.ts:3 | returns exactly the stored rows, each as often as it is stored (equal as multisets) |
| NoteRepository.RemoveId | src/interfaces.ts:11 | the delete statement keeps exactly the rows with a different id: each kept row appears as often as before (equal multiplicities), no row with that id remains, and the length drops by the number of rows with that id |
| NoteRepository.DeleteById | src/interfaces.ts:10-12 | the note returned is the one the lookup found before deletion, and it has that id. A failed lookup removes nothing; a successful one removes exactly the rows with that id |
| NoteService.TitleNotFound | src/note-service.ts:10-18 | the not-found error is a `NoteNotFoundError`: `IsNoteNotFoundError()`, `IsNotFoundError()` and `IsHttpError()` all hold, following the class chain `NoteNotFoundError` extends `NotFoundError` extends `HttpError` (src/http-errors.ts:3-13). Its message is exactly `Note with title '<title>' does not exist` |
| NoteService.TitleNotFoundInjective | src/note-service.ts:18 | two titles give the same not-found error only when they are the same title, so the error identifies the title looked up |
| NoteService.FindByTitle | src/note-service.ts:15-20 | the first repository call is `existByTitle(title)` with the same title. The call fails with that title's `NoteNotFoundError` iff no stored note has the title. On that path `existByTitle` is the only repository call, so the repository's `findByTitle` is never called. Otherwise the calls are exactly existence then find, and the result is the repository's result. A found note has that title and is stored. The store is unchanged |
| NoteService.FindById | src/note-service.ts:22-24 | always fails with `Method not implemented.`, which is not a not-found error; it calls nothing on the repository and leaves the store unchanged |
| NoteService.FindAll | src/note-service.ts:25-27 | always fails with `Method not implemented.`, which is not a not-found error; it calls nothing on the repository and leaves the store unchanged |
| NoteService.DeleteById | src/note-service.ts:28-30 | always fails with `Method not implemented.`, which is not a not-found error; it makes no repository call at all, so no row is ever removed |
| IntendedNoteService.IdNotFound | test/NoteService.test.ts:76-80 | (intended, per the tests) the error for a missing id is a `NoteNotFoundError`. The tests check only its class; the message `Note with id '<id>' does not exist` is this model's choice, following the title error of src/note-service.ts:18 |
| IntendedNoteService.IntendedFindById | test/NoteService.test.ts:76-125 | (intended, per the tests) the first call is `existById(id)`. The call fails with `NoteNotFoundError` iff no row has the id, and on that path `existById` is the only call, so `findById` is not called. Otherwise it delegates with the same id. The store is unchanged |
| IntendedNoteService.IntendedFindAll | test/NoteService.test.ts:128-134 | (intended, per the tests) calls the repository's `findAll` once, makes no other call, and returns exactly the repository's result: all stored rows, each as often as stored |
| IntendedNoteService.IntendedDeleteById | test/NoteService.test.ts:136-203 | (intended, per the tests) the first call is `existById(id)`. If no row has the id, the call fails with `NoteNotFoundError`, `existById` is the only call (so the repository's delete is never called), and the store is unchanged. Otherwise the delete is called exactly once with the id; the result and the rows left are exactly those of the repository's `deleteById`. A returned note has that id and was stored; afterwards no row has that id, and every row with another id is kept |
| IntendedNoteService.IntendedDeleteTwice | test/NoteService.test.ts:145-202 | (intended, per the tests) deleting a stored, well-formed note returns a stored note with that id. The rows left are exactly `RemoveId(rows, id)`: every row with another id is kept, as often as before. Deleting again at once fails with `NoteNotFoundError` and makes no second delete call |

## Left out

- Asynchrony: `findByTitle` and the repository methods return Promises; the model treats each call as completing in order, without interleaving or concurrency. `findById`, `findAll` and `deleteById` are not `async` and throw synchronously; the model's `Failure` does not distinguish a synchronous throw from a rejected Promise.
- Failing repository calls: in the model an existence check always answers. A rejected `existByTitle` (for example a store failure), which `findByTitle` passes on unchanged, is not modelled.
- JavaScript numbers are modelled as unbounded integers. `NaN`, `-0` and fractional ids are not modelled, even though `NaN` is also falsy for `build()`.
- `Date` is an opaque value (`Date(epochMillis)`). Parsing and construction are not modelled, and neither is an invalid date; all of these are truthy to `build()`.
- The `PostgresNoteRepository` implementation (SQL text, prepared-statement calls, the driver) is not part of this model. The in-memory rows stand in for the store under the assumptions listed above.
- The count coming back as a number or a numeric string: the model's count is already a single integer.
- NoteRepository.FindAll: does not model the store's ordering by time stamp (most recent first), because no implementation of the ordering is part of this model; it promises only the same rows.
- The HTTP layer: routing, per-request connection and service creation, parameter parsing, and the `onError` mapping to 404 or 500. These sit outside the core.
- `HttpError.handle` / `NotFoundError.handle` (setting a status and a JSON body on the framework's context). Only the classification into `HttpError` and `NotFoundError` is modelled.
