# Catalog service handlers in Dafny

This project models the request-to-response decisions of the catalog service's HTTP
handlers (`src/handler.rs`). These are the note CRUD endpoints, the product list and the
product creation form. Each handler is a pure function. Its inputs are the decoded request
(path id, query options, JSON or form body) and whatever the database answered. It returns
an `Exchange`: the SQL statements it issues, in order, with their bound arguments, and its
`Reply`. A reply is either an HTTP status code with a JSON envelope or a panic. A Rust panic
(an `unwrap` on a missing value, a checked arithmetic overflow) unwinds the handler,
and no response is sent.

Modules:

- `Wrappers`: `Option`, `Result` and `GetOr` (Rust's `unwrap_or`).
- `Text`: substring search (`str::contains`), proved equal to "occurs at some index".
- `Model`, `Schema`: the row types of `src/model.rs`, and the request bodies and query
  options of `src/schema.rs`. `CreateNoteSchema`, `UpdateNoteSchema` and `NoteModel` are
  declared in neither `src/model.rs` nor `src/schema.rs`. Their fields are inferred from how the
  handlers use them (`src/handler.rs:118-120`, `:146-149`, `:231-234`) and from the
  `Input` struct (`src/handler.rs:295-302`).
- `Pagination`: `limit`/`offset` from the optional `page`/`limit` values, computed with
  64-bit `usize` arithmetic, and the `as i32` narrowing of both values. It covers both
  build profiles. `Debug` checks overflow and panics. `Release` wraps around modulo 2^64.
- `Envelope`: status codes, the four JSON envelope shapes, and the `WellFormed` rule that
  every modelled handler's reply keeps.
- `Handler`: the handlers, the statement each one issues, the insert-result classification,
  the 17-column product binding and the note-edit merge. `Handler.NotFoundMessage` is the
  `format!("Note with ID: {} not found", id)` text (`src/handler.rs:201`, `:220`, `:272`),
  and `Handler.UnwrapErr` is the panic text of the `Result::unwrap` at `src/handler.rs:266`.

Behaviour of the code worth knowing:

- Page 0 panics in a debug build and wraps in a release build. `page.unwrap_or(1) - 1`
  is `usize` arithmetic. A debug build panics with "attempt to subtract with overflow" before any query runs. A
  release build wraps, and after `as i32` the offset is bound as minus one page when
  the limit is at most 2^31 (`ReleasePageZeroBindsNegativeOffset`). Both profiles are modelled.
- The conflict message is "Note with that title already exists" in all three create
  paths, products included.
- The product list's 500 message speaks of "note items", as the code does.
- A failing `DELETE` statement is unwrapped, so it panics.
- Categories, attributes, terms and multipart ingestion are not modelled: the handlers
  modelled here never touch them, and `src/model.rs` only declares their structs.

## Model

| member | source | states |
|---|---|---|
| `Wrappers.GetOr` | src/handler.rs:231-234 | `unwrap_or`: the carried value when there is one, the default otherwise |
| `Text.ContainsIffOccurs` | src/handler.rs:165-166 | the duplicate-key test finds the phrase exactly when it occurs at some index of the error text (both directions) |
| `Pagination.ComputeWindow` | src/handler.rs:39-40 | limit is the requested limit or 10; a release build never fails; a debug build succeeds exactly when page ≥ 1 and (page−1)·limit fits in `usize`, and page 0 panics with the subtraction-overflow message |
| `Pagination.AsI32` | src/handler.rs:45-46 | `as i32` gives a value in the i32 range, congruent to its input modulo 2^32, and equal to it when it is below 2^31 |
| `Pagination.SkippedRowsIsProduct` | src/handler.rs:40 | (page−1)·limit is the row count of all earlier pages |
| `Pagination.DefaultWindow` | src/handler.rs:39-40 | with page and limit both absent, the window is limit 10, offset 0, in either profile |
| `Pagination.SecondPageOfFive` | src/handler.rs:77-78 | `limit=5, page=2` gives offset 5 |
| `Pagination.DebugOffsetSkipsEarlierPages` | src/handler.rs:78 | a window that does not panic starts after every row of the earlier pages |
| `Pagination.ConsecutivePagesAdjacent` | src/handler.rs:40 | page p+1 starts exactly where page p ends: no row is skipped or repeated |
| `Pagination.ReleaseAgreesWithDebug` | src/handler.rs:40 | wherever checked arithmetic does not panic, wrapping arithmetic gives the same window |
| `Pagination.WrappedNegation` | src/handler.rs:40 | wrapping (2^64−1)·x is 2^64−x, i.e. −x modulo 2^64 |
| `Pagination.ReleasePageZeroBindsNegativeOffset` | src/handler.rs:40-46 | in a release build page 0 does not fail, and for limit ≤ 2^31 the offset is bound as −limit |
| `Pagination.NarrowingTruncates` | src/handler.rs:45-46 | a limit of 2^32 is bound as 0 and a limit of 2^31 as −2^31 |
| `Handler.NotFoundMessageNamesId` | src/handler.rs:199-202 | the 404 message holds the requested id's text at a fixed place |
| `Handler.NotFoundMessageInjective` | src/handler.rs:201 | distinct ids give distinct 404 messages |
| `Handler.ListPage` | src/handler.rs:32-67 | a list request panics, with no statement issued, exactly when the window does; otherwise it issues one select with the narrowed limit and offset; rows give 200 "success" with `results` equal to the number of rows; a select error gives 500 "fail" with the fixed message |
| `Handler.ProductList` | src/handler.rs:32-67 | the product list is the list rule over the products table, under the key "products" |
| `Handler.NoteList` | src/handler.rs:70-127 | the note list is the list rule over the notes table, under the key "notes" |
| `Handler.EmptyListIsSuccess` | src/handler.rs:59-66 | zero rows is a 200 success with `results` 0, never an error |
| `Handler.DefaultListSelectsFirstTen` | src/handler.rs:39-49 | without query parameters the select is bound with limit 10 and offset 0 |
| `Handler.DebugPageZeroIssuesNothing` | src/handler.rs:78-87 | with overflow checks, page 0 panics before any statement is issued |
| `Handler.InsertReply` | src/handler.rs:154-178 | success is 201 with the row under "note"; an error whose text contains the duplicate-key phrase is 409 "fail" "Note with that title already exists"; any other error is 500 "error" with the error's debug text; the three cases are exclusive and exhaustive |
| `Handler.ConflictIffPhraseOccurs` | src/handler.rs:164-173 | a failed insert is a 409 exactly when the phrase occurs somewhere in the error's text |
| `Handler.DuplicateAnywhereIsConflict` | src/handler.rs:422-430 | any error text holding the phrase, whatever surrounds it, is a 409 |
| `Handler.NoteInsert` | src/handler.rs:144-150 | the note insert binds title and content as given and the category, or "" when it is missing |
| `Handler.NoteInsertIgnoresPublished` | src/handler.rs:142-149 | `published` in the body never reaches the insert |
| `Handler.CreateNote` | src/handler.rs:129-180 | JSON note creation issues exactly the note insert and replies by the insert classification |
| `Handler.AcceptForm` | src/handler.rs:311-363 | form note creation issues the same insert and gives the same replies as JSON note creation |
| `Handler.ProductValues` | src/handler.rs:369-405 | exactly 17 values are bound, and value i is the form field named by column i of the insert's column list |
| `Handler.ProductColumnsDistinct` | src/handler.rs:371-388 | the 17 columns are pairwise distinct and `published` is not one of them |
| `Handler.ProductValuesRoundTrip` | src/handler.rs:389-405 | reading the bound values back by position recovers the whole form body apart from `published` |
| `Handler.ProductValuesIgnorePublished` | src/handler.rs:389-406 | `published` in the form never reaches the insert |
| `Handler.CreateProduct` | src/handler.rs:365-437 | product creation issues exactly the 17-value insert and replies by the insert classification |
| `Handler.SecondProductWithTitleConflicts` | src/handler.rs:421-430 | given the store's answers as inputs (a row for the first insert, the unique-constraint error for the second), the first product is a 201 and the second a 409 with the note-title message |
| `Handler.GetNote` | src/handler.rs:182-206 | one select by id; 200 with the row under "note" exactly when the lookup succeeds; any lookup error is a 404 naming the id |
| `Handler.DeleteNote` | src/handler.rs:259-278 | one delete by id; it panics exactly when the statement fails; 204 with no body exactly when rows were affected; 404 naming the id exactly when none were |
| `Handler.MergeAsWritten` | src/handler.rs:231-234 | each field is the supplied value if present, else the stored one; it yields values exactly when the stored category and published are both present, whatever the patch supplies |
| `Handler.MergeIntended` | src/handler.rs:231-234 | each field is the supplied value if present, else the stored one; it fails only when a field is absent from both |
| `Handler.MergeAsWrittenRefinesIntended` | src/handler.rs:231-234 | wherever the merge as written succeeds, it agrees with the intended merge |
| `Handler.MergeIntendedIdempotent` | src/handler.rs:228-237 | applying the same patch to the row it produced writes the same values again |
| `Handler.EmptyPatchKeepsRow` | src/handler.rs:231-234 | a patch that supplies nothing writes back the stored values |
| `Handler.UpdateAfterLookup` | src/handler.rs:225-256 | after a found row: a failed unwrap panics with no update issued; otherwise one update with the merged values, `now` and the id, answered with 200 and the row, or 500 "error" with the debug text |
| `Handler.EditNote` | src/handler.rs:208-257 | the lookup comes first; a failed lookup is a 404 naming the id and no update is issued; otherwise the as-written merge decides; an update is issued exactly when the stored category and published are both present |
| `Handler.EditNoteIntended` | src/handler.rs:217-256 | the edit with the intended merge panics exactly when the row is found and some field is absent from both the patch and the row |
| `Handler.EagerUnwrapPanicsDespiteSuppliedCategory` | src/handler.rs:233-234 | for a stored note with a NULL category, a patch that supplies a category makes the code as written panic, and the intended edit does not |
| `Handler.AllRepliesWellFormed` | src/handler.rs:32-437 | every modelled handler's reply (the two lists, the three creates, get, edit as written and as intended, delete), for every input, keeps the envelope rules |

## Left out

- Query execution, the connection pool and the SQL text. Each handler takes the database's
  answer as an input and returns the statements it issues with their bound arguments.
- Handler.NoteList: assumes that template loading and rendering succeed
  (`Tera::new(...).unwrap()`, `render(...).unwrap()`). This is filesystem I/O and its
  output is discarded. A missing template would make the code panic on a non-empty list.
- `health_checker_handler`, the static pages `index` and `create_product_form`,
  `display_form`, and the debug printing (`println!`, `print_type_of`). They make no
  decision. The health check answers 200 with `{"status":"success","message":...}`, a
  shape `Envelope.WellFormed` does not admit, so the envelope rules are stated for the
  modelled handlers only.
- The routing table (`src/route.rs`) and the serde/axum extraction of the path, query,
  JSON and form. Extraction failures are answered by the framework before a handler runs.
  An absent or undecodable query string arrives as both options absent.
- The display format of a UUID. A `Uuid` is held as its display text.
- `chrono::Utc::now()`. It is an input of the edit.
- The `Display` and `Debug` renderings of a database error. Both are inputs (`DbError`).
- Rows are not serialised to JSON. An envelope carries the row value itself.
- The structs of `src/model.rs` and `src/schema.rs` for attributes, terms and categories,
  with the category level/parent computation and the multipart field demultiplexing: the
  handlers modelled here never touch them; `src/model.rs` only declares their structs.
- `rows_affected` is a `u64` in the source and a `nat` here. Only "zero or not" matters.

## Findings

| source | as written | input that shows it | evidently intended | confidence | as-written member | corrected member |
|---|---|---|---|---|---|---|
| src/handler.rs:233-234 | `body.category.to_owned().unwrap_or(note.category.unwrap())` (and the same for `published`) evaluates `note.category.unwrap()` before `unwrap_or` runs | a stored note whose `category` is NULL, patched with `{"category": "x"}` | use the stored value only when the patch leaves the field out (`unwrap_or_else`), so the patch succeeds | high (Rust evaluates arguments eagerly); not executed | `Handler.EditNote`, `Handler.EagerUnwrapPanicsDespiteSuppliedCategory` | `Handler.EditNoteIntended`, `Handler.MergeIntended` |
