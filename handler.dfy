/** The request-to-response decisions of the HTTP handlers. Each handler is a function
    of the decoded request and of what the database answered; it returns the SQL
    statements it issues, in order, and the reply it makes. */
module Handler {
  import opened Wrappers
  import opened Text
  import opened Model
  import opened Schema
  import opened Pagination
  import opened Envelope

  /** A database failure as the handlers see it: its `Display` text (searched for the
      unique-constraint phrase) and its `Debug` text (sent back in 500 replies). */
  datatype DbError = DbError(display: string, debug: string)

  type DbResult<T> = Result<T, DbError>

  datatype Table = Products | Notes

  /** The statements the handlers issue, with their bound arguments. */
  datatype Statement =
    | SelectPage(table: Table, limit: int, offset: int)
    | InsertNote(title: string, content: string, category: string)
    | InsertProduct(values: seq<string>)
    | SelectNoteById(id: Uuid)
    | UpdateNote(title: string, content: string, category: string, published: bool, updatedAt: Instant, id: Uuid)
    | DeleteNoteById(id: Uuid)

  /** One request's traffic: the statements sent to the database, then the reply. */
  datatype Exchange<R> = Exchange(issued: seq<Statement>, reply: Reply<R>)

  const DuplicateKey := "duplicate key value violates unique constraint"
  const TitleTaken := "Note with that title already exists"
  const FetchAllFailed := "Something bad happened while fetching all note items"
  const UnwrapNone := "called `Option::unwrap()` on a `None` value"

  /** The key under which a list reply carries its rows. */
  function TableKey(table: Table): string
  {
    match table
    case Products => "products"
    case Notes => "notes"
  }

  function NotFoundMessage(id: Uuid): string
  {
    "Note with ID: " + id.text + " not found"
  }

  /** The 404 message names the id it was asked for, and can be read back from it. */
  lemma NotFoundMessageNamesId(id: Uuid)
    ensures |NotFoundMessage(id)| == |id.text| + 24
    ensures NotFoundMessage(id)[14..|id.text| + 14] == id.text
  {
  }

  lemma NotFoundMessageInjective(a: Uuid, b: Uuid)
    requires NotFoundMessage(a) == NotFoundMessage(b)
    ensures a == b
  {
    NotFoundMessageNamesId(a);
    NotFoundMessageNamesId(b);
  }

  function UnwrapErr(e: DbError): string
  {
    "called `Result::unwrap()` on an `Err` value: " + e.debug
  }

  // ---------------------------------------------------------------------------
  // Listing products and notes

  /** A page of `table`: the window is computed first (and may panic), one select is
      issued, and its rows come back counted; a failed select is a 500. */
  function ListPage<R>(table: Table, opts: FilterOptions, profile: Profile, rows: DbResult<seq<R>>): (x: Exchange<R>)
    ensures x.reply.Panic? <==> ComputeWindow(opts, profile).Err?
    ensures x.reply.Panic? ==> x.issued == [] && x.reply.message == ComputeWindow(opts, profile).error
    ensures !x.reply.Panic? ==>
      var w := ComputeWindow(opts, profile).value;
      x.issued == [SelectPage(table, BoundLimit(w), BoundOffset(w))]
    ensures !x.reply.Panic? && rows.Ok? ==>
      x.reply.code == OK && x.reply.body.Listing? && x.reply.body.status == Success &&
      x.reply.body.key == TableKey(table) &&
      x.reply.body.rows == rows.value && x.reply.body.results == |rows.value|
    ensures !x.reply.Panic? && rows.Err? ==>
      x.reply == Respond(InternalServerError, Message(Fail, FetchAllFailed))
  {
    match ComputeWindow(opts, profile)
    case Err(panic) => Exchange([], Panic(panic))
    case Ok(w) =>
      var select := SelectPage(table, BoundLimit(w), BoundOffset(w));
      match rows
      case Err(_) => Exchange([select], Respond(InternalServerError, Message(Fail, FetchAllFailed)))
      case Ok(found) => Exchange([select], Respond(OK, Listing(Success, |found|, TableKey(table), found)))
  }

  /** `GET /api/products`. */
  function ProductList(opts: FilterOptions, profile: Profile, rows: DbResult<seq<ProductModel>>): (x: Exchange<ProductModel>)
    ensures x == ListPage(Products, opts, profile, rows)
  {
    ListPage(Products, opts, profile, rows)
  }

  /** `GET /api/notes`, assuming its per-note template rendering succeeds. */
  function NoteList(opts: FilterOptions, profile: Profile, rows: DbResult<seq<NoteModel>>): (x: Exchange<NoteModel>)
    ensures x == ListPage(Notes, opts, profile, rows)
  {
    ListPage(Notes, opts, profile, rows)
  }

  /** An empty table is listed with success, never as an error. */
  lemma EmptyListIsSuccess<R>(table: Table, opts: FilterOptions, profile: Profile)
    requires ComputeWindow(opts, profile).Ok?
    ensures ListPage<R>(table, opts, profile, Ok([])).reply == Respond(OK, Listing(Success, 0, TableKey(table), []))
  {
  }

  /** Without query parameters the select asks for the first ten rows. */
  lemma DefaultListSelectsFirstTen<R>(table: Table, profile: Profile, rows: DbResult<seq<R>>)
    ensures ListPage(table, FilterOptions(None, None), profile, rows).issued == [SelectPage(table, 10, 0)]
  {
  }

  /** With overflow checks, `page=0` panics before any statement is issued. */
  lemma DebugPageZeroIssuesNothing<R>(table: Table, limit: Option<Usize>, rows: DbResult<seq<R>>)
    ensures ListPage(table, FilterOptions(Some(0), limit), Debug, rows) == Exchange([], Panic(SubtractOverflow))
  {
  }

  // ---------------------------------------------------------------------------
  // Classifying an insert

  /** The reply to an `INSERT ... RETURNING *`, the same in all three create paths:
      the new row under `"note"` with 201; a unique-constraint violation is a 409 whose
      message speaks of a note title whatever the table; any other failure is a 500
      carrying the error's debug text. */
  function InsertReply<R>(result: DbResult<R>): (r: Reply<R>)
    ensures r.Respond? && WellFormed(r)
    ensures r.code == Created <==> result.Ok?
    ensures result.Ok? ==> r.body == Data(Success, "note", result.value)
    ensures r.code == Conflict <==> result.Err? && Contains(result.error.display, DuplicateKey)
    ensures r.code == Conflict ==> r.body == Message(Fail, TitleTaken)
    ensures r.code == InternalServerError <==> result.Err? && !Contains(result.error.display, DuplicateKey)
    ensures r.code == InternalServerError ==> r.body == Message(Error, result.error.debug)
  {
    match result
    case Ok(row) => Respond(Created, Data(Success, "note", row))
    case Err(e) =>
      if Contains(e.display, DuplicateKey) then Respond(Conflict, Message(Fail, TitleTaken))
      else Respond(InternalServerError, Message(Error, e.debug))
  }

  /** A failed insert is a conflict exactly when the unique-constraint phrase occurs
      somewhere in the error's text. */
  lemma ConflictIffPhraseOccurs<R>(e: DbError)
    ensures InsertReply<R>(Err(e)).code == Conflict <==> exists i :: OccursAt(e.display, DuplicateKey, i)
  {
    ContainsIffOccurs(e.display, DuplicateKey);
  }

  /** The message of a database error decides its class, whatever text precedes or
      follows the phrase. */
  lemma DuplicateAnywhereIsConflict<R>(before: string, after: string, debug: string)
    ensures InsertReply<R>(Err(DbError(before + DuplicateKey + after, debug))).code == Conflict
  {
    var s := before + DuplicateKey + after;
    assert s[|before|..|before| + |DuplicateKey|] == DuplicateKey;
    assert OccursAt(s, DuplicateKey, |before|);
    ContainsIffOccurs(s, DuplicateKey);
  }

  // ---------------------------------------------------------------------------
  // Creating notes

  /** The insert a note body turns into: title and content as given, a missing
      category as the empty string, and `published` not sent at all. */
  function NoteInsert(body: CreateNoteSchema): (s: Statement)
    ensures s.InsertNote? && s.title == body.title && s.content == body.content
    ensures s.category == GetOr(body.category, "")
  {
    InsertNote(body.title, body.content, GetOr(body.category, ""))
  }

  /** `published` in the body has no effect on the statement. */
  lemma NoteInsertIgnoresPublished(body: CreateNoteSchema, published: Option<bool>)
    ensures NoteInsert(body.(published := published)) == NoteInsert(body)
  {
  }

  /** `POST /api/notes/` with a JSON body. */
  function CreateNote(body: CreateNoteSchema, result: DbResult<NoteModel>): (x: Exchange<NoteModel>)
    ensures x.issued == [NoteInsert(body)]
    ensures x.reply == InsertReply(result)
  {
    Exchange([NoteInsert(body)], InsertReply(result))
  }

  /** `POST /` with an HTML form body: the same insert and the same replies as `CreateNote`. */
  function AcceptForm(body: CreateNoteSchema, result: DbResult<NoteModel>): (x: Exchange<NoteModel>)
    ensures x == CreateNote(body, result)
  {
    Exchange([NoteInsert(body)], InsertReply(result))
  }

  // ---------------------------------------------------------------------------
  // Creating products

  /** The insert's column list, in statement order. */
  const ProductColumns: seq<string> := [
    "title", "description", "category", "price", "sku", "product_type", "stock",
    "allow_backorders", "low_stock_threshold", "shipping_weight", "product_gallery",
    "attributes", "variations", "shipping_dimensions", "shipping_class", "tax_status",
    "tax_class"]

  /** The form field that feeds a column, looked up by name rather than by position. */
  function FieldNamed(body: CreateProductSchema, column: string): Option<string>
  {
    if column == "title" then Some(body.title)
    else if column == "description" then Some(body.description)
    else if column == "category" then Some(body.category)
    else if column == "price" then Some(body.price)
    else if column == "sku" then Some(body.sku)
    else if column == "product_type" then Some(body.productType)
    else if column == "stock" then Some(body.stock)
    else if column == "allow_backorders" then Some(body.allowBackorders)
    else if column == "low_stock_threshold" then Some(body.lowStockThreshold)
    else if column == "shipping_weight" then Some(body.shippingWeight)
    else if column == "product_gallery" then Some(body.productGallery)
    else if column == "attributes" then Some(body.attributes)
    else if column == "variations" then Some(body.variations)
    else if column == "shipping_dimensions" then Some(body.shippingDimensions)
    else if column == "shipping_class" then Some(body.shippingClass)
    else if column == "tax_status" then Some(body.taxStatus)
    else if column == "tax_class" then Some(body.taxClass)
    else None
  }

  /** The seventeen values bound to `$1 .. $17`: one per column, and value `i` is the
      form field named by column `i`. */
  function ProductValues(body: CreateProductSchema): (v: seq<string>)
    ensures |v| == |ProductColumns| == 17
    ensures forall i :: 0 <= i < |v| ==> FieldNamed(body, ProductColumns[i]) == Some(v[i])
  {
    [body.title, body.description, body.category, body.price, body.sku, body.productType,
     body.stock, body.allowBackorders, body.lowStockThreshold, body.shippingWeight,
     body.productGallery, body.attributes, body.variations, body.shippingDimensions,
     body.shippingClass, body.taxStatus, body.taxClass]
  }

  /** No column is named twice, and `published` is not among them. */
  lemma ProductColumnsDistinct()
    ensures forall i, j :: 0 <= i < j < |ProductColumns| ==> ProductColumns[i] != ProductColumns[j]
    ensures "published" !in ProductColumns
  {
  }

  /** The form body rebuilt from the 17 values, by position. */
  function ProductFromValues(v: seq<string>, published: Option<bool>): CreateProductSchema
    requires |v| == 17
  {
    CreateProductSchema(v[0], v[1], v[2], v[3], v[4], v[5], v[6], v[7], v[8], v[9], v[10],
                        v[11], v[12], v[13], v[14], v[15], v[16], published)
  }

  /** Reading the bound values back by position recovers the whole body but `published`:
      no field is lost, duplicated or swapped. */
  lemma ProductValuesRoundTrip(body: CreateProductSchema)
    ensures ProductFromValues(ProductValues(body), body.published) == body
  {
  }

  /** `published` in the form has no effect on the statement. */
  lemma ProductValuesIgnorePublished(body: CreateProductSchema, published: Option<bool>)
    ensures ProductValues(body.(published := published)) == ProductValues(body)
  {
  }

  /** `POST /create_product` with an HTML form body. */
  function CreateProduct(body: CreateProductSchema, result: DbResult<ProductModel>): (x: Exchange<ProductModel>)
    ensures x.issued == [InsertProduct(ProductValues(body))]
    ensures x.reply == InsertReply(result)
  {
    Exchange([InsertProduct(ProductValues(body))], InsertReply(result))
  }

  /** Two products with the same title: given the store's answers (a row for the first
      insert, the unique-constraint error for the second), the first is created and the
      second is answered with the note-title message. */
  lemma SecondProductWithTitleConflicts(first: CreateProductSchema, second: CreateProductSchema,
                                        row: ProductModel, debug: string)
    ensures CreateProduct(first, Ok(row)).reply.code == Created
    ensures CreateProduct(second, Err(DbError(DuplicateKey, debug))).reply
         == Respond(Conflict, Message(Fail, TitleTaken))
  {
  }

  // ---------------------------------------------------------------------------
  // Reading and deleting one note

  /** `GET /api/notes/:id`: the row with 200, or for any lookup failure a 404 naming the id. */
  function GetNote(id: Uuid, found: DbResult<NoteModel>): (x: Exchange<NoteModel>)
    ensures x.issued == [SelectNoteById(id)]
    ensures x.reply.Respond? && WellFormed(x.reply)
    ensures x.reply.code == OK <==> found.Ok?
    ensures found.Ok? ==> x.reply.body == Data(Success, "note", found.value)
    ensures found.Err? ==> x.reply == Respond(NotFound, Message(Fail, NotFoundMessage(id)))
  {
    var select := SelectNoteById(id);
    match found
    case Ok(note) => Exchange([select], Respond(OK, Data(Success, "note", note)))
    case Err(_) => Exchange([select], Respond(NotFound, Message(Fail, NotFoundMessage(id))))
  }

  /** `DELETE /api/notes/:id`: 204 when a row went, 404 when none matched; a failing
      statement is unwrapped and panics. */
  function DeleteNote(id: Uuid, rowsAffected: DbResult<nat>): (x: Exchange<NoteModel>)
    ensures x.issued == [DeleteNoteById(id)]
    ensures x.reply.Panic? <==> rowsAffected.Err?
    ensures rowsAffected.Err? ==> x.reply.message == UnwrapErr(rowsAffected.error)
    ensures rowsAffected == Ok(0) ==> x.reply == Respond(NotFound, Message(Fail, NotFoundMessage(id)))
    ensures rowsAffected.Ok? && rowsAffected.value > 0 ==> x.reply == Respond(NoContent, NoBody)
  {
    var delete := DeleteNoteById(id);
    match rowsAffected
    case Err(e) => Exchange([delete], Panic(UnwrapErr(e)))
    case Ok(n) =>
      if n == 0 then Exchange([delete], Respond(NotFound, Message(Fail, NotFoundMessage(id))))
      else Exchange([delete], Respond(NoContent, NoBody))
  }

  // ---------------------------------------------------------------------------
  // Editing a note

  /** The column values an update writes. */
  datatype NoteValues = NoteValues(title: string, content: string, category: string, published: bool)

  /** The merge as the handler writes it: `supplied.unwrap_or(stored.unwrap())`. Rust
      evaluates the argument of `unwrap_or` before the call, so a stored NULL category or
      published flag is unwrapped, and panics, even when the body supplies that field. */
  function MergeAsWritten(body: UpdateNoteSchema, stored: NoteModel): (m: Option<NoteValues>)
    ensures m.Some? <==> stored.category.Some? && stored.published.Some?
    ensures m.Some? ==> m.value == NoteValues(
      GetOr(body.title, stored.title), GetOr(body.content, stored.content),
      GetOr(body.category, stored.category.value), GetOr(body.published, stored.published.value))
  {
    match (stored.category, stored.published)
    case (Some(category), Some(published)) =>
      Some(NoteValues(GetOr(body.title, stored.title), GetOr(body.content, stored.content),
                      GetOr(body.category, category), GetOr(body.published, published)))
    case _ => None
  }

  /** The merge the handler means: each field is the supplied value if there is one,
      else the stored one; it fails only where neither exists. */
  function MergeIntended(body: UpdateNoteSchema, stored: NoteModel): (m: Option<NoteValues>)
    ensures m.Some? <==> (body.category.Some? || stored.category.Some?) &&
                         (body.published.Some? || stored.published.Some?)
    ensures m.Some? ==> m.value.title == GetOr(body.title, stored.title)
    ensures m.Some? ==> m.value.content == GetOr(body.content, stored.content)
    ensures m.Some? ==> Some(m.value.category) == (if body.category.Some? then body.category else stored.category)
    ensures m.Some? ==> Some(m.value.published) == (if body.published.Some? then body.published else stored.published)
  {
    var category := if body.category.Some? then body.category else stored.category;
    var published := if body.published.Some? then body.published else stored.published;
    match (category, published)
    case (Some(c), Some(p)) =>
      Some(NoteValues(GetOr(body.title, stored.title), GetOr(body.content, stored.content), c, p))
    case _ => None
  }

  /** Where the merge as written succeeds it agrees with the intended one. */
  lemma MergeAsWrittenRefinesIntended(body: UpdateNoteSchema, stored: NoteModel)
    requires MergeAsWritten(body, stored).Some?
    ensures MergeIntended(body, stored) == MergeAsWritten(body, stored)
  {
  }

  /** The stored row after an update has written `v`. */
  function Overwritten(stored: NoteModel, v: NoteValues): NoteModel
  {
    stored.(title := v.title, content := v.content, category := Some(v.category), published := Some(v.published))
  }

  /** Sending the same patch twice writes the same values twice. */
  lemma MergeIntendedIdempotent(body: UpdateNoteSchema, stored: NoteModel)
    requires MergeIntended(body, stored).Some?
    ensures MergeIntended(body, Overwritten(stored, MergeIntended(body, stored).value)) == MergeIntended(body, stored)
  {
  }

  /** An empty patch writes back what is stored. */
  lemma EmptyPatchKeepsRow(stored: NoteModel)
    requires stored.category.Some? && stored.published.Some?
    ensures MergeIntended(UpdateNoteSchema(None, None, None, None), stored)
         == Some(NoteValues(stored.title, stored.content, stored.category.value, stored.published.value))
  {
  }

  /** What follows a successful lookup: panic if the merge unwrapped a missing value,
      else issue the update and answer with its row, or a 500 with its debug text. */
  function UpdateAfterLookup(id: Uuid, now: Instant, merged: Option<NoteValues>, updated: DbResult<NoteModel>): (x: Exchange<NoteModel>)
    ensures merged.None? ==> x == Exchange([SelectNoteById(id)], Panic(UnwrapNone))
    ensures merged.Some? ==>
      var v := merged.value;
      x.issued == [SelectNoteById(id), UpdateNote(v.title, v.content, v.category, v.published, now, id)]
    ensures merged.Some? && updated.Ok? ==> x.reply == Respond(OK, Data(Success, "note", updated.value))
    ensures merged.Some? && updated.Err? ==> x.reply == Respond(InternalServerError, Message(Error, updated.error.debug))
  {
    var select := SelectNoteById(id);
    match merged
    case None => Exchange([select], Panic(UnwrapNone))
    case Some(v) =>
      var update := UpdateNote(v.title, v.content, v.category, v.published, now, id);
      match updated
      case Ok(row) => Exchange([select, update], Respond(OK, Data(Success, "note", row)))
      case Err(e) => Exchange([select, update], Respond(InternalServerError, Message(Error, e.debug)))
  }

  /** `PATCH /api/notes/:id` as written. A failed lookup is a 404 and no update is
      issued; otherwise the merged values are written with `now` as `updated_at`. */
  function EditNote(id: Uuid, body: UpdateNoteSchema, now: Instant,
                    found: DbResult<NoteModel>, updated: DbResult<NoteModel>): (x: Exchange<NoteModel>)
    ensures 1 <= |x.issued| <= 2 && x.issued[0] == SelectNoteById(id)
    ensures found.Err? ==> x == Exchange([SelectNoteById(id)], Respond(NotFound, Message(Fail, NotFoundMessage(id))))
    ensures found.Ok? ==> x == UpdateAfterLookup(id, now, MergeAsWritten(body, found.value), updated)
    ensures |x.issued| == 2 <==> found.Ok? && found.value.category.Some? && found.value.published.Some?
  {
    match found
    case Err(_) => Exchange([SelectNoteById(id)], Respond(NotFound, Message(Fail, NotFoundMessage(id))))
    case Ok(stored) => UpdateAfterLookup(id, now, MergeAsWritten(body, stored), updated)
  }

  /** The edit the handler means, with the merge evaluated lazily. */
  function EditNoteIntended(id: Uuid, body: UpdateNoteSchema, now: Instant,
                            found: DbResult<NoteModel>, updated: DbResult<NoteModel>): (x: Exchange<NoteModel>)
    ensures 1 <= |x.issued| <= 2 && x.issued[0] == SelectNoteById(id)
    ensures found.Err? ==> x == Exchange([SelectNoteById(id)], Respond(NotFound, Message(Fail, NotFoundMessage(id))))
    ensures found.Ok? ==> x == UpdateAfterLookup(id, now, MergeIntended(body, found.value), updated)
    ensures x.reply.Panic? <==>
      found.Ok? && ((body.category.None? && found.value.category.None?) ||
                    (body.published.None? && found.value.published.None?))
  {
    match found
    case Err(_) => Exchange([SelectNoteById(id)], Respond(NotFound, Message(Fail, NotFoundMessage(id))))
    case Ok(stored) => UpdateAfterLookup(id, now, MergeIntended(body, stored), updated)
  }

  /** The eager unwrap panics on a note whose stored category is NULL even though the
      patch supplies a category (and a published flag), where the intended edit updates. */
  lemma EagerUnwrapPanicsDespiteSuppliedCategory(id: Uuid, now: Instant, stored: NoteModel, updated: DbResult<NoteModel>)
    requires stored.category.None? && stored.published.Some?
    ensures EditNote(id, UpdateNoteSchema(None, None, Some("x"), None), now, Ok(stored), updated).reply.Panic?
    ensures !EditNoteIntended(id, UpdateNoteSchema(None, None, Some("x"), None), now, Ok(stored), updated).reply.Panic?
  {
  }

  // ---------------------------------------------------------------------------
  // The envelope rules hold for every handler

  lemma AllRepliesWellFormed(opts: FilterOptions, profile: Profile, id: Uuid, now: Instant,
                             noteBody: CreateNoteSchema, productBody: CreateProductSchema, patch: UpdateNoteSchema,
                             products: DbResult<seq<ProductModel>>, notes: DbResult<seq<NoteModel>>,
                             note: DbResult<NoteModel>, product: DbResult<ProductModel>,
                             updated: DbResult<NoteModel>, rowsAffected: DbResult<nat>)
    ensures WellFormed(ProductList(opts, profile, products).reply)
    ensures WellFormed(NoteList(opts, profile, notes).reply)
    ensures WellFormed(CreateNote(noteBody, note).reply)
    ensures WellFormed(AcceptForm(noteBody, note).reply)
    ensures WellFormed(CreateProduct(productBody, product).reply)
    ensures WellFormed(GetNote(id, note).reply)
    ensures WellFormed(EditNote(id, patch, now, note, updated).reply)
    ensures WellFormed(EditNoteIntended(id, patch, now, note, updated).reply)
    ensures WellFormed(DeleteNote(id, rowsAffected).reply)
  {
  }
}
