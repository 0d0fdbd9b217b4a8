/** What the handlers promise, stated over their specifications: which input
    reaches which status, when the store is left alone, what a successful call
    writes, and how consecutive requests see each other's effects. */
module BooksProperties {
  import opened JsValues
  import opened BookStore
  import opened ProcessMiddleware
  import opened BooksMiddleware

  /** A request whose `id` path parameter is the truthy string `id`; its body
      and upload are arbitrary. */
  predicate Names(req: Request, id: string)
  {
    req.params.Some? && IdTruthy(req.params.value) && req.params.value["id"] == id
  }

  /** A body whose four fields have the types the schema casts without error. */
  predicate WellTyped(body: JsObject)
  {
    Get(body, "title").Text? && Get(body, "author").Text? &&
    Get(body, "published_date").Text? && Get(body, "isbn").Number?
  }

  /** The document that a well-typed body describes. */
  function BookOf(body: JsObject, cover: Option<string>, createdAt: Timestamp): Book
    requires WellTyped(body)
  {
    Book(Get(body, "title").s, Get(body, "author").s, Get(body, "published_date").s,
         Get(body, "isbn").n, cover, createdAt)
  }

  // ------------------------------------------------------------ createBook

  /** A body with a falsy (missing, `""`, `0`, …) required field is refused with
      400 before the store is touched. */
  lemma CreateRejectsFalsyField(c: Collection, isValidId: Id -> bool, req: Request, env: Env)
    requires req.body.Some? && !CreateFieldsTruthy(req.body.value)
    ensures CreateBookSpec(c, isValidId, req, env) == Step(Sent(400, Error(MissingCreateData)), c, [])
  {
  }

  /** A truthy, well-typed body on a healthy store yields 201 with a new
      document, under a fresh assignable id, holding exactly the body's
      fields, which any later lookup of that id finds. */
  lemma CreatePersists(c: Collection, isValidId: Id -> bool, req: Request, env: Env, get: Request, env2: Env)
    requires WellFormed(c)
    requires req.body.Some? && CreateFieldsTruthy(req.body.value) && WellTyped(req.body.value)
    requires !env.storeThrows && !env.createReturnsNull && env.newId !in c.books
    requires Assignable(isValidId, env.newId) && Names(get, env.newId) && !env2.storeThrows
    ensures var s := CreateBookSpec(c, isValidId, req, env);
      var r := Record(env.newId, BookOf(req.body.value, None, env.now));
      s.response == Sent(201, Data("Book was created successfully", OneBook(r))) &&
      s.after.books == c.books[env.newId := r.book] &&
      s.calls == [StoreCall.Create(BodyInput(req.body.value))] &&
      GetBookByIdSpec(s.after, isValidId, get, env2).response == Sent(200, Data("success", OneBook(r)))
  {
  }

  /** A truthy body whose store call rejects (failure, cast error, an id that is
      not assignable or already taken) is answered 400; a store resolving to
      nothing is answered 500. Neither changes the collection. */
  lemma CreateStoreOutcomes(c: Collection, isValidId: Id -> bool, req: Request, env: Env)
    requires req.body.Some? && CreateFieldsTruthy(req.body.value)
    ensures var s := CreateBookSpec(c, isValidId, req, env);
      s.calls == [StoreCall.Create(BodyInput(req.body.value))] &&
      (env.storeThrows || !WellTyped(req.body.value) || !Assignable(isValidId, env.newId) || env.newId in c.books ==>
         s == Step(Sent(400, Error("Invalid book data provided")), c, s.calls)) &&
      (!env.storeThrows && WellTyped(req.body.value) && Assignable(isValidId, env.newId) &&
       env.newId !in c.books && env.createReturnsNull ==>
         s == Step(Sent(500, Error("Failed to create book")), c, s.calls))
  {
  }

  // -------------------------------------------------- updateBookCoverImage

  /** Without an `id` parameter, or with one that is not an ObjectId, the answer
      is 400 whatever the upload holds: nothing is parsed and the store is not
      called. */
  lemma CoverRejectsBadId(c: Collection, isValidId: Id -> bool, req: Request, form: Form, env: Env)
    ensures var s := UpdateCoverImageSpec(c, isValidId, req, env);
      (!HasIdParam(req) ==> s == Step(Sent(400, Message("Invalid request")), c, [])) &&
      (HasIdParam(req) && !isValidId(req.params.value["id"]) ==>
         s == Step(Sent(400, Message("Invalid book ID")), c, [])) &&
      (!HasIdParam(req) || !isValidId(req.params.value["id"]) ==>
         s == UpdateCoverImageSpec(c, isValidId, req.(form := form), env))
  {
  }

  /** The two sample identifiers of the handler tests: whatever the ObjectId
      check is, as long as it accepts the first and refuses the second, the
      second is answered 400 "Invalid book ID", and the first with an empty
      multipart body is answered 400 "No file uploaded". */
  lemma CoverSampleIds(c: Collection, isValidId: Id -> bool, env: Env)
    requires isValidId("507f1f77bcf86cd799439011") && !isValidId("invalid-id")
    ensures UpdateCoverImageSpec(c, isValidId, Request(Some(map["id" := "invalid-id"]), None, Multipart([])), env).response
            == Sent(400, Message("Invalid book ID"))
    ensures UpdateCoverImageSpec(c, isValidId, Request(Some(map["id" := "507f1f77bcf86cd799439011"]), None, Multipart([])), env)
            == Step(Sent(400, Message("No file uploaded")), c, [])
  {
    ProcessMultipart([]);
  }

  /** A request that is not multipart, is malformed, or whose upload the
      middleware rejects (a `cover_image` of another type, a second file, a
      file under another field) is answered 500 without a store call. */
  lemma CoverUploadFailure(c: Collection, isValidId: Id -> bool, req: Request, env: Env)
    requires HasIdParam(req) && isValidId(req.params.value["id"])
    requires ProcessFileMiddleware(req.form).Rejected? || req.form.NotMultipart?
    ensures UpdateCoverImageSpec(c, isValidId, req, env) == Step(Sent(500, Message(InternalError)), c, [])
  {
  }

  /** A named `cover_image` part of a type outside the three image types,
      anywhere in the body, fails the upload and so the request, with 500 and
      no store call. */
  lemma CoverWrongType(c: Collection, isValidId: Id -> bool, req: Request, env: Env, i: nat)
    requires HasIdParam(req) && isValidId(req.params.value["id"])
    requires req.form.Multipart? && i < |req.form.parts|
    requires req.form.parts[i].originalname != "" && req.form.parts[i].fieldname == CoverImageField
    requires req.form.parts[i].mimetype !in ImageMimeTypes
    ensures UpdateCoverImageSpec(c, isValidId, req, env) == Step(Sent(500, Message(InternalError)), c, [])
  {
    AcceptRejectsBadCover(req.form.parts, MaxCount, map[], i);
  }

  /** A multipart body without any named file part (none at all, or only empty
      file inputs) is answered 400 "No file uploaded" without a store call. */
  lemma CoverNoFile(c: Collection, isValidId: Id -> bool, req: Request, env: Env)
    requires HasIdParam(req) && isValidId(req.params.value["id"])
    requires req.form.Multipart? && Announced(req.form.parts) == []
    ensures UpdateCoverImageSpec(c, isValidId, req, env) == Step(Sent(400, Message("No file uploaded")), c, [])
  {
    ProcessMultipart(req.form.parts);
  }

  /** A single named `cover_image` image (beside any nameless parts): the one
      store call sets `cover_image` to the file's original name and nothing
      else; the record is answered 200, a missing document 404, a failing
      store 500. */
  lemma CoverUpdatesName(c: Collection, isValidId: Id -> bool, req: Request, f: MulterFile, env: Env)
    requires HasIdParam(req) && isValidId(req.params.value["id"])
    requires req.form.Multipart? && Announced(req.form.parts) == [f] && Admissible(f)
    ensures var id := req.params.value["id"];
      var s := UpdateCoverImageSpec(c, isValidId, req, env);
      s.calls == [FindByIdAndUpdate(id, SetCoverImage(f.originalname))] &&
      (env.storeThrows ==> s.response == Sent(500, Message(InternalError)) && s.after == c) &&
      (!env.storeThrows && id !in c.books ==> s.response == Sent(404, Message(BookNotFound)) && s.after == c) &&
      (!env.storeThrows && id in c.books ==>
         var b := c.books[id].(cover_image := Some(f.originalname));
         s.response == Sent(200, Data("Book cover image updated", OneBook(Record(id, b)))) &&
         s.after == Collection(c.order, c.books[id := b]))
  {
    ProcessMultipart(req.form.parts);
  }

  /** Conversely, a 200 from the cover-image handler means the upload held
      exactly one named file, an admissible one, and the document now names it. */
  lemma CoverSuccessNeedsOneImage(c: Collection, isValidId: Id -> bool, req: Request, env: Env)
    requires UpdateCoverImageSpec(c, isValidId, req, env).response.Sent?
    requires UpdateCoverImageSpec(c, isValidId, req, env).response.status == 200
    ensures req.form.Multipart? && |Announced(req.form.parts)| == 1 && Admissible(Announced(req.form.parts)[0])
    ensures var s := UpdateCoverImageSpec(c, isValidId, req, env);
      s.response.body.Data? && s.response.body.data.OneBook? &&
      s.response.body.data.record.book.cover_image == Some(Announced(req.form.parts)[0].originalname)
  {
    if req.form.Multipart? {
      ProcessMultipart(req.form.parts);
    }
  }

  // -------------------------------------------------------------- getBooks

  /** On a healthy store, a non-empty collection is listed in full (each
      document exactly once, nothing else) with 200, an empty one is 404; a
      failing store gives 500. The collection is unchanged. */
  lemma GetBooksLists(c: Collection, env: Env)
    requires WellFormed(c)
    ensures var s := GetBooksSpec(c, env);
      s.after == c && s.calls == [Find] &&
      (env.storeThrows ==> s.response == Sent(500, Error("Error retrieving books"))) &&
      (!env.storeThrows && c.books == map[] ==> s.response == Sent(404, Error("No books found"))) &&
      (!env.storeThrows && c.books != map[] ==>
         s.response.Sent? && s.response.status == 200 && s.response.body.Data? &&
         s.response.body.data.BookList? &&
         var l := s.response.body.data.records;
         |l| == |c.books| &&
         (forall r :: r in l <==> r.id in c.books && c.books[r.id] == r.book))
  {
    ListingExact(c);
    if c.books != map[] {
      var id :| id in c.books;
      assert |c.books| > 0;
    } else {
      assert |c.books| == 0;
    }
  }

  // ------------------------------------------------- getBookById, deleteBookById

  /** A falsy `id` parameter is answered 400 before any store call. */
  lemma MissingIdRejected(c: Collection, isValidId: Id -> bool, req: Request, env: Env)
    requires req.params.Some? && !IdTruthy(req.params.value)
    ensures GetBookByIdSpec(c, isValidId, req, env) == Step(Sent(400, Error(MissingId)), c, [])
    ensures DeleteBookByIdSpec(c, isValidId, req, env) == Step(Sent(400, Error(MissingId)), c, [])
  {
  }

  /** Lookup: a stored document is answered 200, a missing one 404, and a
      failure (including a malformed id) 400. The collection is unchanged. */
  lemma GetBookByIdOutcomes(c: Collection, isValidId: Id -> bool, req: Request, env: Env)
    requires req.params.Some? && IdTruthy(req.params.value)
    ensures var id := req.params.value["id"];
      var s := GetBookByIdSpec(c, isValidId, req, env);
      s.after == c && s.calls == [FindById(id)] &&
      (env.storeThrows || !isValidId(id) ==> s.response == Sent(400, Error("Error retrieving book"))) &&
      (!env.storeThrows && isValidId(id) && id in c.books ==>
         s.response == Sent(200, Data("success", OneBook(Record(id, c.books[id]))))) &&
      (!env.storeThrows && isValidId(id) && id !in c.books ==> s.response == Sent(404, Error(BookNotFound)))
  {
  }

  /** Delete: a stored document is removed and answered 200 with its prior
      content, a missing one 404, and a failure 500 (not 400 as for lookup). */
  lemma DeleteBookByIdOutcomes(c: Collection, isValidId: Id -> bool, req: Request, env: Env)
    requires WellFormed(c) && req.params.Some? && IdTruthy(req.params.value)
    ensures var id := req.params.value["id"];
      var s := DeleteBookByIdSpec(c, isValidId, req, env);
      s.calls == [FindByIdAndDelete(id)] && WellFormed(s.after) &&
      (env.storeThrows || !isValidId(id) ==> s.response == Sent(500, Error("Error deleting book")) && s.after == c) &&
      (!env.storeThrows && isValidId(id) && id in c.books ==>
         s.response == Sent(200, Data("Book deleted successfully", OneBook(Record(id, c.books[id])))) &&
         s.after.books == c.books - {id} && id !in s.after.order) &&
      (!env.storeThrows && isValidId(id) && id !in c.books ==> s.response == Sent(404, Error(BookNotFound)) && s.after == c)
  {
    var id := req.params.value["id"];
    DeletePreserves(c, isValidId, id, env);
    WithoutMembers(c.order, id);
  }

  /** Deleting twice: the first delete answers 200, a repeat of it and any
      later lookup of the same id 404. */
  lemma DeleteTwice(c: Collection, isValidId: Id -> bool, id: string, req: Request, req2: Request, env: Env, env2: Env)
    requires Names(req, id) && Names(req2, id)
    requires isValidId(id) && id in c.books && !env.storeThrows && !env2.storeThrows
    ensures var first := DeleteBookByIdSpec(c, isValidId, req, env);
      first.response == Sent(200, Data("Book deleted successfully", OneBook(Record(id, c.books[id])))) &&
      DeleteBookByIdSpec(first.after, isValidId, req, env2).response == Sent(404, Error(BookNotFound)) &&
      GetBookByIdSpec(first.after, isValidId, req2, env2).response == Sent(404, Error(BookNotFound))
  {
  }

  /** The handlers test calls lookup and delete on a request without a params
      object; as written both destructure `undefined` before their guard, so
      the promise rejects and no response (in particular no 400) is sent. */
  lemma NoParamsNoResponse(c: Collection, isValidId: Id -> bool, req: Request, env: Env)
    ensures GetBookByIdSpec(c, isValidId, req, env).response == NoResponse <==> req.params.None?
    ensures DeleteBookByIdSpec(c, isValidId, req, env).response == NoResponse <==> req.params.None?
  {
  }

  // -------------------------------------------------------- updateBookById

  /** A request lacking the `id` parameter or any of the four body keys is
      answered 400 before any store call. */
  lemma UpdateRejectsMissingKey(c: Collection, isValidId: Id -> bool, req: Request, env: Env)
    requires !UpdateKeysPresent(req)
    ensures UpdateBookByIdSpec(c, isValidId, req, env) == Step(Sent(400, Error(MissingUpdateData)), c, [])
  {
  }

  /** With every key present the one store call writes exactly the four body
      fields; an existing document is answered 200 with its new fields and its
      cover image and `createdAt` kept, a missing one 404, a failure 400. */
  lemma UpdateWritesFourFields(c: Collection, isValidId: Id -> bool, req: Request, env: Env)
    requires UpdateKeysPresent(req)
    ensures var id := req.params.value["id"];
      var body := req.body.value;
      var s := UpdateBookByIdSpec(c, isValidId, req, env);
      s.calls == [FindByIdAndUpdate(id, SetFields(BookInput(body["title"], body["author"], body["published_date"], body["isbn"])))] &&
      (env.storeThrows || !isValidId(id) || !WellTyped(body) ==>
         s.response == Sent(400, Error("Error updating book")) && s.after == c) &&
      (!env.storeThrows && isValidId(id) && WellTyped(body) && id !in c.books ==>
         s.response == Sent(404, Error(BookNotFound)) && s.after == c) &&
      (!env.storeThrows && isValidId(id) && WellTyped(body) && id in c.books ==>
         var b := BookOf(body, c.books[id].cover_image, c.books[id].createdAt);
         s.response == Sent(200, Data("Book updated successfully", OneBook(Record(id, b)))) &&
         s.after == Collection(c.order, c.books[id := b]))
  {
  }

  /** An update followed by any lookup of the same id sees the new values. */
  lemma UpdateThenGet(c: Collection, isValidId: Id -> bool, req: Request, env: Env, get: Request, env2: Env)
    requires UpdateKeysPresent(req) && Names(get, req.params.value["id"]) && !env2.storeThrows
    requires UpdateBookByIdSpec(c, isValidId, req, env).response.Sent?
    requires UpdateBookByIdSpec(c, isValidId, req, env).response.status == 200
    ensures var s := UpdateBookByIdSpec(c, isValidId, req, env);
      GetBookByIdSpec(s.after, isValidId, get, env2).response
        == Sent(200, Data("success", s.response.body.data))
  {
  }

  /** The two guards differ: a body having all four keys but a falsy value
      (`title: ""`, `isbn: 0`, …) is refused by create yet passed to the store
      by update. */
  lemma GuardAsymmetry(c: Collection, isValidId: Id -> bool, req: Request, env: Env)
    requires UpdateKeysPresent(req) && !CreateFieldsTruthy(req.body.value)
    ensures CreateBookSpec(c, isValidId, req, env).response == Sent(400, Error(MissingCreateData))
    ensures CreateBookSpec(c, isValidId, req, env).calls == []
    ensures |UpdateBookByIdSpec(c, isValidId, req, env).calls| == 1
  {
  }

  /** Because update runs no validators, it stores an empty title and a zero
      isbn that create would have refused: stored documents need not have
      non-empty required fields. */
  lemma UpdateStoresFalsyValues(c: Collection, isValidId: Id -> bool, id: string, env: Env)
    requires isValidId(id) && id in c.books && !env.storeThrows
    ensures var body := map["title" := Text(""), "author" := Text("A"), "published_date" := Text("2024-01-01"), "isbn" := Number(0)];
      var req := Request(Some(map["id" := id]), Some(body), NotMultipart);
      CreateBookSpec(c, isValidId, req, env).response == Sent(400, Error(MissingCreateData)) &&
      var s := UpdateBookByIdSpec(c, isValidId, req, env);
      s.response.Sent? && s.response.status == 200 &&
      id in s.after.books && s.after.books[id].title == "" && s.after.books[id].isbn == 0
  {
    var body := map["title" := Text(""), "author" := Text("A"), "published_date" := Text("2024-01-01"), "isbn" := Number(0)];
    assert !Truthy(Get(body, "title"));
  }

  // ------------------------------------------------------------- all handlers

  /** Every handler keeps to this: its step makes at most one store call,
      changes the collection only through that call, keeps it well formed, and
      when it answers at all answers with one of the handler's own statuses. */
  ghost predicate Contained(c: Collection, s: Step, statuses: set<int>)
  {
    |s.calls| <= 1 && (s.calls == [] ==> s.after == c) && WellFormed(s.after) &&
    (s.response.Sent? ==> s.response.status in statuses)
  }

  lemma CreateBookContained(c: Collection, isValidId: Id -> bool, req: Request, env: Env)
    requires WellFormed(c)
    ensures Contained(c, CreateBookSpec(c, isValidId, req, env), {201, 400, 500})
  {
    if req.body.Some? {
      CreatePreserves(c, isValidId, BodyInput(req.body.value), env);
    }
  }

  lemma UpdateCoverImageContained(c: Collection, isValidId: Id -> bool, req: Request, env: Env)
    requires WellFormed(c)
    ensures Contained(c, UpdateCoverImageSpec(c, isValidId, req, env), {200, 400, 404, 500})
  {
    if HasIdParam(req) {
      var upload := ProcessFileMiddleware(req.form);
      if upload.Parsed? && upload.files.Some? && FilesUnder(upload.files.value, CoverImageField) != [] {
        var u := SetCoverImage(FilesUnder(upload.files.value, CoverImageField)[0].originalname);
        UpdatePreserves(c, isValidId, req.params.value["id"], u, env);
      }
    }
  }

  lemma GetBooksContained(c: Collection, env: Env)
    requires WellFormed(c)
    ensures Contained(c, GetBooksSpec(c, env), {200, 404, 500})
  {
  }

  lemma GetBookByIdContained(c: Collection, isValidId: Id -> bool, req: Request, env: Env)
    requires WellFormed(c)
    ensures Contained(c, GetBookByIdSpec(c, isValidId, req, env), {200, 400, 404})
  {
  }

  lemma UpdateBookByIdContained(c: Collection, isValidId: Id -> bool, req: Request, env: Env)
    requires WellFormed(c)
    ensures Contained(c, UpdateBookByIdSpec(c, isValidId, req, env), {200, 400, 404})
  {
    if UpdateKeysPresent(req) {
      UpdatePreserves(c, isValidId, req.params.value["id"], SetFields(BodyInput(req.body.value)), env);
    }
  }

  lemma DeleteBookByIdContained(c: Collection, isValidId: Id -> bool, req: Request, env: Env)
    requires WellFormed(c)
    ensures Contained(c, DeleteBookByIdSpec(c, isValidId, req, env), {200, 400, 404, 500})
  {
    if req.params.Some? && IdTruthy(req.params.value) {
      DeletePreserves(c, isValidId, req.params.value["id"], env);
    }
  }
}
