/** The six book handlers. Each validates its request, makes at most one store
    call and answers with one status and JSON body. Each handler is a method
    on the store object, proved against a function (`…Spec`) that gives its
    whole behaviour on a collection value: the response, the collection left
    behind, and the store calls made. */
module BooksMiddleware {
  import opened JsValues
  import opened BookStore
  import opened ProcessMiddleware

  /** What a handler reads from an Express request. An absent `params` or `body`
      is `undefined` (Express sets both when the router and body parser ran). */
  datatype Request = Request(params: Option<map<string, string>>, body: Option<JsObject>, form: Form)

  datatype Payload = OneBook(record: Record) | BookList(records: seq<Record>)

  /** The three JSON body shapes: `{ message, data }`, `{ error }` and `{ message }`. */
  datatype Body = Data(message: string, data: Payload) | Error(error: string) | Message(message: string)

  /** `response.status(s).json(b)`, or nothing at all: the handler's promise
      rejected before a response was sent. */
  datatype Response = Sent(status: int, body: Body) | NoResponse

  /** A handler's whole effect: what it sends, the collection afterwards, the
      store calls it made in order. */
  datatype Step = Step(response: Response, after: Collection, calls: seq<StoreCall>)

  const MissingCreateData := "Missing required book data in request body"
  const MissingUpdateData := "Missing required book data or ID in request"
  const MissingId := "Missing book ID in request parameters"
  const BookNotFound := "Book not found"
  const InternalError := "Internal server error"

  // --------------------------------------------------------------- guards

  /** `title && author && published_date && isbn`: JavaScript truthiness. */
  predicate CreateFieldsTruthy(body: JsObject)
  {
    Truthy(Get(body, "title")) && Truthy(Get(body, "author")) &&
    Truthy(Get(body, "published_date")) && Truthy(Get(body, "isbn"))
  }

  /** `request.params && "id" in request.params && request.body && 'title' in
      request.body && …`: key presence only. */
  predicate UpdateKeysPresent(req: Request)
  {
    req.params.Some? && "id" in req.params.value && req.body.Some? &&
    "title" in req.body.value && "author" in req.body.value &&
    "published_date" in req.body.value && "isbn" in req.body.value
  }

  /** `request.params && 'id' in request.params`. */
  predicate HasIdParam(req: Request)
  {
    req.params.Some? && "id" in req.params.value
  }

  /** The `id` path parameter is truthy: present and not the empty string. */
  predicate IdTruthy(params: map<string, string>)
  {
    "id" in params && params["id"] != ""
  }

  function BodyInput(body: JsObject): BookInput
  {
    BookInput(Get(body, "title"), Get(body, "author"), Get(body, "published_date"), Get(body, "isbn"))
  }

  // -------------------------------------------------------- specifications

  /** `createBook` (POST /books). */
  function CreateBookSpec(c: Collection, isValidId: Id -> bool, req: Request, env: Env): Step
  {
    match req.body
    case None => Step(NoResponse, c, [])  // destructuring `undefined` throws
    case Some(body) =>
      if !CreateFieldsTruthy(body) then Step(Sent(400, Error(MissingCreateData)), c, [])
      else
        var input := BodyInput(body);
        var e := CreateEffect(c, isValidId, input, env);
        var response := match e.outcome
          case Returned(r) => Sent(201, Data("Book was created successfully", OneBook(r)))
          case ReturnedNull => Sent(500, Error("Failed to create book"))
          case Threw => Sent(400, Error("Invalid book data provided"));
        Step(response, e.after, [StoreCall.Create(input)])
  }

  /** `updateBookCoverImage` (PATCH /books/cover-image/:id). */
  function UpdateCoverImageSpec(c: Collection, isValidId: Id -> bool, req: Request, env: Env): Step
  {
    if !HasIdParam(req) then Step(Sent(400, Message("Invalid request")), c, [])
    else
      var id := req.params.value["id"];
      if !isValidId(id) then Step(Sent(400, Message("Invalid book ID")), c, [])
      else match ProcessFileMiddleware(req.form)
        case Rejected(_) => Step(Sent(500, Message(InternalError)), c, [])
        case Parsed(None) => Step(Sent(500, Message(InternalError)), c, [])  // indexing undefined `files` throws
        case Parsed(Some(files)) =>
          if FilesUnder(files, CoverImageField) == [] then Step(Sent(400, Message("No file uploaded")), c, [])
          else
            var u := SetCoverImage(FilesUnder(files, CoverImageField)[0].originalname);
            var e := UpdateEffect(c, isValidId, id, u, env);
            var response := match e.outcome
              case Returned(r) => Sent(200, Data("Book cover image updated", OneBook(r)))
              case ReturnedNull => Sent(404, Message(BookNotFound))
              case Threw => Sent(500, Message(InternalError));
            Step(response, e.after, [FindByIdAndUpdate(id, u)])
  }

  /** `getBooks` (GET /books). */
  function GetBooksSpec(c: Collection, env: Env): Step
  {
    var e := FindEffect(c, env);
    var response := match e.outcome
      case Returned(books) =>
        if |books| > 0 then Sent(200, Data("success", BookList(books)))
        else Sent(404, Error("No books found"))
      case ReturnedNull => Sent(500, Error("Error retrieving books"))  // `null.length` throws
      case Threw => Sent(500, Error("Error retrieving books"));
    Step(response, e.after, [Find])
  }

  /** `getBookById` (GET /books/:id). */
  function GetBookByIdSpec(c: Collection, isValidId: Id -> bool, req: Request, env: Env): Step
  {
    match req.params
    case None => Step(NoResponse, c, [])  // destructuring `undefined` throws
    case Some(params) =>
      if !IdTruthy(params) then Step(Sent(400, Error(MissingId)), c, [])
      else
        var id := params["id"];
        var e := FindByIdEffect(c, isValidId, id, env);
        var response := match e.outcome
          case Returned(r) => Sent(200, Data("success", OneBook(r)))
          case ReturnedNull => Sent(404, Error(BookNotFound))
          case Threw => Sent(400, Error("Error retrieving book"));
        Step(response, e.after, [FindById(id)])
  }

  /** `updateBookById` (PUT /books/:id). */
  function UpdateBookByIdSpec(c: Collection, isValidId: Id -> bool, req: Request, env: Env): Step
  {
    if !UpdateKeysPresent(req) then Step(Sent(400, Error(MissingUpdateData)), c, [])
    else
      var id := req.params.value["id"];
      var u := SetFields(BodyInput(req.body.value));
      var e := UpdateEffect(c, isValidId, id, u, env);
      var response := match e.outcome
        case Returned(r) => Sent(200, Data("Book updated successfully", OneBook(r)))
        case ReturnedNull => Sent(404, Error(BookNotFound))
        case Threw => Sent(400, Error("Error updating book"));
      Step(response, e.after, [FindByIdAndUpdate(id, u)])
  }

  /** `deleteBookById` (DELETE /books/:id). */
  function DeleteBookByIdSpec(c: Collection, isValidId: Id -> bool, req: Request, env: Env): Step
  {
    match req.params
    case None => Step(NoResponse, c, [])  // destructuring `undefined` throws
    case Some(params) =>
      if !IdTruthy(params) then Step(Sent(400, Error(MissingId)), c, [])
      else
        var id := params["id"];
        var e := DeleteEffect(c, isValidId, id, env);
        var response := match e.outcome
          case Returned(r) => Sent(200, Data("Book deleted successfully", OneBook(r)))
          case ReturnedNull => Sent(404, Error(BookNotFound))
          case Threw => Sent(500, Error("Error deleting book"));
        Step(response, e.after, [FindByIdAndDelete(id)])
  }

  // --------------------------------------------------------------- handlers

  method CreateBook(db: BookCollection, req: Request, env: Env) returns (res: Response)
    requires db.Valid()
    modifies db
    ensures db.Valid()
    ensures var s := CreateBookSpec(old(db.State()), db.isValidId, req, env);
      res == s.response && db.State() == s.after && db.calls == old(db.calls) + s.calls
  {
    if req.body.None? {
      return NoResponse;
    }
    var body := req.body.value;
    if CreateFieldsTruthy(body) {
      var book := db.Create(BodyInput(body), env);
      if book.Returned? {
        return Sent(201, Data("Book was created successfully", OneBook(book.value)));
      } else if book.ReturnedNull? {
        return Sent(500, Error("Failed to create book"));
      } else {
        return Sent(400, Error("Invalid book data provided"));
      }
    } else {
      return Sent(400, Error(MissingCreateData));
    }
  }

  method UpdateBookCoverImage(db: BookCollection, req: Request, env: Env) returns (res: Response)
    requires db.Valid()
    modifies db
    ensures db.Valid()
    ensures var s := UpdateCoverImageSpec(old(db.State()), db.isValidId, req, env);
      res == s.response && db.State() == s.after && db.calls == old(db.calls) + s.calls
  {
    if HasIdParam(req) {
      var id := req.params.value["id"];
      if !db.isValidId(id) {
        return Sent(400, Message("Invalid book ID"));
      }
      var upload := ProcessFileMiddleware(req.form);
      if upload.Rejected? || upload.files.None? {
        return Sent(500, Message(InternalError));
      }
      var files := upload.files.value;
      if FilesUnder(files, CoverImageField) == [] {
        return Sent(400, Message("No file uploaded"));
      }
      var fileName := FilesUnder(files, CoverImageField)[0].originalname;
      var book := db.FindByIdAndUpdate(id, SetCoverImage(fileName), env);
      if book.Returned? {
        res := Sent(200, Data("Book cover image updated", OneBook(book.value)));
      } else if book.ReturnedNull? {
        res := Sent(404, Message(BookNotFound));
      } else {
        res := Sent(500, Message(InternalError));
      }
    } else {
      res := Sent(400, Message("Invalid request"));
    }
  }

  method GetBooks(db: BookCollection, env: Env) returns (res: Response)
    requires db.Valid()
    modifies db
    ensures db.Valid()
    ensures var s := GetBooksSpec(old(db.State()), env);
      res == s.response && db.State() == s.after && db.calls == old(db.calls) + s.calls
  {
    var books := db.Find(env);
    if books.Returned? {
      if |books.value| > 0 {
        return Sent(200, Data("success", BookList(books.value)));
      } else {
        return Sent(404, Error("No books found"));
      }
    }
    return Sent(500, Error("Error retrieving books"));
  }

  method GetBookById(db: BookCollection, req: Request, env: Env) returns (res: Response)
    requires db.Valid()
    modifies db
    ensures db.Valid()
    ensures var s := GetBookByIdSpec(old(db.State()), db.isValidId, req, env);
      res == s.response && db.State() == s.after && db.calls == old(db.calls) + s.calls
  {
    if req.params.None? {
      return NoResponse;
    }
    var params := req.params.value;
    if !IdTruthy(params) {
      return Sent(400, Error(MissingId));
    }
    var book := db.FindById(params["id"], env);
    if book.Returned? {
      return Sent(200, Data("success", OneBook(book.value)));
    } else if book.ReturnedNull? {
      return Sent(404, Error(BookNotFound));
    } else {
      return Sent(400, Error("Error retrieving book"));
    }
  }

  method UpdateBookById(db: BookCollection, req: Request, env: Env) returns (res: Response)
    requires db.Valid()
    modifies db
    ensures db.Valid()
    ensures var s := UpdateBookByIdSpec(old(db.State()), db.isValidId, req, env);
      res == s.response && db.State() == s.after && db.calls == old(db.calls) + s.calls
  {
    if UpdateKeysPresent(req) {
      var id := req.params.value["id"];
      var book := db.FindByIdAndUpdate(id, SetFields(BodyInput(req.body.value)), env);
      if book.Returned? {
        res := Sent(200, Data("Book updated successfully", OneBook(book.value)));
      } else if book.ReturnedNull? {
        res := Sent(404, Error(BookNotFound));
      } else {
        res := Sent(400, Error("Error updating book"));
      }
    } else {
      res := Sent(400, Error(MissingUpdateData));
    }
  }

  method DeleteBookById(db: BookCollection, req: Request, env: Env) returns (res: Response)
    requires db.Valid()
    modifies db
    ensures db.Valid()
    ensures var s := DeleteBookByIdSpec(old(db.State()), db.isValidId, req, env);
      res == s.response && db.State() == s.after && db.calls == old(db.calls) + s.calls
  {
    if req.params.None? {
      return NoResponse;
    }
    var params := req.params.value;
    if !IdTruthy(params) {
      return Sent(400, Error(MissingId));
    }
    var book := db.FindByIdAndDelete(params["id"], env);
    if book.Returned? {
      return Sent(200, Data("Book deleted successfully", OneBook(book.value)));
    } else if book.ReturnedNull? {
      return Sent(404, Error(BookNotFound));
    } else {
      return Sent(500, Error("Error deleting book"));
    }
  }
}
