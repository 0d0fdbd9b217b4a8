# Books API handlers — a Dafny model

This project models the request-handling core of a small HTTP service for a single resource, books. It covers two source files:

- the six Express handlers in `src/middlewares/books.ts` (create, cover-image upload, list, get, update, delete);
- the cover-image file filter and its Multer configuration in `src/middlewares/process.middleware.ts`.

Each handler checks its request, makes at most one call on the Mongoose `Book` model, and turns the outcome into exactly one status and JSON body. The model proves which input leads to which answer: the status, the exact message, the data, the store calls made, and the collection left behind.

The model has four modules, one file each, plus a file of lemmas:

- `JsValues` (`js_values.dfy`): JavaScript values as they arrive in a JSON body, and JavaScript truthiness.
- `BookStore` (`book_store.dfy`): the pieces of the data model.
  - The `Book` document follows the schema in `src/models/books.ts`.
  - The store's five operations are functions on a collection value: the documents in a `map` keyed by id, plus the ids in natural (insertion) order.
  - The class `BookCollection` holds that collection in fields and performs each operation in place. Each method is proved to match its function and carries a ghost log of the calls made on it.
- `ProcessMiddleware` (`process_middleware.dfy`): `checkFileType`, and the upload middleware configured with one field, `cover_image`, holding at most one file.
- `BooksMiddleware` (`books.dfy`): the request and response shapes, and the handlers' guards.
  - Each handler is a method on the store object with early returns, like the source.
  - Each method is proved equal to a specification function (`CreateBookSpec`, …). That function gives the response, the collection afterwards, and the list of store calls.
- `BooksProperties` (`books_properties.dfy`): lemmas over those specification functions. Each one states a promise of the handlers.

Outside influences are parameters rather than hidden effects. All of them sit in `Env`:

- whether a store call rejects (a lost connection or driver error);
- whether `Book.create` resolves to nothing;
- the `_id` and `createdAt` the store gives a new document. A proposed `_id` that is empty or not an ObjectId fails the `_id` cast, so create rejects it (`BookStore.Assignable`).

The driver's ObjectId check (`mongoose.isValidObjectId`, and the cast Mongoose applies to ids) is left uninterpreted. It is the `isValidId` function the store object is built with. The handler tests fix only two of its values: `507f1f77bcf86cd799439011` is valid and `invalid-id` is not (`CoverSampleIds`).

Where the code differs from the usual description of the service, the model follows the code:

- **Zero ISBN on create.** `createBook` checks truthiness, so `isbn: 0` or `title: ""` is refused with 400, not accepted as "present".
- **Update skips the create checks.** `updateBookById` checks key presence only, and `findByIdAndUpdate` runs no validators. An update can therefore store an empty title and a zero ISBN, so stored documents need not have non-empty required fields (`UpdateStoresFalsyValues`, `GuardAsymmetry`).
- **Other upload fields.** `checkFileType` accepts any field other than `cover_image` whatever its type. The configured middleware, however, refuses a file under any unlisted field as unexpected before the filter is asked. So through this upload, only a single `cover_image` image ever gets through (`OtherFieldRejected`, `ProcessMultipart`).
- **No params object.** `getBookById` and `deleteBookById` destructure `request.params` before their guard. For a request with no params object, as in the tests at `src/__tests__/handles/books.test.ts:159-164` and `:229-234`, the handler's promise rejects and no response is sent. The 400 those tests expect does not happen (`NoParamsNoResponse`). Express always provides `params`, so this only affects such direct calls.

## Model

| member | source | states |
|---|---|---|
| JsValues.FalsyValues | src/middlewares/books.ts:18 | the values the create guard treats as missing are exactly `undefined`, `null`, `false`, `0` and `""` |
| BookStore.NewBook | src/models/books.ts:14-38 | create builds a document iff the three text fields are non-empty strings and `isbn` is a number (0 allowed); that document has exactly the input's values and no cover image |
| BookStore.Apply | src/middlewares/books.ts:62 | an update replaces only the paths it names: the cover update changes only `cover_image`, the fields update only the four fields; `createdAt` is always kept |
| BookStore.ListingExact | src/middlewares/books.ts:84 | find-all returns every stored document exactly once (as many as are stored, ids distinct) and nothing else |
| BookStore.CreatePreserves | src/middlewares/books.ts:21 | create keeps the collection well formed (each stored id listed once in natural order) |
| BookStore.UpdatePreserves | src/middlewares/books.ts:130-134 | update-by-id keeps the collection well formed |
| BookStore.DeletePreserves | src/middlewares/books.ts:165 | delete-by-id keeps the collection well formed |
| BookStore.CreateThenFind | src/middlewares/books.ts:21 | a created document has the new id, which is a non-empty ObjectId, exactly the input's fields, no cover image and the creation instant, and find-by-id then returns it |
| BookStore.DeleteThenDelete | src/middlewares/books.ts:165 | after a delete that found its document, both a second delete and a lookup of that id resolve to `null` |
| BookStore.UpdateThenFind | src/middlewares/books.ts:130-134 | an update that found its document keeps its id and `createdAt`, changes no other document, and find-by-id then returns the updated document |
| BookStore.BookCollection.Create | src/middlewares/books.ts:21 | `Book.create` in place: result and new collection as the create function gives them, the call logged, the invariant kept |
| BookStore.BookCollection.Find | src/middlewares/books.ts:84 | `Book.find({})` in place: the listing or a rejection, collection unchanged, call logged |
| BookStore.BookCollection.FindById | src/middlewares/books.ts:108 | `Book.findById` in place: a non-ObjectId id or a failure rejects, otherwise the stored document or `null` |
| BookStore.BookCollection.FindByIdAndUpdate | src/middlewares/books.ts:130-134 | `findByIdAndUpdate(…, { new: true })` in place: resolves to the document after the update, or `null` when absent, or rejects on failure or a cast error |
| BookStore.BookCollection.FindByIdAndDelete | src/middlewares/books.ts:165 | `findByIdAndDelete` in place: removes the document from the map and the order and resolves to its prior content, or `null` |
| ProcessMiddleware.CheckFileType | src/middlewares/process.middleware.ts:13-27 | the filter reports once; its error is set iff it refuses; under `cover_image` it accepts exactly `image/png`, `image/jpg`, `image/jpeg` (case-sensitive), any other field always |
| ProcessMiddleware.Announced | src/middlewares/process.middleware.ts:29-36 | the parts Multer considers are exactly the request's parts that carry a file name, in order |
| ProcessMiddleware.AcceptAnnounced | src/middlewares/process.middleware.ts:29-36 | parts without a file name are skipped and change nothing: the upload is decided by the named parts alone |
| ProcessMiddleware.ProcessMultipart | src/middlewares/process.middleware.ts:29-38 | the configured middleware on a multipart body, by its named parts: none gives `{}`; one `cover_image` image is stored alone; a wrong type rejects with the filter's error; another field or a second file rejects as unexpected |
| ProcessMiddleware.AcceptRejectsBadCover | src/middlewares/process.middleware.ts:13-36 | a named `cover_image` part of a non-image type at any position rejects the upload |
| ProcessMiddleware.UploadAtMostOneCover | src/middlewares/process.middleware.ts:34-36 | on success `request.files` has no key but `cover_image` and at most one file there, an admissible part of the request |
| ProcessMiddleware.AcceptWhenFull | src/middlewares/process.middleware.ts:34-36 | once no field has room left, the next named file part rejects the upload as unexpected |
| ProcessMiddleware.OtherFieldRejected | src/middlewares/process.middleware.ts:24-36 | the filter accepts files of other fields, but the configuration refuses such a part as unexpected before the filter is asked |
| BooksMiddleware.CreateBook | src/middlewares/books.ts:14-37 | the create handler's response, collection and store calls are those of `CreateBookSpec` |
| BooksMiddleware.UpdateBookCoverImage | src/middlewares/books.ts:40-79 | the cover-image handler's response, collection and store calls are those of `UpdateCoverImageSpec` |
| BooksMiddleware.GetBooks | src/middlewares/books.ts:82-97 | the list handler's response, collection and store calls are those of `GetBooksSpec` |
| BooksMiddleware.GetBookById | src/middlewares/books.ts:100-121 | the lookup handler's response, collection and store calls are those of `GetBookByIdSpec` |
| BooksMiddleware.UpdateBookById | src/middlewares/books.ts:124-154 | the update handler's response, collection and store calls are those of `UpdateBookByIdSpec` |
| BooksMiddleware.DeleteBookById | src/middlewares/books.ts:157-178 | the delete handler's response, collection and store calls are those of `DeleteBookByIdSpec` |
| BooksProperties.CreateRejectsFalsyField | src/middlewares/books.ts:16-18 | a falsy title, author, published_date or isbn gives 400 "Missing required book data in request body", no store call, collection unchanged |
| BooksProperties.CreatePersists | src/middlewares/books.ts:21-27 | a truthy, well-typed body on a healthy store with a fresh ObjectId gives 201 with a document holding exactly the body's values; that document is stored and any later lookup of its id returns it with 200 |
| BooksProperties.CreateStoreOutcomes | src/middlewares/books.ts:21-33 | with a truthy body the one call is `Book.create` of the body's fields; a rejection (failure, cast error, an id that is not an ObjectId or is taken) gives 400 "Invalid book data provided", a `null` gives 500 "Failed to create book", and neither changes the collection |
| BooksProperties.CoverRejectsBadId | src/middlewares/books.ts:41-46 | no `id` parameter gives 400 "Invalid request"; a non-ObjectId id gives 400 "Invalid book ID"; in both no store call, collection unchanged, and the answer does not depend on the upload |
| BooksProperties.CoverSampleIds | src/middlewares/books.ts:44-56 | for the tests' two sample ids: `invalid-id` gives 400 "Invalid book ID"; the valid sample with no file gives 400 "No file uploaded" with no store call |
| BooksProperties.CoverUploadFailure | src/middlewares/books.ts:48-52 | a rejected upload, or a non-multipart request whose `files` stays undefined, gives 500 "Internal server error" with no store call |
| BooksProperties.CoverWrongType | src/middlewares/books.ts:48-49 | a named `cover_image` part of a non-image type, at any position in the body, fails the awaited middleware, giving 500 with no store call |
| BooksProperties.CoverNoFile | src/middlewares/books.ts:49-56 | a valid id with a multipart body holding no named file part gives 400 "No file uploaded" with no store call |
| BooksProperties.CoverUpdatesName | src/middlewares/books.ts:52-75 | for one admissible named file (nameless parts aside), the only store call is update-by-id with exactly `{ cover_image: originalname }`; 200 with the document whose cover is that name and nothing else changed, 404 "Book not found" if absent, 500 on failure |
| BooksProperties.CoverSuccessNeedsOneImage | src/middlewares/books.ts:52-68 | a 200 from the cover handler implies the upload held exactly one named file, an admissible `cover_image` image, and the returned document names it |
| BooksProperties.GetBooksLists | src/middlewares/books.ts:84-96 | healthy store: a non-empty collection gives 200 with every document exactly once; an empty one gives 404 "No books found"; a failure gives 500; collection unchanged |
| BooksProperties.MissingIdRejected | src/middlewares/books.ts:101-105 | a falsy `id` parameter gives 400 "Missing book ID in request parameters" for lookup and delete alike, with no store call |
| BooksProperties.GetBookByIdOutcomes | src/middlewares/books.ts:107-120 | lookup of any request with a truthy `id`: a stored document gives 200 with it, an absent one 404, a failure or malformed id 400; collection unchanged |
| BooksProperties.DeleteBookByIdOutcomes | src/middlewares/books.ts:164-177 | delete for any request with a truthy `id`: a stored document is removed from the store and returned with 200; an absent one gives 404; a failure gives 500 (not 400) |
| BooksProperties.DeleteTwice | src/middlewares/books.ts:165-174 | deleting a stored document gives 200; repeating the delete, or looking it up, then gives 404 |
| BooksProperties.NoParamsNoResponse | src/middlewares/books.ts:101 | lookup and delete send no response exactly when the request has no params object |
| BooksProperties.UpdateRejectsMissingKey | src/middlewares/books.ts:125-152 | a missing `id` parameter or a missing body key gives 400 "Missing required book data or ID in request", with no store call |
| BooksProperties.UpdateWritesFourFields | src/middlewares/books.ts:126-149 | the one store call writes exactly title, author, published_date and isbn; 200 with those four replaced and cover and `createdAt` kept, 404 if absent, 400 on failure or cast error |
| BooksProperties.UpdateThenGet | src/middlewares/books.ts:130-141 | after a 200 update, any lookup of that id returns the updated document |
| BooksProperties.GuardAsymmetry | src/middlewares/books.ts:125 | unlike the truthiness guard at line 18, a body with all four keys but a falsy value is refused by create without a store call, yet passed to the store by update |
| BooksProperties.UpdateStoresFalsyValues | src/middlewares/books.ts:125-141 | on an existing document, create refuses `title: ""` with `isbn: 0`, but update answers 200 and stores the empty title and the zero ISBN |
| BooksProperties.CreateBookContained | src/middlewares/books.ts:14-37 | create: at most one store call; the collection changes only through it and stays well formed; any status sent is 201, 400 or 500 |
| BooksProperties.UpdateCoverImageContained | src/middlewares/books.ts:40-79 | cover-image upload: the same containment; any status sent is 200, 400, 404 or 500 |
| BooksProperties.GetBooksContained | src/middlewares/books.ts:82-97 | list: the same containment; any status sent is 200, 404 or 500 |
| BooksProperties.GetBookByIdContained | src/middlewares/books.ts:100-121 | lookup: the same containment; any status sent is 200, 400 or 404 |
| BooksProperties.UpdateBookByIdContained | src/middlewares/books.ts:124-154 | update: the same containment; any status sent is 200, 400 or 404 |
| BooksProperties.DeleteBookByIdContained | src/middlewares/books.ts:157-178 | delete: the same containment; any status sent is 200, 400, 404 or 500 |

## Left out

- Server startup, body-parser and environment setup, the database connection, exit on failure and the route table (`src/index.ts`, `src/config/mongodb.ts`, `src/routes/booksRouter.ts`). These are I/O and wiring with no decisions in them.
- Asynchrony, concurrent requests and their last-write-wins races on the store: each handler runs alone, start to finish.
- `console.error` logging.
- `Date.now`: `createdAt` is an opaque value taken from `Env.now`, and no update changes it.
- `mongoose.isValidObjectId` is not defined, because it is library code. It is the uninterpreted `isValidId` the store is built with. The store's cast of a path id uses the same check.
- BookStore.NewBook, BookStore.CastUpdate: Mongoose's type casting is narrowed. Text paths accept only JSON strings and `isbn` only JSON numbers; any other value goes down the store-rejection path. Mongoose itself turns numbers and booleans into text and numeric text into numbers. It also stores an update's `null`, which the model treats as a cast error.
- `isbn` is an integer: fractional numbers are not modelled. JSON bodies cannot carry NaN.
- `Book.create` resolving to a falsy value is not something Mongoose does. It is an environment choice (`Env.createReturnsNull`) so that the defensive 500 branch can be reached; in that case nothing is stored.
- The order of find-all is insertion order. MongoDB's natural order is not guaranteed to be that.
- Multer internals are not modelled: the body is abstracted to the ordered list of file parts, each with its field name, file name and MIME type. Not modelled are streaming, memory storage, buffers, sizes and encodings, `util.promisify`, and size limits. Every parser failure is one `Malformed` outcome.
- The Express response object is not mutated in place. Each handler returns the status and JSON body it would send as a `Response` value.
