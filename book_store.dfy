/** The Book document and the document store behind the Mongoose `Book` model:
    the record shape of the schema, the five store operations the handlers use
    (create, find-all, find-by-id, update-by-id, delete-by-id) as functions on
    a collection value, and a class that holds the collection and performs
    them in place. */
module BookStore {
  import opened JsValues

  /** A document identifier as it arrives in a path parameter. */
  type Id = string

  /** The `createdAt` instant: opaque here, supplied by the clock at creation. */
  type Timestamp = int

  /** The Book document (schema fields; `isbn` is a JavaScript number, taken as an integer). */
  datatype Book = Book(
    title: string,
    author: string,
    published_date: string,
    isbn: int,
    cover_image: Option<string>,
    createdAt: Timestamp)

  /** A stored document as the store returns it: its `_id` and its fields. */
  datatype Record = Record(id: Id, book: Book)

  /** The four body values a handler passes on to the store, uncast. */
  datatype BookInput = BookInput(title: JsValue, author: JsValue, published_date: JsValue, isbn: JsValue)

  /** The update documents the handlers pass to `findByIdAndUpdate`. */
  datatype Update =
    | SetCoverImage(name: string)   // `{ cover_image: fileName }`
    | SetFields(fields: BookInput)  // `{ title, author, published_date, isbn }`

  /** One call a handler makes on the store. */
  datatype StoreCall =
    | Create(input: BookInput)
    | Find
    | FindById(id: Id)
    | FindByIdAndUpdate(id: Id, update: Update)
    | FindByIdAndDelete(id: Id)

  /** What an awaited store call settles to: a document, `null`, or a rejection. */
  datatype Outcome<+T> = Returned(value: T) | ReturnedNull | Threw

  /** The choices the environment makes that the handlers cannot see: whether the
      store call fails (lost connection, driver error), whether `create` resolves
      to nothing, and the `_id` and `createdAt` a new document receives. */
  datatype Env = Env(storeThrows: bool, createReturnsNull: bool, newId: Id, now: Timestamp)

  /** The collection: documents by id, plus the ids in natural (insertion) order. */
  datatype Collection = Collection(order: seq<Id>, books: map<Id, Book>)

  /** An operation's result together with the collection it leaves behind. */
  datatype Effect<+T> = Effect(outcome: Outcome<T>, after: Collection)

  predicate Distinct(s: seq<Id>)
  {
    forall i, j :: 0 <= i < j < |s| ==> s[i] != s[j]
  }

  /** The order lists every stored id exactly once. */
  ghost predicate WellFormed(c: Collection)
  {
    Distinct(c.order) && forall id :: id in c.order <==> id in c.books
  }

  // ---------------------------------------------------------------- casting

  /** Casting a body value to a String path (narrowed: only JSON strings). */
  function AsText(v: JsValue): Option<string>
  {
    if v.Text? then Some(v.s) else None
  }

  /** Casting a body value to a Number path (narrowed: only JSON numbers). */
  function AsNumber(v: JsValue): Option<int>
  {
    if v.Number? then Some(v.n) else None
  }

  /** The document `Book.create` builds, or None when casting or the schema's
      `required` validators reject the input; a required String path rejects
      the empty string, a required Number path accepts 0. */
  function NewBook(input: BookInput, now: Timestamp): (b: Option<Book>)
    ensures b.Some? <==>
      input.title.Text? && input.title.s != "" &&
      input.author.Text? && input.author.s != "" &&
      input.published_date.Text? && input.published_date.s != "" &&
      input.isbn.Number?
    ensures b.Some? ==>
      b.value == Book(input.title.s, input.author.s, input.published_date.s, input.isbn.n, None, now)
  {
    match (AsText(input.title), AsText(input.author), AsText(input.published_date), AsNumber(input.isbn))
    case (Some(t), Some(a), Some(p), Some(n)) =>
      if t != "" && a != "" && p != "" then Some(Book(t, a, p, n, None, now)) else None
    case _ => None
  }

  /** A cast update; `findByIdAndUpdate` runs no validators, so empty strings pass. */
  datatype Patch = CoverPatch(name: string) | FieldsPatch(title: string, author: string, published_date: string, isbn: int)

  function CastUpdate(u: Update): Option<Patch>
  {
    match u
    case SetCoverImage(name) => Some(CoverPatch(name))
    case SetFields(f) =>
      match (AsText(f.title), AsText(f.author), AsText(f.published_date), AsNumber(f.isbn))
      case (Some(t), Some(a), Some(p), Some(n)) => Some(FieldsPatch(t, a, p, n))
      case _ => None
  }

  /** Applies a patch: the paths it names are replaced, all others are kept. */
  function Apply(b: Book, p: Patch): (b': Book)
    ensures b'.createdAt == b.createdAt
    ensures p.CoverPatch? ==> b' == b.(cover_image := Some(p.name))
    ensures p.FieldsPatch? ==>
              b'.cover_image == b.cover_image &&
              b'.title == p.title && b'.author == p.author &&
              b'.published_date == p.published_date && b'.isbn == p.isbn
  {
    match p
    case CoverPatch(name) => b.(cover_image := Some(name))
    case FieldsPatch(t, a, d, n) => b.(title := t, author := a, published_date := d, isbn := n)
  }

  // ------------------------------------------------------ store operations

  /** The ids the driver assigns to new documents: ObjectIds, never empty. A
      new id outside this set (which the environment could otherwise offer)
      fails the `_id` cast, so the insert rejects. */
  predicate Assignable(isValidId: Id -> bool, id: Id)
  {
    id != "" && isValidId(id)
  }

  /** `Book.create(input)`: a failure, a cast or validation error and an `_id`
      that is not assignable or already taken reject; otherwise the new
      document is appended. */
  function CreateEffect(c: Collection, isValidId: Id -> bool, input: BookInput, env: Env): Effect<Record>
  {
    if env.storeThrows then Effect(Threw, c)
    else match NewBook(input, env.now)
      case None => Effect(Threw, c)
      case Some(b) =>
        if !Assignable(isValidId, env.newId) || env.newId in c.books then Effect(Threw, c)
        else if env.createReturnsNull then Effect(ReturnedNull, c)
        else Effect(Returned(Record(env.newId, b)),
                    Collection(c.order + [env.newId], c.books[env.newId := b]))
  }

  /** The documents of `c` in natural order. */
  function Records(order: seq<Id>, books: map<Id, Book>): seq<Record>
  {
    if order == [] then []
    else (if order[0] in books then [Record(order[0], books[order[0]])] else [])
         + Records(order[1..], books)
  }

  function Listing(c: Collection): seq<Record>
  {
    Records(c.order, c.books)
  }

  /** `Book.find({})`. */
  function FindEffect(c: Collection, env: Env): Effect<seq<Record>>
  {
    if env.storeThrows then Effect(Threw, c) else Effect(Returned(Listing(c)), c)
  }

  /** `Book.findById(id)`: an id that is not an ObjectId rejects (cast error). */
  function FindByIdEffect(c: Collection, isValidId: Id -> bool, id: Id, env: Env): Effect<Record>
  {
    if env.storeThrows || !isValidId(id) then Effect(Threw, c)
    else if id in c.books then Effect(Returned(Record(id, c.books[id])), c)
    else Effect(ReturnedNull, c)
  }

  /** `Book.findByIdAndUpdate(id, update, { new: true })`: resolves to the
      document after the update. */
  function UpdateEffect(c: Collection, isValidId: Id -> bool, id: Id, u: Update, env: Env): Effect<Record>
  {
    if env.storeThrows || !isValidId(id) then Effect(Threw, c)
    else match CastUpdate(u)
      case None => Effect(Threw, c)
      case Some(p) =>
        if id in c.books then
          var b := Apply(c.books[id], p);
          Effect(Returned(Record(id, b)), Collection(c.order, c.books[id := b]))
        else Effect(ReturnedNull, c)
  }

  /** `order` without `id`. */
  function Without(order: seq<Id>, id: Id): (r: seq<Id>)
  {
    if order == [] then []
    else (if order[0] == id then [] else [order[0]]) + Without(order[1..], id)
  }

  /** `Book.findByIdAndDelete(id)`: resolves to the deleted document. */
  function DeleteEffect(c: Collection, isValidId: Id -> bool, id: Id, env: Env): Effect<Record>
  {
    if env.storeThrows || !isValidId(id) then Effect(Threw, c)
    else if id in c.books then
      Effect(Returned(Record(id, c.books[id])), Collection(Without(c.order, id), c.books - {id}))
    else Effect(ReturnedNull, c)
  }

  // ---------------------------------------------------------------- lemmas

  lemma {:induction false} WithoutMembers(order: seq<Id>, id: Id)
    ensures forall x :: x in Without(order, id) <==> x in order && x != id
    ensures Distinct(order) ==> Distinct(Without(order, id))
  {
    if order != [] {
      WithoutMembers(order[1..], id);
      var rest := Without(order[1..], id);
      assert Without(order, id) == (if order[0] == id then [] else [order[0]]) + rest;
      if Distinct(order) {
        assert order[0] !in order[1..];
      }
    }
  }

  lemma {:induction false} RecordsOfStored(order: seq<Id>, books: map<Id, Book>)
    requires forall id :: id in order ==> id in books
    ensures |Records(order, books)| == |order|
    ensures forall i :: 0 <= i < |order| ==> Records(order, books)[i] == Record(order[i], books[order[i]])
  {
    if order != [] {
      RecordsOfStored(order[1..], books);
      var r := Records(order, books);
      assert r == [Record(order[0], books[order[0]])] + Records(order[1..], books);
      forall i | 0 <= i < |order| ensures r[i] == Record(order[i], books[order[i]]) {
        if i > 0 { assert r[i] == Records(order[1..], books)[i - 1]; }
      }
    }
  }

  lemma {:induction false} DistinctSize(s: seq<Id>)
    requires Distinct(s)
    ensures |set x | x in s| == |s|
  {
    if s != [] {
      DistinctSize(s[1..]);
      assert (set x | x in s) == {s[0]} + (set x | x in s[1..]);
      assert s[0] !in s[1..];
    }
  }

  /** Find-all lists every stored document exactly once, and nothing else. */
  lemma ListingExact(c: Collection)
    requires WellFormed(c)
    ensures |Listing(c)| == |c.books|
    ensures forall r :: r in Listing(c) <==> r.id in c.books && c.books[r.id] == r.book
    ensures forall i, j :: 0 <= i < j < |Listing(c)| ==> Listing(c)[i].id != Listing(c)[j].id
  {
    RecordsOfStored(c.order, c.books);
    DistinctSize(c.order);
    assert (set x | x in c.order) == c.books.Keys;
    var l := Listing(c);
    forall r: Record | r.id in c.books && c.books[r.id] == r.book ensures r in l {
      var i :| 0 <= i < |c.order| && c.order[i] == r.id;
      assert l[i] == r;
    }
  }

  /** Every store operation keeps the collection well formed. */
  lemma CreatePreserves(c: Collection, isValidId: Id -> bool, input: BookInput, env: Env)
    requires WellFormed(c)
    ensures WellFormed(CreateEffect(c, isValidId, input, env).after)
  {
  }

  lemma UpdatePreserves(c: Collection, isValidId: Id -> bool, id: Id, u: Update, env: Env)
    requires WellFormed(c)
    ensures WellFormed(UpdateEffect(c, isValidId, id, u, env).after)
  {
  }

  lemma DeletePreserves(c: Collection, isValidId: Id -> bool, id: Id, env: Env)
    requires WellFormed(c)
    ensures WellFormed(DeleteEffect(c, isValidId, id, env).after)
  {
    WithoutMembers(c.order, id);
  }

  /** A created document carries exactly the input's fields, no cover image and
      the creation instant, and is afterwards found under its new id. */
  lemma CreateThenFind(c: Collection, isValidId: Id -> bool, input: BookInput, env: Env, env2: Env)
    requires CreateEffect(c, isValidId, input, env).outcome.Returned?
    requires !env2.storeThrows
    ensures var r := CreateEffect(c, isValidId, input, env).outcome.value;
      r.id == env.newId && Assignable(isValidId, r.id) &&
      input == BookInput(Text(r.book.title), Text(r.book.author), Text(r.book.published_date), Number(r.book.isbn)) &&
      r.book.cover_image == None && r.book.createdAt == env.now &&
      FindByIdEffect(CreateEffect(c, isValidId, input, env).after, isValidId, r.id, env2).outcome == Returned(r)
  {
  }

  /** A delete that found its document leaves nothing to delete under that id. */
  lemma DeleteThenDelete(c: Collection, isValidId: Id -> bool, id: Id, env: Env, env2: Env)
    requires DeleteEffect(c, isValidId, id, env).outcome.Returned?
    requires !env2.storeThrows
    ensures DeleteEffect(DeleteEffect(c, isValidId, id, env).after, isValidId, id, env2).outcome == ReturnedNull
    ensures FindByIdEffect(DeleteEffect(c, isValidId, id, env).after, isValidId, id, env2).outcome == ReturnedNull
  {
  }

  /** An update that found its document changes that document only, keeps its
      id and `createdAt`, and is what a later find-by-id returns. */
  lemma UpdateThenFind(c: Collection, isValidId: Id -> bool, id: Id, u: Update, env: Env, env2: Env)
    requires UpdateEffect(c, isValidId, id, u, env).outcome.Returned?
    requires !env2.storeThrows
    ensures var e := UpdateEffect(c, isValidId, id, u, env);
      e.outcome.value.id == id && id in c.books &&
      e.outcome.value.book.createdAt == c.books[id].createdAt &&
      e.after == Collection(c.order, c.books[id := e.outcome.value.book]) &&
      FindByIdEffect(e.after, isValidId, id, env2).outcome == e.outcome
  {
  }

  // ------------------------------------------------------------ the store

  /** The `Book` model: the collection held in place, the ObjectId check the
      driver casts ids with, and a log of the calls made on it. */
  class BookCollection {
    const isValidId: Id -> bool
    var order: seq<Id>
    var books: map<Id, Book>
    ghost var calls: seq<StoreCall>

    function State(): Collection
      reads this
    {
      Collection(order, books)
    }

    ghost predicate Valid()
      reads this
    {
      WellFormed(State())
    }

    constructor (isValidId: Id -> bool)
      ensures Valid() && this.isValidId == isValidId
      ensures State() == Collection([], map[]) && calls == []
    {
      this.isValidId := isValidId;
      order, books := [], map[];
      calls := [];
    }

    method Create(input: BookInput, env: Env) returns (o: Outcome<Record>)
      requires Valid()
      modifies this
      ensures Valid()
      ensures Effect(o, State()) == CreateEffect(old(State()), isValidId, input, env)
      ensures calls == old(calls) + [StoreCall.Create(input)]
    {
      CreatePreserves(State(), isValidId, input, env);
      calls := calls + [StoreCall.Create(input)];
      if env.storeThrows {
        return Threw;
      }
      var b := NewBook(input, env.now);
      if b.None? || !Assignable(isValidId, env.newId) || env.newId in books {
        return Threw;
      }
      if env.createReturnsNull {
        return ReturnedNull;
      }
      order := order + [env.newId];
      books := books[env.newId := b.value];
      o := Returned(Record(env.newId, b.value));
    }

    method Find(env: Env) returns (o: Outcome<seq<Record>>)
      requires Valid()
      modifies this
      ensures Valid()
      ensures Effect(o, State()) == FindEffect(old(State()), env)
      ensures calls == old(calls) + [StoreCall.Find]
    {
      calls := calls + [StoreCall.Find];
      if env.storeThrows {
        return Threw;
      }
      o := Returned(Listing(State()));
    }

    method FindById(id: Id, env: Env) returns (o: Outcome<Record>)
      requires Valid()
      modifies this
      ensures Valid()
      ensures Effect(o, State()) == FindByIdEffect(old(State()), isValidId, id, env)
      ensures calls == old(calls) + [StoreCall.FindById(id)]
    {
      calls := calls + [StoreCall.FindById(id)];
      if env.storeThrows || !isValidId(id) {
        return Threw;
      }
      if id in books {
        o := Returned(Record(id, books[id]));
      } else {
        o := ReturnedNull;
      }
    }

    method FindByIdAndUpdate(id: Id, u: Update, env: Env) returns (o: Outcome<Record>)
      requires Valid()
      modifies this
      ensures Valid()
      ensures Effect(o, State()) == UpdateEffect(old(State()), isValidId, id, u, env)
      ensures calls == old(calls) + [StoreCall.FindByIdAndUpdate(id, u)]
    {
      calls := calls + [StoreCall.FindByIdAndUpdate(id, u)];
      if env.storeThrows || !isValidId(id) {
        return Threw;
      }
      var p := CastUpdate(u);
      if p.None? {
        return Threw;
      }
      if id in books {
        var b := Apply(books[id], p.value);
        books := books[id := b];
        o := Returned(Record(id, b));
      } else {
        o := ReturnedNull;
      }
    }

    method FindByIdAndDelete(id: Id, env: Env) returns (o: Outcome<Record>)
      requires Valid()
      modifies this
      ensures Valid()
      ensures Effect(o, State()) == DeleteEffect(old(State()), isValidId, id, env)
      ensures calls == old(calls) + [StoreCall.FindByIdAndDelete(id)]
    {
      DeletePreserves(State(), isValidId, id, env);
      calls := calls + [StoreCall.FindByIdAndDelete(id)];
      if env.storeThrows || !isValidId(id) {
        return Threw;
      }
      if id in books {
        o := Returned(Record(id, books[id]));
        order := Without(order, id);
        books := books - {id};
      } else {
        o := ReturnedNull;
      }
    }
  }
}
