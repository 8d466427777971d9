// The request side of the bookstore client's book service: which query a
// listing sends, which URL each operation targets and which headers go with
// it. The HTTP client itself is not modelled; an operation is the request it
// would hand to it.

module BooksService {
  import opened Base
  import opened Strings

  /** Base address of the books resource. */
  const ApiUrl: string := "http://localhost:3333/api/books"

  /** A book as the client sees it; optional members are `None` when absent. */
  datatype Book = Book(
    id: Option<int>,
    title: string,
    author: string,
    genre: string,
    year: Option<int>,
    isbn: Option<string>,
    createdAt: Option<string>,
    updatedAt: Option<string>)

  /** A partial book, as sent by an update: every member may be absent. */
  datatype BookPatch = BookPatch(
    id: Option<int>,
    title: Option<string>,
    author: Option<string>,
    genre: Option<string>,
    year: Option<int>,
    isbn: Option<string>,
    createdAt: Option<string>,
    updatedAt: Option<string>)

  /** The optional search parameters of a listing. */
  datatype SearchParams = SearchParams(
    title: Option<string>,
    author: Option<string>,
    genre: Option<string>,
    page: Option<int>,
    limit: Option<int>)

  const NoSearchParams: SearchParams := SearchParams(None, None, None, None, None)

  /** Query parameters or headers: (name, value) pairs in insertion order. */
  type Pairs = seq<(string, string)>

  /** Some entry is named `name`. */
  ghost predicate HasName(q: Pairs, name: string)
  {
    exists i :: 0 <= i < |q| && q[i].0 == name
  }

  /** The value stored under `name`, if any. */
  function Lookup(q: Pairs, name: string): Option<string>
  {
    if q == [] then None
    else if q[0].0 == name then Some(q[0].1)
    else Lookup(q[1..], name)
  }

  /** A name has a value exactly when some entry carries it, and the value is the first such entry's. */
  lemma {:induction false} LookupFinds(q: Pairs, name: string)
    ensures Lookup(q, name).Some? <==> HasName(q, name)
    ensures Lookup(q, name).Some? ==> (name, Lookup(q, name).value) in q
  {
    if q != [] && q[0].0 != name {
      LookupFinds(q[1..], name);
      if HasName(q, name) {
        var i :| 0 <= i < |q| && q[i].0 == name;
        assert q[1..][i - 1].0 == name;
      }
      if HasName(q[1..], name) {
        var i :| 0 <= i < |q[1..]| && q[1..][i].0 == name;
        assert q[i + 1].0 == name;
      }
    } else if q != [] {
      assert q[0].0 == name;
    }
  }

  /**
   * The parameter set's `set`: an existing entry for `name` has its value
   * replaced where it stands, otherwise a new entry goes at the end.
   */
  function Set(q: Pairs, name: string, value: string): (r: Pairs)
    ensures Lookup(r, name) == Some(value)
    ensures |q| <= |r| <= |q| + 1
  {
    if q == [] then [(name, value)]
    else if q[0].0 == name then [(name, value)] + q[1..]
    else [q[0]] + Set(q[1..], name, value)
  }

  /** After `set`, the name reads the new value and every other name reads what it did before. */
  lemma {:induction false} SetLookup(q: Pairs, name: string, value: string, n: string)
    ensures Lookup(Set(q, name, value), n) == if n == name then Some(value) else Lookup(q, n)
  {
    if q != [] && q[0].0 != name {
      SetLookup(q[1..], name, value, n);
    }
  }

  /** `set` of a name not yet present appends one entry. */
  lemma {:induction false} SetAppends(q: Pairs, name: string, value: string)
    requires forall i :: 0 <= i < |q| ==> q[i].0 != name
    ensures Set(q, name, value) == q + [(name, value)]
  {
    if q != [] {
      assert q[0].0 != name;
      SetAppends(q[1..], name, value);
      assert q == [q[0]] + q[1..];
    }
  }

  /** `set` of a name already present replaces the value of its first entry, where it stands. */
  lemma {:induction false} SetReplaces(q: Pairs, name: string, value: string, k: nat)
    requires k < |q| && q[k].0 == name
    requires forall i :: 0 <= i < k ==> q[i].0 != name
    ensures Set(q, name, value) == q[k := (name, value)]
  {
    if k > 0 {
      assert q[0].0 != name;
      SetReplaces(q[1..], name, value, k - 1);
      assert q[k := (name, value)] == [q[0]] + q[1..][k - 1 := (name, value)];
    }
  }

  /** The query of a listing, given the optional parameter object. */
  function QueryParams(params: Option<SearchParams>): (r: Pairs)
    ensures |r| <= 5
    ensures params.None? ==> |r| == 2 && Lookup(r, "page") == Some("1") && Lookup(r, "limit") == Some("10")
    ensures params == Some(NoSearchParams) ==> r == []
  {
    if params.None? then
      Set(Set([], "page", "1"), "limit", "10")
    else
      var p := params.value;
      var q0: Pairs := [];
      var q1 := if TruthyText(p.title) then Set(q0, "title", p.title.value) else q0;
      var q2 := if TruthyText(p.author) then Set(q1, "author", p.author.value) else q1;
      var q3 := if TruthyText(p.genre) then Set(q2, "genre", p.genre.value) else q2;
      var q4 := if TruthyNumber(p.page) then Set(q3, "page", IntToString(p.page.value)) else q3;
      if TruthyNumber(p.limit) then Set(q4, "limit", IntToString(p.limit.value)) else q4
  }

  /** The entry a listing sends for a text filter: present only when the text is truthy. */
  function TextEntry(name: string, v: Option<string>): Pairs
  {
    if TruthyText(v) then [(name, v.value)] else []
  }

  /** The entry a listing sends for a number: present only when the number is truthy, as a decimal numeral. */
  function NumberEntry(name: string, v: Option<int>): Pairs
  {
    if TruthyNumber(v) then [(name, IntToString(v.value))] else []
  }

  /** The HTTP methods the service uses. */
  datatype Verb = Get | Post | Put | Delete

  /** What an operation would hand to the HTTP client. */
  datatype Payload = NoBody | NewBook(book: Book) | Changes(patch: BookPatch)

  datatype Request = Request(verb: Verb, url: string, query: Pairs, headers: Pairs, body: Payload)

  /** The stored token as the template renders it: a missing token reads "null". */
  function TokenText(token: Option<string>): string
  {
    if token.Some? then token.value else "null"
  }

  /** The headers of the authenticated operations. */
  function AuthHeaders(token: Option<string>): (r: Pairs)
    ensures Lookup(r, "Authorization") == Some("Bearer " + TokenText(token))
    ensures Lookup(r, "Content-Type") == Some("application/json")
  {
    [("Authorization", "Bearer " + TokenText(token)), ("Content-Type", "application/json")]
  }

  /** The address of one book. */
  function ItemUrl(id: int): string
  {
    ApiUrl + "/" + IntToString(id)
  }

  /** `getBooks`: an anonymous GET of the collection with the listing's query. */
  function GetBooks(params: Option<SearchParams>): (r: Request)
    ensures r.verb == Get && r.url == ApiUrl && r.query == QueryParams(params)
    ensures Lookup(r.headers, "Authorization") == None && r.body == NoBody
  {
    Request(Get, ApiUrl, QueryParams(params), [], NoBody)
  }

  /** `getBook`: an anonymous GET of one book, without a query. */
  function GetBook(id: int): (r: Request)
    ensures r.verb == Get && r.url == ItemUrl(id) && r.query == []
    ensures Lookup(r.headers, "Authorization") == None && r.body == NoBody
  {
    Request(Get, ItemUrl(id), [], [], NoBody)
  }

  /** `createBook`: an authenticated POST of the whole book to the collection. */
  function CreateBook(book: Book, token: Option<string>): (r: Request)
    ensures r.verb == Post && r.url == ApiUrl && r.query == []
    ensures Lookup(r.headers, "Authorization") == Some("Bearer " + TokenText(token)) && r.body == NewBook(book)
  {
    Request(Post, ApiUrl, [], AuthHeaders(token), NewBook(book))
  }

  /** `updateBook`: an authenticated PUT of the partial book to the book's address. */
  function UpdateBook(id: int, patch: BookPatch, token: Option<string>): (r: Request)
    ensures r.verb == Put && r.url == ItemUrl(id) && r.query == []
    ensures Lookup(r.headers, "Authorization") == Some("Bearer " + TokenText(token)) && r.body == Changes(patch)
  {
    Request(Put, ItemUrl(id), [], AuthHeaders(token), Changes(patch))
  }

  /** `deleteBook`: an authenticated DELETE of the book's address, without a body. */
  function DeleteBook(id: int, token: Option<string>): (r: Request)
    ensures r.verb == Delete && r.url == ItemUrl(id) && r.query == []
    ensures Lookup(r.headers, "Authorization") == Some("Bearer " + TokenText(token)) && r.body == NoBody
  {
    Request(Delete, ItemUrl(id), [], AuthHeaders(token), NoBody)
  }

  /** The five operations of the service, as data. */
  datatype Operation =
    | ListBooks(params: Option<SearchParams>)
    | ReadBook(id: int)
    | AddBook(book: Book)
    | ChangeBook(id: int, patch: BookPatch)
    | RemoveBook(id: int)

  function Send(op: Operation, token: Option<string>): Request
  {
    match op
    case ListBooks(params) => GetBooks(params)
    case ReadBook(id) => GetBook(id)
    case AddBook(book) => CreateBook(book, token)
    case ChangeBook(id, patch) => UpdateBook(id, patch, token)
    case RemoveBook(id) => DeleteBook(id, token)
  }
}

module BooksServiceProperties {
  import opened Base
  import opened Strings
  import opened BooksService

  /** Without a parameter object the listing asks for page 1 of 10. */
  lemma DefaultQuery()
    ensures QueryParams(None) == [("page", "1"), ("limit", "10")]
  {
    assert Set([], "page", "1") == [("page", "1")];
  }

  /** One step of the listing's chain: a text filter not set before is appended or skipped. */
  lemma TextStep(q: Pairs, name: string, v: Option<string>, before: seq<string>)
    requires forall i :: 0 <= i < |q| ==> q[i].0 in before
    requires name !in before
    ensures (if TruthyText(v) then Set(q, name, v.value) else q) == q + TextEntry(name, v)
    ensures forall i :: 0 <= i < |q + TextEntry(name, v)| ==> (q + TextEntry(name, v))[i].0 in before + [name]
  {
    if TruthyText(v) { SetAppends(q, name, v.value); }
  }

  /** One step of the listing's chain: a number not set before is appended as a numeral or skipped. */
  lemma NumberStep(q: Pairs, name: string, v: Option<int>, before: seq<string>)
    requires forall i :: 0 <= i < |q| ==> q[i].0 in before
    requires name !in before
    ensures (if TruthyNumber(v) then Set(q, name, IntToString(v.value)) else q) == q + NumberEntry(name, v)
    ensures forall i :: 0 <= i < |q + NumberEntry(name, v)| ==> (q + NumberEntry(name, v))[i].0 in before + [name]
  {
    if TruthyNumber(v) { SetAppends(q, name, IntToString(v.value)); }
  }

  /**
   * With a parameter object, the query holds the truthy parameters only, each
   * once, in the order title, author, genre, page, limit.
   */
  lemma QueryShape(p: SearchParams)
    ensures QueryParams(Some(p)) ==
              TextEntry("title", p.title) + TextEntry("author", p.author) + TextEntry("genre", p.genre) +
              NumberEntry("page", p.page) + NumberEntry("limit", p.limit)
  {
    var q0: Pairs := [];
    TextStep(q0, "title", p.title, []);
    var q1 := q0 + TextEntry("title", p.title);
    TextStep(q1, "author", p.author, ["title"]);
    var q2 := q1 + TextEntry("author", p.author);
    TextStep(q2, "genre", p.genre, ["title", "author"]);
    var q3 := q2 + TextEntry("genre", p.genre);
    NumberStep(q3, "page", p.page, ["title", "author", "genre"]);
    var q4 := q3 + NumberEntry("page", p.page);
    NumberStep(q4, "limit", p.limit, ["title", "author", "genre", "page"]);
    assert q0 + TextEntry("title", p.title) == TextEntry("title", p.title);
  }

  /** The value a listing sends for `n` under parameter object `p`, if any. */
  function SentValue(p: SearchParams, n: string): Option<string>
  {
    if n == "title" && TruthyText(p.title) then p.title
    else if n == "author" && TruthyText(p.author) then p.author
    else if n == "genre" && TruthyText(p.genre) then p.genre
    else if n == "page" && TruthyNumber(p.page) then Some(IntToString(p.page.value))
    else if n == "limit" && TruthyNumber(p.limit) then Some(IntToString(p.limit.value))
    else None
  }

  /** With a parameter object, each parameter is sent exactly when its value is truthy: texts unchanged, numbers as decimal numerals; no other name is sent. */
  lemma QueryIncludesTruthy(p: SearchParams, n: string)
    ensures Lookup(QueryParams(Some(p)), n) == SentValue(p, n)
  {
    var q0: Pairs := [];
    var q1 := if TruthyText(p.title) then Set(q0, "title", p.title.value) else q0;
    if TruthyText(p.title) { SetLookup(q0, "title", p.title.value, n); }
    var q2 := if TruthyText(p.author) then Set(q1, "author", p.author.value) else q1;
    if TruthyText(p.author) { SetLookup(q1, "author", p.author.value, n); }
    var q3 := if TruthyText(p.genre) then Set(q2, "genre", p.genre.value) else q2;
    if TruthyText(p.genre) { SetLookup(q2, "genre", p.genre.value, n); }
    var pageText := if p.page.Some? then IntToString(p.page.value) else "";
    var q4 := if TruthyNumber(p.page) then Set(q3, "page", pageText) else q3;
    SetLookup(q3, "page", pageText, n);
    var limitText := if p.limit.Some? then IntToString(p.limit.value) else "";
    SetLookup(q4, "limit", limitText, n);
    assert QueryParams(Some(p)) == if TruthyNumber(p.limit) then Set(q4, "limit", limitText) else q4;
  }

  /** An empty parameter object sends no parameter at all, not even the defaults. */
  lemma EmptyParamsSendNothing()
    ensures QueryParams(Some(NoSearchParams)) == []
    ensures QueryParams(Some(NoSearchParams)) != QueryParams(None)
  {
    DefaultQuery();
  }

  /** A positive page or limit can be read back from the numeral sent for it. */
  lemma {:induction false} NumericParamReadsBack(p: SearchParams, name: string)
    requires name == "page" || name == "limit"
    requires var v := if name == "page" then p.page else p.limit; v.Some? && v.value > 0
    ensures Lookup(QueryParams(Some(p)), name).Some?
    ensures AllDigits(Lookup(QueryParams(Some(p)), name).value)
    ensures DigitsValue(Lookup(QueryParams(Some(p)), name).value) ==
              (if name == "page" then p.page.value else p.limit.value)
  {
    QueryIncludesTruthy(p, name);
    var v := if name == "page" then p.page.value else p.limit.value;
    NatToStringRoundTrip(v);
  }

  /** Listing and creation address the collection; the others address one book, whose id follows the final '/'. */
  lemma {:induction false} RequestTargets(op: Operation, token: Option<string>)
    ensures (op.ListBooks? || op.AddBook?) ==> Send(op, token).url == ApiUrl
    ensures (op.ReadBook? || op.ChangeBook? || op.RemoveBook?) ==>
              Send(op, token).url == ApiUrl + "/" + IntToString(op.id)
    ensures (op.ReadBook? || op.ChangeBook? || op.RemoveBook?) && op.id >= 0 ==>
              var u := Send(op, token).url;
              |u| > |ApiUrl| + 1 && u[..|ApiUrl| + 1] == ApiUrl + "/" &&
              AllDigits(u[|ApiUrl| + 1..]) && DigitsValue(u[|ApiUrl| + 1..]) == op.id
  {
    if (op.ReadBook? || op.ChangeBook? || op.RemoveBook?) && op.id >= 0 {
      var u := Send(op, token).url;
      assert u == (ApiUrl + "/") + NatToString(op.id);
      assert u[|ApiUrl| + 1..] == NatToString(op.id);
      NatToStringRoundTrip(op.id);
    }
  }

  /** Only the writing operations carry credentials, as a bearer token; reads send no header at all. */
  lemma AuthorizationOnlyOnWrites(op: Operation, token: Option<string>)
    ensures Lookup(Send(op, token).headers, "Authorization").Some? <==> Send(op, token).verb != Get
    ensures Send(op, token).verb == Get <==> (op.ListBooks? || op.ReadBook?)
    ensures Send(op, token).verb != Get ==>
              Lookup(Send(op, token).headers, "Authorization") == Some("Bearer " + TokenText(token)) &&
              Lookup(Send(op, token).headers, "Content-Type") == Some("application/json")
    ensures Send(op, token).verb == Get ==> Send(op, token).headers == []
    ensures !op.ListBooks? ==> Send(op, token).query == []
  {
  }
}
