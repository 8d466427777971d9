// The book list screen: its search form, pagination counters, status
// messages and the two-step delete confirmation. Requests the screen sends
// are recorded in `requests`; a response arriving is a method call of its own
// (`BooksLoaded`, `BooksFailed`, `DeleteSucceeded`, `DeleteFailed`).

module BookList {
  import opened Base
  import opened BooksService

  /** The search form's controls; a cleared control holds `None`. */
  datatype SearchForm = SearchForm(title: Option<string>, author: Option<string>, genre: Option<string>, limit: Option<int>)

  /** The form as first built: empty texts and a limit of 10. */
  const InitialForm: SearchForm := SearchForm(Some(""), Some(""), Some(""), Some(10))

  /** The form after a reset that supplies only the limit. */
  const ResetForm: SearchForm := SearchForm(None, None, None, Some(10))

  datatype MessageType = NoType | SuccessType | ErrorType

  /** Paging information the server may attach to a listing. */
  datatype Meta = Meta(total: int, page: int, limit: int, totalPages: int)

  /** A listing response: a page with optional meta, or a bare array of books. */
  datatype BooksResponse = Paged(data: seq<Book>, meta: Option<Meta>) | BareList(books: seq<Book>)

  /** Everything the screen holds, as one value. */
  datatype View = View(
    books: seq<Book>,
    form: SearchForm,
    loading: bool,
    showDeleteConfirmation: bool,
    showSuccessModal: bool,
    successMessage: string,
    selectedBook: Option<Book>,
    message: string,
    messageType: MessageType,
    currentPage: int,
    totalPages: int,
    limit: int,
    total: int,
    isAuthenticated: bool,
    requests: seq<Operation>)

  function InitialView(authenticated: bool): View
  {
    View([], InitialForm, false, false, false, "", None, "", NoType, 1, 1, 10, 0, authenticated, [])
  }

  const LoadFailedText: string := "Erro ao carregar livros. Tente novamente."
  const LoginToCreateText: string := "Você precisa estar logado para criar um livro."
  const LoginToEditText: string := "Você precisa estar logado para editar um livro."
  const LoginToDeleteText: string := "Você precisa estar logado para excluir um livro."
  const DeletedText: string := "Livro excluído com sucesso!"
  const DeleteFailedText: string := "Erro ao excluir livro."

  // ---------------------------------------------------------------------
  // The parameter object `loadBooks` builds and cleans
  // ---------------------------------------------------------------------

  datatype ParamKey = TitleKey | AuthorKey | GenreKey | PageKey | LimitKey

  /** The object's keys in the order they are written. */
  const ParamKeys: seq<ParamKey> := [TitleKey, AuthorKey, GenreKey, PageKey, LimitKey]

  /** A member of the parameter object: undefined, a text or a number. */
  datatype ParamValue = Undefined | Text(text: string) | Number(number: int)

  /** The values the cleaning loop deletes. */
  predicate Empty(v: ParamValue)
  {
    v.Undefined? || v == Text("")
  }

  /** A form text, or undefined when it is falsy. */
  function TextOrUndefined(o: Option<string>): ParamValue
  {
    if TruthyText(o) then Text(o.value) else Undefined
  }

  /** The parameter object before cleaning: every key present. */
  function RawParams(form: SearchForm, page: int, limit: int): map<ParamKey, ParamValue>
  {
    map[TitleKey := TextOrUndefined(form.title), AuthorKey := TextOrUndefined(form.author),
        GenreKey := TextOrUndefined(form.genre), PageKey := Number(page), LimitKey := Number(limit)]
  }

  /** The parameter object with its empty members deleted. */
  function Cleaned(params: map<ParamKey, ParamValue>): map<ParamKey, ParamValue>
  {
    map k | k in params && !Empty(params[k]) :: params[k]
  }

  /** The parameter object as the book service reads it. */
  function AsSearchParams(params: map<ParamKey, ParamValue>): SearchParams
  {
    SearchParams(
      if TitleKey in params && params[TitleKey].Text? then Some(params[TitleKey].text) else None,
      if AuthorKey in params && params[AuthorKey].Text? then Some(params[AuthorKey].text) else None,
      if GenreKey in params && params[GenreKey].Text? then Some(params[GenreKey].text) else None,
      if PageKey in params && params[PageKey].Number? then Some(params[PageKey].number) else None,
      if LimitKey in params && params[LimitKey].Number? then Some(params[LimitKey].number) else None)
  }

  /** What a listing of `page` sends, given the form and the current limit. */
  function ListingParams(form: SearchForm, page: int, limit: int): SearchParams
  {
    AsSearchParams(Cleaned(RawParams(form, page, limit)))
  }

  /** The cleaning loop: deletes each key whose value is undefined or the empty text. */
  method RemoveEmpty(params: map<ParamKey, ParamValue>) returns (cleaned: map<ParamKey, ParamValue>)
    ensures cleaned == Cleaned(params)
    ensures forall k :: k in cleaned ==> !Empty(cleaned[k])
  {
    cleaned := params;
    var i := 0;
    while i < |ParamKeys|
      invariant 0 <= i <= |ParamKeys|
      invariant forall k :: k in cleaned ==> k in params && cleaned[k] == params[k]
      invariant forall k :: k in params && !Empty(params[k]) ==> k in cleaned
      invariant forall k :: k in cleaned && k in ParamKeys[..i] ==> !Empty(cleaned[k])
    {
      var key := ParamKeys[i];
      if key in cleaned && Empty(cleaned[key]) {
        cleaned := cleaned - {key};
      }
      i := i + 1;
    }
    assert ParamKeys[..i] == ParamKeys;
    forall k: ParamKey
      ensures k in ParamKeys
    {
      match k
      case TitleKey => assert ParamKeys[0] == k;
      case AuthorKey => assert ParamKeys[1] == k;
      case GenreKey => assert ParamKeys[2] == k;
      case PageKey => assert ParamKeys[3] == k;
      case LimitKey => assert ParamKeys[4] == k;
    }
  }

  // ---------------------------------------------------------------------
  // Transitions of the screen, as functions of its state
  // ---------------------------------------------------------------------

  function ShownMessage(v: View, text: string, kind: MessageType): View
  {
    v.(message := text, messageType := kind)
  }

  function MessageCleared(v: View): View
  {
    v.(message := "", messageType := NoType)
  }

  /** `loadBooks(page)`: loading, message cleared, and the cleaned listing request sent. */
  function Loaded(v: View, page: int): View
  {
    MessageCleared(v.(loading := true))
      .(requests := v.requests + [ListBooks(Some(ListingParams(v.form, page, v.limit)))])
  }

  /** `onSearch`: back to page 1 with the form's limit, or 10 when it is falsy. */
  function Searched(v: View): View
  {
    var w := v.(currentPage := 1, limit := if TruthyNumber(v.form.limit) then v.form.limit.value else 10);
    Loaded(w, w.currentPage)
  }

  /** `clearSearch`: the form reset, page 1, limit 10. */
  function SearchCleared(v: View): View
  {
    var w := v.(form := ResetForm, currentPage := 1, limit := 10);
    Loaded(w, w.currentPage)
  }

  /** `goToPage`: a listing only for a page in range other than the current one. */
  function PageRequested(v: View, page: int): View
  {
    if 1 <= page <= v.totalPages && page != v.currentPage then Loaded(v, page) else v
  }

  /** A listing response arrived. */
  function BooksArrived(v: View, response: BooksResponse): View
  {
    var w := v.(books := if response.Paged? then response.data else response.books);
    var w' := if response.Paged? && response.meta.Some?
              then w.(currentPage := response.meta.value.page, totalPages := response.meta.value.totalPages,
                      total := response.meta.value.total)
              else w;
    w'.(loading := false)
  }

  /** A listing failed. */
  function LoadFailed(v: View): View
  {
    ShownMessage(v.(loading := false), LoadFailedText, ErrorType)
  }

  /** `deleteBook`: only a message when signed out, otherwise the confirmation opens on `book`. */
  function DeleteRequested(v: View, book: Book): View
  {
    if !v.isAuthenticated then ShownMessage(v, LoginToDeleteText, ErrorType)
    else v.(selectedBook := Some(book), showDeleteConfirmation := true)
  }

  /** `confirmDelete`: nothing unless the selected book has a truthy id; then the deletion is sent. */
  function DeleteConfirmed(v: View): View
  {
    if v.selectedBook.Some? && TruthyNumber(v.selectedBook.value.id) then
      v.(loading := true, showDeleteConfirmation := false,
         requests := v.requests + [RemoveBook(v.selectedBook.value.id.value)])
    else v
  }

  /** The deletion succeeded: success modal, selection cleared, current page reloaded. */
  function DeleteDone(v: View): View
  {
    var w := v.(loading := false, successMessage := DeletedText, showSuccessModal := true, selectedBook := None);
    Loaded(w, w.currentPage)
  }

  /** The deletion failed: the server's message when it has one, selection cleared. */
  function DeleteRejected(v: View, serverMessage: Option<string>): View
  {
    var text := if TruthyText(serverMessage) then serverMessage.value else DeleteFailedText;
    ShownMessage(v.(loading := false), text, ErrorType).(selectedBook := None)
  }

  function DeleteCancelled(v: View): View
  {
    v.(showDeleteConfirmation := false, selectedBook := None)
  }

  function SuccessClosed(v: View): View
  {
    v.(showSuccessModal := false, successMessage := "")
  }

  /** The navigation buttons: signed out, only a message; signed in, the screen is left (not modelled). */
  function NavigationRequested(v: View, signedOutText: string): View
  {
    if !v.isAuthenticated then ShownMessage(v, signedOutText, ErrorType) else v
  }

  /** Every listing sent so far carries no empty filter and always a page and a limit. */
  ghost predicate SentClean(o: Operation)
  {
    o.ListBooks? ==>
      o.params.Some? &&
      o.params.value.title != Some("") && o.params.value.author != Some("") && o.params.value.genre != Some("") &&
      o.params.value.page.Some? && o.params.value.limit.Some?
  }

  /** The screen's invariant: the limit is never falsy and every listing sent is clean. */
  ghost predicate Consistent(v: View)
  {
    v.limit != 0 && forall i :: 0 <= i < |v.requests| ==> SentClean(v.requests[i])
  }

  /** The things that can happen to the screen: user actions and responses arriving. */
  datatype Event =
    | Init
    | SignInChanged(authenticated: bool)
    | FormEdited(form: SearchForm)
    | Search
    | ClearSearchPressed
    | PageClicked(page: int)
    | ListingArrived(response: BooksResponse)
    | ListingFailed
    | CreatePressed
    | EditPressed
    | DeletePressed(book: Book)
    | DeleteConfirmPressed
    | DeleteArrived
    | DeleteFailedWith(serverMessage: Option<string>)
    | DeleteCancelPressed
    | SuccessModalClosed

  function Step(v: View, e: Event): View
  {
    match e
    case Init => Loaded(v, v.currentPage)
    case SignInChanged(authenticated) => v.(isAuthenticated := authenticated)
    case FormEdited(form) => v.(form := form)
    case Search => Searched(v)
    case ClearSearchPressed => SearchCleared(v)
    case PageClicked(page) => PageRequested(v, page)
    case ListingArrived(response) => BooksArrived(v, response)
    case ListingFailed => LoadFailed(v)
    case CreatePressed => NavigationRequested(v, LoginToCreateText)
    case EditPressed => NavigationRequested(v, LoginToEditText)
    case DeletePressed(book) => DeleteRequested(v, book)
    case DeleteConfirmPressed => DeleteConfirmed(v)
    case DeleteArrived => DeleteDone(v)
    case DeleteFailedWith(serverMessage) => DeleteRejected(v, serverMessage)
    case DeleteCancelPressed => DeleteCancelled(v)
    case SuccessModalClosed => SuccessClosed(v)
  }

  /** The screen after a sequence of events. */
  function Run(v: View, events: seq<Event>): View
    decreases |events|
  {
    if events == [] then v else Run(Step(v, events[0]), events[1..])
  }

  // ---------------------------------------------------------------------
  // The component
  // ---------------------------------------------------------------------

  class BookListComponent {
    var books: seq<Book>
    var searchForm: SearchForm
    var loading: bool
    var showDeleteConfirmation: bool
    var showSuccessModal: bool
    var successMessage: string
    var selectedBook: Option<Book>
    var message: string
    var messageType: MessageType
    var currentPage: int
    var totalPages: int
    var limit: int
    var total: int
    var isAuthenticated: bool
    var requests: seq<Operation>

    function State(): View
      reads this
    {
      View(books, searchForm, loading, showDeleteConfirmation, showSuccessModal, successMessage, selectedBook,
           message, messageType, currentPage, totalPages, limit, total, isAuthenticated, requests)
    }

    /** The screen as built; `authenticated` is the sign-in state the subscription delivers at once. */
    constructor (authenticated: bool)
      ensures State() == InitialView(authenticated)
    {
      books := [];
      searchForm := InitialForm;
      loading, showDeleteConfirmation, showSuccessModal := false, false, false;
      successMessage := "";
      selectedBook := None;
      message, messageType := "", NoType;
      currentPage, totalPages, limit, total := 1, 1, 10, 0;
      isAuthenticated := authenticated;
      requests := [];
    }

    /** A later sign-in or sign-out reported by the subscription. */
    method AuthenticationChanged(authenticated: bool)
      modifies this
      ensures State() == old(State()).(isAuthenticated := authenticated)
    {
      isAuthenticated := authenticated;
    }

    /** The user edits the search form. */
    method EditSearchForm(form: SearchForm)
      modifies this
      ensures State() == old(State()).(form := form)
    {
      searchForm := form;
    }

    method NgOnInit()
      modifies this
      ensures State() == Loaded(old(State()), old(currentPage))
    {
      LoadBooks(currentPage);
    }

    method OnSearch()
      modifies this
      ensures State() == Searched(old(State()))
    {
      currentPage := 1;
      limit := if TruthyNumber(searchForm.limit) then searchForm.limit.value else 10;
      LoadBooks(currentPage);
    }

    method LoadBooks(page: int)
      modifies this
      ensures State() == Loaded(old(State()), page)
    {
      loading := true;
      ClearMessage();
      var searchParams := RawParams(searchForm, page, limit);
      searchParams := RemoveEmpty(searchParams);
      requests := requests + [ListBooks(Some(AsSearchParams(searchParams)))];
    }

    /** The listing's success callback. */
    method BooksLoaded(response: BooksResponse)
      modifies this
      ensures State() == BooksArrived(old(State()), response)
    {
      books := if response.Paged? then response.data else response.books;
      if response.Paged? && response.meta.Some? {
        currentPage := response.meta.value.page;
        totalPages := response.meta.value.totalPages;
        total := response.meta.value.total;
      }
      loading := false;
    }

    /** The listing's error callback. */
    method BooksFailed()
      modifies this
      ensures State() == LoadFailed(old(State()))
    {
      loading := false;
      ShowMessage(LoadFailedText, ErrorType);
    }

    method ClearSearch()
      modifies this
      ensures State() == SearchCleared(old(State()))
    {
      searchForm := ResetForm;
      currentPage := 1;
      limit := 10;
      LoadBooks(currentPage);
    }

    method CreateBook()
      modifies this
      ensures State() == NavigationRequested(old(State()), LoginToCreateText)
    {
      if !isAuthenticated {
        ShowMessage(LoginToCreateText, ErrorType);
        return;
      }
    }

    method EditBook(book: Book)
      modifies this
      ensures State() == NavigationRequested(old(State()), LoginToEditText)
    {
      if !isAuthenticated {
        ShowMessage(LoginToEditText, ErrorType);
        return;
      }
    }

    method DeleteBook(book: Book)
      modifies this
      ensures State() == DeleteRequested(old(State()), book)
    {
      if !isAuthenticated {
        ShowMessage(LoginToDeleteText, ErrorType);
        return;
      }
      selectedBook := Some(book);
      showDeleteConfirmation := true;
    }

    method ConfirmDelete()
      modifies this
      ensures State() == DeleteConfirmed(old(State()))
    {
      if selectedBook.Some? && TruthyNumber(selectedBook.value.id) {
        loading := true;
        showDeleteConfirmation := false;
        requests := requests + [RemoveBook(selectedBook.value.id.value)];
      }
    }

    /** The deletion's success callback. */
    method DeleteSucceeded()
      modifies this
      ensures State() == DeleteDone(old(State()))
    {
      loading := false;
      ShowSuccessMessage(DeletedText);
      selectedBook := None;
      LoadBooks(currentPage);
    }

    /** The deletion's error callback; `serverMessage` is the message in the error body, if any. */
    method DeleteFailed(serverMessage: Option<string>)
      modifies this
      ensures State() == DeleteRejected(old(State()), serverMessage)
    {
      loading := false;
      ShowMessage(if TruthyText(serverMessage) then serverMessage.value else DeleteFailedText, ErrorType);
      selectedBook := None;
    }

    method CancelDelete()
      modifies this
      ensures State() == DeleteCancelled(old(State()))
    {
      showDeleteConfirmation := false;
      selectedBook := None;
    }

    method GoToPage(page: int)
      modifies this
      ensures State() == PageRequested(old(State()), page)
    {
      if page >= 1 && page <= totalPages && page != currentPage {
        LoadBooks(page);
      }
    }

    method ShowMessage(text: string, kind: MessageType)
      modifies this
      ensures State() == ShownMessage(old(State()), text, kind)
    {
      message := text;
      messageType := kind;
    }

    method ShowSuccessMessage(text: string)
      modifies this
      ensures State() == old(State()).(successMessage := text, showSuccessModal := true)
    {
      successMessage := text;
      showSuccessModal := true;
    }

    method CloseSuccessModal()
      modifies this
      ensures State() == SuccessClosed(old(State()))
    {
      showSuccessModal := false;
      successMessage := "";
    }

    method ClearMessage()
      modifies this
      ensures State() == MessageCleared(old(State()))
    {
      message := "";
      messageType := NoType;
    }
  }
}

module BookListProperties {
  import opened Base
  import opened Strings
  import opened BooksService
  import opened BooksServiceProperties
  import opened BookList

  /** The cleaned parameter object keeps the truthy filters as they are, drops the others, and always holds the page and the limit. */
  lemma ListingParamsClean(form: SearchForm, page: int, limit: int)
    ensures ListingParams(form, page, limit).title == if TruthyText(form.title) then form.title else None
    ensures ListingParams(form, page, limit).author == if TruthyText(form.author) then form.author else None
    ensures ListingParams(form, page, limit).genre == if TruthyText(form.genre) then form.genre else None
    ensures ListingParams(form, page, limit).page == Some(page)
    ensures ListingParams(form, page, limit).limit == Some(limit)
  {
    var c := Cleaned(RawParams(form, page, limit));
    assert PageKey in c && LimitKey in c;
    assert TitleKey in c <==> TruthyText(form.title);
    assert AuthorKey in c <==> TruthyText(form.author);
    assert GenreKey in c <==> TruthyText(form.genre);
  }

  /** The listing a load sends always carries the page and the limit, and a truthy form filter unchanged. */
  lemma ListingQueryCarriesPaging(v: View, page: int)
    requires v.limit != 0 && page != 0
    ensures var q := QueryParams(Some(ListingParams(v.form, page, v.limit)));
            Lookup(q, "page") == Some(IntToString(page)) &&
            Lookup(q, "limit") == Some(IntToString(v.limit)) &&
            Lookup(q, "title") == (if TruthyText(v.form.title) then v.form.title else None)
  {
    ListingParamsClean(v.form, page, v.limit);
    var p := ListingParams(v.form, page, v.limit);
    QueryIncludesTruthy(p, "page");
    QueryIncludesTruthy(p, "limit");
    QueryIncludesTruthy(p, "title");
  }

  /** `loadBooks` shows the spinner, clears the message and sends exactly one listing, for `page`. */
  lemma LoadSendsListing(v: View, page: int)
    ensures Loaded(v, page).loading
    ensures Loaded(v, page).message == "" && Loaded(v, page).messageType == NoType
    ensures |Loaded(v, page).requests| == |v.requests| + 1
    ensures Loaded(v, page).requests[..|v.requests|] == v.requests
    ensures Loaded(v, page).requests[|v.requests|] == ListBooks(Some(ListingParams(v.form, page, v.limit)))
    ensures Loaded(v, page).requests[|v.requests|].params.value.page == Some(page)
    ensures Loaded(v, page).currentPage == v.currentPage && Loaded(v, page).limit == v.limit
  {
    ListingParamsClean(v.form, page, v.limit);
  }

  /** `goToPage` loads exactly when the page is within 1..totalPages and not the current one; otherwise nothing changes. */
  lemma GoToPageGuard(v: View, page: int)
    ensures PageRequested(v, page) != v <==> 1 <= page <= v.totalPages && page != v.currentPage
    ensures PageRequested(v, page) != v ==> PageRequested(v, page) == Loaded(v, page)
  {
    if 1 <= page <= v.totalPages && page != v.currentPage {
      assert |Loaded(v, page).requests| == |v.requests| + 1;
    }
  }

  /** `onSearch` goes back to page 1 with the form's limit, replacing only a falsy limit by 10, and requests page 1 with that limit. */
  lemma SearchRestartsPaging(v: View)
    ensures Searched(v).currentPage == 1
    ensures Searched(v).limit == if TruthyNumber(v.form.limit) then v.form.limit.value else 10
    ensures Searched(v).limit != 0
    ensures |Searched(v).requests| == |v.requests| + 1
    ensures Searched(v).requests[|v.requests|].params == Some(ListingParams(v.form, 1, Searched(v).limit))
    ensures Searched(v).requests[|v.requests|].params.value.page == Some(1)
    ensures Searched(v).requests[|v.requests|].params.value.limit == Some(Searched(v).limit)
  {
    ListingParamsClean(v.form, 1, Searched(v).limit);
  }

  /** The form's 1..50 range check on the limit is not consulted: a non-zero limit outside it is taken as it is. */
  lemma SearchIgnoresLimitRange(v: View)
    requires TruthyNumber(v.form.limit) && !(1 <= v.form.limit.value <= 50)
    ensures Searched(v).limit == v.form.limit.value
    ensures !(1 <= Searched(v).limit <= 50)
  {
  }

  /** `clearSearch` empties the filters, resets paging to page 1 of 10, and requests that page with no filter. */
  lemma ClearSearchResets(v: View)
    ensures SearchCleared(v).form == ResetForm
    ensures SearchCleared(v).currentPage == 1 && SearchCleared(v).limit == 10
    ensures |SearchCleared(v).requests| == |v.requests| + 1
    ensures SearchCleared(v).requests[|v.requests|] == ListBooks(Some(SearchParams(None, None, None, Some(1), Some(10))))
  {
    ListingParamsClean(ResetForm, 1, 10);
  }

  /** A response with meta copies the page, page count and total; without meta they stay; either way loading ends. */
  lemma ResponseUpdatesPaging(v: View, response: BooksResponse)
    ensures !BooksArrived(v, response).loading
    ensures BooksArrived(v, response).books == if response.Paged? then response.data else response.books
    ensures response.Paged? && response.meta.Some? ==>
              var m := response.meta.value;
              BooksArrived(v, response).currentPage == m.page &&
              BooksArrived(v, response).totalPages == m.totalPages &&
              BooksArrived(v, response).total == m.total
    ensures !(response.Paged? && response.meta.Some?) ==>
              BooksArrived(v, response).currentPage == v.currentPage &&
              BooksArrived(v, response).totalPages == v.totalPages &&
              BooksArrived(v, response).total == v.total
    ensures BooksArrived(v, response).limit == v.limit && BooksArrived(v, response).requests == v.requests
  {
  }

  /** A failed listing ends loading and shows the error message; every other field of the view is left alone. */
  lemma FailureReported(v: View)
    ensures !LoadFailed(v).loading
    ensures LoadFailed(v).message == LoadFailedText && LoadFailed(v).messageType == ErrorType
    ensures LoadFailed(v).books == v.books && LoadFailed(v).currentPage == v.currentPage
    ensures LoadFailed(v).requests == v.requests
    ensures LoadFailed(v) == v.(loading := false, message := LoadFailedText, messageType := ErrorType)
  {
  }

  /** Signed out, `deleteBook` only shows a message; signed in, it selects the book and opens the confirmation. */
  lemma DeleteNeedsSignIn(v: View, book: Book)
    ensures !v.isAuthenticated ==>
              DeleteRequested(v, book).selectedBook == v.selectedBook &&
              DeleteRequested(v, book).showDeleteConfirmation == v.showDeleteConfirmation &&
              DeleteRequested(v, book).message == LoginToDeleteText &&
              DeleteRequested(v, book).messageType == ErrorType
    ensures v.isAuthenticated ==>
              DeleteRequested(v, book).selectedBook == Some(book) &&
              DeleteRequested(v, book).showDeleteConfirmation &&
              DeleteRequested(v, book).message == v.message
    ensures DeleteRequested(v, book).requests == v.requests
  {
  }

  /** `cancelDelete` closes the confirmation and forgets the book. */
  lemma CancelForgetsSelection(v: View)
    ensures !DeleteCancelled(v).showDeleteConfirmation && DeleteCancelled(v).selectedBook == None
    ensures DeleteCancelled(v).requests == v.requests
  {
  }

  /** `confirmDelete` does nothing unless the selected book has a truthy id; then it closes the confirmation and sends one deletion of that id. */
  lemma ConfirmNeedsId(v: View)
    ensures DeleteConfirmed(v) != v <==> v.selectedBook.Some? && TruthyNumber(v.selectedBook.value.id)
    ensures DeleteConfirmed(v) != v ==>
              !DeleteConfirmed(v).showDeleteConfirmation && DeleteConfirmed(v).loading &&
              DeleteConfirmed(v).requests == v.requests + [RemoveBook(v.selectedBook.value.id.value)]
  {
    if v.selectedBook.Some? && TruthyNumber(v.selectedBook.value.id) {
      assert |DeleteConfirmed(v).requests| == |v.requests| + 1;
    }
  }

  /** After a confirmed deletion, either outcome leaves no book selected and the confirmation closed. */
  lemma DeleteOutcomeClearsSelection(v: View, serverMessage: Option<string>)
    requires v.selectedBook.Some? && TruthyNumber(v.selectedBook.value.id)
    ensures var w := DeleteDone(DeleteConfirmed(v));
            w.selectedBook == None && !w.showDeleteConfirmation
    ensures var w := DeleteRejected(DeleteConfirmed(v), serverMessage);
            w.selectedBook == None && !w.showDeleteConfirmation
  {
  }

  /** A successful deletion opens the success modal and reloads the current page, so loading is on again. */
  lemma DeleteSuccessReloads(v: View)
    ensures DeleteDone(v).showSuccessModal && DeleteDone(v).successMessage == DeletedText
    ensures DeleteDone(v).loading
    ensures DeleteDone(v).requests == v.requests + [ListBooks(Some(ListingParams(v.form, v.currentPage, v.limit)))]
  {
  }

  /** A failed deletion shows the server's message when it has one, the fixed text otherwise. */
  lemma DeleteFailureMessage(v: View, serverMessage: Option<string>)
    ensures DeleteRejected(v, serverMessage).message ==
              if TruthyText(serverMessage) then serverMessage.value else DeleteFailedText
    ensures DeleteRejected(v, serverMessage).message != ""
    ensures DeleteRejected(v, serverMessage).messageType == ErrorType && !DeleteRejected(v, serverMessage).loading
  {
  }

  /** The screen starts consistent. */
  lemma InitialConsistent(authenticated: bool)
    ensures Consistent(InitialView(authenticated))
  {
  }

  /** A load keeps the invariant: the listing it adds is clean. */
  lemma LoadedKeepsConsistent(v: View, page: int)
    requires Consistent(v)
    ensures Consistent(Loaded(v, page))
  {
    ListingParamsClean(v.form, page, v.limit);
    var w := Loaded(v, page);
    forall i | 0 <= i < |w.requests|
      ensures SentClean(w.requests[i])
    {
      if i < |v.requests| {
        assert w.requests[i] == v.requests[i];
      }
    }
  }

  /** Every event keeps the invariant. */
  lemma StepKeepsConsistent(v: View, e: Event)
    requires Consistent(v)
    ensures Consistent(Step(v, e))
  {
    match e
    case Init => LoadedKeepsConsistent(v, v.currentPage);
    case Search =>
      var w := v.(currentPage := 1, limit := if TruthyNumber(v.form.limit) then v.form.limit.value else 10);
      LoadedKeepsConsistent(w, 1);
    case ClearSearchPressed =>
      LoadedKeepsConsistent(v.(form := ResetForm, currentPage := 1, limit := 10), 1);
    case PageClicked(page) =>
      if 1 <= page <= v.totalPages && page != v.currentPage {
        LoadedKeepsConsistent(v, page);
      }
    case DeleteConfirmPressed =>
      var w := DeleteConfirmed(v);
      forall i | 0 <= i < |w.requests|
        ensures SentClean(w.requests[i])
      {
        if i < |v.requests| {
          assert w.requests[i] == v.requests[i];
        }
      }
    case DeleteArrived =>
      LoadedKeepsConsistent(v.(loading := false, successMessage := DeletedText, showSuccessModal := true,
                               selectedBook := None), v.currentPage);
    case _ => QuietStepKeepsConsistent(v, e);
  }

  /** The events that send no listing leave the requests alone and keep the limit non-zero. */
  lemma QuietStepKeepsConsistent(v: View, e: Event)
    requires Consistent(v)
    requires !(e.Init? || e.Search? || e.ClearSearchPressed? || e.PageClicked? || e.DeleteConfirmPressed? || e.DeleteArrived?)
    ensures Step(v, e).requests == v.requests
    ensures Consistent(Step(v, e))
  {
  }

  /**
   * Whatever happens, the limit is never falsy and no listing ever sent holds
   * an empty filter or lacks its page or limit.
   */
  lemma {:induction false} RunKeepsConsistent(v: View, events: seq<Event>)
    requires Consistent(v)
    ensures Consistent(Run(v, events))
    decreases |events|
  {
    if events != [] {
      StepKeepsConsistent(v, events[0]);
      RunKeepsConsistent(Step(v, events[0]), events[1..]);
    }
  }
}
