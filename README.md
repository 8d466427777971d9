# Bookstore client: error mapping, book requests and the book list screen

This project models the client-side logic of a small bookstore web app in Dafny and proves properties of the model. It covers three parts.

- **The error mapper.** It turns an HTTP error from the backend into a `MappedError`:
  - a headline message;
  - a dictionary of per-field messages, keyed by the nine `fieldNames` keys;
  - a `hasFieldErrors` flag.

  The mapper extracts a message string from the error body and dispatches on the status: 400, 401, 409, 422, or anything else. Status handlers and four keyword detectors (required, unique, format, length) then write field messages. They use case-insensitive substring tests, and later writes overwrite earlier ones. When the status handler found no field error, a generic pass runs all four detectors, and a final default guarantees a headline.

  The service's methods mutate a shared result object. They are modelled as methods on the class `ErrorMapper.MappedError`, each proved equal to a pure function of the previous state (`Outcome`). The properties are proved about those functions.
- **The book service's request construction.** `getBooks` builds listing query parameters: defaults when no parameter object is given, only truthy members otherwise. Each of the five operations has a target URL, and the writing operations carry a bearer-token header. These are pure functions that return the request the service would hand to its HTTP client.
- **The book list screen** (`BookListComponent`): search form, paging counters, status messages and the two-step delete confirmation.
  - It is a class whose methods update its fields. `loadBooks` cleans its parameter object with a loop that deletes empty members (`BookList.RemoveEmpty`).
  - Requests the screen sends are appended to a `requests` field.
  - Each HTTP response arriving is a method of its own: `BooksLoaded`, `BooksFailed`, `DeleteSucceeded` and `DeleteFailed`.
  - Every method is proved equal to a transition function on a `View` value. `BookList.Step` and `BookList.Run` combine these transitions into event sequences, over which an invariant is proved.

The code has no cache: the listing controller queries the ORM directly (backend/app/controllers/books_controller.ts), and writes invalidate nothing, so no cache is modelled.

Files:
- `base.dfy`: `Option` and JavaScript truthiness.
- `strings.dfy`: ASCII case folding, substring search, `containsAny`, first-digit-run extraction and decimal numerals.
- `error_mapper.dfy`: the error mapper and its properties.
- `books_service.dfy`: the book service's requests and their properties.
- `book_list.dfy`: the book list screen and its properties.

## Model

| member | source | states |
|---|---|---|
| Strings.Lower | frontend/src/app/core/services/error-mapper.service.ts:299-300 | lower-casing keeps the length and folds each character (ASCII A–Z) |
| Strings.Upper | frontend/src/app/core/services/error-mapper.service.ts:201 | upper-casing keeps the length and folds each character (ASCII a–z) |
| Strings.LowerAbsorbs | frontend/src/app/core/services/error-mapper.service.ts:299-300 | lower-casing is idempotent, and lower-casing an upper-cased text equals lower-casing the original |
| Strings.IncludesIffOccurs | frontend/src/app/core/services/error-mapper.service.ts:300 | `includes` is true exactly when the needle occurs at some position of the text |
| Strings.Includes | frontend/src/app/core/services/error-mapper.service.ts:300 | an empty needle is always found, and a needle longer than the text never is |
| Strings.ContainsAnyIff | frontend/src/app/core/services/error-mapper.service.ts:298-301 | `containsAny` is true iff some keyword, lower-cased, occurs in the lower-cased message; so it is false for an empty keyword list |
| Strings.ContainsAnyIgnoresCase | frontend/src/app/core/services/error-mapper.service.ts:298-301 | the result does not change when the message is lower- or upper-cased first |
| Strings.FirstDigitFrom | frontend/src/app/core/services/error-mapper.service.ts:307 | the position of the first digit at or after a start, with no digit before it |
| Strings.DigitRunEnd | frontend/src/app/core/services/error-mapper.service.ts:307 | the end of a maximal run of digits |
| Strings.ExtractNumber | frontend/src/app/core/services/error-mapper.service.ts:306-309 | nothing exactly when the message has no digit; otherwise the value of the first maximal digit run |
| Strings.FirstDigitRunUnique | frontend/src/app/core/services/error-mapper.service.ts:307 | the first maximal digit run of a text is unique, so the extracted number is well defined |
| Strings.ExtractNumberFindsNumeral | frontend/src/app/core/services/error-mapper.service.ts:306-309 | a numeral after digit-free text and before a non-digit is the number extracted |
| Strings.NatToString | frontend/src/app/core/services/books.service.ts:63-64 | a decimal numeral: non-empty, all digits, no leading zero |
| Strings.IntToString | frontend/src/app/core/services/books.service.ts:63-64 | the numeral of the magnitude, with a minus sign for negatives |
| Strings.NatToStringRoundTrip | frontend/src/app/core/services/books.service.ts:63-64 | reading the numeral back gives the number |
| ErrorMapper.GetFieldName | frontend/src/app/core/services/error-mapper.service.ts:314-316 | the label of a `fieldNames` key, otherwise the key itself |
| ErrorMapper.RequiredMessage | frontend/src/app/core/services/error-mapper.service.ts:29 | the "required" text opens with the field's label and says more after it |
| ErrorMapper.MinLengthMessage | frontend/src/app/core/services/error-mapper.service.ts:34 | the minimum-length text opens with the field's label and "deve ter pelo menos " and goes on with the bound |
| ErrorMapper.MaxLengthMessage | frontend/src/app/core/services/error-mapper.service.ts:35 | the maximum-length text opens with the field's label and "deve ter no máximo " and goes on with the bound |
| ErrorMapper.GetUniqueMessage | frontend/src/app/core/services/error-mapper.service.ts:321-329 | the specific text for email, isbn, title and name; otherwise label + " já está em uso"; never empty |
| ErrorMapper.GetInvalidMessage | frontend/src/app/core/services/error-mapper.service.ts:334-341 | the specific text for email, year and isbn; otherwise label + " tem formato inválido"; never empty |
| ErrorMapper.MinLengthBound | frontend/src/app/core/services/error-mapper.service.ts:34 | the minimum-length text names the number found, or 6 when none or 0 is found |
| ErrorMapper.MaxLengthBound | frontend/src/app/core/services/error-mapper.service.ts:35 | the maximum-length text names the number found, and reads "undefined" when none is found |
| ErrorMapper.ErrorBody | frontend/src/app/core/services/error-mapper.service.ts:54 | the payload when it is truthy; otherwise the error object itself, with its message, details and serialised text and no `error` field |
| ErrorMapper.ExtractErrorMessage | frontend/src/app/core/services/error-mapper.service.ts:96-102 | a string body is returned unchanged; otherwise the first non-empty of message, error, details; otherwise the serialised body |
| ErrorMapper.FieldWritesAt | frontend/src/app/core/services/error-mapper.service.ts:200-207 | after a `forEach` pass over fields, a field has an entry iff it was visited and its test fired; the entry is that test's message |
| ErrorMapper.FieldWritesContents | frontend/src/app/core/services/error-mapper.service.ts:221-228 | the same for every field at once |
| ErrorMapper.FieldWritesStep | frontend/src/app/core/services/error-mapper.service.ts:261-278 | visiting one more field adds at most that field's entry |
| ErrorMapper.PassWritesContents | frontend/src/app/core/services/error-mapper.service.ts:141-147 | a whole pass writes exactly the `fieldNames` keys whose test fires |
| ErrorMapper.VerdictNonEmpty | frontend/src/app/core/services/error-mapper.service.ts:29-35 | no per-field message template yields an empty text |
| ErrorMapper.PassWritesSound | frontend/src/app/core/services/error-mapper.service.ts:15-25 | a pass writes only `fieldNames` keys and never an empty message |
| ErrorMapper.RequiredWritesSound | frontend/src/app/core/services/error-mapper.service.ts:199-215 | `detectRequiredFields` writes only `fieldNames` keys, with non-empty messages |
| ErrorMapper.UniqueWritesSound | frontend/src/app/core/services/error-mapper.service.ts:220-236 | `detectUniqueErrors` writes only `fieldNames` keys, with non-empty messages |
| ErrorMapper.FormatWritesSound | frontend/src/app/core/services/error-mapper.service.ts:241-255 | `detectFormatErrors` writes only email and isbn, with non-empty messages |
| ErrorMapper.LengthWritesSound | frontend/src/app/core/services/error-mapper.service.ts:260-293 | `detectLengthErrors` writes only `fieldNames` keys, with non-empty messages |
| ErrorMapper.ConflictWritesSound | frontend/src/app/core/services/error-mapper.service.ts:141-147 | the 409 handler writes only `fieldNames` keys, with non-empty messages |
| ErrorMapper.RecordKeepsWellFormed | frontend/src/app/core/services/error-mapper.service.ts:204-205 | writing entries and setting `hasFieldErrors` keeps the invariant: flag iff dictionary non-empty, known keys, non-empty messages |
| ErrorMapper.RecordPut | frontend/src/app/core/services/error-mapper.service.ts:204-205 | one more entry on top of a batch is the single dictionary update plus `hasFieldErrors = true` |
| ErrorMapper.GenericParsed | frontend/src/app/core/services/error-mapper.service.ts:176-194 | the generic pass never replaces a headline already set |
| ErrorMapper.BadRequestHandled | frontend/src/app/core/services/error-mapper.service.ts:107-119 | the 400 headline is "fix the errors below" iff a field error exists, "invalid data" otherwise |
| ErrorMapper.ConflictHandled | frontend/src/app/core/services/error-mapper.service.ts:139-154 | the 409 headline is "already registered" iff a field error exists, "data conflict" otherwise |
| ErrorMapper.UnauthorizedHandled | frontend/src/app/core/services/error-mapper.service.ts:124-134 | a credentials keyword gives the wrong-credentials headline and "check your credentials" on email and password, on top of the old entries; otherwise only the headline changes, to "unauthorized" |
| ErrorMapper.GenericHandled | frontend/src/app/core/services/error-mapper.service.ts:169-171 | any other status sets the "unexpected error" headline and leaves the entries and the flag alone |
| ErrorMapper.ValidationHandled | frontend/src/app/core/services/error-mapper.service.ts:159-164 | the 422 handler always leaves a non-empty headline |
| ErrorMapper.StatusHandled | frontend/src/app/core/services/error-mapper.service.ts:60-75 | every status branch sets a non-empty headline |
| ErrorMapper.Mapped | frontend/src/app/core/services/error-mapper.service.ts:45-91 | `mapError` always returns a non-empty headline |
| ErrorMapper.MappedError.constructor | frontend/src/app/core/services/error-mapper.service.ts:46-50 | the result starts with no message, no entries and the flag unset |
| ErrorMapper.MapError | frontend/src/app/core/services/error-mapper.service.ts:45-91 | the method's fresh result object holds exactly `Mapped(error)` |
| ErrorMapper.HandleBadRequest | frontend/src/app/core/services/error-mapper.service.ts:107-119 | the object afterwards is `BadRequestHandled` of its old state |
| ErrorMapper.HandleUnauthorized | frontend/src/app/core/services/error-mapper.service.ts:124-134 | the object afterwards is `UnauthorizedHandled` of its old state |
| ErrorMapper.HandleConflict | frontend/src/app/core/services/error-mapper.service.ts:139-154 | the `forEach` pass, then the headline, give `ConflictHandled` of the old state |
| ErrorMapper.ConflictPass | frontend/src/app/core/services/error-mapper.service.ts:141-148 | the `forEach` over `fieldNames` adds exactly the conflict pass's entries to the old state |
| ErrorMapper.HandleValidationError | frontend/src/app/core/services/error-mapper.service.ts:159-164 | the object afterwards is `ValidationHandled` of its old state |
| ErrorMapper.HandleGenericError | frontend/src/app/core/services/error-mapper.service.ts:169-171 | only the headline changes, to "unexpected error" |
| ErrorMapper.ParseGenericError | frontend/src/app/core/services/error-mapper.service.ts:176-194 | the four detectors in order, then the headline if unset: `GenericParsed` of the old state |
| ErrorMapper.DetectRequiredFields | frontend/src/app/core/services/error-mapper.service.ts:199-215 | the loop over `fieldNames` keys plus the ISBN test give `RequiredDetected` of the old state |
| ErrorMapper.DetectUniqueErrors | frontend/src/app/core/services/error-mapper.service.ts:220-236 | the loop plus the ISBN test give `UniqueDetected` of the old state |
| ErrorMapper.DetectFormatErrors | frontend/src/app/core/services/error-mapper.service.ts:241-255 | the e-mail and ISBN tests give `FormatDetected` of the old state |
| ErrorMapper.DetectFieldLength | frontend/src/app/core/services/error-mapper.service.ts:262-277 | the per-field callback: the minimum test, then the maximum test overwriting it |
| ErrorMapper.DetectLengthErrors | frontend/src/app/core/services/error-mapper.service.ts:260-293 | the loop plus the ISBN minimum and maximum tests give `LengthDetected` of the old state |
| ErrorMapper.HasFieldError | frontend/src/app/core/services/error-mapper.service.ts:346-348 | on a well-formed result, true exactly for the keys in the dictionary |
| ErrorMapper.GetFieldError | frontend/src/app/core/services/error-mapper.service.ts:353-355 | the entry for the key, or "" exactly when `hasFieldError` is false |
| ErrorMapperProperties.MentionIgnoresCase | frontend/src/app/core/services/error-mapper.service.ts:201-202 | testing a field's three spellings is the same as testing the field name once |
| ErrorMapperProperties.IsbnSpellingsAgree | frontend/src/app/core/services/error-mapper.service.ts:210 | the `isbn` and `ISBN` keys are mentioned exactly when the ISBN test's keywords are |
| ErrorMapperProperties.IsbnKeysWrittenTogether | frontend/src/app/core/services/error-mapper.service.ts:221-228 | a per-field pass (required, unique, conflict or length) writes `isbn` iff it writes `ISBN`, with equal messages except for uniqueness and conflict, whose texts differ |
| ErrorMapperProperties.IsbnUniqueVerdicts | frontend/src/app/core/services/error-mapper.service.ts:321-329 | in the unique and conflict passes, the uniqueness text of `isbn` is the ISBN-specific one, while `ISBN` gets the generic label text |
| ErrorMapperProperties.InitialWellFormed | frontend/src/app/core/services/error-mapper.service.ts:46-50 | the empty result satisfies the invariant |
| ErrorMapperProperties.GenericParsedWellFormed | frontend/src/app/core/services/error-mapper.service.ts:176-194 | the generic pass keeps the invariant |
| ErrorMapperProperties.StatusHandledWellFormed | frontend/src/app/core/services/error-mapper.service.ts:60-75 | every status handler keeps the invariant |
| ErrorMapperProperties.MappedWellFormed | frontend/src/app/core/services/error-mapper.service.ts:45-91 | the final result: `hasFieldErrors` iff the dictionary is non-empty, only `fieldNames` keys, no empty message |
| ErrorMapperProperties.FieldQueriesAgree | frontend/src/app/core/services/error-mapper.service.ts:346-355 | on a well-formed result, the two queries read the dictionary exactly |
| ErrorMapperProperties.UnauthorizedWithCredentials | frontend/src/app/core/services/error-mapper.service.ts:124-130 | a 401 mentioning password/credential/login/auth/invalid yields exactly email and password with "check your credentials" and the wrong-credentials headline |
| ErrorMapperProperties.UnauthorizedOtherwise | frontend/src/app/core/services/error-mapper.service.ts:131-133 | any other 401 adds no entry in its handler and keeps the unauthorized headline; entries come only from the generic pass |
| ErrorMapperProperties.UnknownStatusKeepsHeadline | frontend/src/app/core/services/error-mapper.service.ts:169-171 | an absent or unknown status keeps "unexpected error" even when the generic pass finds entries |
| ErrorMapperProperties.GenericPassOnlyWithoutFieldErrors | frontend/src/app/core/services/error-mapper.service.ts:77-80 | the generic pass runs after the handler exactly when the handler found no field error |
| ErrorMapperProperties.BadRequestHeadline | frontend/src/app/core/services/error-mapper.service.ts:114-118 | a 400 keeps the headline its handler chose |
| ErrorMapperProperties.ConflictHeadline | frontend/src/app/core/services/error-mapper.service.ts:149-153 | a 409 says "already registered" exactly when some field's uniqueness test fires |
| ErrorMapperProperties.ValidationHeadline | frontend/src/app/core/services/error-mapper.service.ts:159-164 | a 422 says "fix the errors below" when there are entries, "validation error" otherwise |
| ErrorMapperProperties.DetectorPrecedence | frontend/src/app/core/services/error-mapper.service.ts:179-189 | in the generic pass, for a key several detectors write, the later of required, unique, format, length wins |
| ErrorMapperProperties.LengthMaxWins | frontend/src/app/core/services/error-mapper.service.ts:264-276 | with both a minimum and a maximum keyword, the maximum-length message overwrites the minimum one |
| ErrorMapperProperties.LengthMinOnly | frontend/src/app/core/services/error-mapper.service.ts:264-268 | with a minimum keyword only, the minimum-length message with the extracted number stands |
| BooksService.LookupFinds | frontend/src/app/core/services/books.service.ts:57-64 | a parameter has a value exactly when an entry carries its name |
| BooksService.Set | frontend/src/app/core/services/books.service.ts:60-64 | after `set` the name reads the new value, and the list grows by at most one entry |
| BooksService.SetLookup | frontend/src/app/core/services/books.service.ts:60-64 | after `set`, the name reads the new value and all other names read what they did |
| BooksService.SetAppends | frontend/src/app/core/services/books.service.ts:60-64 | `set` of a name not yet present appends one entry at the end |
| BooksService.SetReplaces | frontend/src/app/core/services/books.service.ts:60-64 | `set` of a name already present replaces its value where it stands |
| BooksService.QueryParams | frontend/src/app/core/services/books.service.ts:56-74 | at most five parameters; without a parameter object page 1 and limit 10 and nothing else; an object with no member set sends nothing |
| BooksService.AuthHeaders | frontend/src/app/core/services/books.service.ts:48-54 | the Authorization header reads "Bearer " and the token (the text "null" when there is none), and the content type is JSON |
| BooksService.GetBooks | frontend/src/app/core/services/books.service.ts:56-74 | a GET of the collection URL carrying the listing query, with no Authorization header and no body |
| BooksService.GetBook | frontend/src/app/core/services/books.service.ts:76-78 | a GET of the book's URL with no query, no Authorization header and no body |
| BooksService.CreateBook | frontend/src/app/core/services/books.service.ts:80-84 | a POST of the book to the collection URL with the bearer token |
| BooksService.UpdateBook | frontend/src/app/core/services/books.service.ts:86-90 | a PUT of the partial book to the book's URL with the bearer token |
| BooksService.DeleteBook | frontend/src/app/core/services/books.service.ts:92-96 | a DELETE of the book's URL with the bearer token and no body |
| BooksServiceProperties.DefaultQuery | frontend/src/app/core/services/books.service.ts:65-69 | with no parameter object the query is exactly page=1, limit=10 |
| BooksServiceProperties.QueryShape | frontend/src/app/core/services/books.service.ts:59-64 | with a parameter object the query is the truthy members only, each once, in the order title, author, genre, page, limit |
| BooksServiceProperties.QueryIncludesTruthy | frontend/src/app/core/services/books.service.ts:59-64 | each name is sent iff its member is truthy: texts unchanged, numbers as numerals; no other name is sent |
| BooksServiceProperties.EmptyParamsSendNothing | frontend/src/app/core/services/books.service.ts:59-69 | an empty parameter object sends nothing, unlike an absent one |
| BooksServiceProperties.NumericParamReadsBack | frontend/src/app/core/services/books.service.ts:63-64 | a positive page or limit reads back from the numeral sent |
| BooksServiceProperties.RequestTargets | frontend/src/app/core/services/books.service.ts:73-93 | listing and creation target the collection URL; the others target URL + "/" + id, and the id reads back from it |
| BooksServiceProperties.AuthorizationOnlyOnWrites | frontend/src/app/core/services/books.service.ts:48-96 | only create, update and delete send `Authorization: Bearer <token>` (with "null" for a missing token) and JSON content type; reads send no header |
| BookList.RemoveEmpty | frontend/src/app/books/components/book-list/book-list.component.ts:80-84 | the cleaning loop deletes exactly the undefined and empty-text members |
| BookList.BookListComponent.constructor | frontend/src/app/books/components/book-list/book-list.component.ts:14-53 | the initial screen: page 1 of 1, limit 10, nothing selected, no message, form with limit 10 |
| BookList.BookListComponent.AuthenticationChanged | frontend/src/app/books/components/book-list/book-list.component.ts:49-53 | only the sign-in flag changes |
| BookList.BookListComponent.EditSearchForm | frontend/src/app/books/components/book-list/book-list.component.ts:41-46 | only the form changes |
| BookList.BookListComponent.NgOnInit | frontend/src/app/books/components/book-list/book-list.component.ts:56-58 | loads the current page |
| BookList.BookListComponent.OnSearch | frontend/src/app/books/components/book-list/book-list.component.ts:61-65 | the new state is `Searched` of the old |
| BookList.BookListComponent.LoadBooks | frontend/src/app/books/components/book-list/book-list.component.ts:67-86 | the new state is `Loaded` of the old: spinner on, message cleared, the cleaned listing sent |
| BookList.BookListComponent.BooksLoaded | frontend/src/app/books/components/book-list/book-list.component.ts:87-95 | the new state is `BooksArrived` of the old |
| BookList.BookListComponent.BooksFailed | frontend/src/app/books/components/book-list/book-list.component.ts:96-100 | the new state is `LoadFailed` of the old |
| BookList.BookListComponent.ClearSearch | frontend/src/app/books/components/book-list/book-list.component.ts:104-109 | the new state is `SearchCleared` of the old |
| BookList.BookListComponent.CreateBook | frontend/src/app/books/components/book-list/book-list.component.ts:116-122 | signed out, only the sign-in message is shown |
| BookList.BookListComponent.EditBook | frontend/src/app/books/components/book-list/book-list.component.ts:124-130 | signed out, only the sign-in message is shown |
| BookList.BookListComponent.DeleteBook | frontend/src/app/books/components/book-list/book-list.component.ts:133-141 | the new state is `DeleteRequested` of the old |
| BookList.BookListComponent.ConfirmDelete | frontend/src/app/books/components/book-list/book-list.component.ts:143-148 | the new state is `DeleteConfirmed` of the old |
| BookList.BookListComponent.DeleteSucceeded | frontend/src/app/books/components/book-list/book-list.component.ts:149-154 | the new state is `DeleteDone` of the old |
| BookList.BookListComponent.DeleteFailed | frontend/src/app/books/components/book-list/book-list.component.ts:155-159 | the new state is `DeleteRejected` of the old |
| BookList.BookListComponent.CancelDelete | frontend/src/app/books/components/book-list/book-list.component.ts:164-167 | the confirmation closes and the selection is cleared |
| BookList.BookListComponent.GoToPage | frontend/src/app/books/components/book-list/book-list.component.ts:170-174 | the new state is `PageRequested` of the old |
| BookList.BookListComponent.ShowMessage | frontend/src/app/books/components/book-list/book-list.component.ts:177-181 | message and type are set |
| BookList.BookListComponent.ShowSuccessMessage | frontend/src/app/books/components/book-list/book-list.component.ts:183-186 | the success modal opens with the text |
| BookList.BookListComponent.CloseSuccessModal | frontend/src/app/books/components/book-list/book-list.component.ts:188-191 | the success modal closes and its text is cleared |
| BookList.BookListComponent.ClearMessage | frontend/src/app/books/components/book-list/book-list.component.ts:193-196 | message and type are cleared |
| BookListProperties.ListingParamsClean | frontend/src/app/books/components/book-list/book-list.component.ts:71-84 | the cleaned object keeps truthy filters unchanged, drops the others, and always holds the page and the limit |
| BookListProperties.ListingQueryCarriesPaging | frontend/src/app/books/components/book-list/book-list.component.ts:71-86 | the query a load sends carries the page, the limit and a truthy title filter |
| BookListProperties.LoadSendsListing | frontend/src/app/books/components/book-list/book-list.component.ts:67-86 | a load turns loading on, clears the message and appends exactly one listing, for the page given |
| BookListProperties.GoToPageGuard | frontend/src/app/books/components/book-list/book-list.component.ts:170-174 | a page is loaded iff 1 ≤ page ≤ totalPages and page ≠ currentPage; otherwise nothing changes |
| BookListProperties.SearchRestartsPaging | frontend/src/app/books/components/book-list/book-list.component.ts:61-65 | search goes to page 1 with the form's limit, a falsy one replaced by 10, and requests page 1 with that limit |
| BookListProperties.SearchIgnoresLimitRange | frontend/src/app/books/components/book-list/book-list.component.ts:45 | the form's 1..50 range on the limit is not consulted: any non-zero limit outside it is used as it is |
| BookListProperties.ClearSearchResets | frontend/src/app/books/components/book-list/book-list.component.ts:104-109 | clearing resets the form, goes to page 1 of 10, and requests page 1 with no filter |
| BookListProperties.ResponseUpdatesPaging | frontend/src/app/books/components/book-list/book-list.component.ts:87-95 | a response ends loading; meta, when present, replaces page, page count and total, which otherwise stay |
| BookListProperties.FailureReported | frontend/src/app/books/components/book-list/book-list.component.ts:96-100 | a failed listing ends loading and shows the load error; every other field of the view (books, paging, form, selection, requests) is unchanged |
| BookListProperties.DeleteNeedsSignIn | frontend/src/app/books/components/book-list/book-list.component.ts:133-141 | signed out, delete only shows a message; signed in, it selects the book and opens the confirmation |
| BookListProperties.CancelForgetsSelection | frontend/src/app/books/components/book-list/book-list.component.ts:164-167 | cancelling closes the confirmation and clears the selection |
| BookListProperties.ConfirmNeedsId | frontend/src/app/books/components/book-list/book-list.component.ts:143-148 | confirming changes nothing unless the selected book has a truthy id; then it closes the confirmation and sends one deletion of that id |
| BookListProperties.DeleteOutcomeClearsSelection | frontend/src/app/books/components/book-list/book-list.component.ts:143-162 | after a confirmed deletion, either outcome leaves no book selected and the confirmation closed |
| BookListProperties.DeleteSuccessReloads | frontend/src/app/books/components/book-list/book-list.component.ts:149-154 | success opens the success modal and reloads the current page, so loading is on again |
| BookListProperties.DeleteFailureMessage | frontend/src/app/books/components/book-list/book-list.component.ts:155-159 | failure shows the server's message when truthy, the fixed text otherwise |
| BookListProperties.InitialConsistent | frontend/src/app/books/components/book-list/book-list.component.ts:27-30 | the initial screen satisfies the invariant |
| BookListProperties.LoadedKeepsConsistent | frontend/src/app/books/components/book-list/book-list.component.ts:67-86 | a load keeps the invariant: the listing it adds is clean |
| BookListProperties.StepKeepsConsistent | frontend/src/app/books/components/book-list/book-list.component.ts:61-196 | every event keeps the invariant |
| BookListProperties.QuietStepKeepsConsistent | frontend/src/app/books/components/book-list/book-list.component.ts:61-196 | the events that send no listing leave the sent requests unchanged and keep the invariant |
| BookListProperties.RunKeepsConsistent | frontend/src/app/books/components/book-list/book-list.component.ts:71-84 | after any sequence of events, the limit is never falsy and no listing ever sent holds an empty filter or lacks its page or limit |

## Left out

- HTTP, rxjs subscriptions and `localStorage` are not modelled. A request is the value an operation would hand to the HTTP client. Each response is a method call. The stored token is a parameter: `None` stands for `getToken` returning null (frontend/src/app/core/services/auth.service.ts:100-102).
- Strings.Lower: `toLowerCase` is modelled as ASCII A–Z folding only. Accented capitals are left unchanged, so a message such as "OBRIGATÓRIO" is not matched as it would be in JavaScript.
- ErrorMapper.ExtractErrorMessage: the `JSON.stringify` fallback is not computed. The serialised text is supplied with the input as the `serialized` field.
- Strings.ExtractNumber: `parseInt` losing precision on very long digit runs is not modelled; the value is an unbounded natural number.
- ErrorMapper.ErrorBody: the body's fields are modelled as strings, with "" for absent. Non-string values such as numbers, arrays and nested objects are not modelled.
- ErrorMapper.MapError: a bare string passed as the error itself (rather than as its body) is not modelled. The status is an integer, 0 when absent.
- ErrorMapper.HasFieldError: keys inherited from `Object.prototype` are not modelled. The dictionary is a map, so for example "constructor" is never present.
- The unused message templates `exists`, `duplicate`, `min`, `max` and `credentials` are not modelled; no code path calls them.
- `MaxLengthMessage` renders a missing number as the text "undefined", as the template does. This is modelled as written.
- The console logging in `mapError` and `loadBooks` is not modelled.
- Navigation (`viewBook` and the navigating branches of `createBook` and `editBook`) is not modelled.
- The `setTimeout` in `showMessage` that clears the message after five seconds is not modelled.
- BookList.BookListComponent.BooksLoaded: the book array is taken from `data`, or from the bare response when there is no `data`. Other response shapes are not modelled.
- Page, limit and ids are integers. NaN, fractional numbers and the form handing the limit over as a string are not modelled.
- The form validators on the limit (min 1, max 50) are not evaluated, as `onSearch` does not consult them.
- Responses arrive one at a time, as method calls. Any interleaving is possible (for example, a deletion response arriving while another confirmation is open), but concurrency inside a callback is not modelled.
- The backend (controllers, validators, seeder, routes), the other screens and the auth service are not part of this model.
