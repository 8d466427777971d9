/**
 * The client-side classifier that turns a backend error response into a
 * headline message and a dictionary of per-field messages
 * (`ErrorMapperService` of the Angular client).
 *
 * The pure part (keyword tables, message templates, the message extraction
 * chain) is written as functions. What the service does step by step to the
 * shared `result` object is written as methods over the class `MappedError`,
 * each proved against a function on the value `Outcome` that says what the
 * object holds afterwards; the properties of the classifier are lemmas about
 * those functions.
 */
module ErrorMapper {
  import opened Base
  import opened Strings

  // ---------------------------------------------------------------------
  // Tables

  /** The keys of the `fieldNames` table, in declaration order (the order `Object.keys` gives). */
  const FieldKeys: seq<string> :=
    ["name", "email", "password", "title", "author", "genre", "year", "isbn", "ISBN"]

  /** The `fieldNames` table: key to the label shown to the user. */
  const FieldNames: map<string, string> :=
    map["name" := "Nome", "email" := "E-mail", "password" := "Senha", "title" := "Título",
        "author" := "Autor", "genre" := "Gênero", "year" := "Ano", "isbn" := "ISBN", "ISBN" := "ISBN"]

  const RequiredKeywords: seq<string> := ["required", "obrigatório", "not null", "cannot be null", "is required"]
  const UniqueKeywords: seq<string> := ["unique", "exists", "duplicate", "already exists", "já existe", "constraint"]
  /** The ISBN-specific uniqueness test says "already" where the per-field test says "already exists". */
  const IsbnUniqueKeywords: seq<string> := ["unique", "exists", "duplicate", "already", "já existe", "constraint"]
  const ConflictKeywords: seq<string> := ["unique", "exists", "duplicate", "already", "já existe"]
  const FormatKeywords: seq<string> := ["invalid", "format", "inválido", "formato"]
  const MinKeywords: seq<string> := ["min", "minimum", "at least", "pelo menos"]
  const MaxKeywords: seq<string> := ["max", "maximum", "no more than", "máximo"]
  const CredentialKeywords: seq<string> := ["password", "credential", "login", "auth", "invalid"]
  const IsbnVariants: seq<string> := ["isbn", "ISBN"]

  const FixErrorsBelow: string := "Corrija os erros abaixo:"
  const InvalidData: string := "Dados fornecidos são inválidos."
  const CheckCredentials: string := "Verifique suas credenciais"
  const WrongCredentials: string := "E-mail ou senha incorretos"
  const Unauthorized: string := "Acesso não autorizado. Faça login novamente."
  const AlreadyRegistered: string := "Dados já cadastrados no sistema."
  const DataConflict: string := "Conflito de dados. Verifique as informações."
  const ValidationFailed: string := "Erro de validação."
  const Unexpected: string := "Ocorreu um erro inesperado. Tente novamente."
  const TryAgain: string := "Ocorreu um erro. Tente novamente."
  const InvalidEmail: string := "Formato de e-mail inválido"

  // ---------------------------------------------------------------------
  // Message templates

  /** `getFieldName`: the label of a known key, otherwise the key itself. */
  function GetFieldName(field: string): (r: string)
    ensures field in FieldNames ==> r == FieldNames[field] && r != ""
    ensures field !in FieldNames ==> r == field
  {
    if field in FieldNames && FieldNames[field] != "" then FieldNames[field] else field
  }

  /** `getUniqueMessage`: a field-specific text for four fields, a generic one otherwise. */
  function GetUniqueMessage(field: string): (r: string)
    ensures r != ""
    ensures field == "email" ==> r == "Este e-mail já está cadastrado"
    ensures field == "isbn" ==> r == "Este ISBN já está sendo usado em outro livro"
    ensures field == "title" ==> r == "Já existe um livro com este título"
    ensures field == "name" ==> r == "Este nome já está em uso"
    ensures field !in {"email", "isbn", "title", "name"} ==> r == GetFieldName(field) + " já está em uso"
  {
    var messages := map["email" := "Este e-mail já está cadastrado",
                        "isbn" := "Este ISBN já está sendo usado em outro livro",
                        "title" := "Já existe um livro com este título",
                        "name" := "Este nome já está em uso"];
    if field in messages then messages[field] else GetFieldName(field) + " já está em uso"
  }

  /** `getInvalidMessage`: a field-specific text for three fields, a generic one otherwise. */
  function GetInvalidMessage(field: string): (r: string)
    ensures r != ""
    ensures field == "email" ==> r == InvalidEmail
    ensures field == "year" ==> r == "Ano deve ser um número válido"
    ensures field == "isbn" ==> r == "Formato de ISBN inválido"
    ensures field !in {"email", "year", "isbn"} ==> r == GetFieldName(field) + " tem formato inválido"
  {
    var messages := map["email" := InvalidEmail,
                        "year" := "Ano deve ser um número válido",
                        "isbn" := "Formato de ISBN inválido"];
    if field in messages then messages[field] else GetFieldName(field) + " tem formato inválido"
  }

  /** `errorMessages.required`. */
  function RequiredMessage(field: string): (r: string)
    ensures GetFieldName(field) < r
  {
    GetFieldName(field) + " é obrigatório"
  }

  /** `errorMessages.minLength`: `${min || 6}`, so a missing or zero bound reads as 6. */
  function MinLengthMessage(field: string, min: Option<nat>): (r: string)
    ensures GetFieldName(field) + " deve ter pelo menos " < r
  {
    GetFieldName(field) + " deve ter pelo menos "
      + (if min.Some? && min.value != 0 then NatToString(min.value) else "6") + " caracteres"
  }

  /** `errorMessages.maxLength`: `${max}`, so a missing bound is rendered as the text "undefined". */
  function MaxLengthMessage(field: string, max: Option<nat>): (r: string)
    ensures GetFieldName(field) + " deve ter no máximo " < r
  {
    GetFieldName(field) + " deve ter no máximo "
      + (if max.Some? then NatToString(max.value) else "undefined") + " caracteres"
  }

  /** The minimum-length message names the number found, or 6 when none (or 0) is found. */
  lemma MinLengthBound(field: string, min: Option<nat>)
    ensures min.Some? && min.value > 0 ==>
      MinLengthMessage(field, min) == GetFieldName(field) + " deve ter pelo menos " + NatToString(min.value) + " caracteres"
    ensures (min.None? || min.value == 0) ==>
      MinLengthMessage(field, min) == GetFieldName(field) + " deve ter pelo menos 6 caracteres"
  {
  }

  /** The maximum-length message names the number found, and reads "undefined" when none is found. */
  lemma MaxLengthBound(field: string, max: Option<nat>)
    ensures max.Some? ==>
      MaxLengthMessage(field, max) == GetFieldName(field) + " deve ter no máximo " + NatToString(max.value) + " caracteres"
    ensures max.None? ==>
      MaxLengthMessage(field, max) == GetFieldName(field) + " deve ter no máximo undefined caracteres"
  {
  }

  // ---------------------------------------------------------------------
  // The input and the extraction of its message

  /** A response body: a plain string, or an object whose empty fields stand for absent ones. */
  datatype Body =
    | Text(text: string)
    | Fields(message: string, error: string, details: string, serialized: string)

  /**
   * The error object handed to `mapError`: its `status` (0 when absent),
   * its `error` payload, and its own `message`/`details` fields;
   * `serialized` is what `JSON.stringify` gives for the object.
   */
  datatype ErrorInput = ErrorInput(status: int, error: Option<Body>, message: string,
                                   details: string, serialized: string)

  predicate TruthyBody(b: Body)
  {
    b.Fields? || b.text != ""
  }

  /** `error.error || error`: the payload when it is truthy, otherwise the error object itself. */
  function ErrorBody(e: ErrorInput): (b: Body)
    ensures e.error.Some? && TruthyBody(e.error.value) ==> b == e.error.value
    ensures !(e.error.Some? && TruthyBody(e.error.value)) ==> b == Fields(e.message, "", e.details, e.serialized)
  {
    if e.error.Some? && TruthyBody(e.error.value) then e.error.value
    else Fields(e.message, "", e.details, e.serialized)
  }

  /** The object fields that `extractErrorMessage` tries, in precedence order. */
  function Candidates(b: Body): seq<string>
    requires b.Fields?
  {
    [b.message, b.error, b.details]
  }

  /**
   * `extractErrorMessage`: a string body as it is; otherwise the first
   * non-empty of message, error, details; otherwise the serialised body.
   */
  function ExtractErrorMessage(body: Body): (r: string)
    ensures body.Text? ==> r == body.text
    ensures body.Fields? ==>
      || (exists i :: 0 <= i < 3 && Candidates(body)[i] != "" && r == Candidates(body)[i]
                      && forall j :: 0 <= j < i ==> Candidates(body)[j] == "")
      || ((forall i :: 0 <= i < 3 ==> Candidates(body)[i] == "") && r == body.serialized)
  {
    match body
    case Text(t) => t
    case Fields(m, err, d, s) =>
      if m != "" then assert Candidates(body)[0] == m; m
      else if err != "" then assert Candidates(body)[1] == err; err
      else if d != "" then assert Candidates(body)[2] == d; d
      else s
  }

  /** The message string `mapError` classifies. */
  function ErrorMessage(e: ErrorInput): string
  {
    ExtractErrorMessage(ErrorBody(e))
  }

  // ---------------------------------------------------------------------
  // What the detectors write

  /** The state of a `MappedError` object, as a value. */
  datatype Outcome = Outcome(message: string, fieldErrors: map<string, string>, hasFieldErrors: bool)

  const Initial: Outcome := Outcome("", map[], false)

  /**
   * The invariant every handler and detector keeps: `hasFieldErrors` says
   * whether the dictionary is non-empty, its keys are `fieldNames` keys, and
   * no entry is the empty string.
   */
  ghost predicate WellFormed(s: Outcome)
  {
    && (s.hasFieldErrors <==> s.fieldErrors != map[])
    && (forall k :: k in s.fieldErrors ==> k in FieldKeys && s.fieldErrors[k] != "")
  }

  /** A batch of writes that keeps `WellFormed`: known keys, non-empty messages. */
  ghost predicate SoundWrites(w: map<string, string>)
  {
    forall k :: k in w ==> k in FieldKeys && w[k] != ""
  }

  /** The three spellings a detector tries for a field: as declared, lower case, upper case. */
  function Variations(field: string): seq<string>
  {
    [field, Lower(field), Upper(field)]
  }

  /** The four detectors that run once per `fieldNames` key. */
  datatype FieldCheck = Required | Unique | Conflict | Length

  /** Whether the per-field test of `check` writes an entry for `field`. */
  predicate Fires(message: string, check: FieldCheck, field: string)
  {
    match check
    case Required => ContainsAny(message, Variations(field)) && ContainsAny(message, RequiredKeywords)
    case Unique => ContainsAny(message, Variations(field)) && ContainsAny(message, UniqueKeywords)
    case Conflict => ContainsAny(message, [field]) && ContainsAny(message, ConflictKeywords)
    case Length =>
      ContainsAny(message, Variations(field))
      && (ContainsAny(message, MinKeywords) || ContainsAny(message, MaxKeywords))
  }

  /** The entry the per-field test of `check` leaves for `field`; for lengths the maximum overwrites the minimum. */
  function Verdict(message: string, check: FieldCheck, field: string): string
  {
    match check
    case Required => RequiredMessage(field)
    case Unique => GetUniqueMessage(field)
    case Conflict => GetUniqueMessage(field)
    case Length =>
      if ContainsAny(message, MaxKeywords) then MaxLengthMessage(field, ExtractNumber(message))
      else MinLengthMessage(field, ExtractNumber(message))
  }

  /** The entries the per-field test of `check` leaves after visiting `fields` in order. */
  function FieldWrites(message: string, check: FieldCheck, fields: seq<string>): map<string, string>
  {
    if fields == [] then map[]
    else
      var w := FieldWrites(message, check, fields[..|fields| - 1]);
      var f := fields[|fields| - 1];
      if Fires(message, check, f) then w[f := Verdict(message, check, f)] else w
  }

  /** After visiting `fields`, a field has an entry exactly when it was visited and its test fires; the entry is its verdict. */
  lemma {:induction false} FieldWritesAt(message: string, check: FieldCheck, fields: seq<string>, f: string)
    ensures f in FieldWrites(message, check, fields) <==> f in fields && Fires(message, check, f)
    ensures f in FieldWrites(message, check, fields) ==>
              FieldWrites(message, check, fields)[f] == Verdict(message, check, f)
    decreases |fields|
  {
    if fields != [] {
      var init := fields[..|fields| - 1];
      FieldWritesAt(message, check, init, f);
      assert f in fields <==> f in init || f == fields[|fields| - 1];
    }
  }

  /** The same, for every field at once. */
  lemma FieldWritesContents(message: string, check: FieldCheck, fields: seq<string>)
    ensures forall f :: f in FieldWrites(message, check, fields) <==> f in fields && Fires(message, check, f)
    ensures forall f :: f in FieldWrites(message, check, fields) ==>
              FieldWrites(message, check, fields)[f] == Verdict(message, check, f)
  {
    forall f
      ensures f in FieldWrites(message, check, fields) <==> f in fields && Fires(message, check, f)
      ensures f in FieldWrites(message, check, fields) ==>
                FieldWrites(message, check, fields)[f] == Verdict(message, check, f)
    {
      FieldWritesAt(message, check, fields, f);
    }
  }

  /** Visiting one more field adds that field's entry, if its test fires, and nothing else. */
  lemma FieldWritesStep(message: string, check: FieldCheck, fields: seq<string>, i: nat)
    requires i < |fields|
    ensures FieldWrites(message, check, fields[..i + 1]) ==
      if Fires(message, check, fields[i])
      then FieldWrites(message, check, fields[..i])[fields[i] := Verdict(message, check, fields[i])]
      else FieldWrites(message, check, fields[..i])
  {
    assert fields[..i + 1][..i] == fields[..i];
  }

  /** Which per-field entries a whole pass over `fieldNames` writes. */
  function PassWrites(message: string, check: FieldCheck): map<string, string>
  {
    FieldWrites(message, check, FieldKeys)
  }

  /** Entries `detectRequiredFields` writes: the pass, then the ISBN-specific test. */
  function RequiredWrites(message: string): map<string, string>
  {
    var w := PassWrites(message, Required);
    if ContainsAny(message, IsbnVariants) && ContainsAny(message, RequiredKeywords)
    then w["isbn" := RequiredMessage("isbn")] else w
  }

  /** Entries `detectUniqueErrors` writes: the pass, then the ISBN-specific test. */
  function UniqueWrites(message: string): map<string, string>
  {
    var w := PassWrites(message, Unique);
    if ContainsAny(message, IsbnVariants) && ContainsAny(message, IsbnUniqueKeywords)
    then w["isbn" := GetUniqueMessage("isbn")] else w
  }

  /** Entries `detectFormatErrors` writes: e-mail and ISBN only. */
  function FormatWrites(message: string): map<string, string>
  {
    var bad := ContainsAny(message, FormatKeywords);
    var w := if ContainsAny(message, ["email"]) && bad then map["email" := InvalidEmail] else map[];
    if ContainsAny(message, IsbnVariants) && bad then w["isbn" := GetInvalidMessage("isbn")] else w
  }

  /** Entries `detectLengthErrors` writes: the pass, then the ISBN-specific tests (minimum, then maximum). */
  function LengthWrites(message: string): map<string, string>
  {
    var w := PassWrites(message, Length);
    var isbn := ContainsAny(message, IsbnVariants);
    var w' := if isbn && ContainsAny(message, MinKeywords)
              then w["isbn" := MinLengthMessage("isbn", ExtractNumber(message))] else w;
    if isbn && ContainsAny(message, MaxKeywords)
    then w'["isbn" := MaxLengthMessage("isbn", ExtractNumber(message))] else w'
  }

  /** Entries `handleConflict` writes. */
  function ConflictWrites(message: string): map<string, string>
  {
    PassWrites(message, Conflict)
  }
  /** A whole pass writes an entry exactly for the `fieldNames` keys whose test fires. */
  lemma PassWritesContents(message: string, check: FieldCheck)
    ensures forall f :: f in PassWrites(message, check) <==> f in FieldKeys && Fires(message, check, f)
    ensures forall f :: f in PassWrites(message, check) ==> PassWrites(message, check)[f] == Verdict(message, check, f)
  {
    FieldWritesContents(message, check, FieldKeys);
  }

  /** A per-field test never leaves an empty message. */
  lemma VerdictNonEmpty(message: string, check: FieldCheck, field: string)
    ensures Verdict(message, check, field) != ""
  {
  }

  /** A whole pass writes only `fieldNames` keys, and never an empty message. */
  lemma PassWritesSound(message: string, check: FieldCheck)
    ensures SoundWrites(PassWrites(message, check))
  {
    PassWritesContents(message, check);
    forall f | f in PassWrites(message, check)
      ensures PassWrites(message, check)[f] != ""
    {
      VerdictNonEmpty(message, check, f);
    }
  }

  /** Each detector writes only `fieldNames` keys, and never an empty message. */
  lemma RequiredWritesSound(message: string)
    ensures SoundWrites(RequiredWrites(message))
  {
    PassWritesSound(message, Required);
  }

  lemma UniqueWritesSound(message: string)
    ensures SoundWrites(UniqueWrites(message))
  {
    PassWritesSound(message, Unique);
  }

  lemma FormatWritesSound(message: string)
    ensures SoundWrites(FormatWrites(message))
  {
  }

  lemma LengthWritesSound(message: string)
    ensures SoundWrites(LengthWrites(message))
  {
    PassWritesSound(message, Length);
  }

  lemma ConflictWritesSound(message: string)
    ensures SoundWrites(ConflictWrites(message))
  {
    PassWritesSound(message, Conflict);
  }




  /** The state after a batch of writes: later entries overwrite, and any write sets `hasFieldErrors`. */
  function Record(s: Outcome, w: map<string, string>): Outcome
  {
    s.(fieldErrors := s.fieldErrors + w, hasFieldErrors := s.hasFieldErrors || w != map[])
  }

  /** A sound batch of writes keeps the invariant. */
  lemma RecordKeepsWellFormed(s: Outcome, w: map<string, string>)
    requires WellFormed(s) && SoundWrites(w)
    ensures WellFormed(Record(s, w))
  {
  }

  /** Writing one more entry on top of a batch is the object update the service performs. */
  lemma RecordPut(s: Outcome, w: map<string, string>, k: string, v: string)
    ensures Record(s, w[k := v]) ==
            Record(s, w).(fieldErrors := Record(s, w).fieldErrors[k := v], hasFieldErrors := true)
  {
    assert k in w[k := v];
    assert s.fieldErrors + w[k := v] == (s.fieldErrors + w)[k := v];
  }

  // ---------------------------------------------------------------------
  // The state after each handler, as a function of the state before

  function RequiredDetected(message: string, s: Outcome): Outcome
  {
    Record(s, RequiredWrites(message))
  }

  function UniqueDetected(message: string, s: Outcome): Outcome
  {
    Record(s, UniqueWrites(message))
  }

  function FormatDetected(message: string, s: Outcome): Outcome
  {
    Record(s, FormatWrites(message))
  }

  function LengthDetected(message: string, s: Outcome): Outcome
  {
    Record(s, LengthWrites(message))
  }

  /** `parseGenericError`: the four detectors in order, then the headline if still unset. */
  function GenericParsed(message: string, s: Outcome): (r: Outcome)
    ensures s.message != "" ==> r.message == s.message
  {
    var t := LengthDetected(message, FormatDetected(message, UniqueDetected(message, RequiredDetected(message, s))));
    if t.hasFieldErrors && t.message == "" then t.(message := FixErrorsBelow) else t
  }

  /** `handleBadRequest` (400). */
  function BadRequestHandled(message: string, s: Outcome): (r: Outcome)
    ensures r.message == if r.hasFieldErrors then FixErrorsBelow else InvalidData
  {
    var t := FormatDetected(message, RequiredDetected(message, s));
    t.(message := if t.hasFieldErrors then FixErrorsBelow else InvalidData)
  }

  /** `handleUnauthorized` (401). */
  function UnauthorizedHandled(message: string, s: Outcome): (r: Outcome)
    ensures r.message == if ContainsAny(message, CredentialKeywords) then WrongCredentials else Unauthorized
    ensures ContainsAny(message, CredentialKeywords) ==>
              r.hasFieldErrors && r.fieldErrors.Keys == s.fieldErrors.Keys + {"email", "password"}
              && r.fieldErrors["email"] == CheckCredentials && r.fieldErrors["password"] == CheckCredentials
    ensures !ContainsAny(message, CredentialKeywords) ==>
              r.fieldErrors == s.fieldErrors && r.hasFieldErrors == s.hasFieldErrors
  {
    if ContainsAny(message, CredentialKeywords)
    then
      assert "email" in s.fieldErrors["email" := CheckCredentials]["password" := CheckCredentials];
      Outcome(WrongCredentials,
                 s.fieldErrors["email" := CheckCredentials]["password" := CheckCredentials], true)
    else s.(message := Unauthorized)
  }

  /** `handleConflict` (409). */
  function ConflictHandled(message: string, s: Outcome): (r: Outcome)
    ensures r.message == if r.hasFieldErrors then AlreadyRegistered else DataConflict
  {
    var t := Record(s, ConflictWrites(message));
    t.(message := if t.hasFieldErrors then AlreadyRegistered else DataConflict)
  }

  /** `handleValidationError` (422). */
  function ValidationHandled(message: string, s: Outcome): (r: Outcome)
    ensures r.message != ""
  {
    var t := GenericParsed(message, s);
    if t.message == "" then t.(message := ValidationFailed) else t
  }

  /** `handleGenericError` (any other status). */
  function GenericHandled(s: Outcome): (r: Outcome)
    ensures r.message == Unexpected
    ensures r.fieldErrors == s.fieldErrors && r.hasFieldErrors == s.hasFieldErrors
  {
    s.(message := Unexpected)
  }

  /** The `switch (status)` of `mapError`. */
  function StatusHandled(status: int, message: string, s: Outcome): (r: Outcome)
    ensures r.message != ""
  {
    if status == 400 then BadRequestHandled(message, s)
    else if status == 401 then UnauthorizedHandled(message, s)
    else if status == 409 then ConflictHandled(message, s)
    else if status == 422 then ValidationHandled(message, s)
    else GenericHandled(s)
  }

  /**
   * `mapError`: the status handler, the generic pass when the handler found
   * no field error, and a default headline. The headline is never empty.
   */
  function Mapped(e: ErrorInput): (r: Outcome)
    ensures r.message != ""
  {
    var message := ErrorMessage(e);
    var handled := StatusHandled(e.status, message, Initial);
    var parsed := if !handled.hasFieldErrors then GenericParsed(message, handled) else handled;
    if parsed.message == "" then
      parsed.(message := if parsed.hasFieldErrors then FixErrorsBelow else TryAgain)
    else parsed
  }

  // ---------------------------------------------------------------------
  // The result object and the service's methods

  /** The `MappedError` record the service fills in and returns. */
  class MappedError {
    var message: string
    var fieldErrors: map<string, string>
    var hasFieldErrors: bool

    constructor ()
      ensures Value() == Initial
    {
      message, fieldErrors, hasFieldErrors := "", map[], false;
    }

    function Value(): Outcome
      reads this
    {
      Outcome(message, fieldErrors, hasFieldErrors)
    }
  }

  /** `mapError`. */
  method MapError(error: ErrorInput) returns (result: MappedError)
    ensures fresh(result)
    ensures result.Value() == Mapped(error)
  {
    result := new MappedError();
    var status := error.status;
    var errorBody := ErrorBody(error);
    var errorMessage := ExtractErrorMessage(errorBody);

    if status == 400 {
      HandleBadRequest(errorMessage, result);
    } else if status == 401 {
      HandleUnauthorized(errorMessage, result);
    } else if status == 409 {
      HandleConflict(errorMessage, result);
    } else if status == 422 {
      HandleValidationError(errorMessage, result);
    } else {
      HandleGenericError(errorMessage, result);
    }

    if !result.hasFieldErrors {
      ParseGenericError(errorMessage, result);
    }

    var headline, withErrors := result.message, result.hasFieldErrors;
    if headline == "" {
      headline := if withErrors then FixErrorsBelow else TryAgain;
    }
    result.message := headline;
  }

  /** `handleBadRequest`. */
  method HandleBadRequest(message: string, result: MappedError)
    modifies result
    ensures result.Value() == BadRequestHandled(message, old(result.Value()))
  {
    DetectRequiredFields(message, result);
    DetectFormatErrors(message, result);
    if result.hasFieldErrors {
      result.message := FixErrorsBelow;
    } else {
      result.message := InvalidData;
    }
  }

  /** `handleUnauthorized`. */
  method HandleUnauthorized(message: string, result: MappedError)
    modifies result
    ensures result.Value() == UnauthorizedHandled(message, old(result.Value()))
  {
    if ContainsAny(message, CredentialKeywords) {
      result.fieldErrors := result.fieldErrors["email" := CheckCredentials];
      result.fieldErrors := result.fieldErrors["password" := CheckCredentials];
      result.hasFieldErrors := true;
      result.message := WrongCredentials;
    } else {
      result.message := Unauthorized;
    }
  }

  /** `handleConflict`: one uniqueness test per `fieldNames` key. */
  method HandleConflict(message: string, result: MappedError)
    modifies result
    ensures result.Value() == ConflictHandled(message, old(result.Value()))
  {
    ConflictPass(message, result);
    if result.hasFieldErrors {
      result.message := AlreadyRegistered;
    } else {
      result.message := DataConflict;
    }
  }

  /** The `forEach` over `fieldNames` inside `handleConflict`. */
  method ConflictPass(message: string, result: MappedError)
    modifies result
    ensures result.Value() == Record(old(result.Value()), ConflictWrites(message))
  {
    ghost var before := result.Value();
    var i := 0;
    while i < |FieldKeys|
      invariant 0 <= i <= |FieldKeys|
      invariant result.Value() == Record(before, FieldWrites(message, Conflict, FieldKeys[..i]))
    {
      var field := FieldKeys[i];
      FieldWritesStep(message, Conflict, FieldKeys, i);
      var mentioned, keyword := ContainsAny(message, [field]), ContainsAny(message, ConflictKeywords);
      assert Fires(message, Conflict, field) == (mentioned && keyword);
      if mentioned && keyword {
        RecordPut(before, FieldWrites(message, Conflict, FieldKeys[..i]), field, GetUniqueMessage(field));
        result.fieldErrors := result.fieldErrors[field := GetUniqueMessage(field)];
        result.hasFieldErrors := true;
      }
      i := i + 1;
    }
    assert FieldKeys[..i] == FieldKeys;
  }


  /** `handleValidationError`. */
  method HandleValidationError(message: string, result: MappedError)
    modifies result
    ensures result.Value() == ValidationHandled(message, old(result.Value()))
  {
    ParseGenericError(message, result);
    if result.message == "" {
      result.message := ValidationFailed;
    }
  }

  /** `handleGenericError`. */
  method HandleGenericError(message: string, result: MappedError)
    modifies result
    ensures result.Value() == GenericHandled(old(result.Value()))
  {
    result.message := Unexpected;
  }

  /** `parseGenericError`. */
  method ParseGenericError(message: string, result: MappedError)
    modifies result
    ensures result.Value() == GenericParsed(message, old(result.Value()))
  {
    DetectRequiredFields(message, result);
    DetectUniqueErrors(message, result);
    DetectFormatErrors(message, result);
    DetectLengthErrors(message, result);
    if result.hasFieldErrors && result.message == "" {
      result.message := FixErrorsBelow;
    }
  }

  /** `detectRequiredFields`. */
  method DetectRequiredFields(message: string, result: MappedError)
    modifies result
    ensures result.Value() == RequiredDetected(message, old(result.Value()))
  {
    ghost var before := result.Value();
    var i := 0;
    while i < |FieldKeys|
      invariant 0 <= i <= |FieldKeys|
      invariant result.Value() == Record(before, FieldWrites(message, Required, FieldKeys[..i]))
    {
      var field := FieldKeys[i];
      var fieldVariations := [field, Lower(field), Upper(field)];
      FieldWritesStep(message, Required, FieldKeys, i);
      var mentioned, keyword := ContainsAny(message, fieldVariations), ContainsAny(message, RequiredKeywords);
      assert Fires(message, Required, field) == (mentioned && keyword);
      if mentioned && keyword {
        RecordPut(before, FieldWrites(message, Required, FieldKeys[..i]), field, RequiredMessage(field));
        result.fieldErrors := result.fieldErrors[field := RequiredMessage(field)];
        result.hasFieldErrors := true;
      }
      i := i + 1;
    }
    assert FieldKeys[..i] == FieldKeys;
    if ContainsAny(message, IsbnVariants) && ContainsAny(message, RequiredKeywords) {
      RecordPut(before, PassWrites(message, Required), "isbn", RequiredMessage("isbn"));
      result.fieldErrors := result.fieldErrors["isbn" := RequiredMessage("isbn")];
      result.hasFieldErrors := true;
    }
  }


  /** `detectUniqueErrors`. */
  method DetectUniqueErrors(message: string, result: MappedError)
    modifies result
    ensures result.Value() == UniqueDetected(message, old(result.Value()))
  {
    ghost var before := result.Value();
    var i := 0;
    while i < |FieldKeys|
      invariant 0 <= i <= |FieldKeys|
      invariant result.Value() == Record(before, FieldWrites(message, Unique, FieldKeys[..i]))
    {
      var field := FieldKeys[i];
      var fieldVariations := [field, Lower(field), Upper(field)];
      FieldWritesStep(message, Unique, FieldKeys, i);
      var mentioned, keyword := ContainsAny(message, fieldVariations), ContainsAny(message, UniqueKeywords);
      assert Fires(message, Unique, field) == (mentioned && keyword);
      if mentioned && keyword {
        RecordPut(before, FieldWrites(message, Unique, FieldKeys[..i]), field, GetUniqueMessage(field));
        result.fieldErrors := result.fieldErrors[field := GetUniqueMessage(field)];
        result.hasFieldErrors := true;
      }
      i := i + 1;
    }
    assert FieldKeys[..i] == FieldKeys;
    if ContainsAny(message, IsbnVariants) && ContainsAny(message, IsbnUniqueKeywords) {
      RecordPut(before, PassWrites(message, Unique), "isbn", GetUniqueMessage("isbn"));
      result.fieldErrors := result.fieldErrors["isbn" := GetUniqueMessage("isbn")];
      result.hasFieldErrors := true;
    }
  }


  /** `detectFormatErrors`. */
  method DetectFormatErrors(message: string, result: MappedError)
    modifies result
    ensures result.Value() == FormatDetected(message, old(result.Value()))
  {
    ghost var before := result.Value();
    ghost var w: map<string, string> := map[];
    var bad := ContainsAny(message, FormatKeywords);
    var email := ContainsAny(message, ["email"]);
    var isbn := ContainsAny(message, IsbnVariants);
    if email && bad {
      RecordPut(before, w, "email", InvalidEmail);
      result.fieldErrors := result.fieldErrors["email" := InvalidEmail];
      result.hasFieldErrors := true;
      w := w["email" := InvalidEmail];
    }
    assert result.Value() == Record(before, w);
    if isbn && bad {
      RecordPut(before, w, "isbn", GetInvalidMessage("isbn"));
      result.fieldErrors := result.fieldErrors["isbn" := GetInvalidMessage("isbn")];
      result.hasFieldErrors := true;
      w := w["isbn" := GetInvalidMessage("isbn")];
    }
    assert w == FormatWrites(message);
  }


  /** The body of the per-field callback of `detectLengthErrors`: the minimum test, then the maximum test. */
  method DetectFieldLength(message: string, field: string, result: MappedError)
    modifies result
    ensures result.Value() ==
      if Fires(message, Length, field)
      then old(result.Value()).(fieldErrors := old(result.fieldErrors)[field := Verdict(message, Length, field)],
                                hasFieldErrors := true)
      else old(result.Value())
  {
    var fieldVariations := [field, Lower(field), Upper(field)];
    var mentioned := ContainsAny(message, fieldVariations);
    var atLeast, atMost := ContainsAny(message, MinKeywords), ContainsAny(message, MaxKeywords);
    assert Fires(message, Length, field) == (mentioned && (atLeast || atMost));
    if mentioned && atLeast {
      var minValue := ExtractNumber(message);
      result.fieldErrors := result.fieldErrors[field := MinLengthMessage(field, minValue)];
      result.hasFieldErrors := true;
    }
    if mentioned && atMost {
      var maxValue := ExtractNumber(message);
      result.fieldErrors := result.fieldErrors[field := MaxLengthMessage(field, maxValue)];
      result.hasFieldErrors := true;
    }
  }

  /** `detectLengthErrors`: per field, the minimum test and then the maximum test. */
  method DetectLengthErrors(message: string, result: MappedError)
    modifies result
    ensures result.Value() == LengthDetected(message, old(result.Value()))
  {
    ghost var before := result.Value();
    var i := 0;
    while i < |FieldKeys|
      invariant 0 <= i <= |FieldKeys|
      invariant result.Value() == Record(before, FieldWrites(message, Length, FieldKeys[..i]))
    {
      var field := FieldKeys[i];
      FieldWritesStep(message, Length, FieldKeys, i);
      if Fires(message, Length, field) {
        RecordPut(before, FieldWrites(message, Length, FieldKeys[..i]), field, Verdict(message, Length, field));
      }
      DetectFieldLength(message, field, result);
      i := i + 1;
    }
    assert FieldKeys[..i] == FieldKeys;
    if ContainsAny(message, IsbnVariants) {
      ghost var w := PassWrites(message, Length);
      if ContainsAny(message, MinKeywords) {
        var minValue := ExtractNumber(message);
        RecordPut(before, w, "isbn", MinLengthMessage("isbn", minValue));
        result.fieldErrors := result.fieldErrors["isbn" := MinLengthMessage("isbn", minValue)];
        result.hasFieldErrors := true;
        w := w["isbn" := MinLengthMessage("isbn", minValue)];
      }
      if ContainsAny(message, MaxKeywords) {
        var maxValue := ExtractNumber(message);
        RecordPut(before, w, "isbn", MaxLengthMessage("isbn", maxValue));
        result.fieldErrors := result.fieldErrors["isbn" := MaxLengthMessage("isbn", maxValue)];
        result.hasFieldErrors := true;
      }
    }
  }


  /** `hasFieldError`: `!!fieldErrors[fieldName]`; on a well-formed result, exactly the keys present. */
  function HasFieldError(mappedError: MappedError, fieldName: string): (r: bool)
    reads mappedError
    ensures WellFormed(mappedError.Value()) ==> (r <==> fieldName in mappedError.fieldErrors)
  {
    fieldName in mappedError.fieldErrors && mappedError.fieldErrors[fieldName] != ""
  }

  /** `getFieldError`: the entry for `fieldName`, or the empty string when there is none. */
  function GetFieldError(mappedError: MappedError, fieldName: string): (r: string)
    reads mappedError
    ensures r != "" <==> HasFieldError(mappedError, fieldName)
    ensures r != "" ==> r == mappedError.fieldErrors[fieldName]
  {
    if fieldName in mappedError.fieldErrors && mappedError.fieldErrors[fieldName] != ""
    then mappedError.fieldErrors[fieldName] else ""
  }
}

module ErrorMapperProperties {
  import opened Base
  import opened Strings
  import opened ErrorMapper

  /** The spellings a detector tries for a field match exactly when the field name itself does. */
  lemma MentionIgnoresCase(message: string, field: string)
    ensures ContainsAny(message, Variations(field)) == ContainsAny(message, [field])
  {
    LowerAbsorbs(field);
    var v := Variations(field);
    assert v[1..] == [Lower(field), Upper(field)] && v[1..][1..] == [Upper(field)];
    assert ContainsAny(message, v[1..][1..]) == Includes(Lower(message), Lower(field));
    assert ContainsAny(message, v[1..]) == Includes(Lower(message), Lower(field));
  }

  /** `isbn` and `ISBN` are mentioned together: the lower-cased spellings coincide. */
  lemma IsbnSpellingsAgree(message: string)
    ensures ContainsAny(message, Variations("isbn")) == ContainsAny(message, IsbnVariants)
    ensures ContainsAny(message, Variations("ISBN")) == ContainsAny(message, IsbnVariants)
  {
    MentionIgnoresCase(message, "isbn");
    MentionIgnoresCase(message, "ISBN");
    assert Lower("ISBN") == Lower("isbn");
    assert IsbnVariants[1..] == ["ISBN"];
  }

  /**
   * Because the `fieldNames` table has both `isbn` and `ISBN`, every
   * per-field pass (required, unique, conflict, length) writes both keys or
   * neither; the required and length messages are the same for both keys,
   * while the uniqueness message used by the unique and conflict passes
   * differs (only `isbn` has a specific text).
   */
  lemma IsbnKeysWrittenTogether(message: string, check: FieldCheck)
    ensures "isbn" in PassWrites(message, check) <==> "ISBN" in PassWrites(message, check)
    ensures (check == Required || check == Length) && "isbn" in PassWrites(message, check) ==>
              PassWrites(message, check)["isbn"] == PassWrites(message, check)["ISBN"]
    ensures (check == Unique || check == Conflict) && "isbn" in PassWrites(message, check) ==>
              PassWrites(message, check)["isbn"] == "Este ISBN já está sendo usado em outro livro" &&
              PassWrites(message, check)["ISBN"] == "ISBN já está em uso"
  {
    IsbnFiresTogether(message, check);
    if check == Unique || check == Conflict {
      IsbnUniqueVerdicts(message, check);
    } else {
      IsbnVerdictsAgree(message, check);
    }
    FieldWritesAt(message, check, FieldKeys, "isbn");
    FieldWritesAt(message, check, FieldKeys, "ISBN");
  }

  lemma IsbnFiresTogether(message: string, check: FieldCheck)
    ensures Fires(message, check, "isbn") == Fires(message, check, "ISBN")
    ensures "isbn" in FieldKeys && "ISBN" in FieldKeys
  {
    IsbnSpellingsAgree(message);
    if check == Conflict {
      assert Lower("ISBN") == Lower("isbn");
      assert ContainsAny(message, ["isbn"]) == Includes(Lower(message), Lower("isbn"));
      assert ContainsAny(message, ["ISBN"]) == Includes(Lower(message), Lower("ISBN"));
    }
  }

  lemma IsbnVerdictsAgree(message: string, check: FieldCheck)
    requires check == Required || check == Length
    ensures Verdict(message, check, "isbn") == Verdict(message, check, "ISBN")
  {
  }

  lemma IsbnUniqueVerdicts(message: string, check: FieldCheck)
    requires check == Unique || check == Conflict
    ensures Verdict(message, check, "isbn") == "Este ISBN já está sendo usado em outro livro"
    ensures Verdict(message, check, "ISBN") == "ISBN já está em uso"
  {
    UpperIsbnUniqueVerdict(message);
  }

  lemma UpperIsbnUniqueVerdict(message: string)
    ensures Verdict(message, Unique, "ISBN") == "ISBN já está em uso"
  {
    assert "ISBN" !in {"email", "isbn", "title", "name"};
    assert GetFieldName("ISBN") == "ISBN";
  }

  /** The invariant holds of the empty result the service starts from. */
  lemma InitialWellFormed()
    ensures WellFormed(Initial)
  {
  }

  /** `parseGenericError` keeps the invariant. */
  lemma GenericParsedWellFormed(message: string, s: Outcome)
    requires WellFormed(s)
    ensures WellFormed(GenericParsed(message, s))
  {
    RequiredWritesSound(message);
    UniqueWritesSound(message);
    FormatWritesSound(message);
    LengthWritesSound(message);
    RecordsKeepWellFormed(s, RequiredWrites(message), UniqueWrites(message), FormatWrites(message), LengthWrites(message));
  }

  /** Four sound batches in a row keep the invariant. */
  lemma RecordsKeepWellFormed(s: Outcome, w1: map<string, string>, w2: map<string, string>,
                              w3: map<string, string>, w4: map<string, string>)
    requires WellFormed(s) && SoundWrites(w1) && SoundWrites(w2) && SoundWrites(w3) && SoundWrites(w4)
    ensures WellFormed(Record(Record(Record(Record(s, w1), w2), w3), w4))
  {
    RecordKeepsWellFormed(s, w1);
    RecordKeepsWellFormed(Record(s, w1), w2);
    RecordKeepsWellFormed(Record(Record(s, w1), w2), w3);
    RecordKeepsWellFormed(Record(Record(Record(s, w1), w2), w3), w4);
  }

  /** Every status handler keeps the invariant. */
  lemma StatusHandledWellFormed(status: int, message: string, s: Outcome)
    requires WellFormed(s)
    ensures WellFormed(StatusHandled(status, message, s))
  {
    if status == 400 {
      RequiredWritesSound(message);
      FormatWritesSound(message);
      RecordKeepsWellFormed(s, RequiredWrites(message));
      RecordKeepsWellFormed(RequiredDetected(message, s), FormatWrites(message));
    } else if status == 401 {
      if ContainsAny(message, CredentialKeywords) {
        var r := UnauthorizedHandled(message, s);
        assert "email" in r.fieldErrors;
      }
    } else if status == 409 {
      ConflictWritesSound(message);
      RecordKeepsWellFormed(s, ConflictWrites(message));
    } else if status == 422 {
      GenericParsedWellFormed(message, s);
    }
  }

  /**
   * The result of `mapError` keeps the invariant: `hasFieldErrors` is set
   * exactly when some field has a message, every key is a `fieldNames` key,
   * and no message is empty.
   */
  lemma MappedWellFormed(e: ErrorInput)
    ensures WellFormed(Mapped(e))
  {
    var message := ErrorMessage(e);
    StatusHandledWellFormed(e.status, message, Initial);
    var handled := StatusHandled(e.status, message, Initial);
    if !handled.hasFieldErrors {
      GenericParsedWellFormed(message, handled);
    }
  }

  /** On a well-formed result, `hasFieldError` and `getFieldError` agree with the dictionary. */
  lemma FieldQueriesAgree(mappedError: MappedError, fieldName: string)
    requires WellFormed(mappedError.Value())
    ensures HasFieldError(mappedError, fieldName) <==> fieldName in mappedError.fieldErrors
    ensures GetFieldError(mappedError, fieldName) ==
            if fieldName in mappedError.fieldErrors then mappedError.fieldErrors[fieldName] else ""
  {
  }

  /**
   * A 401 whose message mentions credentials yields exactly the e-mail and
   * password entries and the wrong-credentials headline; the generic pass
   * does not run.
   */
  lemma UnauthorizedWithCredentials(e: ErrorInput)
    requires e.status == 401 && ContainsAny(ErrorMessage(e), CredentialKeywords)
    ensures Mapped(e) == Outcome(WrongCredentials,
                                 map["email" := CheckCredentials, "password" := CheckCredentials], true)
  {
    var r := UnauthorizedHandled(ErrorMessage(e), Initial);
    assert r.hasFieldErrors;
  }

  /**
   * Any other 401 leaves the dictionary to the generic pass and keeps the
   * unauthorized headline, whatever the generic pass finds.
   */
  lemma UnauthorizedOtherwise(e: ErrorInput)
    requires e.status == 401 && !ContainsAny(ErrorMessage(e), CredentialKeywords)
    ensures UnauthorizedHandled(ErrorMessage(e), Initial).fieldErrors == map[]
    ensures Mapped(e).message == Unauthorized
    ensures Mapped(e).fieldErrors == GenericParsed(ErrorMessage(e), Initial).fieldErrors
  {
  }

  /**
   * An absent (0) or unrecognised status keeps the "unexpected error"
   * headline even when the generic pass finds field errors.
   */
  lemma UnknownStatusKeepsHeadline(e: ErrorInput)
    requires e.status !in {400, 401, 409, 422}
    ensures Mapped(e).message == Unexpected
    ensures Mapped(e).fieldErrors == GenericParsed(ErrorMessage(e), Initial).fieldErrors
    ensures Mapped(e).hasFieldErrors == GenericParsed(ErrorMessage(e), Initial).hasFieldErrors
  {
  }

  /** The generic pass runs after the status handler only when that handler found no field error. */
  lemma GenericPassOnlyWithoutFieldErrors(e: ErrorInput)
    ensures var h := StatusHandled(e.status, ErrorMessage(e), Initial);
            Mapped(e).fieldErrors ==
              if h.hasFieldErrors then h.fieldErrors else GenericParsed(ErrorMessage(e), h).fieldErrors
  {
  }

  /** A 400 keeps the headline its handler chose, even if the generic pass adds entries afterwards. */
  lemma BadRequestHeadline(e: ErrorInput)
    requires e.status == 400
    ensures var h := BadRequestHandled(ErrorMessage(e), Initial);
            Mapped(e).message == if h.hasFieldErrors then FixErrorsBelow else InvalidData
  {
  }

  /** A 409 reports "already registered" exactly when some field's uniqueness test fires. */
  lemma ConflictHeadline(e: ErrorInput)
    requires e.status == 409
    ensures Mapped(e).message == if ConflictWrites(ErrorMessage(e)) != map[] then AlreadyRegistered else DataConflict
  {
  }

  /** A 422 reports "fix the errors below" when the generic pass finds entries, "validation error" otherwise. */
  lemma ValidationHeadline(e: ErrorInput)
    requires e.status == 422
    ensures Mapped(e).message == if Mapped(e).hasFieldErrors then FixErrorsBelow else ValidationFailed
  {
  }

  /**
   * Within the generic pass, when several detectors write the same key the
   * later one of required, unique, format, length wins.
   */
  lemma DetectorPrecedence(message: string, s: Outcome, k: string)
    ensures var r := GenericParsed(message, s).fieldErrors;
      && (k in r <==> k in s.fieldErrors || k in RequiredWrites(message) || k in UniqueWrites(message)
                      || k in FormatWrites(message) || k in LengthWrites(message))
      && (k in LengthWrites(message) ==> r[k] == LengthWrites(message)[k])
      && (k !in LengthWrites(message) && k in FormatWrites(message) ==> r[k] == FormatWrites(message)[k])
      && (k !in LengthWrites(message) && k !in FormatWrites(message) && k in UniqueWrites(message) ==>
            r[k] == UniqueWrites(message)[k])
      && (k !in LengthWrites(message) && k !in FormatWrites(message) && k !in UniqueWrites(message) &&
          k in RequiredWrites(message) ==>
            r[k] == RequiredWrites(message)[k])
  {
  }

  /**
   * When a message mentions a field together with both a minimum and a
   * maximum keyword, the maximum-length message overwrites the minimum one.
   */
  lemma LengthMaxWins(message: string, field: string)
    requires field in FieldKeys
    requires ContainsAny(message, [field])
    requires ContainsAny(message, MinKeywords) && ContainsAny(message, MaxKeywords)
    ensures field in LengthWrites(message)
    ensures LengthWrites(message)[field] == MaxLengthMessage(field, ExtractNumber(message))
  {
    MentionIgnoresCase(message, field);
    PassWritesContents(message, Length);
  }

  /** With a minimum keyword only, the minimum-length message stands (its bound is described by `MinLengthBound`). */
  lemma LengthMinOnly(message: string, field: string)
    requires field in FieldKeys
    requires ContainsAny(message, [field])
    requires ContainsAny(message, MinKeywords) && !ContainsAny(message, MaxKeywords)
    ensures field in LengthWrites(message)
    ensures LengthWrites(message)[field] == MinLengthMessage(field, ExtractNumber(message))
  {
    MentionIgnoresCase(message, field);
    FieldWritesAt(message, Length, FieldKeys, field);
  }
}
