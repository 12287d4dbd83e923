/**
 * The three route handlers over the table: POST /usuario (validation,
 * then insert-if-absent) and GET /usuario/:cpf; GET /usuarios is
 * `UserStore.List`. Each HTTP answer is a constructor carrying what its
 * JSON body carries; the message texts are not modelled.
 */
module Api {
  import opened Wrappers
  import opened JsValue
  import opened JsString
  import opened IsoDate
  import opened PropertyKeys
  import opened Validation
  import opened Store

  /**
   * The answers of POST /usuario: 201 with the stored value, 400 with its
   * reason, 409, and 500 from Express's default error handler when the
   * validator throws.
   */
  datatype PostOutcome = Created(usuario: UserData) | BadRequest(reason: Reason) | Conflict | ServerError

  /** The answers of GET /usuario/:cpf: 200 with the stored value, 404. */
  datatype GetOutcome = Found(usuario: UserData) | NotFound

  /**
   * POST /usuario as a transition of the table: the handler runs only
   * when the validator lets the body through.
   */
  function Post(t: Table, body: JsValue, parse: JsValue -> DateParse): (r: (Table, PostOutcome))
    ensures r.0 == t <==> !r.1.Created?
  {
    match Validate(body, parse)
    case Failure(Refused(e)) => (t, BadRequest(e))
    case Failure(Threw) => (t, ServerError)
    case Success(a) =>
      var u := UserData(a.nome, a.dataNascimento);
      if a.cpf in t.users then (t, Conflict) else (Inserted(t, a.cpf, u), Created(u))
  }

  /** Posting keeps the table well formed: a cpf that passes validation is never an array index. */
  lemma PostKeepsWellFormed(t: Table, body: JsValue, parse: JsValue -> DateParse)
    requires WellFormed(t)
    ensures WellFormed(Post(t, body, parse).0)
  {
    if Validate(body, parse).Success? {
      CpfIsNotArrayIndex(Validate(body, parse).value.cpf);
    }
  }

  /**
   * A body the validator stops leaves the table as it was: a refused one
   * gets its reason back, one whose birth date throws gets a server error.
   */
  lemma RefusedBodyLeavesTable(t: Table, body: JsValue, parse: JsValue -> DateParse)
    requires Validate(body, parse).Failure?
    ensures Post(t, body, parse).0 == t
    ensures Validate(body, parse).error.Refused? ==>
              Post(t, body, parse).1 == BadRequest(Validate(body, parse).error.reason)
    ensures Validate(body, parse).error == Threw ==> Post(t, body, parse).1 == ServerError
  {
  }

  /**
   * A body whose cpf and name are good but whose birth date cannot be
   * converted to a string makes `Date.parse` throw: the answer is 500 and
   * the table is left as it was.
   */
  lemma UnconvertibleDateIsServerError(t: Table, cpf: string, nome: string, date: JsValue, parse: JsValue -> DateParse)
    requires ThrowsOnlyInConversion(parse)
    requires CpfWellFormed(Str(cpf)) && NameWellFormed(Str(nome)) && ToStringThrows(date)
    ensures var body := Obj(map["cpf" := Str(cpf), "nome" := Str(nome), "data_nascimento" := date]);
            Post(t, body, parse) == (t, ServerError)
  {
    var body := Obj(map["cpf" := Str(cpf), "nome" := Str(nome), "data_nascimento" := date]);
    assert Field(body, "cpf") == Str(cpf) && Field(body, "nome") == Str(nome);
    assert Field(body, "data_nascimento") == date;
    ThrowsOnUnconvertibleDate(body, parse);
  }

  /**
   * For example a birth date `{"toString": 1}`, an object with its own
   * `toString`, is answered with 500, whatever the parser would say of
   * a string.
   */
  lemma OwnToStringIsServerError(t: Table, parse: JsValue -> DateParse)
    requires ThrowsOnlyInConversion(parse)
    ensures var date := Obj(map["toString" := Num(1.0)]);
            var body := Obj(map["cpf" := Str("12345678901"), "nome" := Str("Ana"), "data_nascimento" := date]);
            Post(t, body, parse) == (t, ServerError)
  {
    assert !IsWhitespace("Ana"[0]);
    UnconvertibleDateIsServerError(t, "12345678901", "Ana", Obj(map["toString" := Num(1.0)]), parse);
  }

  /**
   * Every entry of the table passed the validator: its key is eleven
   * digits, its name is not blank and its birth date parses.
   */
  ghost predicate HoldsValidated(t: Table, parse: JsValue -> DateParse) {
    forall k :: k in t.users ==>
      && MatchesDigits(k, 11)
      && !IsBlank(t.users[k].nome)
      && parse(t.users[k].dataNascimento) == ParsedTime
  }

  /** The table starts with nothing unvalidated in it. */
  lemma EmptyHoldsValidated(parse: JsValue -> DateParse)
    ensures HoldsValidated(Empty, parse)
  {
  }

  /** POST only ever stores what the validator let through. */
  lemma PostKeepsValidated(t: Table, body: JsValue, parse: JsValue -> DateParse)
    requires HoldsValidated(t, parse)
    ensures HoldsValidated(Post(t, body, parse).0, parse)
  {
  }

  /** The table after serving the POST requests in `bodies`, one after another. */
  function PostAll(t: Table, bodies: seq<JsValue>, parse: JsValue -> DateParse): Table
    decreases |bodies|
  {
    if bodies == [] then t else PostAll(Post(t, bodies[0], parse).0, bodies[1..], parse)
  }

  /** However many POST requests are served, the table holds only validated entries. */
  lemma {:induction false} PostsKeepValidated(t: Table, bodies: seq<JsValue>, parse: JsValue -> DateParse)
    requires HoldsValidated(t, parse)
    ensures HoldsValidated(PostAll(t, bodies, parse), parse)
    decreases |bodies|
  {
    if bodies != [] {
      var next := Post(t, bodies[0], parse).0;
      PostKeepsValidated(t, bodies[0], parse);
      PostsKeepValidated(next, bodies[1..], parse);
      assert PostAll(t, bodies, parse) == PostAll(next, bodies[1..], parse);
    }
  }

  /**
   * So GET /usuario/:cpf answers 404 for every key that is not eleven
   * digits, whatever was posted before.
   */
  lemma MalformedCpfIsNotFound(t: Table, parse: JsValue -> DateParse, k: string)
    requires HoldsValidated(t, parse)
    ensures !MatchesDigits(k, 11) ==> Lookup(t, k) == None
  {
  }

  /**
   * A valid body whose cpf is already stored is a conflict and leaves the
   * table as it was; the conflict arises for no other body.
   */
  lemma DuplicateLeavesTable(t: Table, body: JsValue, parse: JsValue -> DateParse)
    ensures Post(t, body, parse).1 == Conflict
            <==> Validate(body, parse).Success? && Validate(body, parse).value.cpf in t.users
    ensures Post(t, body, parse).1 == Conflict ==> Post(t, body, parse).0 == t
  {
  }

  /**
   * A valid body with a free cpf is created: the cpf then maps to the
   * name and birth date as supplied, the answer echoes exactly the stored
   * value (which has no cpf), the cpf is listed last and no other entry
   * changes.
   */
  lemma CreatedIsStored(t: Table, body: JsValue, parse: JsValue -> DateParse, k: string)
    requires Validate(body, parse).Success? && Validate(body, parse).value.cpf !in t.users
    ensures var cpf, t' := Validate(body, parse).value.cpf, Post(t, body, parse).0;
            && Post(t, body, parse).1.Created?
            && var u := Post(t, body, parse).1.usuario;
            && Str(cpf) == Field(body, "cpf")
            && Str(u.nome) == Field(body, "nome")
            && u.dataNascimento == Field(body, "data_nascimento")
            && Lookup(t', cpf) == Some(u)
            && t'.keys == t.keys + [cpf]
            && (k != cpf ==> Lookup(t', k) == Lookup(t, k))
  {
    AcceptsWhenEveryCheckPasses(body, parse);
  }

  /** POST /usuario against the live table. */
  method PostUsuario(store: UserStore, body: JsValue, parse: JsValue -> DateParse) returns (o: PostOutcome)
    requires store.Valid()
    modifies store
    ensures store.Valid()
    ensures (store.Model(), o) == Post(old(store.Model()), body, parse)
  {
    var v := Validate(body, parse);
    if v.Failure? {
      // A throw propagates out of the middleware and Express answers 500.
      return if v.error.Refused? then BadRequest(v.error.reason) else ServerError;
    }
    var a := v.value;
    CpfIsNotArrayIndex(a.cpf);
    var created := store.Insert(a.cpf, UserData(a.nome, a.dataNascimento));
    if !created {
      return Conflict;
    }
    // The answer is read back from the table, as `usuarios[cpf]` is.
    var stored := store.Get(a.cpf);
    o := Created(stored.value);
  }

  /** GET /usuario/:cpf: 404 exactly when nothing is stored under the cpf. */
  method GetUsuario(store: UserStore, cpf: string) returns (o: GetOutcome)
    requires store.Valid()
    ensures o == NotFound <==> cpf !in store.users
    ensures o.Found? ==> o.usuario == store.users[cpf]
  {
    var r := store.Get(cpf);
    if r.None? {
      return NotFound;
    }
    o := Found(r.value);
  }

  /** A body with a well-formed cpf and name and a `YYYY-MM-DD` birth date is accepted as is. */
  lemma WellFormedBodyIsAccepted(cpf: string, nome: string, date: string, parse: JsValue -> DateParse)
    requires AcceptsIsoDates(parse)
    requires CpfWellFormed(Str(cpf)) && NameWellFormed(Str(nome)) && IsIsoDate(date)
    ensures var body := Obj(map["cpf" := Str(cpf), "nome" := Str(nome), "data_nascimento" := Str(date)]);
            Validate(body, parse) == Success(Accepted(cpf, nome, Str(date)))
  {
  }

  /** The birth date used in the scenario below is in the `YYYY-MM-DD` form. */
  lemma ScenarioDateIsIso()
    ensures IsIsoDate("2000-01-01")
  {
  }

  /**
   * Two well-formed bodies under one cpf, posted to an empty table: the
   * first is created, the second is a conflict and changes nothing.
   */
  lemma SecondPostConflicts(cpf: string, first: string, second: string, date: string, parse: JsValue -> DateParse)
    requires AcceptsIsoDates(parse)
    requires CpfWellFormed(Str(cpf)) && NameWellFormed(Str(first)) && NameWellFormed(Str(second)) && IsIsoDate(date)
    ensures var u := UserData(first, Str(date));
            var t := Inserted(Empty, cpf, u);
            && Post(Empty, Obj(map["cpf" := Str(cpf), "nome" := Str(first), "data_nascimento" := Str(date)]), parse)
               == (t, Created(u))
            && Post(t, Obj(map["cpf" := Str(cpf), "nome" := Str(second), "data_nascimento" := Str(date)]), parse)
               == (t, Conflict)
  {
    WellFormedBodyIsAccepted(cpf, first, date, parse);
    WellFormedBodyIsAccepted(cpf, second, date, parse);
  }

  /**
   * Posting Ana, then another name under the same cpf, then reading the
   * cpf: created, conflict, and the first name is still there.
   */
  method ConflictScenario(parse: JsValue -> DateParse) returns (first: PostOutcome, second: PostOutcome, read: GetOutcome)
    requires AcceptsIsoDates(parse)
    ensures first == Created(UserData("Ana", Str("2000-01-01")))
    ensures second == Conflict
    ensures read == Found(UserData("Ana", Str("2000-01-01")))
  {
    var cpf, date := "11111111111", "2000-01-01";
    assert CpfWellFormed(Str(cpf));
    assert !IsWhitespace("Ana"[0]) && !IsWhitespace("Outra"[0]);
    ScenarioDateIsIso();
    SecondPostConflicts(cpf, "Ana", "Outra", date, parse);
    var store := new UserStore();
    var ana := Obj(map["cpf" := Str(cpf), "nome" := Str("Ana"), "data_nascimento" := Str(date)]);
    var outra := Obj(map["cpf" := Str(cpf), "nome" := Str("Outra"), "data_nascimento" := Str(date)]);
    var u := UserData("Ana", Str(date));
    first := PostUsuario(store, ana, parse);
    assert store.Model() == Inserted(Empty, cpf, u);
    second := PostUsuario(store, outra, parse);
    assert store.Model() == Inserted(Empty, cpf, u);
    read := GetUsuario(store, cpf);
  }
}
