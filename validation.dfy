/**
 * `validarUsuario`: the request-body check that runs before a user is
 * stored. Four guards run in a fixed order and the first that fails
 * decides the answer (HTTP 400 with its own message); when all pass the
 * handler behind it runs. The last guard can also throw, while
 * `Date.parse` converts its argument to a string.
 */
module Validation {
  import opened Wrappers
  import opened JsValue
  import opened JsString
  import opened IsoDate

  /** Why a body is refused, in the order the checks run. */
  datatype Reason = MissingFields | InvalidCpf | InvalidName | InvalidBirthDate

  /**
   * What stops a body: a refusal with its reason, or the TypeError thrown
   * when the birth date cannot be converted to a string.
   */
  datatype Refusal = Refused(reason: Reason) | Threw

  /** A body that passed every check: its three fields, exactly as supplied. */
  datatype Accepted = Accepted(cpf: string, nome: string, dataNascimento: JsValue)

  /**
   * The validator. `parse` stands for `Date.parse`, which sees any value,
   * not only strings: it converts its argument to a string first, and
   * that conversion can throw.
   */
  function Validate(body: JsValue, parse: JsValue -> DateParse): (r: Result<Accepted, Refusal>)
    ensures r.Success? ==> MatchesDigits(r.value.cpf, 11) && !IsBlank(r.value.nome)
    ensures r.Success? ==> parse(r.value.dataNascimento) == ParsedTime
  {
    var cpf, nome, dataNascimento := Field(body, "cpf"), Field(body, "nome"), Field(body, "data_nascimento");
    if !Truthy(cpf) || !Truthy(nome) || !Truthy(dataNascimento) then Failure(Refused(MissingFields))
    else if !cpf.Str? || !MatchesDigits(cpf.s, 11) then Failure(Refused(InvalidCpf))
    else if !nome.Str? || Trim(nome.s) == "" then Failure(Refused(InvalidName))
    else match parse(dataNascimento)
      case Throws => Failure(Threw)
      case NotANumber => Failure(Refused(InvalidBirthDate))
      case ParsedTime => Success(Accepted(cpf.s, nome.s, dataNascimento))
  }

  // Each check stated on its own, as what a passing field looks like.

  /** All three fields are present and truthy. */
  predicate Present(body: JsValue) {
    Truthy(Field(body, "cpf")) && Truthy(Field(body, "nome")) && Truthy(Field(body, "data_nascimento"))
  }

  /** A string of exactly eleven ASCII digits. */
  predicate CpfWellFormed(v: JsValue) {
    v.Str? && |v.s| == 11 && forall i :: 0 <= i < |v.s| ==> IsDigit(v.s[i])
  }

  /** A string with at least one character that is not whitespace. */
  predicate NameWellFormed(v: JsValue) {
    v.Str? && exists i :: 0 <= i < |v.s| && !IsWhitespace(v.s[i])
  }

  /** Whether the check that reports `e` passes, judged independently of the others. */
  predicate Passes(body: JsValue, parse: JsValue -> DateParse, e: Reason) {
    match e
    case MissingFields => Present(body)
    case InvalidCpf => CpfWellFormed(Field(body, "cpf"))
    case InvalidName => NameWellFormed(Field(body, "nome"))
    case InvalidBirthDate => parse(Field(body, "data_nascimento")) == ParsedTime
  }

  /**
   * Whether the check that reports `e` fails with that reason. Only the
   * date check has a third way out: its conversion throws, and then it
   * neither passes nor fails.
   */
  predicate Fails(body: JsValue, parse: JsValue -> DateParse, e: Reason) {
    match e
    case InvalidBirthDate => parse(Field(body, "data_nascimento")) == NotANumber
    case _ => !Passes(body, parse, e)
  }

  /** The position of each check in the chain. */
  function Rank(e: Reason): nat {
    match e
    case MissingFields => 0
    case InvalidCpf => 1
    case InvalidName => 2
    case InvalidBirthDate => 3
  }

  /** The cpf guard of the validator agrees with the stand-alone cpf check. */
  lemma CpfGuardMeansWellFormed(v: JsValue)
    ensures (v.Str? && MatchesDigits(v.s, 11)) <==> CpfWellFormed(v)
  {
  }

  /** The name guard of the validator agrees with the stand-alone name check. */
  lemma NameGuardMeansWellFormed(v: JsValue)
    ensures (v.Str? && Trim(v.s) != "") <==> NameWellFormed(v)
  {
  }

  /**
   * The validator stage by stage, each guard replaced by the stand-alone
   * check it amounts to.
   */
  lemma ValidateByStage(body: JsValue, parse: JsValue -> DateParse)
    ensures var cpf, nome, date := Field(body, "cpf"), Field(body, "nome"), Field(body, "data_nascimento");
            && (!Present(body) ==> Validate(body, parse) == Failure(Refused(MissingFields)))
            && (Present(body) && !CpfWellFormed(cpf) ==> Validate(body, parse) == Failure(Refused(InvalidCpf)))
            && (Present(body) && CpfWellFormed(cpf) && !NameWellFormed(nome) ==>
                  Validate(body, parse) == Failure(Refused(InvalidName)))
            && (Present(body) && CpfWellFormed(cpf) && NameWellFormed(nome) ==>
                  Validate(body, parse) == match parse(date)
                                           case Throws => Failure(Threw)
                                           case NotANumber => Failure(Refused(InvalidBirthDate))
                                           case ParsedTime => Success(Accepted(cpf.s, nome.s, date)))
  {
    var cpf, nome := Field(body, "cpf"), Field(body, "nome");
    CpfGuardMeansWellFormed(cpf);
    NameGuardMeansWellFormed(nome);
    if Present(body) && CpfWellFormed(cpf) {
      NameGuardDecides(body, parse);
    }
  }

  /** The checks that run before the one reporting `e`, written out. */
  predicate EarlierPass(body: JsValue, parse: JsValue -> DateParse, e: Reason) {
    match e
    case MissingFields => true
    case InvalidCpf => Passes(body, parse, MissingFields)
    case InvalidName => Passes(body, parse, MissingFields) && Passes(body, parse, InvalidCpf)
    case InvalidBirthDate =>
      Passes(body, parse, MissingFields) && Passes(body, parse, InvalidCpf) && Passes(body, parse, InvalidName)
  }

  /** `EarlierPass` is "every check ranked before `e` passes". */
  lemma EarlierPassMeansRankedBefore(body: JsValue, parse: JsValue -> DateParse, e: Reason)
    ensures EarlierPass(body, parse, e) <==> forall e' :: Rank(e') < Rank(e) ==> Passes(body, parse, e')
  {
    if EarlierPass(body, parse, e) {
      forall e' | Rank(e') < Rank(e) ensures Passes(body, parse, e') {
      }
    } else {
      match e
      case MissingFields =>
      case InvalidCpf => assert Rank(MissingFields) < Rank(e);
      case InvalidName =>
        assert Rank(MissingFields) < Rank(e) && Rank(InvalidCpf) < Rank(e);
      case InvalidBirthDate =>
        assert Rank(MissingFields) < Rank(e) && Rank(InvalidCpf) < Rank(e) && Rank(InvalidName) < Rank(e);
    }
  }

  /**
   * First failure wins: the body is refused with `e` exactly when the
   * check for `e` fails and every check before it passes. A body that
   * fails several checks is reported under the earliest only.
   */
  lemma ReportsEarliestFailure(body: JsValue, parse: JsValue -> DateParse, e: Reason)
    ensures Validate(body, parse) == Failure(Refused(e))
            <==> Fails(body, parse, e) && forall e' :: Rank(e') < Rank(e) ==> Passes(body, parse, e')
  {
    RefusedWhenEarlierPass(body, parse, e);
    EarlierPassMeansRankedBefore(body, parse, e);
  }

  /** `ReportsEarliestFailure` with the earlier checks written out. */
  lemma RefusedWhenEarlierPass(body: JsValue, parse: JsValue -> DateParse, e: Reason)
    ensures Validate(body, parse) == Failure(Refused(e)) <==> Fails(body, parse, e) && EarlierPass(body, parse, e)
  {
    ValidateByStage(body, parse);
  }

  /**
   * Validation throws exactly when the first three checks pass and the
   * birth date cannot be converted to a string: an object with its own
   * `toString` property, or an array holding one at any depth.
   */
  lemma ThrowsOnUnconvertibleDate(body: JsValue, parse: JsValue -> DateParse)
    requires ThrowsOnlyInConversion(parse)
    ensures Validate(body, parse) == Failure(Threw)
            <==> && Passes(body, parse, MissingFields) && Passes(body, parse, InvalidCpf)
                 && Passes(body, parse, InvalidName) && ToStringThrows(Field(body, "data_nascimento"))
  {
    ValidateByStage(body, parse);
  }

  /**
   * A body is accepted exactly when every check passes, and the accepted
   * record holds the fields as supplied: the name is neither trimmed nor
   * otherwise changed, and the birth date is not converted.
   */
  lemma AcceptsWhenEveryCheckPasses(body: JsValue, parse: JsValue -> DateParse)
    ensures Validate(body, parse).Success? <==> forall e :: Passes(body, parse, e)
    ensures Validate(body, parse).Success? ==>
              var a := Validate(body, parse).value;
              Str(a.cpf) == Field(body, "cpf") && Str(a.nome) == Field(body, "nome")
              && a.dataNascimento == Field(body, "data_nascimento")
  {
    ValidateByStage(body, parse);
    if !Present(body) {
      assert !Passes(body, parse, MissingFields);
    } else if !CpfWellFormed(Field(body, "cpf")) {
      assert !Passes(body, parse, InvalidCpf);
    } else if !NameWellFormed(Field(body, "nome")) {
      assert !Passes(body, parse, InvalidName);
    } else if parse(Field(body, "data_nascimento")) != ParsedTime {
      assert !Passes(body, parse, InvalidBirthDate);
    } else {
      forall e ensures Passes(body, parse, e) {
      }
    }
  }

  /** A missing or falsy field is reported as such, whatever the other fields hold. */
  lemma FalsyFieldIsMissing(body: JsValue, parse: JsValue -> DateParse)
    requires !Truthy(Field(body, "cpf")) || !Truthy(Field(body, "nome")) || !Truthy(Field(body, "data_nascimento"))
    ensures Validate(body, parse) == Failure(Refused(MissingFields))
  {
  }

  /**
   * With all fields present, the cpf check passes exactly on a string of
   * eleven ASCII digits.
   */
  lemma CpfCheck(body: JsValue, parse: JsValue -> DateParse)
    requires Present(body)
    ensures Validate(body, parse) == Failure(Refused(InvalidCpf)) <==> !CpfWellFormed(Field(body, "cpf"))
  {
    ValidateByStage(body, parse);
  }

  /** A truthy number is not a cpf, even one with eleven digits. */
  lemma NumericCpfIsInvalid(body: JsValue, parse: JsValue -> DateParse)
    requires Field(body, "cpf").Num? && Present(body)
    ensures Validate(body, parse) == Failure(Refused(InvalidCpf))
  {
  }

  /**
   * Once the earlier checks pass, the name is refused exactly when it is
   * not a string or holds nothing but whitespace.
   */
  lemma NameCheck(body: JsValue, parse: JsValue -> DateParse)
    requires Present(body) && CpfWellFormed(Field(body, "cpf"))
    ensures Validate(body, parse) == Failure(Refused(InvalidName)) <==> !NameWellFormed(Field(body, "nome"))
  {
    ValidateByStage(body, parse);
  }

  /** Past the cpf guard, the name guard alone decides whether `InvalidName` is reported. */
  lemma NameGuardDecides(body: JsValue, parse: JsValue -> DateParse)
    requires Present(body) && Field(body, "cpf").Str? && MatchesDigits(Field(body, "cpf").s, 11)
    ensures var nome := Field(body, "nome");
            Validate(body, parse) == Failure(Refused(InvalidName)) <==> !(nome.Str? && Trim(nome.s) != "")
  {
  }

  /**
   * When the date parser accepts the `YYYY-MM-DD` form, a body whose
   * other fields are good and whose birth date is such a string is accepted.
   */
  lemma IsoDatePasses(body: JsValue, parse: JsValue -> DateParse)
    requires AcceptsIsoDates(parse)
    requires CpfWellFormed(Field(body, "cpf")) && NameWellFormed(Field(body, "nome"))
    requires Field(body, "data_nascimento").Str? && IsIsoDate(Field(body, "data_nascimento").s)
    ensures Validate(body, parse).Success?
  {
  }
}
