# User registry API: validator and in-memory table

A Dafny model of the decision logic of a small Express service that
registers people by CPF (an 11-digit Brazilian taxpayer number). It has
two parts and the way they are composed:

- `validarUsuario`, the middleware that checks a JSON body with fields
  `cpf`, `nome` and `data_nascimento` and answers 400 with the first
  failing check's reason (module `Validation`);
- the table `usuarios`, a plain object from cpf to `{ nome, data_nascimento }`,
  with insert-if-absent (POST `/usuario`, 201 or 409), lookup (GET
  `/usuario/:cpf`, 200 or 404) and listing (GET `/usuarios`) (modules
  `Store` and `Api`).

The body is a parsed JSON value (`JsValue.JsValue`) with JavaScript
truthiness. `String.prototype.trim` and the test `/^\d{11}$/` are written
out in `JsString`. `Date.parse` is not: it is the parameter
`parse: JsValue -> DateParse`, whose three outcomes are a time value, NaN,
and a TypeError thrown while the argument is converted to a string. Two
assumptions about it are stated as predicates, and each lemma that needs one
requires it:

- `AcceptsIsoDates`: it accepts every calendar date written `YYYY-MM-DD`,
  the date-only form of the Date Time String Format (section 21.4.1.15 of
  ECMA-262, 2022 edition);
- `ThrowsOnlyInConversion`: it throws exactly when ToString of the argument
  throws (`JsValue.ToStringThrows`). That is a parsed object with its own
  `toString` property, or an array holding one at any depth (section 7.1.1.1,
  OrdinaryToPrimitive, and Array.prototype.join).

Such a throw leaves the middleware, and Express's default error handler
answers 500 (`Api.PostOutcome.ServerError`). Nothing is stored.

The table is a class `Store.UserStore` that holds a map and the keys in
insertion order. The insertion order is the order of `Object.values`
(OrdinaryOwnPropertyKeys, section 10.1.11.1 of ECMA-262, 2022 edition)
because no key is an array index. `PropertyKeys.CpfIsNotArrayIndex` proves
that this holds for every cpf that passes validation. The class methods are
proved against the value-level specification `Store.Table` (`Inserted`,
`Lookup`, `Values`) and `Api.Post`. The lemmas about runs of several
operations are stated on that specification, through `Store.Replay`.

Three consequences of the code are visible in the model:

- The birth date need not be a string. Any truthy value that `Date.parse`
  accepts after its string conversion passes, and it is stored
  unconverted. So `Accepted.dataNascimento` and `UserData.dataNascimento`
  are `JsValue`s.
- The stored name is the raw value: `trim` is used only for the emptiness check.
- `GET /usuarios` lists the users in insertion order.

## Model

| member | source | states |
|---|---|---|
| `JsValue.Truthy` | index.js:19 | ToBoolean on parsed JSON values: `undefined`, `null`, `false`, zero and `""` are falsy, every array and object is truthy; `Validation.FalsyFieldIsMissing` states what the `!x` tests then give |
| `JsValue.Field` | index.js:17 | the destructuring of `req.body`: a property of an object body, `undefined` when absent or when the body is an array; `Validation.AcceptsWhenEveryCheckPasses` states that the accepted fields are exactly these |
| `JsValue.ToStringThrows` | index.js:31 | ToString throws on an object with its own `toString` and on an array holding such a value; `Validation.ThrowsOnUnconvertibleDate` states what this does to validation |
| `JsValue.ArrayThrowsWhenAnElementThrows` | index.js:31 | converting an array throws exactly when converting one of its elements throws |
| `JsString.Trim` | index.js:27 | `trim()` is empty exactly when every character is ECMAScript whitespace; otherwise the result starts and ends with a kept character |
| `JsString.TrimStart` | index.js:27 | leading-whitespace removal leaves a suffix, drops only whitespace, and leaves no leading whitespace |
| `JsString.TrimEnd` | index.js:27 | trailing-whitespace removal leaves a prefix, drops only whitespace, and leaves no trailing whitespace |
| `JsString.TrimIsStrippedInfix` | index.js:27 | `trim()` returns the part of the string between a blank prefix and a blank suffix |
| `JsString.MatchesDigits` | index.js:23 | `/^\d{n}$/` matches exactly the strings of length n made only of ASCII digits |
| `PropertyKeys.LeadingDigitBound` | index.js:164 | a digit string without a leading zero is at least 10^(length-1) |
| `PropertyKeys.CpfIsNotArrayIndex` | index.js:164 | no 11-digit string is an array index, so `Object.values` lists cpf keys in insertion order |
| `Validation.Validate` | index.js:16-36 | the validator; an accepted record has an 11-digit cpf, a name that is not blank and a birth date the parser turns into a time value |
| `Validation.ValidateByStage` | index.js:19-35 | the four guards in order, each replaced by the stand-alone check it amounts to; after the first three, the parser's outcome decides between a throw, InvalidBirthDate and acceptance |
| `Validation.CpfGuardMeansWellFormed` | index.js:23 | the cpf guard passes exactly on a string of eleven ASCII digits |
| `Validation.NameGuardMeansWellFormed` | index.js:27 | the name guard passes exactly on a string with a non-whitespace character |
| `Validation.EarlierPassMeansRankedBefore` | index.js:19-33 | the checks written out before each reason are exactly those of lower rank |
| `Validation.RefusedWhenEarlierPass` | index.js:19-33 | the body is refused with reason e exactly when check e fails and the checks written out before it pass |
| `Validation.ReportsEarliestFailure` | index.js:19-33 | the body is refused with reason e exactly when check e fails and every earlier check passes: first failure wins, in the order missing, cpf, name, date; a date whose conversion throws is not refused with InvalidBirthDate |
| `Validation.ThrowsOnUnconvertibleDate` | index.js:31 | with a parser that throws only in conversion, validation throws exactly when the first three checks pass and the birth date cannot be converted to a string |
| `Validation.AcceptsWhenEveryCheckPasses` | index.js:17-35 | a body is accepted exactly when all four checks pass, and the record holds cpf, name and birth date exactly as supplied (name not trimmed) |
| `Validation.FalsyFieldIsMissing` | index.js:19-21 | any absent or falsy field gives MissingFields whatever the others hold |
| `Validation.CpfCheck` | index.js:23-25 | with all fields present, InvalidCpf exactly when cpf is not a string of eleven digits |
| `Validation.NumericCpfIsInvalid` | index.js:23-25 | a truthy number as cpf is refused with InvalidCpf |
| `Validation.NameCheck` | index.js:27-29 | once fields and cpf pass, InvalidName exactly when nome is not a string or is only whitespace |
| `Validation.IsoDatePasses` | index.js:31-35 | with a parser that accepts `YYYY-MM-DD`, a body with good cpf and name and such a date is accepted |
| `Store.Inserted` | index.js:111-116 | insert-if-absent on the table: the keys become the old keys plus the cpf, and no existing entry is overwritten; `Store.InsertedKeepsOthers` and `Store.FirstInsertionWins` give the rest |
| `Store.Lookup` | index.js:154 | `usuarios[cpf]` on the table, `None` for an absent key; `Store.NeverInsertedIsNotFound` and `Store.FirstInsertionWins` state what it returns after a run of insertions |
| `Store.Values` | index.js:164 | `Object.values(usuarios)`: the stored values in key order (`Store.ValuesOf`); `Store.ListAfterDistinctInsertions` states the listing after a run of insertions |
| `Store.ValuesOf` | index.js:164 | the listing has one value per key, the value stored under that key, in key order |
| `Store.InsertedKeepsOthers` | index.js:111-116 | insertion keeps the table well formed; a present key changes nothing; a free key then maps to the new value; every other key is unchanged |
| `Store.ReplayWellFormed` | index.js:116 | any run of insertions of non-index keys leaves distinct keys that match the map |
| `Store.NeverInsertedIsNotFound` | index.js:154-156 | a cpf that no insertion used is not found |
| `Store.FirstInsertionWins` | index.js:111-116 | the first insertion under a cpf decides its value; later insertions under that cpf do not overwrite it |
| `Store.KeysInInsertionOrder` | index.js:116 | after insertions under distinct cpfs the keys are those cpfs in insertion order |
| `Store.ListAfterDistinctInsertions` | index.js:164 | after N insertions under distinct cpfs the listing has exactly N values, the inserted ones in insertion order; empty for none |
| `Store.UserStore.constructor` | index.js:13 | the table starts empty |
| `Store.UserStore.Insert` | index.js:111-116 | insert-if-absent: reports whether the key was free, adds the entry last if so, otherwise leaves the table unchanged |
| `Store.UserStore.Get` | index.js:154 | returns the value stored under the key, or nothing |
| `Store.UserStore.List` | index.js:164 | returns the stored values in insertion order |
| `Api.Post` | index.js:107-118 | POST /usuario as a transition of the table: the table changes exactly when the answer is 201; `Api.RefusedBodyLeavesTable`, `Api.DuplicateLeavesTable` and `Api.CreatedIsStored` give each answer |
| `Api.PostKeepsWellFormed` | index.js:107-117 | POST keeps the table well formed, because a validated cpf is never an array index |
| `Api.EmptyHoldsValidated` | index.js:13 | the empty table holds no entry the validator did not pass |
| `Api.PostKeepsValidated` | index.js:107-117 | POST keeps the invariant that every stored entry passed the validator: an eleven-digit key, a name that is not blank, a birth date the parser turns into a time value |
| `Api.PostsKeepValidated` | index.js:107-117 | the same invariant holds after any run of POST requests |
| `Api.MalformedCpfIsNotFound` | index.js:150-157 | on a table holding only validated entries, GET /usuario/:cpf answers 404 for every cpf that is not eleven digits |
| `Api.RefusedBodyLeavesTable` | index.js:107 | a body the validator stops leaves the table as it was: a refused one gets 400 with its reason, one whose date conversion throws gets 500 |
| `Api.UnconvertibleDateIsServerError` | index.js:31 | with a parser that throws only in conversion, a body with good cpf and name and an unconvertible birth date gets 500 and leaves the table as it was |
| `Api.OwnToStringIsServerError` | index.js:31 | the birth date `{"toString": 1}` gets 500, whatever the parser does with strings |
| `Api.DuplicateLeavesTable` | index.js:111-113 | a conflict happens exactly for a valid body whose cpf is already stored, and it leaves the table as it was |
| `Api.CreatedIsStored` | index.js:116-117 | after 201 the cpf was free, it now maps to the name and birth date as supplied, the answer equals the stored value, the cpf is listed last and nothing else changes |
| `Api.PostUsuario` | index.js:107-118 | the POST handler behind the validator, against the live table: 400, 500, 409 or 201 as `Post` says, with the new table that `Post` gives, and the table stays valid |
| `Api.GetUsuario` | index.js:150-160 | 404 exactly when nothing is stored under the cpf, otherwise the stored value |
| `Api.WellFormedBodyIsAccepted` | index.js:16-35 | a body with a good cpf, a non-blank name and a `YYYY-MM-DD` date is accepted unchanged |
| `Api.SecondPostConflicts` | index.js:107-117 | on an empty table, a valid body is created and a second valid body under the same cpf is a conflict that changes nothing |
| `Api.ConflictScenario` | index.js:107-160 | post Ana, post another name under the same cpf, read it: 201, 409, and Ana is still stored |

## Left out

- Express wiring, the Swagger UI route and its configuration, the welcome
  route, `express.json()`, `app.listen` and logging: transport plumbing
  with no decisions. The JSON body is taken as already parsed.
- The error message texts: only which answer is given. The status codes
  are named on `Api.PostOutcome` and `Api.GetOutcome`. The HTML body of
  Express's 500 answer is not modelled either.
- The internals of `Date.parse`. Outside the Date Time String Format its
  behaviour is implementation-defined, so it stays the parameter `parse`.
  The assumption `AcceptsIsoDates` covers only dates that exist in the
  calendar, because engines differ on strings such as `2021-02-30`.
- Other throws: the other guards cannot throw on a parsed JSON value
  (`typeof`, `RegExp.prototype.test` on a string, `trim` on a string), and
  neither can the handlers.
- Inherited properties: a lookup of `constructor` or `__proto__` on the
  source's plain object finds a value on `Object.prototype`. The map model
  has no inherited keys and answers NotFound. POST cannot reach this,
  because a cpf is eleven digits.
- Bodies that are not objects. Express 4 is assumed: no source file fixes
  the major version. Strict JSON parsing (the `express.json()` default)
  refuses every top-level scalar before the validator runs, and in Express 4
  a request that is not JSON leaves the body `{}`. So only objects and
  arrays reach the validator. The model gives an array no fields, and it
  answers MissingFields. Under Express 5 a request that is not JSON leaves
  the body `undefined`, the destructuring throws, and the answer would be
  500.
- Numbers: `Num` holds the value of the IEEE double that JSON parsing
  produces, as a real, so `1e-400` is `Num(0.0)` and falsy. A literal that
  overflows, such as `1e400`, parses to Infinity or -Infinity, and those
  have no `Num`. A nonzero `Num` stands in for them: it is truthy as they
  are, it is refused as a cpf and as a name as they are, and `parse` is
  abstract, so it may answer for it what `Date.parse` answers for Infinity.
  A stored Infinity would be echoed as `null` by `res.json`, and the model
  does not represent JSON output.
- Strings are sequences of Unicode scalar values, so a lone UTF-16
  surrogate cannot be represented. Digits and whitespace are all single
  code units, so neither check is affected.
- Store.UserStore.Insert: requires that the key is not an array index.
  Only then is `Object.values` order insertion order. The only caller, the
  POST handler, passes a validated cpf, and that is proved never to be one.
- Concurrency: each handler runs to completion on one thread. The check
  followed by the write is therefore atomic, and there is nothing to model.
