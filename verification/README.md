# Sticker wall: token authentication and request handling

A Dafny model of the request handling of the wallpost service, an aiohttp
backend that serves a "wall" of stickers. Each sticker has a title and a
description. A user logs in with a username and password. The answer is a
bearer token, valid for 60 minutes, and `POST /token` renews it. Every
sticker route (list, get, create, update, delete) sits behind the
`Authorization: Token <t>` guard.

The model is functional. A store holds the `user`, `token` and `sticker`
tables as sequences of rows, in the row shapes of `wallpost/app/db.py`. It
also holds the next values of the two `serial` sequences that number new
tokens and stickers. Each handler is a pure function. It takes the store, the
request and the current time (an integer, in seconds), and it returns a
response and the new store.

Modules:

- `Wrappers`, `Search` (wrappers.dfy): `Option`, and `FirstIndex`, the
  first row matching a predicate. This is how the model reads a
  `fetchone()`.
- `Text` (text.dfy): Python's `str.split(' ')`, with proofs that it is the
  unique separator-free decomposition and what its first two pieces are.
- `Json` (json.dfy): decoded JSON values, and request bodies that may fail to
  decode.
- `PyRepr` (repr.dfy): Python's `repr` of decoded JSON values (strings,
  integers, `None`, booleans, lists and dicts). Validation error messages
  quote the offending value and the field names with it.
- `Schemas` (schemas.dfy, modelling schemas.py): the three request schemas, JSON Schema validation
  of their shape, and the text of the validation error messages.
- `Tables` (tables.dfy, modelling db.py): the row types, the store, and the `WellFormed` invariant.
  The invariant says primary keys are unique, ids lie below their sequence,
  and every token references a user.
- `Auth` (auth.dfy, modelling app.py): `safe_unpack` and the `require_auth_token` guard.
- `Handlers` (handlers.dfy, modelling app.py): `validate_post_schema`, the response documents, login,
  refresh and the five sticker handlers.
- `Routes` (routes.dfy, modelling `__init__.py`): the routing table. Also proofs that every request
  keeps the store well formed and that the protected routes refuse requests
  without a valid token.
- `Lifecycle`: properties of request sequences. Login then access, repeated
  login, the expired-token reuse quirk, refresh then access, and
  create/update/delete followed by a read.
- `AsWritten`: the two handlers whose code crashes on inputs the service
  accepts. They are modelled as written, next to the corrected behaviour (see
  Findings).
- `Scenarios`: the scenarios of `tests/test_app.py` over a fixture store.

Some choices in the model:

- `fetchone()` returns the first matching row in table order, and an
  `UPDATE` leaves a row where it was. SQL leaves that order unspecified, and
  PostgreSQL's `UPDATE` writes a new row version that a scan usually meets
  after the untouched rows; see "Left out" for where this matters.
- `UPDATE` and `DELETE` act on every row with the given id, as the SQL does.
  Under `WellFormed` that is exactly one row (`Lifecycle.RefreshChangesOneRow`).
- The guard takes the first row of the token–user join. The sticker handlers
  never use the user they receive.
- A token is accepted at `now` when `valid_until >= now`. The boundary is
  inclusive.
- Schema validation assumes the error order of `jsonschema` 2.x, where
  `validate` raises the first error it meets, keyword by keyword in the
  order the schema lists them. The `type` keyword comes first. Next come the
  `properties` in declared order: a present field that is not a string fails
  here. Last comes `required` in declared order, which reports the first
  missing field. Under this order a wrongly typed field is reported before
  a missing one (`Schemas.WrongTypeReportedFirst`). The service does not pin
  the `jsonschema` version; see "Left out".
- A refused body gets a 400 whose document is `{"error": message}`. The
  message is the one `jsonschema` 2.x writes: `'<field>' is a required
  property`, or `<repr of the value> is not of type '<type>'`.

## Model

| member | source | states |
|---|---|---|
| Search.FirstIndex | wallpost/app/db.py:78-80 | `fetchone()`: the index found holds a matching row and no earlier row matches; none is found exactly when no row matches |
| Search.FirstIndexSameMatches | wallpost/app/app.py:146-149 | after an update that leaves every row's match unchanged, a second select finds the same row |
| Search.FirstIndexAppend | wallpost/app/app.py:128-130 | inserting a row after the others keeps an earlier first match; the new row is found only when no earlier row matches |
| Text.Split | wallpost/app/app.py:56 | `header.split(' ')`: at least one piece; the pieces joined by the separator give back the header; no piece contains a separator; one piece exactly when the header has no separator |
| Text.SplitNoSeparator | wallpost/app/app.py:56 | a string without a separator splits into itself alone |
| Text.SplitAtSeparator | wallpost/app/app.py:56 | the first separator ends the first piece and the rest splits on its own |
| Text.SplitUnique | wallpost/app/app.py:56 | any separator-free pieces that join to the string are exactly its split |
| Text.FirstPiece | wallpost/app/app.py:56-57 | the first piece is `w` exactly when the string is `w` or starts with `w` and a separator |
| Text.SecondPiece | wallpost/app/app.py:56 | after the first piece and a separator, the second piece runs to the next separator or the end |
| Schemas.Validate | wallpost/app/schemas.py:5-31 | no error exactly when the body is an object holding every listed field as a string; a non-object fails on `type: object`; a missing-field error names the first missing field in declared order; an object of strings that does not conform fails with a missing-field error |
| Schemas.LoginSchemaValid | wallpost/app/schemas.py:5-12 | a login body is valid exactly when it is an object with string `username` and `password` |
| Schemas.RefreshTokenSchemaValid | wallpost/app/schemas.py:15-21 | a refresh body is valid exactly when it is an object with a string `token` |
| Schemas.StickerCreateSchemaValid | wallpost/app/schemas.py:24-31 | a sticker body is valid exactly when it is an object with string `title` and `description` |
| Schemas.FirstMissingFieldReported | wallpost/app/tests/test_app.py:56-66 | when every present field is a string, the error is the first missing field in declared order |
| Schemas.WrongTypeReportedFirst | wallpost/app/schemas.py:5-31 | a present field that is not a string is reported, with its value, whenever no earlier listed field is wrongly typed, even if later fields are missing |
| Schemas.RequiredMessageText | wallpost/app/app.py:84-87 | for a field name of plain characters the missing-field message is `'<field>' is a required property` |
| Schemas.RequiredMessageNamesField | wallpost/app/app.py:84-87 | for any field name, the missing-field message is the quoted name followed by ` is a required property`, and the quoted part reads back as the field name |
| PyRepr.StrRepr | wallpost/app/app.py:87 | `repr` of a string starts and ends with the same quote: `"` exactly when the text holds `'` and no `"`, else `'` |
| PyRepr.PlainStrRepr | wallpost/app/app.py:87 | text without quotes, backslashes or non-printable characters is quoted as it is |
| PyRepr.EscapeRoundTrip | wallpost/app/app.py:87 | reading back the escaped text of a string literal gives the original string |
| PyRepr.StrReprRoundTrip | wallpost/app/app.py:87 | the inside of `repr(s)` reads back as `s`, so the message identifies the value exactly |
| PyRepr.NatRepr | wallpost/app/app.py:87 | the decimal text of a non-negative integer is non-empty, all digits, with no leading zero |
| PyRepr.IntReprRoundTrip | wallpost/app/app.py:87 | the decimal text of any integer reads back as that integer |
| PyRepr.SortedKeys | wallpost/app/app.py:87 | the keys of an object listed once each, in strictly ascending code-point order |
| Tables.WithoutId | wallpost/app/app.py:207 | `DELETE ... WHERE id = ?`: the rows kept are exactly those with another id; nothing is removed exactly when no row has the id, and then the table is unchanged |
| Tables.WithoutIdConcat | wallpost/app/app.py:207 | the delete acts row by row: deleting from two concatenated tables is concatenating the two deletes, so the rows kept stay in table order with their multiplicity |
| Tables.WithoutIdKeepsKeys | wallpost/app/db.py:13-18 | deleting keeps the remaining sticker ids distinct and below the sequence |
| Auth.SafeUnpack | wallpost/app/app.py:45-49 | for `n >= 0`, exactly `n` entries; for `n < 0`, `data[:n]`, which drops `-n` entries from the end (none are left when `-n` is at least the length); entry `i` is the `i`-th element when there is one, `None` after the end |
| Auth.SafeUnpackPrefix | wallpost/app/app.py:45-49 | unpacking fewer entries yields a prefix of unpacking more |
| Auth.SafeUnpackExact | wallpost/app/app.py:45-49 | unpacking exactly as many entries as there are keeps every element |
| Auth.HeaderPieces | wallpost/app/app.py:55-56 | the header is cut into exactly two entries: scheme and credential |
| Auth.TokenOwner | wallpost/app/app.py:60-66 | a user is found exactly when some token row holds the credential, is valid at `now` (inclusive) and joins to a user; the user found is that row's user; a missing credential finds nobody |
| Auth.RequireAuthToken | wallpost/app/app.py:52-71 | a first piece other than exactly `Token` is refused whatever the store holds; otherwise the request is authorized exactly when a row of the token–user join grants the second piece at `now`, and the handler receives that row's user |
| Auth.GuardReadsOnlyCredentials | wallpost/app/app.py:60-65 | the verdict depends only on the user and token tables |
| Auth.SchemeAccepted | wallpost/app/app.py:56-58 | the scheme check passes exactly for `Token` and for headers starting `Token ` (case-sensitive) |
| Auth.MissingHeaderRefused | wallpost/app/app.py:55-58 | a missing header counts as `''` and is refused |
| Auth.BareSchemeRefused | wallpost/app/app.py:56-66 | a bare `Token` header has no credential and is refused |
| Auth.CredentialOfHeader | wallpost/app/app.py:56 | in `Token <t>`, optionally followed by a space and more, the credential is `t`; extra pieces are ignored |
| Auth.TokenHeaderAuthorized | wallpost/app/app.py:60-67 | `Token <t>` is authorized at `now` exactly when some row holds `t`, has `valid_until >= now` and belongs to an existing user |
| Handlers.GeneratedTokenHasNoSpace | wallpost/app/app.py:98-101 | a generated token (30 letters and digits) contains no space, so it fits in the header |
| Handlers.StickerDocumentRoundTrip | wallpost/app/app.py:15-20 | reading a dumped sticker gives back the whole row |
| Handlers.LoginTokenDocumentRoundTrip | wallpost/app/app.py:23-27 | reading a dumped token gives back its string and expiry |
| Handlers.ListDocument | wallpost/app/app.py:157 | the list document has one entry per row, and entry `i` reads back as row `i` |
| Handlers.ValidatePostSchema | wallpost/app/app.py:74-92 | a non-JSON body gets an empty 400; a body passes exactly when it is JSON and conforms, and is then passed on unchanged; a refused JSON body gets a 400 whose document is `{"error": message}`, with the message of the first validation error; for a missing field `f` that message is `repr(f)` followed by ` is a required property` |
| Handlers.Login | wallpost/app/app.py:98-132 | 404 with the store unchanged exactly when no user has exactly these credentials; when the first matching user has a token row, the answer is that user's first token row as it is, whatever its expiry, and nothing is written; when the user has no token row, one new row is appended with the generated string, expiry `now + 60 min` and the next sequence id, the sequence advances, and that row is the answer |
| Handlers.HandleLogin | wallpost/app/app.py:95-132 | a body the schema refuses gets the validator's 400 (with its `{"error": message}` document) and changes nothing; an accepted body is answered exactly as `Login` answers its `username` and `password`; the answer is 200, 400 or 404; users and stickers are never touched |
| Handlers.Refresh | wallpost/app/app.py:137-150 | a known token: 200, the same string with expiry `now + 60 min`, and the first row holding it (no earlier row holds it), together with any row sharing its id, gets that expiry whether or not it had expired, all else unchanged; an unknown token: 404 and nothing changes |
| Handlers.BumpedRows | wallpost/app/app.py:142-150 | bumping the expiry of the row the token lookup found keeps every token string in place, so the second lookup finds that same row (still the first holding the token), now carrying the new expiry |
| Handlers.HandleToken | wallpost/app/app.py:135-150 | a body the schema refuses gets the validator's 400 (with its `{"error": message}` document) and changes nothing; an accepted body is answered exactly as `Refresh` answers its `token`; the answer is 200, 400 or 404; only a 200 changes the store; users and stickers are never touched |
| Handlers.HandleList | wallpost/app/app.py:153-157 | unauthorized: 401 and nothing changes; authorized: 200 with one document per row in row order, reading back as the rows; the store never changes |
| Handlers.HandleSingle | wallpost/app/app.py:160-169 | unauthorized: 401; authorized: 200 exactly when a row has the id, with the document of such a row, else an empty 404; the store never changes |
| Handlers.HandleCreate | wallpost/app/app.py:172-182 | unauthorized: 401 whatever the body; bad body: the validator's 400 with its `{"error": message}` document, and nothing changes; else 201, one row appended with the next sequence id and the submitted title and description, and the document reads back as that row |
| Handlers.HandlePut | wallpost/app/app.py:185-200 | unauthorized: 401 whatever the body; bad body: the validator's 400 with its `{"error": message}` document, and nothing changes; absent id: 404 and nothing changes; else 201, the rows with the id get the submitted title and description, every other row and table is unchanged, and the document reads back as the updated sticker |
| Handlers.UpdatedRows | wallpost/app/app.py:196-200 | the update keeps every id in place, so the re-read finds the same first row with the id, now holding the submitted title and description; the rows with that id are rewritten and every other row is unchanged |
| Handlers.HandleDelete | wallpost/app/app.py:203-208 | unauthorized: 401; authorized: 204 exactly when a row had the id, else 404 with nothing changed; the sticker table becomes `WithoutId` of it, so the rows kept are exactly those with another id, in their order and multiplicity (`Tables.WithoutIdConcat`) |
| Routes.Dispatch | wallpost/app/__init__.py:36-44 | the five sticker routes answer 401 with the store unchanged when the guard refuses; login and refresh never answer 401; every answer is 200, 201, 204, 400, 401 or 404; the user table never changes; reads leave the store unchanged |
| Routes.ProtectedRoutesNeedHeader | wallpost/app/__init__.py:40-44 | every sticker route refuses a request without an `Authorization` header, whatever the body |
| Routes.LoginKeepsWellFormed | wallpost/app/app.py:103-111 | a minted token row has a fresh unique id and references an existing user |
| Routes.RefreshKeepsWellFormed | wallpost/app/app.py:142-144 | a refresh changes no id and no user reference |
| Routes.CreateKeepsWellFormed | wallpost/app/app.py:175-177 | a created sticker takes a fresh unique id |
| Routes.PutKeepsWellFormed | wallpost/app/app.py:195-196 | an update changes no id |
| Routes.DeleteKeepsWellFormed | wallpost/app/app.py:207 | a delete keeps the remaining ids unique |
| Routes.DispatchKeepsWellFormed | wallpost/app/db.py:13-34 | every request keeps keys unique, ids below their sequence, and token user references valid |
| Lifecycle.LoginThenAuthorized | wallpost/app/app.py:124-132 | the token a successful login returns, if it has no space, is accepted up to and including the expiry the login announced |
| Lifecycle.MintedTokenLastsAnHour | wallpost/app/app.py:103-111 | a freshly minted token is accepted for the whole hour after the login |
| Lifecycle.LoginIsIdempotent | wallpost/app/app.py:113-130 | a second login with the same body, at any time and with any generator output, gets the same answer and changes nothing |
| Lifecycle.LoginTwice | wallpost/app/app.py:113-130 | `Login` repeated with the same credentials, at any time and with any generator output, answers from the row the first call reused or minted and writes nothing |
| Lifecycle.LoginReturnsExpiredToken | wallpost/app/app.py:113-115 | when the user's first token row has expired, login answers 200 with that row's string and past expiry and writes nothing, whatever later rows hold; when also every row holding that string has expired, the token handed out is refused |
| Lifecycle.RefreshThenAuthorized | wallpost/app/app.py:142-147 | after a refresh the token is accepted for the next hour, even if it had expired |
| Lifecycle.RefreshChangesOneRow | wallpost/app/app.py:142-144 | in a well-formed store a refresh changes the expiry of exactly the row it found |
| Lifecycle.CreateThenGet | wallpost/app/app.py:175-182 | reading a just-created sticker by its new id answers 200 with the identical document |
| Lifecycle.PutThenGet | wallpost/app/app.py:188-200 | reading an updated sticker answers 200 with the document the update returned |
| Lifecycle.DeleteThenGet | wallpost/app/app.py:205-208 | reading a deleted sticker answers 404 |
| AsWritten.HandleTokenAsWritten | wallpost/app/app.py:137-147 | as written: an unknown token answers 500 exactly where the corrected handler answers 404, with the same store; otherwise it answers the same |
| AsWritten.RefreshUnknownTokenFaults | wallpost/app/app.py:146-147 | as written: `{"token": "x"}` against an empty token table answers 500 |
| AsWritten.RefreshUnknownTokenNotFound | wallpost/app/app.py:146-147 | corrected: an unknown token answers 404 and leaves the store alone |
| AsWritten.HandleLoginAsWritten | wallpost/app/app.py:117-124 | as written: a valid body with keys besides `username` and `password` answers 500 and changes nothing; otherwise it answers as the corrected handler |
| AsWritten.LoginExtraFieldFaults | wallpost/app/app.py:124 | as written: a body with an extra `remember` key answers 500 |
| AsWritten.LoginIgnoresExtraFields | wallpost/app/app.py:124 | corrected: a login body answers as its `username` and `password` alone |
| Scenarios.FixtureHeaderAuthorized | wallpost/app/tests/conftest.py:104-105 | `Token TestToken` is accepted up to the fixture token's expiry |
| Scenarios.SafeUnpackCases | wallpost/app/tests/test_app.py:10-19 | the six cases of the `safe_unpack` table, and two negative counts |
| Scenarios.LoginRequiredFields | wallpost/app/tests/test_app.py:56-66 | `{}` gets 400 with `{"error": "'username' is a required property"}`, and `{"username": "Test"}` gets 400 with `{"error": "'password' is a required property"}`; the store is unchanged |
| Scenarios.LoginWrongType | wallpost/app/app.py:84-87 | `{"username": 5}` gets 400 with `{"error": "5 is not of type 'string'"}`, not the missing `password` |
| Scenarios.TokenRequiredField | wallpost/app/tests/test_app.py:119-125 | `{}` on `/token` gets 400 with `{"error": "'token' is a required property"}` and the store is unchanged |
| Scenarios.LoginNotExisting | wallpost/app/tests/test_app.py:69-75 | an unknown user gets 404 |
| Scenarios.LoginReturnsValidToken | wallpost/app/tests/test_app.py:78-92 | the fixture user gets the fixture token as it is, and the store is unchanged |
| Scenarios.CreateRequiredFields | wallpost/app/tests/test_app.py:206-222 | `POST /wall` with `{}` gets 400 with `{"error": "'title' is a required property"}`, and with `{"title": "Test"}` gets 400 with `{"error": "'description' is a required property"}`; nothing is stored |
| Scenarios.UpdateRequiredFields | wallpost/app/tests/test_app.py:256-269 | `PUT /wall/{id}` with the same two bodies gets the same two 400s, and the store is unchanged |
| Scenarios.ListWallEmpty | wallpost/app/tests/test_app.py:142-148 | an empty wall lists as `[]` |
| Scenarios.StickerNotExisting | wallpost/app/tests/test_app.py:171-174 | get, update and delete of sticker 123 on an empty wall answer 404 |
| Scenarios.CreateWall | wallpost/app/tests/test_app.py:191-203 | creating `Hi`/`Desc` answers 201 with id 1 and stores exactly that row |

## Findings

| source | as written | input that shows it | evidently intended | confidence | as-written member | corrected member |
|---|---|---|---|---|---|---|
| wallpost/app/app.py:146-147 | `_get_valid_token` returns `None` for an unknown token, and `_bump_token` reads `fnd_token.id`, so `AttributeError` escapes and the server answers 500 | no token rows; `POST /token` with `{"token": "x"}` | a 4xx for an unknown token (404 here), store unchanged | high (not executed) | AsWritten.HandleTokenAsWritten, AsWritten.RefreshUnknownTokenFaults | Handlers.HandleToken, AsWritten.RefreshUnknownTokenNotFound |
| wallpost/app/app.py:124 | `_find_user(**data)` turns every body key into a keyword argument, so a schema-valid body with an extra key raises `TypeError` and the server answers 500 | `POST /login` with `{"username": "u", "password": "p", "remember": true}` | the schema allows extra keys, so they are ignored and the login proceeds | medium (not executed) | AsWritten.HandleLoginAsWritten, AsWritten.LoginExtraFieldFaults | Handlers.HandleLogin, AsWritten.LoginIgnoresExtraFields |

`Routes.Dispatch` and the lifecycle lemmas use the corrected handlers.

## Left out

- Connection handling (`require_postgresql_conn`, `ExtendedSAConnection`,
  `connect`, `create_table`), application start-up and shutdown, and the
  configuration in `wallpost/db.py` and `wallpost/wsgi.py`. These are I/O
  against PostgreSQL and the aiohttp application; the model keeps only the
  row shapes and the sequence counters.
- Concurrency between requests, for example two logins racing to create a
  token. Every request is one atomic step.
- Randomness of `_gen_token`. The generated token is a parameter, and the
  model requires only that it is 30 letters or digits. Nothing is assumed
  about uniqueness, which the source does not guarantee either.
- Wall-clock time and `datetime` precision. Time is an integer number of
  seconds passed in as `now`, and the lifetime is 3600 seconds. The ISO-8601
  rendering of `valid_until` in `json_response` is left out: documents carry
  the integer.
- Schemas.Validate: the error order is that of `jsonschema` 2.x. The
  service does not pin a version. From 3.0 on, `validate` raises
  `best_match` of all errors, which prefers the `required` error, so a body
  with both a wrongly typed and a missing field would be refused naming the
  missing field. The model does not cover those versions. The two orders
  agree on every body the service's tests send. Checking keyword by keyword
  in the order the schema lists them also relies on dicts keeping insertion
  order, which Python guarantees from 3.7 on (CPython 3.6 already does); the
  Python version is not pinned either.
- PyRepr.ValueRepr: a dict is written with its keys in ascending code-point
  order. Python writes them in the order of the request body, which the
  decoded map does not keep. Messages that quote an object value can
  therefore differ in key order.
- PyRepr.EscapeChar: non-printable characters above U+00FF (for example
  U+2028) are written as themselves, where Python writes `\u` or `\U`
  escapes. The service's schemas only quote field names and submitted
  values, and the `\x` range is covered.
- JSON numbers that are not integers, and the JSON text itself. A body is
  either undecodable or a decoded value.
- URL matching. Path ids are integers. A non-numeric `{id}` reaches
  PostgreSQL as a text compared with an integer column, which fails there.
  That is not modelled.
- Handlers.HandleSingle, Handlers.HandlePut and Handlers.HandleDelete: the
  path id is an unbounded integer, but the `id` columns are `sa.Integer`,
  PostgreSQL's 32-bit `integer`. A numeric id outside -2147483648 ..
  2147483647 (for example `GET /wall/2147483648`) makes PostgreSQL raise
  "out of range for type integer", which nothing catches, so the server
  answers 500. The model answers 404 for such an id, as for any absent one.
- Handlers.HandleCreate and Handlers.Login: a new row takes the next
  sequence value (`nextStickerId`, `nextTokenId`) whatever the table holds.
  When that value is already the id of a row, for example one inserted with
  an explicit `id` key or written outside the service, the primary key
  refuses the `INSERT`, the `IntegrityError` goes uncaught, and the server
  answers 500. The model appends a second row with that id and answers 201
  or 200. In a `WellFormed` store every id lies below its sequence, so this
  cannot happen there.
- HandleCreate: in the source, body keys besides `title` and `description`
  go to SQLAlchemy as further column values through `values(**data)`. An
  unknown column is rejected there, and an `id` key sets the primary key.
  The model stores only `title` and `description`.
- HandlePut: the same applies to the `UPDATE ... values(**data)`. The model
  rewrites only `title` and `description`.
- Handlers.Refresh: the answer is read from the first row holding the token,
  bumped in place. When two rows hold the same string (rows A then B), the
  source bumps A, but its second `SELECT` may return B with its old
  `valid_until`, because the updated A can move behind B in scan order. The
  model answers with A's new expiry. With one row per string both agree.
- Handlers.Login: the reused row is the user's first token row in table
  order. For a user with several token rows, one of which was refreshed, the
  source's `fetchone()` may return a different row than the model. The
  service itself only mints a row for a user who has none.
- Json.Body: a body whose bytes do not decode in the request's charset makes
  `request.json()` raise `UnicodeDecodeError`, which the handler's `except
  json.JSONDecodeError` does not catch, so the server answers 500. The model
  has no such body: `NotJson` stands for text that is not JSON and gets the
  400.
- Handlers.HandleLogin, Handlers.HandleToken, Handlers.HandleCreate and
  Handlers.HandlePut: a submitted string holding U+0000, or a lone surrogate
  such as `"\ud800"`, passes validation but makes the database driver raise
  when the query runs, so the server answers 500. The model treats such
  strings like any other and answers 404, 200 or 201.
- Column limits: `varchar(255)` lengths and a NULL `description` in rows
  written outside the service.
