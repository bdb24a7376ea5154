/** The request handlers of wallpost/app/app.py: each is a step from the
    store, the request and the current time to a response and a new store. */
module Handlers {
  import opened Wrappers
  import opened Search
  import opened Json
  import opened PyRepr
  import opened Schemas
  import opened Tables
  import opened Auth

  /** `timedelta(minutes=60)`, in seconds. */
  const TokenLifetime := 60 * 60

  const TokenLength := 30

  /** A character of `string.ascii_letters + string.digits`. */
  predicate IsTokenChar(c: char)
  {
    'a' <= c <= 'z' || 'A' <= c <= 'Z' || '0' <= c <= '9'
  }

  /** What `_gen_token` can return: 30 characters drawn from the 62 letters
      and digits. The random choice itself is a parameter of the handlers. */
  predicate IsGeneratedToken(s: string)
  {
    |s| == TokenLength && forall i :: 0 <= i < |s| ==> IsTokenChar(s[i])
  }

  /** A generated token fits in an `Authorization: Token <t>` header. */
  lemma GeneratedTokenHasNoSpace(s: string)
    requires IsGeneratedToken(s)
    ensures ' ' !in s
  {
  }

  /** What a handler answers with: no body, or a JSON document. */
  datatype Payload = NoContent | Document(doc: Value)

  datatype Response = Response(status: int, payload: Payload)

  /** The outcome of one request: the response and the store afterwards. */
  datatype Step = Step(response: Response, db: Store)

  /** `web.Response(status=code)`: a status with an empty body. */
  function Status(code: int): Response
  {
    Response(code, NoContent)
  }

  /** The 401 of the guard; the store is untouched. */
  function Denied(db: Store): Step
  {
    Step(Status(401), db)
  }

  // ----- Response documents -----

  /** `_dump_sticker`. */
  function DumpSticker(s: Sticker): Value
  {
    JObject(map["id" := JNumber(s.id), "title" := JString(s.title), "description" := JString(s.description)])
  }

  /** A client's reading of a sticker document: exactly the keys `id`,
      `title`, `description` with an integer and two strings. */
  function ReadSticker(v: Value): Option<Sticker>
  {
    if v.JObject? && v.fields.Keys == {"id", "title", "description"}
      && v.fields["id"].JNumber? && v.fields["title"].JString? && v.fields["description"].JString?
    then Some(Sticker(v.fields["id"].n, v.fields["title"].str, v.fields["description"].str))
    else None
  }

  /** A sticker document carries the whole row and nothing else. */
  lemma StickerDocumentRoundTrip(s: Sticker)
    ensures ReadSticker(DumpSticker(s)) == Some(s)
  {
  }

  lemma AllStickerDocumentsRoundTrip()
    ensures forall s :: ReadSticker(DumpSticker(s)) == Some(s)
  {
  }

  /** `_dump_login_token`: the token string and its expiry, nothing about the user. */
  function DumpLoginToken(t: Token): Value
  {
    JObject(map["token" := JString(t.token), "valid_until" := JNumber(t.validUntil)])
  }

  /** A client's reading of a login document: the token string and its expiry. */
  function ReadLoginToken(v: Value): Option<(string, int)>
  {
    if v.JObject? && v.fields.Keys == {"token", "valid_until"}
      && v.fields["token"].JString? && v.fields["valid_until"].JNumber?
    then Some((v.fields["token"].str, v.fields["valid_until"].n))
    else None
  }

  /** A login document carries exactly the token string and its expiry. */
  lemma LoginTokenDocumentRoundTrip(t: Token)
    ensures ReadLoginToken(DumpLoginToken(t)) == Some((t.token, t.validUntil))
  {
  }

  /** The list document: one sticker document per row, in row order. */
  function ListDocument(rows: seq<Sticker>): (v: Value)
    ensures v.JArray? && |v.items| == |rows|
    ensures forall i :: 0 <= i < |rows| ==> ReadSticker(v.items[i]) == Some(rows[i])
  {
    AllStickerDocumentsRoundTrip();
    JArray(seq(|rows|, i requires 0 <= i < |rows| => DumpSticker(rows[i])))
  }

  // ----- Body validation -----

  /** Either the validated body, or the response that ends the request. */
  datatype Checked = Accepted(data: Value) | Rejected(response: Response)

  /** The body `json_response({'error': e.message})` sends. */
  function ErrorDocument(e: SchemaError): Value
  {
    JObject(map["error" := JString(ErrorMessage(e))])
  }

  /** `validate_post_schema(schema)`: a body that is not JSON gets an empty
      400; a body the schema refuses gets 400 with the message of the first
      validation error; only a conforming body reaches the wrapped handler. */
  function ValidatePostSchema(schema: Schema, body: Body): (c: Checked)
    ensures body.NotJson? ==> c == Rejected(Status(400))
    ensures c.Accepted? <==> body.JsonBody? && Conforms(schema, body.value)
    ensures c.Accepted? ==> c.data == body.value
    ensures c.Rejected? ==> c.response.status == 400
    ensures body.JsonBody? && c.Rejected? ==>
      && Validate(schema, body.value).Some?
      && c.response.payload == Document(ErrorDocument(Validate(schema, body.value).value))
    ensures forall f :: body.JsonBody? && Validate(schema, body.value) == Some(Required(f)) ==>
      c == Rejected(Response(400, Document(JObject(map["error" := JString(StrRepr(f) + " is a required property")]))))
  {
    match body
    case NotJson => Rejected(Status(400))
    case JsonBody(v) =>
      match Validate(schema, v)
      case Some(e) => Rejected(Response(400, Document(ErrorDocument(e))))
      case None => Accepted(v)
  }

  /** The string value of a field the schema has already checked. */
  function StringField(data: Value, name: string): string
    requires data.JObject? && name in data.fields && data.fields[name].JString?
  {
    data.fields[name].str
  }

  // ----- Login and refresh -----

  function HasCredentials(username: string, password: string): User -> bool
  {
    (u: User) => u.username == username && u.password == password
  }

  /** `_find_user`: the first user whose username and password are exactly equal. */
  function FindUser(db: Store, username: string, password: string): Option<nat>
  {
    FirstIndex(db.users, HasCredentials(username, password))
  }

  /** The row `_create_new_token` inserts. */
  function NewToken(db: Store, userId: int, now: int, generated: string): Token
  {
    Token(db.nextTokenId, userId, generated, now + TokenLifetime)
  }

  /** The body of `handle_login`: find the user; answer with the first token
      row of that user whatever its expiry; mint one only when the user has
      none. */
  function Login(db: Store, username: string, password: string, now: int, generated: string): (s: Step)
    requires IsGeneratedToken(generated)
    ensures s.db.users == db.users && s.db.stickers == db.stickers && s.db.nextStickerId == db.nextStickerId
    ensures s.response.status == 404 <==> forall u :: u in db.users ==> !(u.username == username && u.password == password)
    ensures s.response.status != 404 ==> s.response.status == 200
    ensures s.response.status == 404 ==> s == Step(Status(404), db)
    ensures s.response.status == 200 ==>
      exists ui, k :: 0 <= ui < |db.users| && 0 <= k < |s.db.tokens|
        && db.users[ui].username == username && db.users[ui].password == password
        && s.db.tokens[k].userId == db.users[ui].id
        && s.response.payload == Document(DumpLoginToken(s.db.tokens[k]))
    ensures s.response.status == 200 && s.db != db ==>
      && |s.db.tokens| == |db.tokens| + 1
      && s.db.tokens[..|db.tokens|] == db.tokens
      && s.db.tokens[|db.tokens|].token == generated
      && s.db.tokens[|db.tokens|].validUntil == now + TokenLifetime
      && s.db.tokens[|db.tokens|].id == db.nextTokenId
      && s.db.nextTokenId == db.nextTokenId + 1
      && s.response.payload == Document(DumpLoginToken(s.db.tokens[|db.tokens|]))
    // Reuse: the user's first token row is the answer, whatever its expiry
    // and whatever other rows hold, and nothing is written.
    ensures forall ui, k :: (&& FindUser(db, username, password) == Some(ui)
        && 0 <= k < |db.tokens| && db.tokens[k].userId == db.users[ui].id
        && forall j :: 0 <= j < k ==> db.tokens[j].userId != db.users[ui].id) ==>
      s == Step(Response(200, Document(DumpLoginToken(db.tokens[k]))), db)
    // Mint: only a user without any token row gets a new one.
    ensures forall ui :: (&& FindUser(db, username, password) == Some(ui)
        && forall j :: 0 <= j < |db.tokens| ==> db.tokens[j].userId != db.users[ui].id) ==>
      var t := NewToken(db, db.users[ui].id, now, generated);
      s == Step(Response(200, Document(DumpLoginToken(t))),
        db.(tokens := db.tokens + [t], nextTokenId := db.nextTokenId + 1))
  {
    match FindUser(db, username, password)
    case None => Step(Status(404), db)
    case Some(ui) =>
      var user := db.users[ui];
      match FirstIndex(db.tokens, TokenOfUser(user.id))
      case Some(k) => Step(Response(200, Document(DumpLoginToken(db.tokens[k]))), db)
      case None =>
        var t := NewToken(db, user.id, now, generated);
        var db' := db.(tokens := db.tokens + [t], nextTokenId := db.nextTokenId + 1);
        assert db'.tokens[..|db.tokens|] == db.tokens;
        Step(Response(200, Document(DumpLoginToken(t))), db')
  }

  /** `handle_login` (POST /login): validation, then `Login`. Keys besides
      `username` and `password` are ignored. */
  function HandleLogin(db: Store, body: Body, now: int, generated: string): (s: Step)
    requires IsGeneratedToken(generated)
    ensures ValidatePostSchema(LoginSchema, body).Rejected? ==>
      s == Step(ValidatePostSchema(LoginSchema, body).response, db) && s.response.status == 400
    ensures ValidatePostSchema(LoginSchema, body).Accepted? ==>
      s == Login(db, body.value.fields["username"].str, body.value.fields["password"].str, now, generated)
    ensures s.response.status == 400 ==> ValidatePostSchema(LoginSchema, body).Rejected?
    ensures s.response.status in {200, 400, 404}
    ensures s.db.users == db.users && s.db.stickers == db.stickers
  {
    match ValidatePostSchema(LoginSchema, body)
    case Rejected(resp) => Step(resp, db)
    case Accepted(data) =>
      assert "username" in LoginSchema.fields && "password" in LoginSchema.fields;
      Login(db, StringField(data, "username"), StringField(data, "password"), now, generated)
  }

  /** The body of `handle_token`: push the expiry of the first row holding
      `token` to `now + 60 min`, valid or not, and answer with the refreshed
      row. An unknown token gets 404 (see the findings). */
  function Refresh(db: Store, token: string, now: int): (s: Step)
    ensures s.db.users == db.users && s.db.stickers == db.stickers
    ensures s.db.nextTokenId == db.nextTokenId && s.db.nextStickerId == db.nextStickerId
    ensures (forall i :: 0 <= i < |db.tokens| ==> db.tokens[i].token != token) ==> s == Step(Status(404), db)
    ensures (exists i :: 0 <= i < |db.tokens| && db.tokens[i].token == token) ==>
      && s.response.status == 200
      && s.response.payload.Document?
      && ReadLoginToken(s.response.payload.doc) == Some((token, now + TokenLifetime))
      && |s.db.tokens| == |db.tokens|
      && (exists k :: 0 <= k < |db.tokens| && db.tokens[k].token == token
           && (forall j :: 0 <= j < k ==> db.tokens[j].token != token)
           && forall i :: 0 <= i < |db.tokens| ==>
             s.db.tokens[i] == if db.tokens[i].id == db.tokens[k].id
               then db.tokens[i].(validUntil := now + TokenLifetime) else db.tokens[i])
  {
    match FirstIndex(db.tokens, TokenWithString(token))
    case None => Step(Status(404), db)
    case Some(k) =>
      var rows := SetValidUntil(db.tokens, db.tokens[k].id, now + TokenLifetime);
      BumpedRows(db.tokens, token, k, now + TokenLifetime);
      LoginTokenDocumentRoundTrip(rows[k]);
      Step(Response(200, Document(DumpLoginToken(rows[k]))), db.(tokens := rows))
  }

  /** The update of `_bump_token` after the first `SELECT` found row `k`:
      only `valid_until` moves, so the second `SELECT ... WHERE token = ?`
      finds row `k` again, now carrying the new expiry. */
  lemma BumpedRows(rows: seq<Token>, token: string, k: nat, v: int)
    requires FirstIndex(rows, TokenWithString(token)) == Some(k)
    ensures var bumped := SetValidUntil(rows, rows[k].id, v);
      && |bumped| == |rows|
      && FirstIndex(bumped, TokenWithString(token)) == Some(k)
      && bumped[k] == rows[k].(validUntil := v)
      && rows[k].token == token
      && (forall j :: 0 <= j < k ==> rows[j].token != token)
  {
    var bumped := SetValidUntil(rows, rows[k].id, v);
    assert forall i :: 0 <= i < |bumped| ==> bumped[i].token == rows[i].token;
    FirstIndexSameMatches(rows, bumped, TokenWithString(token));
  }

  /** `handle_token` (POST /token): validation, then `Refresh`. */
  function HandleToken(db: Store, body: Body, now: int): (s: Step)
    ensures ValidatePostSchema(RefreshTokenSchema, body).Rejected? ==>
      s == Step(ValidatePostSchema(RefreshTokenSchema, body).response, db) && s.response.status == 400
    ensures ValidatePostSchema(RefreshTokenSchema, body).Accepted? ==>
      s == Refresh(db, body.value.fields["token"].str, now)
    ensures s.response.status in {200, 400, 404}
    ensures s.response.status != 200 ==> s.db == db
    ensures s.db.users == db.users && s.db.stickers == db.stickers
  {
    match ValidatePostSchema(RefreshTokenSchema, body)
    case Rejected(resp) => Step(resp, db)
    case Accepted(data) =>
      assert "token" in RefreshTokenSchema.fields;
      Refresh(db, StringField(data, "token"), now)
  }

  // ----- Stickers -----

  /** `handle_list` (GET /wall): every row, in row order. */
  function HandleList(db: Store, header: Option<string>, now: int): (s: Step)
    ensures RequireAuthToken(db, header, now).Unauthorized? ==> s == Denied(db)
    ensures s.db == db
    ensures RequireAuthToken(db, header, now).Authorized? ==>
      && s.response.status == 200
      && s.response.payload.Document? && s.response.payload.doc.JArray?
      && |s.response.payload.doc.items| == |db.stickers|
      && forall i :: 0 <= i < |db.stickers| ==>
        ReadSticker(s.response.payload.doc.items[i]) == Some(db.stickers[i])
  {
    match RequireAuthToken(db, header, now)
    case Unauthorized => Denied(db)
    case Authorized(_) => Step(Response(200, Document(ListDocument(db.stickers))), db)
  }

  /** `handle_single` (GET /wall/{id}). */
  function HandleSingle(db: Store, header: Option<string>, now: int, id: int): (s: Step)
    ensures RequireAuthToken(db, header, now).Unauthorized? ==> s == Denied(db)
    ensures s.db == db
    ensures RequireAuthToken(db, header, now).Authorized? ==>
      (s.response.status == 200 <==> exists i :: 0 <= i < |db.stickers| && db.stickers[i].id == id)
    ensures RequireAuthToken(db, header, now).Authorized? && s.response.status != 200 ==>
      s.response == Status(404)
    ensures RequireAuthToken(db, header, now).Authorized? && s.response.status == 200 ==>
      s.response.payload.Document?
      && (exists i :: 0 <= i < |db.stickers| && db.stickers[i].id == id
           && ReadSticker(s.response.payload.doc) == Some(db.stickers[i]))
  {
    match RequireAuthToken(db, header, now)
    case Unauthorized => Denied(db)
    case Authorized(_) =>
      match FirstIndex(db.stickers, StickerWithId(id))
      case None => Step(Status(404), db)
      case Some(i) =>
        StickerDocumentRoundTrip(db.stickers[i]);
        Step(Response(200, Document(DumpSticker(db.stickers[i]))), db)
  }

  /** The row `handle_create` inserts, numbered by the sticker sequence. */
  function NewSticker(db: Store, data: Value): Sticker
    requires Conforms(StickerCreateSchema, data)
  {
    assert "title" in StickerCreateSchema.fields && "description" in StickerCreateSchema.fields;
    Sticker(db.nextStickerId, StringField(data, "title"), StringField(data, "description"))
  }

  /** `handle_create` (POST /wall): the guard runs before validation, so an
      unauthenticated request is refused with 401 whatever its body. */
  function HandleCreate(db: Store, header: Option<string>, body: Body, now: int): (s: Step)
    ensures RequireAuthToken(db, header, now).Unauthorized? ==> s == Denied(db)
    ensures RequireAuthToken(db, header, now).Authorized? && ValidatePostSchema(StickerCreateSchema, body).Rejected? ==>
      s == Step(ValidatePostSchema(StickerCreateSchema, body).response, db) && s.response.status == 400
    ensures RequireAuthToken(db, header, now).Authorized? && ValidatePostSchema(StickerCreateSchema, body).Accepted? ==>
      && s.response.status == 201
      && s.db.users == db.users && s.db.tokens == db.tokens && s.db.nextTokenId == db.nextTokenId
      && |s.db.stickers| == |db.stickers| + 1
      && s.db.stickers[..|db.stickers|] == db.stickers
      && s.db.stickers[|db.stickers|] == Sticker(db.nextStickerId,
           body.value.fields["title"].str, body.value.fields["description"].str)
      && s.db.nextStickerId == db.nextStickerId + 1
      && s.response.payload.Document?
      && ReadSticker(s.response.payload.doc) == Some(s.db.stickers[|db.stickers|])
  {
    match RequireAuthToken(db, header, now)
    case Unauthorized => Denied(db)
    case Authorized(_) =>
      match ValidatePostSchema(StickerCreateSchema, body)
      case Rejected(resp) => Step(resp, db)
      case Accepted(data) =>
        var row := NewSticker(db, data);
        var db' := db.(stickers := db.stickers + [row], nextStickerId := db.nextStickerId + 1);
        assert db'.stickers[..|db.stickers|] == db.stickers;
        StickerDocumentRoundTrip(row);
        Step(Response(201, Document(DumpSticker(row))), db')
  }

  /** `handle_put` (PUT /wall/{id}): guard, then validation, then the lookup,
      so a bad body on an absent id is a 400, not a 404. */
  function HandlePut(db: Store, header: Option<string>, body: Body, now: int, id: int): (s: Step)
    ensures RequireAuthToken(db, header, now).Unauthorized? ==> s == Denied(db)
    ensures RequireAuthToken(db, header, now).Authorized? && ValidatePostSchema(StickerCreateSchema, body).Rejected? ==>
      s == Step(ValidatePostSchema(StickerCreateSchema, body).response, db) && s.response.status == 400
    ensures (&& RequireAuthToken(db, header, now).Authorized?
             && ValidatePostSchema(StickerCreateSchema, body).Accepted?
             && forall i :: 0 <= i < |db.stickers| ==> db.stickers[i].id != id) ==>
      s == Step(Status(404), db)
    ensures (&& RequireAuthToken(db, header, now).Authorized?
             && ValidatePostSchema(StickerCreateSchema, body).Accepted?
             && exists i :: 0 <= i < |db.stickers| && db.stickers[i].id == id) ==>
      var title := body.value.fields["title"].str;
      var description := body.value.fields["description"].str;
      && s.response.status == 201
      && s.db == db.(stickers := s.db.stickers)
      && |s.db.stickers| == |db.stickers|
      && (forall i :: 0 <= i < |db.stickers| ==>
           s.db.stickers[i] == if db.stickers[i].id == id
             then Sticker(id, title, description) else db.stickers[i])
      && s.response.payload.Document?
      && ReadSticker(s.response.payload.doc) == Some(Sticker(id, title, description))
  {
    match RequireAuthToken(db, header, now)
    case Unauthorized => Denied(db)
    case Authorized(_) =>
      match ValidatePostSchema(StickerCreateSchema, body)
      case Rejected(resp) => Step(resp, db)
      case Accepted(data) =>
        match FirstIndex(db.stickers, StickerWithId(id))
        case None => Step(Status(404), db)
        case Some(i) =>
          assert "title" in StickerCreateSchema.fields && "description" in StickerCreateSchema.fields;
          var rows := SetContent(db.stickers, db.stickers[i].id,
            StringField(data, "title"), StringField(data, "description"));
          UpdatedRows(db.stickers, id, i, StringField(data, "title"), StringField(data, "description"));
          StickerDocumentRoundTrip(rows[i]);
          Step(Response(201, Document(DumpSticker(rows[i]))), db.(stickers := rows))
  }

  /** The update of `handle_put` after the lookup found row `i`: ids do not
      change, so the re-read finds row `i` again, now holding the new title
      and description. */
  lemma UpdatedRows(rows: seq<Sticker>, id: int, i: nat, t: string, d: string)
    requires FirstIndex(rows, StickerWithId(id)) == Some(i)
    ensures var updated := SetContent(rows, rows[i].id, t, d);
      && |updated| == |rows|
      && FirstIndex(updated, StickerWithId(id)) == Some(i)
      && updated[i] == Sticker(id, t, d)
      && forall j :: 0 <= j < |rows| ==>
        updated[j] == if rows[j].id == id then Sticker(id, t, d) else rows[j]
  {
    var updated := SetContent(rows, rows[i].id, t, d);
    assert forall j :: 0 <= j < |updated| ==> updated[j].id == rows[j].id;
    FirstIndexSameMatches(rows, updated, StickerWithId(id));
  }

  /** `handle_delete` (DELETE /wall/{id}): 204 exactly when a row was removed, else 404. */
  function HandleDelete(db: Store, header: Option<string>, now: int, id: int): (s: Step)
    ensures RequireAuthToken(db, header, now).Unauthorized? ==> s == Denied(db)
    ensures RequireAuthToken(db, header, now).Authorized? ==>
      && s.response.payload == NoContent
      && (s.response.status == 204 <==> exists i :: 0 <= i < |db.stickers| && db.stickers[i].id == id)
      && (s.response.status != 204 ==> s.response.status == 404 && s.db == db)
      && s.db == db.(stickers := WithoutId(db.stickers, id))
      && (forall x :: x in s.db.stickers <==> x in db.stickers && x.id != id)
  {
    match RequireAuthToken(db, header, now)
    case Unauthorized => Denied(db)
    case Authorized(_) =>
      var rows := WithoutId(db.stickers, id);
      if |rows| < |db.stickers| then Step(Status(204), db.(stickers := rows))
      else
        Step(Status(404), db.(stickers := rows))
  }
}
