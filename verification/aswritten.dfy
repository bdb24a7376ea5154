/** Two handlers of wallpost/app/app.py as the code behaves, next to the
    corrected handlers the rest of the model uses. An exception escaping a
    handler is answered by the server with status 500; the error page the
    server sends with it is not modelled, so the payload here is empty. */
module AsWritten {
  import opened Wrappers
  import opened Search
  import opened Json
  import opened Schemas
  import opened Tables
  import opened Handlers

  /** The answer to an unhandled exception: the status, without the server's error page. */
  const InternalError := Status(500)

  /** `handle_token` as written: for an unknown token `_get_valid_token`
      returns `None` and `_bump_token` reads `None.id`, which raises before
      anything is written. */
  function HandleTokenAsWritten(db: Store, body: Body, now: int): (s: Step)
    ensures s.db == HandleToken(db, body, now).db
    ensures s.response.status == 500 <==> HandleToken(db, body, now).response.status == 404
    ensures s.response.status != 500 ==> s == HandleToken(db, body, now)
  {
    match ValidatePostSchema(RefreshTokenSchema, body)
    case Rejected(resp) => Step(resp, db)
    case Accepted(data) =>
      assert "token" in RefreshTokenSchema.fields;
      var token := StringField(data, "token");
      match FirstIndex(db.tokens, TokenWithString(token))
      case None => Step(InternalError, db)
      case Some(_) => Refresh(db, token, now)
  }

  /** The body `{"token": t}`. */
  function RefreshBody(t: string): Body
  {
    JsonBody(JObject(map["token" := JString(t)]))
  }

  /** The fault, on the smallest input: no token rows, body `{"token": "x"}`. */
  lemma RefreshUnknownTokenFaults(now: int)
    ensures HandleTokenAsWritten(Store([], [], [], 1, 1), RefreshBody("x"), now).response == InternalError
  {
  }

  /** The corrected handler answers an unknown token with 404 and leaves the
      store alone; it never answers 500. */
  lemma RefreshUnknownTokenNotFound(db: Store, t: string, now: int)
    requires forall i :: 0 <= i < |db.tokens| ==> db.tokens[i].token != t
    ensures HandleToken(db, RefreshBody(t), now) == Step(Status(404), db)
  {
  }

  /** `handle_login` as written: `_find_user(**data)` passes every key of the
      body as a keyword argument, so any key besides `username` and
      `password` raises `TypeError` before the user table is read. */
  function HandleLoginAsWritten(db: Store, body: Body, now: int, generated: string): (s: Step)
    requires IsGeneratedToken(generated)
    ensures s.response.status == 500 <==>
      body.JsonBody? && Conforms(LoginSchema, body.value) && body.value.fields.Keys != {"username", "password"}
    ensures s.response.status == 500 ==> s.db == db
    ensures s.response.status != 500 ==> s == HandleLogin(db, body, now, generated)
  {
    match ValidatePostSchema(LoginSchema, body)
    case Rejected(resp) => Step(resp, db)
    case Accepted(data) =>
      if data.fields.Keys != {"username", "password"} then Step(InternalError, db)
      else HandleLogin(db, body, now, generated)
  }

  /** The fault: a login body with an extra `remember` flag. */
  lemma LoginExtraFieldFaults(db: Store, now: int, generated: string)
    requires IsGeneratedToken(generated)
    ensures HandleLoginAsWritten(db,
      JsonBody(JObject(map["username" := JString("u"), "password" := JString("p"), "remember" := JBool(true)])),
      now, generated).response == InternalError
  {
    var m := map["username" := JString("u"), "password" := JString("p"), "remember" := JBool(true)];
    assert "remember" in m.Keys;
    LoginSchemaValid(JObject(m));
  }

  /** The corrected handler reads only `username` and `password`: extra keys
      change nothing. */
  lemma LoginIgnoresExtraFields(db: Store, m: map<string, Value>, now: int, generated: string)
    requires IsGeneratedToken(generated)
    requires Conforms(LoginSchema, JObject(m))
    ensures "username" in m && "password" in m
    ensures HandleLogin(db, JsonBody(JObject(m)), now, generated)
         == HandleLogin(db, JsonBody(JObject(map["username" := m["username"], "password" := m["password"]])), now, generated)
  {
    assert "username" in LoginSchema.fields && "password" in LoginSchema.fields;
    var m2 := map["username" := m["username"], "password" := m["password"]];
    LoginSchemaValid(JObject(m2));
    assert ValidatePostSchema(LoginSchema, JsonBody(JObject(m))) == Accepted(JObject(m));
    assert ValidatePostSchema(LoginSchema, JsonBody(JObject(m2))) == Accepted(JObject(m2));
  }
}
