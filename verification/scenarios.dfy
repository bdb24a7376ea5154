/** The scenarios of wallpost/app/tests/test_app.py, stated over the model:
    a store holding the fixture user and the fixture token. */
module Scenarios {
  import opened Wrappers
  import opened Json
  import opened PyRepr
  import opened Schemas
  import opened Tables
  import opened Auth
  import opened Handlers
  import opened Lifecycle

  /** The cases of the `safe_unpack` table, and a negative count, which
      drops entries from the end as Python's `data[:n]` does. */
  lemma SafeUnpackCases()
    ensures SafeUnpack(["a", "b"], 2) == [Some("a"), Some("b")]
    ensures SafeUnpack(["a", "b", "c"], 2) == [Some("a"), Some("b")]
    ensures SafeUnpack(["a"], 2) == [Some("a"), None]
    ensures SafeUnpack(["a"], 0) == []
    ensures SafeUnpack<string>([], 0) == []
    ensures SafeUnpack<string>([], 2) == [None, None]
    ensures SafeUnpack(["a", "b", "c"], -1) == [Some("a"), Some("b")]
    ensures SafeUnpack(["a"], -3) == []
  {
  }

  /** The fixture user and token, the token valid for an hour from `now`. */
  function Fixture(now: int, stickers: seq<Sticker>, nextStickerId: int): Store
  {
    Store([User(1, "TestUserName", "a")], [Token(1, 1, "TestToken", now + TokenLifetime)], stickers, 2, nextStickerId)
  }

  const AuthHeader := TokenHeader("TestToken")

  const EmptyObject := JsonBody(JObject(map[]))

  /** The fixture header is accepted at any time up to the fixture token's expiry. */
  lemma FixtureHeaderAuthorized(now: int, later: int, stickers: seq<Sticker>, next: int)
    requires later <= now + TokenLifetime
    ensures RequireAuthToken(Fixture(now, stickers, next), AuthHeader, later).Authorized?
  {
    var db := Fixture(now, stickers, next);
    assert db.users[0].id == db.tokens[0].userId;
    TokenHeaderAuthorized(db, "TestToken", later);
  }

  /** The 400 a refused body gets: `{"error": message}`. */
  function SchemaRefusal(message: string): Response
  {
    Response(400, Document(JObject(map["error" := JString(message)])))
  }

  /** A body the schema refuses with error `e` gets the 400 carrying `e`'s message. */
  lemma RefusedWith(schema: Schema, m: map<string, Value>, e: SchemaError, message: string)
    requires Validate(schema, JObject(m)) == Some(e) && ErrorMessage(e) == message
    ensures ValidatePostSchema(schema, JsonBody(JObject(m))) == Rejected(SchemaRefusal(message))
  {
  }

  // The messages the tests expect, as literal text. Each field has its own
  // lemmas: the quoted name, the message, and the refusal of the body that
  // lacks it.

  lemma UsernameText()
    ensures ['\''] + "username" + ['\''] == "'username'"
    ensures "'username'" + " is a required property" == "'username' is a required property"
  {
  }

  lemma UsernameMessage()
    ensures ErrorMessage(Required("username")) == "'username' is a required property"
  {
    assert QuoteOf("username") == '\'';
    assert Escape("username", '\'') == "username" by { PlainEscape("username", '\''); }
    UsernameText();
  }

  lemma UsernameMissing()
    ensures ValidatePostSchema(LoginSchema, EmptyObject)
      == Rejected(SchemaRefusal("'username' is a required property"))
  {
    FirstMissingFieldReported(LoginSchema, map[], 0);
    UsernameMessage();
    RefusedWith(LoginSchema, map[], Required("username"), "'username' is a required property");
  }

  lemma PasswordText()
    ensures ['\''] + "password" + ['\''] == "'password'"
    ensures "'password'" + " is a required property" == "'password' is a required property"
  {
  }

  lemma PasswordMessage()
    ensures ErrorMessage(Required("password")) == "'password' is a required property"
  {
    assert QuoteOf("password") == '\'';
    assert Escape("password", '\'') == "password" by { PlainEscape("password", '\''); }
    PasswordText();
  }

  lemma PasswordMissing()
    ensures ValidatePostSchema(LoginSchema, JsonBody(JObject(map["username" := JString("Test")])))
      == Rejected(SchemaRefusal("'password' is a required property"))
  {
    FirstMissingFieldReported(LoginSchema, map["username" := JString("Test")], 1);
    PasswordMessage();
    RefusedWith(LoginSchema, map["username" := JString("Test")], Required("password"), "'password' is a required property");
  }

  lemma TitleText()
    ensures ['\''] + "title" + ['\''] == "'title'"
    ensures "'title'" + " is a required property" == "'title' is a required property"
  {
  }

  lemma TitleMessage()
    ensures ErrorMessage(Required("title")) == "'title' is a required property"
  {
    assert QuoteOf("title") == '\'';
    assert Escape("title", '\'') == "title" by { PlainEscape("title", '\''); }
    TitleText();
  }

  lemma TitleMissing()
    ensures ValidatePostSchema(StickerCreateSchema, EmptyObject)
      == Rejected(SchemaRefusal("'title' is a required property"))
  {
    FirstMissingFieldReported(StickerCreateSchema, map[], 0);
    TitleMessage();
    RefusedWith(StickerCreateSchema, map[], Required("title"), "'title' is a required property");
  }

  lemma DescriptionText()
    ensures ['\''] + "description" + ['\''] == "'description'"
    ensures "'description'" + " is a required property" == "'description' is a required property"
  {
  }

  lemma DescriptionMessage()
    ensures ErrorMessage(Required("description")) == "'description' is a required property"
  {
    assert QuoteOf("description") == '\'';
    assert Escape("description", '\'') == "description" by { PlainEscape("description", '\''); }
    DescriptionText();
  }

  lemma DescriptionMissing()
    ensures ValidatePostSchema(StickerCreateSchema, JsonBody(JObject(map["title" := JString("Test")])))
      == Rejected(SchemaRefusal("'description' is a required property"))
  {
    FirstMissingFieldReported(StickerCreateSchema, map["title" := JString("Test")], 1);
    DescriptionMessage();
    RefusedWith(StickerCreateSchema, map["title" := JString("Test")], Required("description"), "'description' is a required property");
  }

  lemma TokenText()
    ensures ['\''] + "token" + ['\''] == "'token'"
    ensures "'token'" + " is a required property" == "'token' is a required property"
  {
  }

  lemma TokenMessage()
    ensures ErrorMessage(Required("token")) == "'token' is a required property"
  {
    assert QuoteOf("token") == '\'';
    assert Escape("token", '\'') == "token" by { PlainEscape("token", '\''); }
    TokenText();
  }

  lemma TokenMissing()
    ensures ValidatePostSchema(RefreshTokenSchema, EmptyObject)
      == Rejected(SchemaRefusal("'token' is a required property"))
  {
    FirstMissingFieldReported(RefreshTokenSchema, map[], 0);
    TokenMessage();
    RefusedWith(RefreshTokenSchema, map[], Required("token"), "'token' is a required property");
  }

  /** POST /login with `{}` and with `{"username": "Test"}`: 400 with the
      message naming the first missing field, store unchanged. */
  lemma LoginRequiredFields(db: Store, now: int, generated: string)
    requires IsGeneratedToken(generated)
    ensures HandleLogin(db, EmptyObject, now, generated)
      == Step(SchemaRefusal("'username' is a required property"), db)
    ensures HandleLogin(db, JsonBody(JObject(map["username" := JString("Test")])), now, generated)
      == Step(SchemaRefusal("'password' is a required property"), db)
  {
    UsernameMissing();
    PasswordMissing();
  }

  // The wrong-type message for `{"username": 5}`.

  lemma FiveRepr()
    ensures ValueRepr(JNumber(5)) == "5"
  {
    assert NatRepr(5) == [HexDigits[5]];
  }

  lemma StringText()
    ensures ['\''] + "string" + ['\''] == "'string'"
  {
  }

  lemma StringTypeRepr()
    ensures StrRepr("string") == "'string'"
  {
    assert QuoteOf("string") == '\'';
    assert Escape("string", '\'') == "string" by { PlainEscape("string", '\''); }
    StringText();
  }

  lemma TypeMessageJoin(mid: string)
    requires mid == " is not of type "
    ensures "5" + mid + "'string'" == "5 is not of type 'string'"
  {
    var head := "5" + mid;
    assert head == "5 is not of type ";
  }

  lemma TypeMessageOfFive()
    ensures ErrorMessage(NotOfType(JNumber(5), "string")) == "5 is not of type 'string'"
  {
    var mid := " is not of type ";
    assert ErrorMessage(NotOfType(JNumber(5), "string"))
      == ValueRepr(JNumber(5)) + mid + StrRepr("string");
    FiveRepr();
    StringTypeRepr();
    TypeMessageJoin(mid);
  }

  lemma UsernameWrongType()
    ensures ValidatePostSchema(LoginSchema, JsonBody(JObject(map["username" := JNumber(5)])))
      == Rejected(SchemaRefusal("5 is not of type 'string'"))
  {
    var m := map["username" := JNumber(5)];
    assert Validate(LoginSchema, JObject(m)) == Some(NotOfType(JNumber(5), "string")) by {
      WrongTypeReportedFirst(LoginSchema, m, 0);
    }
    TypeMessageOfFive();
    RefusedWith(LoginSchema, m, NotOfType(JNumber(5), "string"), "5 is not of type 'string'");
  }

  /** POST /login with `{"username": 5}`: the wrongly typed field is
      reported, not the missing `password`. */
  lemma LoginWrongType(db: Store, now: int, generated: string)
    requires IsGeneratedToken(generated)
    ensures HandleLogin(db, JsonBody(JObject(map["username" := JNumber(5)])), now, generated)
      == Step(SchemaRefusal("5 is not of type 'string'"), db)
  {
    UsernameWrongType();
  }

  /** POST /token with `{}`: 400 with the message naming `token`. */
  lemma TokenRequiredField(db: Store, now: int)
    ensures HandleToken(db, EmptyObject, now) == Step(SchemaRefusal("'token' is a required property"), db)
  {
    TokenMissing();
  }

  /** POST /login for a user that does not exist: 404. */
  lemma LoginNotExisting(now: int, generated: string)
    requires IsGeneratedToken(generated)
    ensures HandleLogin(Store([], [], [], 1, 1),
      JsonBody(JObject(map["username" := JString("test"), "password" := JString("test")])), now, generated).response
      == Status(404)
  {
  }

  /** POST /login for the fixture user: the fixture token, as it is. */
  lemma LoginReturnsValidToken(now: int, generated: string)
    requires IsGeneratedToken(generated)
    ensures var db := Fixture(now, [], 1);
      HandleLogin(db, JsonBody(JObject(map["username" := JString("TestUserName"), "password" := JString("a")])),
        now, generated)
      == Step(Response(200, Document(DumpLoginToken(db.tokens[0]))), db)
  {
  }

  /** POST /wall with `{}` and `{"title": "Test"}`: 400 with the message
      naming the first missing field, and no sticker stored. */
  lemma CreateRequiredFields(now: int, stickers: seq<Sticker>, next: int)
    ensures var db := Fixture(now, stickers, next);
      && HandleCreate(db, AuthHeader, EmptyObject, now)
         == Step(SchemaRefusal("'title' is a required property"), db)
      && HandleCreate(db, AuthHeader, JsonBody(JObject(map["title" := JString("Test")])), now)
         == Step(SchemaRefusal("'description' is a required property"), db)
  {
    FixtureHeaderAuthorized(now, now, stickers, next);
    TitleMissing();
    DescriptionMissing();
  }

  /** PUT /wall/{id} with `{}` and `{"title": "Test"}`: the same 400s, and
      the sticker is left as it was. */
  lemma UpdateRequiredFields(now: int, stickers: seq<Sticker>, next: int, id: int)
    ensures var db := Fixture(now, stickers, next);
      && HandlePut(db, AuthHeader, EmptyObject, now, id)
         == Step(SchemaRefusal("'title' is a required property"), db)
      && HandlePut(db, AuthHeader, JsonBody(JObject(map["title" := JString("Test")])), now, id)
         == Step(SchemaRefusal("'description' is a required property"), db)
  {
    FixtureHeaderAuthorized(now, now, stickers, next);
    TitleMissing();
    DescriptionMissing();
  }

  /** GET /wall on an empty wall: an empty list. */
  lemma ListWallEmpty(now: int)
    ensures HandleList(Fixture(now, [], 1), AuthHeader, now).response == Response(200, Document(JArray([])))
  {
    FixtureHeaderAuthorized(now, now, [], 1);
  }

  /** GET, PUT and DELETE of sticker 123 on an empty wall: 404. */
  lemma StickerNotExisting(now: int)
    ensures HandleSingle(Fixture(now, [], 1), AuthHeader, now, 123).response == Status(404)
    ensures HandleDelete(Fixture(now, [], 1), AuthHeader, now, 123).response == Status(404)
    ensures HandlePut(Fixture(now, [], 1), AuthHeader,
      JsonBody(JObject(map["title" := JString("a"), "description" := JString("b")])), now, 123).response
      == Status(404)
  {
    FixtureHeaderAuthorized(now, now, [], 1);
    StickerCreateSchemaValid(JObject(map["title" := JString("a"), "description" := JString("b")]));
  }

  /** POST /wall with `{"title": "Hi", "description": "Desc"}`: 201 with the
      new id and the submitted fields, and exactly that row stored. */
  lemma CreateWall(now: int)
    ensures var s := HandleCreate(Fixture(now, [], 1), AuthHeader,
      JsonBody(JObject(map["title" := JString("Hi"), "description" := JString("Desc")])), now);
      && s.response.status == 201
      && s.db.stickers == [Sticker(1, "Hi", "Desc")]
      && s.response.payload == Document(DumpSticker(Sticker(1, "Hi", "Desc")))
  {
    FixtureHeaderAuthorized(now, now, [], 1);
    StickerCreateSchemaValid(JObject(map["title" := JString("Hi"), "description" := JString("Desc")]));
  }
}
