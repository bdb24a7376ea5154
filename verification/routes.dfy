/** The routing table of wallpost/app/__init__.py, and what holds of every
    request whichever route it takes. */
module Routes {
  import opened Wrappers
  import opened Search
  import opened Json
  import opened Tables
  import opened Auth
  import opened Handlers

  /** The seven routes `setup_routers` registers. */
  datatype Route =
    | PostLogin              // POST /login
    | PostToken              // POST /token
    | GetWall                // GET /wall
    | PostWall               // POST /wall
    | GetSticker(id: int)    // GET /wall/{id}
    | PutSticker(id: int)    // PUT /wall/{id}
    | DeleteSticker(id: int) // DELETE /wall/{id}

  /** The parts of an HTTP request the handlers look at. */
  datatype Request = Request(authorization: Option<string>, body: Body)

  /** The routes whose handler is wrapped by `require_auth_token`. */
  predicate Protected(route: Route)
  {
    !(route.PostLogin? || route.PostToken?)
  }

  /** One request: the handler of `route` applied to the store. */
  function Dispatch(route: Route, db: Store, req: Request, now: int, generated: string): (s: Step)
    requires IsGeneratedToken(generated)
    ensures Protected(route) && RequireAuthToken(db, req.authorization, now).Unauthorized? ==> s == Denied(db)
    ensures !Protected(route) ==> s.response.status != 401
    ensures s.response.status in {200, 201, 204, 400, 401, 404}
    ensures s.db.users == db.users
    ensures route.GetWall? || route.GetSticker? ==> s.db == db
  {
    match route
    case PostLogin => HandleLogin(db, req.body, now, generated)
    case PostToken => HandleToken(db, req.body, now)
    case GetWall => HandleList(db, req.authorization, now)
    case PostWall => HandleCreate(db, req.authorization, req.body, now)
    case GetSticker(id) => HandleSingle(db, req.authorization, now, id)
    case PutSticker(id) => HandlePut(db, req.authorization, req.body, now, id)
    case DeleteSticker(id) => HandleDelete(db, req.authorization, now, id)
  }

  /** A protected route refuses a request with no `Authorization` header,
      whatever its body and whatever the store holds. */
  lemma ProtectedRoutesNeedHeader(route: Route, db: Store, body: Body, now: int, generated: string)
    requires IsGeneratedToken(generated)
    requires Protected(route)
    ensures Dispatch(route, db, Request(None, body), now, generated) == Denied(db)
  {
  }

  /** Login keeps the store well formed: a minted row takes a fresh id and
      belongs to the user just found. */
  lemma LoginKeepsWellFormed(db: Store, username: string, password: string, now: int, generated: string)
    requires IsGeneratedToken(generated)
    requires WellFormed(db)
    ensures WellFormed(Login(db, username, password, now, generated).db)
  {
    match FindUser(db, username, password)
    case None =>
    case Some(ui) =>
      match FirstIndex(db.tokens, TokenOfUser(db.users[ui].id))
      case Some(_) =>
      case None =>
        var t := NewToken(db, db.users[ui].id, now, generated);
        var db' := db.(tokens := db.tokens + [t], nextTokenId := db.nextTokenId + 1);
        assert Login(db, username, password, now, generated).db == db';
        assert db'.tokens[..|db.tokens|] == db.tokens;
        assert HasUser(db.users, t.userId);
        TokenAppendedKeepsWellFormed(db, db');
  }

  /** A token row appended under the sequence's next value, for an existing
      user, keeps the store well formed. */
  lemma TokenAppendedKeepsWellFormed(db: Store, db': Store)
    requires WellFormed(db)
    requires db'.users == db.users && db'.stickers == db.stickers && db'.nextStickerId == db.nextStickerId
    requires |db'.tokens| == |db.tokens| + 1 && db'.tokens[..|db.tokens|] == db.tokens
    requires db'.tokens[|db.tokens|].id == db.nextTokenId && db'.nextTokenId == db.nextTokenId + 1
    requires HasUser(db.users, db'.tokens[|db.tokens|].userId)
    ensures WellFormed(db')
  {
    assert forall i :: 0 <= i < |db.tokens| ==> db'.tokens[i] == db.tokens[i];
  }

  /** A store whose rows keep their ids and references, with the sequences
      unchanged, stays well formed. */
  lemma SameKeysKeepWellFormed(db: Store, db': Store)
    requires WellFormed(db)
    requires db'.users == db.users && db'.nextTokenId == db.nextTokenId && db'.nextStickerId == db.nextStickerId
    requires |db'.tokens| == |db.tokens|
    requires forall i :: 0 <= i < |db.tokens| ==> db'.tokens[i].id == db.tokens[i].id && db'.tokens[i].userId == db.tokens[i].userId
    requires |db'.stickers| == |db.stickers|
    requires forall i :: 0 <= i < |db.stickers| ==> db'.stickers[i].id == db.stickers[i].id
    ensures WellFormed(db')
  {
  }

  /** Refresh only moves expiries, so keys and references are untouched. */
  lemma RefreshKeepsWellFormed(db: Store, token: string, now: int)
    requires WellFormed(db)
    ensures WellFormed(Refresh(db, token, now).db)
  {
    match FirstIndex(db.tokens, TokenWithString(token))
    case None =>
    case Some(k) =>
      var rows := SetValidUntil(db.tokens, db.tokens[k].id, now + TokenLifetime);
      assert Refresh(db, token, now).db == db.(tokens := rows);
      SameKeysKeepWellFormed(db, db.(tokens := rows));
  }

  /** A sticker row appended under the sequence's next value keeps the store
      well formed. */
  lemma StickerAppendedKeepsWellFormed(db: Store, db': Store)
    requires WellFormed(db)
    requires db'.users == db.users && db'.tokens == db.tokens && db'.nextTokenId == db.nextTokenId
    requires |db'.stickers| == |db.stickers| + 1 && db'.stickers[..|db.stickers|] == db.stickers
    requires db'.stickers[|db.stickers|].id == db.nextStickerId && db'.nextStickerId == db.nextStickerId + 1
    ensures WellFormed(db')
  {
    assert db'.stickers == db.stickers + [db'.stickers[|db.stickers|]];
    AppendFreshSticker(db.stickers, db'.stickers[|db.stickers|], db.nextStickerId);
  }

  lemma AppendFreshSticker(rows: seq<Sticker>, x: Sticker, next: int)
    requires DistinctStickerIds(rows)
    requires forall i :: 0 <= i < |rows| ==> rows[i].id < next
    requires x.id == next
    ensures DistinctStickerIds(rows + [x])
    ensures forall i :: 0 <= i < |rows + [x]| ==> (rows + [x])[i].id < next + 1
  {
  }

  lemma CreateKeepsWellFormed(db: Store, header: Option<string>, body: Body, now: int)
    requires WellFormed(db)
    ensures WellFormed(HandleCreate(db, header, body, now).db)
  {
    var s := HandleCreate(db, header, body, now);
    if RequireAuthToken(db, header, now).Authorized? && ValidatePostSchema(Schemas.StickerCreateSchema, body).Accepted? {
      StickerAppendedKeepsWellFormed(db, s.db);
    }
  }

  lemma PutKeepsWellFormed(db: Store, header: Option<string>, body: Body, now: int, id: int)
    requires WellFormed(db)
    ensures WellFormed(HandlePut(db, header, body, now, id).db)
  {
    var s := HandlePut(db, header, body, now, id);
    if s.db != db {
      SameKeysKeepWellFormed(db, s.db);
    }
  }

  lemma DeleteKeepsWellFormed(db: Store, header: Option<string>, now: int, id: int)
    requires WellFormed(db)
    ensures WellFormed(HandleDelete(db, header, now, id).db)
  {
    WithoutIdKeepsKeys(db.stickers, id, db.nextStickerId);
  }

  /** Every request keeps the store well formed. */
  lemma DispatchKeepsWellFormed(route: Route, db: Store, req: Request, now: int, generated: string)
    requires IsGeneratedToken(generated)
    requires WellFormed(db)
    ensures WellFormed(Dispatch(route, db, req, now, generated).db)
  {
    match route
    case PostLogin =>
      match ValidatePostSchema(Schemas.LoginSchema, req.body) {
        case Rejected(_) =>
        case Accepted(data) =>
          assert "username" in Schemas.LoginSchema.fields && "password" in Schemas.LoginSchema.fields;
          LoginKeepsWellFormed(db, StringField(data, "username"), StringField(data, "password"), now, generated);
      }
    case PostToken =>
      match ValidatePostSchema(Schemas.RefreshTokenSchema, req.body) {
        case Rejected(_) =>
        case Accepted(data) =>
          assert "token" in Schemas.RefreshTokenSchema.fields;
          RefreshKeepsWellFormed(db, StringField(data, "token"), now);
      }
    case GetWall =>
    case GetSticker(_) =>
    case PostWall => CreateKeepsWellFormed(db, req.authorization, req.body, now);
    case PutSticker(id) => PutKeepsWellFormed(db, req.authorization, req.body, now, id);
    case DeleteSticker(id) => DeleteKeepsWellFormed(db, req.authorization, now, id);
  }
}
