/** Properties of sequences of requests: the token lifecycle (issue, reuse,
    renew, expire) and the sticker round trips. */
module Lifecycle {
  import opened Wrappers
  import opened Search
  import opened Json
  import opened Schemas
  import opened Tables
  import opened Auth
  import opened Handlers

  /** The header a client sends with token `t`. */
  function TokenHeader(t: string): Option<string>
  {
    Some(Scheme + " " + t)
  }

  /** The answer of a successful login opens the wall: the token it returns
      is accepted up to and including the expiry it announces. */
  lemma LoginThenAuthorized(db: Store, body: Body, now: int, generated: string)
    requires IsGeneratedToken(generated)
    requires HandleLogin(db, body, now, generated).response.status == 200
    ensures var s := HandleLogin(db, body, now, generated);
      && s.response.payload.Document?
      && ReadLoginToken(s.response.payload.doc).Some?
      && var (t, v) := ReadLoginToken(s.response.payload.doc).value;
         ' ' !in t ==> forall later :: later <= v ==> RequireAuthToken(s.db, TokenHeader(t), later).Authorized?
  {
    match ValidatePostSchema(LoginSchema, body)
    case Rejected(_) =>
    case Accepted(data) =>
      assert "username" in LoginSchema.fields && "password" in LoginSchema.fields;
      LoginAnswerOpens(db, StringField(data, "username"), StringField(data, "password"), now, generated);
  }

  lemma LoginAnswerOpens(db: Store, username: string, password: string, now: int, generated: string)
    requires IsGeneratedToken(generated)
    requires Login(db, username, password, now, generated).response.status == 200
    ensures var s := Login(db, username, password, now, generated);
      && s.response.payload.Document?
      && ReadLoginToken(s.response.payload.doc).Some?
      && var (t, v) := ReadLoginToken(s.response.payload.doc).value;
         ' ' !in t ==> forall later :: later <= v ==> RequireAuthToken(s.db, TokenHeader(t), later).Authorized?
  {
    var s := Login(db, username, password, now, generated);
    var ui, k :| 0 <= ui < |db.users| && 0 <= k < |s.db.tokens|
      && db.users[ui].username == username && db.users[ui].password == password
      && s.db.tokens[k].userId == db.users[ui].id
      && s.response.payload == Document(DumpLoginToken(s.db.tokens[k]));
    var row := s.db.tokens[k];
    LoginTokenDocumentRoundTrip(row);
    if ' ' !in row.token {
      forall later | later <= row.validUntil
        ensures RequireAuthToken(s.db, TokenHeader(row.token), later).Authorized?
      {
        assert HasUser(s.db.users, row.userId);
        TokenHeaderAuthorized(s.db, row.token, later);
      }
    }
  }

  /** A minted token is accepted for the whole hour after the login. */
  lemma MintedTokenLastsAnHour(db: Store, body: Body, now: int, generated: string)
    requires IsGeneratedToken(generated)
    requires HandleLogin(db, body, now, generated).response.status == 200
    requires HandleLogin(db, body, now, generated).db != db
    ensures var s := HandleLogin(db, body, now, generated);
      forall later :: later <= now + TokenLifetime ==>
        RequireAuthToken(s.db, TokenHeader(generated), later).Authorized?
  {
    var s := HandleLogin(db, body, now, generated);
    LoginThenAuthorized(db, body, now, generated);
    GeneratedTokenHasNoSpace(generated);
    LoginTokenDocumentRoundTrip(s.db.tokens[|db.tokens|]);
  }

  /** Logging in again with the same body, at any later time and whatever
      token the generator would produce, gets the same answer and changes
      nothing: the first login's token row is reused. */
  lemma LoginIsIdempotent(db: Store, body: Body, now: int, now': int, g1: string, g2: string)
    requires IsGeneratedToken(g1) && IsGeneratedToken(g2)
    ensures var s1 := HandleLogin(db, body, now, g1);
      HandleLogin(s1.db, body, now', g2) == s1
  {
    match ValidatePostSchema(LoginSchema, body)
    case Rejected(_) =>
    case Accepted(data) =>
      LoginTwice(db, data.fields["username"].str, data.fields["password"].str, now, now', g1, g2);
  }

  /** `Login` with the same credentials a second time is answered from the
      row the first call reused or minted, and writes nothing. */
  lemma LoginTwice(db: Store, username: string, password: string, now: int, now': int, g1: string, g2: string)
    requires IsGeneratedToken(g1) && IsGeneratedToken(g2)
    ensures var s1 := Login(db, username, password, now, g1);
      Login(s1.db, username, password, now', g2) == s1
  {
    match FindUser(db, username, password)
    case None =>
    case Some(ui) =>
      var id := db.users[ui].id;
      match FirstIndex(db.tokens, TokenOfUser(id))
      case Some(k) =>
      case None =>
        var t := NewToken(db, id, now, g1);
        FirstIndexAppend(db.tokens, t, TokenOfUser(id));
        assert Login(db, username, password, now, g1).db.tokens == db.tokens + [t];
  }

  /** The reuse quirk: a login answers with the user's first token row as
      it is, even when that row has expired and whatever the other rows
      hold; unless some row holding the same string is still valid, the
      token it hands out is refused. */
  lemma LoginReturnsExpiredToken(db: Store, username: string, password: string, now: int, generated: string,
                                 ui: nat, k: nat)
    requires IsGeneratedToken(generated)
    requires FindUser(db, username, password) == Some(ui)
    requires k < |db.tokens| && db.tokens[k].userId == db.users[ui].id
    requires forall j :: 0 <= j < k ==> db.tokens[j].userId != db.users[ui].id
    requires db.tokens[k].validUntil < now
    ensures var s := Login(db, username, password, now, generated);
      && s.db == db
      && s.response.status == 200
      && s.response.payload.Document?
      && ReadLoginToken(s.response.payload.doc) == Some((db.tokens[k].token, db.tokens[k].validUntil))
    ensures (&& ' ' !in db.tokens[k].token
             && forall j :: 0 <= j < |db.tokens| && db.tokens[j].token == db.tokens[k].token ==>
                  db.tokens[j].validUntil < now) ==>
      RequireAuthToken(db, TokenHeader(db.tokens[k].token), now).Unauthorized?
  {
    LoginTokenDocumentRoundTrip(db.tokens[k]);
    var t := db.tokens[k].token;
    if ' ' !in t {
      TokenHeaderAuthorized(db, t, now);
    }
  }

  /** After a refresh, the token is accepted for the whole next hour, even if
      it had expired before. */
  lemma RefreshThenAuthorized(db: Store, t: string, now: int)
    requires WellFormed(db)
    requires ' ' !in t
    requires exists i :: 0 <= i < |db.tokens| && db.tokens[i].token == t
    ensures var s := Refresh(db, t, now);
      forall later :: later <= now + TokenLifetime ==> RequireAuthToken(s.db, TokenHeader(t), later).Authorized?
  {
    var s := Refresh(db, t, now);
    var k :| 0 <= k < |db.tokens| && db.tokens[k].token == t
      && forall i :: 0 <= i < |db.tokens| ==>
        s.db.tokens[i] == if db.tokens[i].id == db.tokens[k].id
          then db.tokens[i].(validUntil := now + TokenLifetime) else db.tokens[i];
    assert s.db.tokens[k] == db.tokens[k].(validUntil := now + TokenLifetime);
    assert HasUser(s.db.users, s.db.tokens[k].userId);
    forall later | later <= now + TokenLifetime
      ensures RequireAuthToken(s.db, TokenHeader(t), later).Authorized?
    {
      TokenHeaderAuthorized(s.db, t, later);
    }
  }

  /** In a well-formed store a refresh moves the expiry of exactly one row. */
  lemma RefreshChangesOneRow(db: Store, t: string, now: int, k: nat)
    requires WellFormed(db)
    requires FirstIndex(db.tokens, TokenWithString(t)) == Some(k)
    ensures var s := Refresh(db, t, now);
      && s.db.tokens == db.tokens[k := db.tokens[k].(validUntil := now + TokenLifetime)]
  {
  }

  /** A created sticker can be read back at once, as the identical document. */
  lemma CreateThenGet(db: Store, header: Option<string>, body: Body, now: int)
    requires WellFormed(db)
    requires HandleCreate(db, header, body, now).response.status == 201
    ensures var s := HandleCreate(db, header, body, now);
      HandleSingle(s.db, header, now, db.nextStickerId) == Step(Response(200, s.response.payload), s.db)
  {
    var s := HandleCreate(db, header, body, now);
    GuardReadsOnlyCredentials(db, s.db, header, now);
    var row := s.db.stickers[|db.stickers|];
    assert s.db.stickers == db.stickers + [row];
    assert FirstIndex(db.stickers, StickerWithId(db.nextStickerId)).None?;
    FirstIndexAppend(db.stickers, row, StickerWithId(db.nextStickerId));
  }

  /** An updated sticker reads back as the document the update answered with. */
  lemma PutThenGet(db: Store, header: Option<string>, body: Body, now: int, id: int)
    requires HandlePut(db, header, body, now, id).response.status == 201
    ensures var s := HandlePut(db, header, body, now, id);
      HandleSingle(s.db, header, now, id) == Step(Response(200, s.response.payload), s.db)
  {
    var s := HandlePut(db, header, body, now, id);
    GuardReadsOnlyCredentials(db, s.db, header, now);
    var i := FirstIndex(db.stickers, StickerWithId(id)).value;
    assert "title" in StickerCreateSchema.fields && "description" in StickerCreateSchema.fields;
    var data := body.value;
    var rows := SetContent(db.stickers, db.stickers[i].id,
      StringField(data, "title"), StringField(data, "description"));
    assert s.db.stickers == rows;
    FirstIndexSameMatches(db.stickers, rows, StickerWithId(id));
    assert s.response.payload == Document(DumpSticker(rows[i]));
  }

  /** A deleted sticker is gone: reading it answers 404. */
  lemma DeleteThenGet(db: Store, header: Option<string>, now: int, id: int)
    requires RequireAuthToken(db, header, now).Authorized?
    ensures var s := HandleDelete(db, header, now, id);
      HandleSingle(s.db, header, now, id) == Step(Status(404), s.db)
  {
  }
}
