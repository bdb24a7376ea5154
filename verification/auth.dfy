/** The authorization guard of wallpost/app/app.py (`safe_unpack` and
    `require_auth_token`). */
module Auth {
  import opened Wrappers
  import opened Search
  import opened Text
  import opened Tables

  /** `safe_unpack(data, n)`: for `n >= 0` exactly `n` entries, the first
      `n` of `data`, padded with `None` when `data` is shorter; for a negative
      `n`, Python's `data[:n]`, which drops `-n` entries from the end. */
  function SafeUnpack<T>(data: seq<T>, wantedCount: int): (r: seq<Option<T>>)
    ensures wantedCount >= 0 ==> |r| == wantedCount
    ensures wantedCount < 0 ==> |r| == if |data| + wantedCount > 0 then |data| + wantedCount else 0
    ensures forall i :: 0 <= i < |r| ==> r[i] == (if i < |data| then Some(data[i]) else None)
  {
    var present := seq(|data|, i requires 0 <= i < |data| => Some(data[i]));
    if |data| < wantedCount then present + seq(wantedCount - |data|, _ => None)
    else if wantedCount >= 0 then present[..wantedCount]
    else if |data| + wantedCount > 0 then present[..|data| + wantedCount]
    else []
  }

  /** Unpacking fewer entries only drops entries from the end. */
  lemma SafeUnpackPrefix<T>(data: seq<T>, n: nat, m: nat)
    requires n <= m
    ensures SafeUnpack(data, n) == SafeUnpack(data, m)[..n]
  {
  }

  /** Unpacking exactly as many entries as there are loses nothing. */
  lemma SafeUnpackExact<T>(data: seq<T>)
    ensures forall i :: 0 <= i < |data| ==> SafeUnpack(data, |data|)[i].value == data[i]
  {
  }

  const Scheme := "Token"

  /** `method, data = safe_unpack(header.split(' '), 2)`, a missing header being `''`. */
  function HeaderPieces(header: Option<string>): (r: seq<Option<string>>)
    ensures |r| == 2
  {
    SafeUnpack(Split(header.GetOr(""), ' '), 2)
  }

  /** The token row accepts `credential` at `now`; `None` (a bare `Token`
      header) is compared against the non-null `token` column and matches nothing. */
  function Accepts(credential: Option<string>, now: int): Token -> bool
  {
    (t: Token) => credential == Some(t.token) && t.validUntil >= now
  }

  /** A row of the token-user join that the guard's query selects. */
  ghost predicate Grants(db: Store, credential: Option<string>, now: int, i: int, j: int)
  {
    && 0 <= i < |db.tokens| && 0 <= j < |db.users|
    && Accepts(credential, now)(db.tokens[i])
    && db.users[j].id == db.tokens[i].userId
  }

  function AcceptsWithOwner(users: seq<User>, credential: Option<string>, now: int): Token -> bool
  {
    (t: Token) => Accepts(credential, now)(t) && HasUser(users, t.userId)
  }

  /** The first user of `SELECT user JOIN token ON token.user_id = user.id
      WHERE token.token = credential AND token.valid_until >= now`. */
  function TokenOwner(db: Store, credential: Option<string>, now: int): (r: Option<User>)
    ensures r.Some? <==> exists i, j :: Grants(db, credential, now, i, j)
    ensures r.Some? ==> exists i, j :: Grants(db, credential, now, i, j) && db.users[j] == r.value
    ensures credential.None? ==> r.None?
  {
    match FirstIndex(db.tokens, AcceptsWithOwner(db.users, credential, now))
    case None => None
    case Some(i) =>
      var t := db.tokens[i];
      match FirstIndex(db.users, UserWithId(t.userId))
      case None => None
      case Some(j) =>
        assert Grants(db, credential, now, i, j);
        Some(db.users[j])
  }

  /** The guard's verdict: the wrapped handler runs with `user`, or the request gets 401. */
  datatype Guard = Authorized(user: User) | Unauthorized

  /** `require_auth_token`: the first piece of the `Authorization` header must
      be exactly `Token` (case-sensitive) before the token table is consulted;
      the second piece is the credential, and any further pieces are ignored. */
  function RequireAuthToken(db: Store, header: Option<string>, now: int): (g: Guard)
    ensures HeaderPieces(header)[0] != Some(Scheme) ==> g == Unauthorized
    ensures g.Authorized? <==>
      HeaderPieces(header)[0] == Some(Scheme) && exists i, j :: Grants(db, HeaderPieces(header)[1], now, i, j)
    ensures g.Authorized? ==>
      exists i, j :: Grants(db, HeaderPieces(header)[1], now, i, j) && db.users[j] == g.user
  {
    var pieces := HeaderPieces(header);
    if pieces[0] != Some(Scheme) then Unauthorized
    else match TokenOwner(db, pieces[1], now)
      case None => Unauthorized
      case Some(u) => Authorized(u)
  }

  /** The guard reads the user and token tables and nothing else. */
  lemma GuardReadsOnlyCredentials(db1: Store, db2: Store, header: Option<string>, now: int)
    requires db1.users == db2.users && db1.tokens == db2.tokens
    ensures RequireAuthToken(db1, header, now) == RequireAuthToken(db2, header, now)
  {
  }

  /** The scheme check passes exactly for the header `Token` and for headers
      beginning `Token ` (a literal, case-sensitive comparison). */
  lemma SchemeAccepted(header: string)
    ensures HeaderPieces(Some(header))[0] == Some(Scheme) <==>
      header == Scheme || Scheme + " " <= header
  {
    FirstPiece(header, ' ', Scheme);
  }

  /** A missing header is treated as `''` and is refused whatever the store holds. */
  lemma MissingHeaderRefused(db: Store, now: int)
    ensures RequireAuthToken(db, None, now) == Unauthorized
  {
  }

  /** A bare `Token` header carries no credential and is refused whatever the store holds. */
  lemma BareSchemeRefused(db: Store, now: int)
    ensures RequireAuthToken(db, Some(Scheme), now) == Unauthorized
  {
  }

  /** In `Token <t>` (possibly followed by a space and anything), the
      credential is `t`. */
  lemma CredentialOfHeader(t: string, rest: string)
    requires ' ' !in t
    requires rest == [] || rest[0] == ' '
    ensures HeaderPieces(Some(Scheme + " " + t + rest)) == [Some(Scheme), Some(t)]
  {
    SecondPiece(Scheme, ' ', t, rest);
    SchemeAccepted(Scheme + " " + t + rest);
  }

  /** `Token <t>` is authorized at `now` exactly when some row holding `t`,
      still valid at `now` (inclusive), belongs to an existing user. */
  lemma TokenHeaderAuthorized(db: Store, t: string, now: int)
    requires ' ' !in t
    ensures RequireAuthToken(db, Some(Scheme + " " + t), now).Authorized? <==>
      exists i :: 0 <= i < |db.tokens| && db.tokens[i].token == t
        && db.tokens[i].validUntil >= now && HasUser(db.users, db.tokens[i].userId)
  {
    CredentialOfHeader(t, "");
    assert Scheme + " " + t + "" == Scheme + " " + t;
    var cred := Some(t);
    if exists i :: 0 <= i < |db.tokens| && db.tokens[i].token == t
        && db.tokens[i].validUntil >= now && HasUser(db.users, db.tokens[i].userId) {
      var i :| 0 <= i < |db.tokens| && db.tokens[i].token == t
        && db.tokens[i].validUntil >= now && HasUser(db.users, db.tokens[i].userId);
      var j :| 0 <= j < |db.users| && db.users[j].id == db.tokens[i].userId;
      assert Grants(db, cred, now, i, j);
    }
  }
}
