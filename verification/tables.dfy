/** The rows of the three tables of wallpost/app/db.py and the store that holds them. */
module Tables {
  import opened Wrappers
  import opened Search

  /** A row of `user`. Users are created outside the service and only read here. */
  datatype User = User(id: int, username: string, password: string)

  /** A row of `token`: a bearer credential of user `userId`, accepted up to
      and including the instant `validUntil` (seconds). */
  datatype Token = Token(id: int, userId: int, token: string, validUntil: int)

  /** A row of `sticker`. */
  datatype Sticker = Sticker(id: int, title: string, description: string)

  /** The database: the three tables in row order, and the next values of the
      `serial` sequences that number new tokens and stickers. */
  datatype Store = Store(
    users: seq<User>,
    tokens: seq<Token>,
    stickers: seq<Sticker>,
    nextTokenId: int,
    nextStickerId: int)

  /** What the schema guarantees of a store: primary keys are unique, every
      id a sequence handed out lies below the sequence's next value, and
      every token references an existing user (`user_id_fk`). */
  ghost predicate WellFormed(db: Store)
  {
    && (forall i, j :: 0 <= i < j < |db.users| ==> db.users[i].id != db.users[j].id)
    && (forall i, j :: 0 <= i < j < |db.tokens| ==> db.tokens[i].id != db.tokens[j].id)
    && DistinctStickerIds(db.stickers)
    && (forall i :: 0 <= i < |db.tokens| ==> db.tokens[i].id < db.nextTokenId)
    && (forall i :: 0 <= i < |db.stickers| ==> db.stickers[i].id < db.nextStickerId)
    && (forall i :: 0 <= i < |db.tokens| ==> HasUser(db.users, db.tokens[i].userId))
  }

  predicate HasUser(users: seq<User>, id: int)
  {
    exists j :: 0 <= j < |users| && users[j].id == id
  }

  function UserWithId(id: int): User -> bool
  {
    (u: User) => u.id == id
  }

  function TokenOfUser(userId: int): Token -> bool
  {
    (t: Token) => t.userId == userId
  }

  function TokenWithString(s: string): Token -> bool
  {
    (t: Token) => t.token == s
  }

  function StickerWithId(id: int): Sticker -> bool
  {
    (s: Sticker) => s.id == id
  }

  /** `UPDATE token SET valid_until = v WHERE id = id`. */
  function SetValidUntil(rows: seq<Token>, id: int, v: int): seq<Token>
  {
    seq(|rows|, i requires 0 <= i < |rows| =>
      if rows[i].id == id then rows[i].(validUntil := v) else rows[i])
  }

  /** `UPDATE sticker SET title = t, description = d WHERE id = id`. */
  function SetContent(rows: seq<Sticker>, id: int, t: string, d: string): seq<Sticker>
  {
    seq(|rows|, i requires 0 <= i < |rows| =>
      if rows[i].id == id then rows[i].(title := t, description := d) else rows[i])
  }

  /** `DELETE FROM sticker WHERE id = id`; the rows that remain keep their
      order and multiplicity (see `WithoutIdConcat`). */
  function WithoutId(rows: seq<Sticker>, id: int): (r: seq<Sticker>)
    ensures forall s :: s in r <==> s in rows && s.id != id
    ensures |r| <= |rows|
    ensures |r| == |rows| <==> forall i :: 0 <= i < |rows| ==> rows[i].id != id
    ensures (forall i :: 0 <= i < |rows| ==> rows[i].id != id) ==> r == rows
  {
    if |rows| == 0 then []
    else
      assert rows == [rows[0]] + rows[1..];
      (if rows[0].id == id then [] else [rows[0]]) + WithoutId(rows[1..], id)
  }

  /** A single row is kept or dropped in place. */
  lemma WithoutIdSingle(x: Sticker, id: int)
    ensures WithoutId([x], id) == if x.id == id then [] else [x]
  {
    assert [x][1..] == [];
  }

  lemma WithoutIdCons(x: Sticker, rest: seq<Sticker>, id: int)
    ensures WithoutId([x] + rest, id) == (if x.id == id then [] else [x]) + WithoutId(rest, id)
  {
    assert ([x] + rest)[0] == x && ([x] + rest)[1..] == rest;
  }

  lemma Regroup<X>(l: seq<X>, m: seq<X>, h: seq<X>, p: seq<X>, q: seq<X>, r: seq<X>)
    requires l == h + r && m == h + p && r == p + q
    ensures l == m + q
  {
  }

  /** The delete acts row by row: on a concatenation it is the concatenation
      of the deletes, so what remains is in the table's order. */
  lemma {:induction false} WithoutIdConcat(a: seq<Sticker>, b: seq<Sticker>, id: int)
    ensures WithoutId(a + b, id) == WithoutId(a, id) + WithoutId(b, id)
  {
    if |a| == 0 {
      assert a + b == b;
    } else {
      var x, tail := a[0], a[1..];
      assert a + b == [x] + (tail + b);
      assert a == [x] + tail;
      WithoutIdCons(x, tail + b, id);
      WithoutIdCons(x, tail, id);
      WithoutIdConcat(tail, b, id);
      Regroup(WithoutId(a + b, id), WithoutId(a, id), if x.id == id then [] else [x],
        WithoutId(tail, id), WithoutId(b, id), WithoutId(tail + b, id));
    }
  }

  predicate DistinctStickerIds(rows: seq<Sticker>)
  {
    forall i, j :: 0 <= i < j < |rows| ==> rows[i].id != rows[j].id
  }

  lemma ConsDistinct(x: Sticker, rows: seq<Sticker>)
    requires DistinctStickerIds(rows)
    requires forall k :: 0 <= k < |rows| ==> rows[k].id != x.id
    ensures DistinctStickerIds([x] + rows)
  {
  }

  /** Removing rows keeps the ids of the rest unique and below the sequence. */
  lemma {:induction false} WithoutIdKeepsKeys(rows: seq<Sticker>, id: int, next: int)
    requires DistinctStickerIds(rows)
    requires forall i :: 0 <= i < |rows| ==> rows[i].id < next
    ensures DistinctStickerIds(WithoutId(rows, id))
    ensures forall s :: s in WithoutId(rows, id) ==> s.id < next
  {
    if |rows| > 0 {
      var rest := WithoutId(rows[1..], id);
      assert DistinctStickerIds(rows[1..]) by {
        forall i, j | 0 <= i < j < |rows| - 1
          ensures rows[1..][i].id != rows[1..][j].id
        {
          assert rows[1..][i] == rows[i + 1] && rows[1..][j] == rows[j + 1];
        }
      }
      WithoutIdKeepsKeys(rows[1..], id, next);
      if rows[0].id != id {
        forall k | 0 <= k < |rest|
          ensures rest[k].id != rows[0].id
        {
          assert rest[k] in rows[1..];
          var m :| 0 <= m < |rows[1..]| && rows[1..][m] == rest[k];
          assert rows[m + 1] == rest[k];
        }
        ConsDistinct(rows[0], rest);
        assert WithoutId(rows, id) == [rows[0]] + rest;
      } else {
        assert WithoutId(rows, id) == rest;
      }
    }
  }
}
