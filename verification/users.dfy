/**
 * The users route (app/api/users/route.ts): at most two accounts, created in order as
 * `user1` and `user2`, over the users table, here a sequence of rows in insertion order.
 * Password hashing is a parameter.
 */
module Users {
  import opened Wrappers
  import opened GameTypes

  datatype UserRow = UserRow(id: string, name: string, passwordHash: string, createdAt: int)

  /** The destructured `{ name, password }` body; None is a missing field. */
  datatype UserBody = UserBody(name: Option<string>, password: Option<string>)

  datatype PostOutcome =
    | Created(userId: string, name: string, table: seq<UserRow>) // 200
    | Rejected(message: string)                                   // 400
    | Failed                                                      // 500

  const MaxUsers := 2

  /** The id the n-th account (counting from 0) receives. */
  function IdFor(count: nat): string {
    if count == 0 then "user1" else "user2"
  }

  /** The ids of the table are "user1", then "user2", as far as there are rows. */
  predicate InOrder(table: seq<UserRow>) {
    |table| <= MaxUsers && forall i :: 0 <= i < |table| ==> table[i].id == IdFor(i)
  }

  /**
   * POST. `None` is a body that is not valid JSON, or is null; any other JSON value (an array, a
   * number) destructures to missing fields, `UserBody(None, None)`. `hash` stands for bcrypt;
   * `now` is the created_at default. An insert whose id is already taken violates the primary key.
   */
  function Post(body: Option<UserBody>, table: seq<UserRow>, hash: string -> string, now: int): (r: PostOutcome)
    ensures body.None? ==> r.Failed?
    ensures body.Some? && (!Truthy(body.value.name) || !Truthy(body.value.password)) ==>
              r == Rejected("Name and password are required")
    ensures body.Some? && Truthy(body.value.name) && Truthy(body.value.password) && |table| >= MaxUsers ==>
              r == Rejected("Maximum number of users reached")
    ensures r.Created? ==> && |table| < MaxUsers && r.userId == IdFor(|table|)
                           && r.name == body.value.name.value
                           && r.table == table + [UserRow(r.userId, r.name, hash(body.value.password.value), now)]
    ensures r.Failed? && body.Some? ==> exists i :: 0 <= i < |table| && table[i].id == IdFor(|table|)
    ensures (&& body.Some? && Truthy(body.value.name) && Truthy(body.value.password) && |table| < MaxUsers
             && forall i :: 0 <= i < |table| ==> table[i].id != IdFor(|table|))
            ==> r.Created?
    ensures r.Rejected? ==> body.Some? && (!Truthy(body.value.name) || !Truthy(body.value.password)
                                           || |table| >= MaxUsers)
  {
    match body
    case None => Failed
    case Some(b) =>
      if !Truthy(b.name) || !Truthy(b.password) then Rejected("Name and password are required")
      else if |table| >= MaxUsers then Rejected("Maximum number of users reached")
      else
        var userId := IdFor(|table|);
        if exists i :: 0 <= i < |table| && table[i].id == userId then Failed
        else Created(userId, b.name.value, table + [UserRow(userId, b.name.value, hash(b.password.value), now)])
  }

  /**
   * On a table only this route has written, a complete request always succeeds below the
   * cap, and the table stays in order: the first account is user1, the second user2.
   */
  lemma PostKeepsOrder(body: Option<UserBody>, table: seq<UserRow>, hash: string -> string, now: int)
    requires InOrder(table)
    ensures var r := Post(body, table, hash, now);
      && (body.Some? && Truthy(body.value.name) && Truthy(body.value.password) && |table| < MaxUsers ==> r.Created?)
      && (r.Created? ==> InOrder(r.table))
  {
    if |table| == 1 {
      assert table[0].id == "user1" != "user2";
    }
  }

  /** The table never holds more than two accounts. */
  lemma PostRespectsCap(body: Option<UserBody>, table: seq<UserRow>, hash: string -> string, now: int)
    requires |table| <= MaxUsers
    ensures var r := Post(body, table, hash, now); r.Created? ==> |r.table| <= MaxUsers
  {
  }

  /** The `{ id, name }` a GET lists for a row. */
  datatype UserInfo = UserInfo(id: string, name: string)

  datatype GetReply = GetReply(isSetup: bool, users: seq<UserInfo>)

  predicate SortedByCreation(rows: seq<UserRow>) {
    forall i, j :: 0 <= i < j < |rows| ==> rows[i].createdAt <= rows[j].createdAt
  }

  /** Puts `row` before the first row created later than it. */
  function Insert(row: UserRow, rows: seq<UserRow>): (r: seq<UserRow>)
    requires SortedByCreation(rows)
    ensures SortedByCreation(r)
    ensures multiset(r) == multiset(rows) + multiset{row}
    ensures |r| == |rows| + 1
    ensures forall k :: 0 <= k < |r| ==> r[k] == row || r[k] in rows
  {
    if rows == [] || row.createdAt <= rows[0].createdAt then [row] + rows
    else
      var rest := Insert(row, rows[1..]);
      HeadStaysFirst(rows, row, rest);
      assert rows == [rows[0]] + rows[1..];
      [rows[0]] + rest
  }

  /** The head of a sorted table stays in front of the later rows and of a newer row. */
  lemma HeadStaysFirst(rows: seq<UserRow>, row: UserRow, rest: seq<UserRow>)
    requires rows != [] && SortedByCreation(rows) && SortedByCreation(rest)
    requires rows[0].createdAt <= row.createdAt
    requires forall k :: 0 <= k < |rest| ==> rest[k] == row || rest[k] in rows[1..]
    ensures SortedByCreation([rows[0]] + rest)
  {
    forall k | 0 <= k < |rest|
      ensures rows[0].createdAt <= rest[k].createdAt
    {
      if rest[k] != row {
        var j :| 0 <= j < |rows[1..]| && rows[1..][j] == rest[k];
        assert rows[1..][j] == rows[j + 1];
      }
    }
    var s := [rows[0]] + rest;
    forall i, j | 0 <= i < j < |s| ensures s[i].createdAt <= s[j].createdAt {
      if i > 0 {
        assert s[i] == rest[i - 1] && s[j] == rest[j - 1];
      } else {
        assert s[j] == rest[j - 1];
      }
    }
  }

  /** `ORDER BY created_at ASC`. */
  function SortByCreation(rows: seq<UserRow>): (r: seq<UserRow>)
    ensures SortedByCreation(r) && multiset(r) == multiset(rows)
  {
    if rows == [] then []
    else
      assert rows == [rows[0]] + rows[1..];
      Insert(rows[0], SortByCreation(rows[1..]))
  }

  /** GET: set up as soon as one account exists; the accounts oldest first, id and name only. */
  function Get(table: seq<UserRow>): (r: GetReply)
    ensures r.isSetup <==> |table| > 0
    ensures |r.users| == |table|
    ensures exists sorted: seq<UserRow> :: SortedByCreation(sorted) && multiset(sorted) == multiset(table)
              && forall i :: 0 <= i < |sorted| ==> r.users[i] == UserInfo(sorted[i].id, sorted[i].name)
  {
    var sorted := SortByCreation(table);
    assert |sorted| == |multiset(sorted)| == |table|;
    GetReply(|table| > 0, seq(|sorted|, i requires 0 <= i < |sorted| => UserInfo(sorted[i].id, sorted[i].name)))
  }
}
