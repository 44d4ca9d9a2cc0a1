/**
 * The active-game route (app/api/active-game/route.ts) over the active_games table, here a
 * map from id to row. A row has the fields of `GameTypes.GameState`; updated_at is the
 * clock value `now` of the request that wrote it.
 */
module ActiveGame {
  import opened Wrappers
  import opened GameTypes
  import opened Recency

  type Table = map<string, GameState>

  /**
   * What POST guarantees of every row: it is stored under its own id (the primary key) and
   * has a non-empty game type.
   */
  predicate Keyed(table: Table) {
    forall id :: id in table ==> table[id].id == id && table[id].gameType != ""
  }

  datatype PostOutcome =
    | MissingFields        // 400
    | Failed               // 500
    | Stored(table: Table) // 200

  datatype DeleteOutcome =
    | MissingId            // 400
    | Deleted(table: Table) // 200

  /**
   * POST. `None` is a body that is not valid JSON, or is null. An existing id has every
   * column but game_type overwritten; a new id gets a fresh row.
   */
  function Post(body: Option<GameBody>, table: Table, now: int): (r: PostOutcome)
    ensures body.None? ==> r == Failed
    ensures body.Some? && !HasRequiredFields(body.value) ==> r == MissingFields
    ensures body.Some? && HasRequiredFields(body.value) ==> r.Stored?
    ensures r.Stored? ==> var b := body.value; var id := b.id.value;
      && r.table.Keys == table.Keys + {id}
      && (forall k :: k in table && k != id ==> r.table[k] == table[k])
      && r.table[id].gameType == (if id in table then table[id].gameType else b.gameType.value)
      && r.table[id].playerX == b.playerX.value && r.table[id].playerO == b.playerO.value
      && r.table[id].board == b.board.value && r.table[id].currentTurn == b.currentTurn.value
      && r.table[id].winner == OrNull(b.winner) && r.table[id].isDraw == OrFalse(b.isDraw)
      && r.table[id].newGameRequestedBy == OrNull(b.newGameRequestedBy)
      && r.table[id].updatedAt == now
  {
    match body
    case None => Failed
    case Some(b) =>
      if !HasRequiredFields(b) then MissingFields
      else
        var id := b.id.value;
        if id in table then
          Stored(table[id := table[id].(board := b.board.value, currentTurn := b.currentTurn.value,
                                        playerX := b.playerX.value, playerO := b.playerO.value,
                                        winner := OrNull(b.winner), isDraw := OrFalse(b.isDraw),
                                        newGameRequestedBy := OrNull(b.newGameRequestedBy),
                                        updatedAt := now)])
        else
          Stored(table[id := GameState(id, b.gameType.value, b.playerX.value, b.playerO.value,
                                       b.board.value, b.currentTurn.value, OrNull(b.winner),
                                       OrFalse(b.isDraw), OrNull(b.newGameRequestedBy), now)])
  }

  /** Every POST keeps rows keyed by their id and never changes the game type of a row. */
  lemma PostKeepsRows(body: Option<GameBody>, table: Table, now: int)
    requires Keyed(table)
    ensures var r := Post(body, table, now);
      r.Stored? ==> && Keyed(r.table)
                    && (forall id :: id in table ==> r.table[id].gameType == table[id].gameType)
                    && |r.table| == |table| + (if body.value.id.value in table then 0 else 1)
  {
    var r := Post(body, table, now);
    if r.Stored? {
      var id := body.value.id.value;
      forall k | k in r.table
        ensures r.table[k].id == k && r.table[k].gameType != ""
      {
        if k != id {
          assert r.table[k] == table[k];
        }
      }
      if id !in table {
        assert r.table.Keys == table.Keys + {id};
      } else {
        assert r.table.Keys == table.Keys;
      }
    }
  }

  predicate OfType(gameType: string, g: GameState) {
    g.gameType == gameType
  }

  /**
   * GET: the row of the requested type (by default tic-tac-toe) with the latest updated_at,
   * finished or not; `None` is `{ game: null }`. Which of several rows with the same
   * updated_at comes back is up to the database, so the row is any latest one.
   */
  ghost function Get(param: Option<string>, table: Table): (r: Option<GameState>)
    ensures var t := GameTypeParam(param);
      && (r.None? <==> forall id :: id in table ==> table[id].gameType != t)
      && (r.Some? ==> r.value in table.Values && r.value.gameType == t
                      && forall id :: id in table && table[id].gameType == t ==> table[id].updatedAt <= r.value.updatedAt)
  {
    var t := GameTypeParam(param);
    var keep := (g: GameState) => OfType(t, g);
    var stamp := (g: GameState) => g.updatedAt;
    if exists id :: id in table && keep(table[id]) then
      var id0 :| id0 in table && keep(table[id0]);
      LatestExists(table, keep, stamp, id0);
      var k :| IsLatest(table, keep, stamp, k);
      Some(table[k])
    else
      None
  }

  /**
   * A POST stamped later than every row makes its game the one GET returns for that
   * game's type.
   */
  lemma PostThenGet(body: Option<GameBody>, table: Table, now: int)
    requires Keyed(table) && forall id :: id in table ==> table[id].updatedAt < now
    requires Post(body, table, now).Stored?
    ensures var r := Post(body, table, now).table; var id := body.value.id.value;
      Get(Some(r[id].gameType), r) == Some(r[id])
  {
    var r := Post(body, table, now).table;
    var id := body.value.id.value;
    var t := r[id].gameType;
    assert GameTypeParam(Some(t)) == t;
    var res := Get(Some(t), r);
    assert id in r && r[id].gameType == t;
    var g := res.value;
    assert r[id].updatedAt <= g.updatedAt;
    var j :| j in r && r[j] == g;
    assert j == id;
  }

  /** DELETE: removes the row with the given id, if any, and nothing else. */
  function Delete(id: Option<string>, table: Table): (r: DeleteOutcome)
    ensures r.MissingId? <==> !Truthy(id)
    ensures r.Deleted? ==> r.table.Keys == table.Keys - {id.value}
    ensures r.Deleted? ==> forall k :: k in r.table ==> r.table[k] == table[k]
    ensures r.Deleted? && id.value !in table ==> r.table == table
  {
    if Truthy(id) then Deleted(table - {id.value}) else MissingId
  }
}
