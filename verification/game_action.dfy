/**
 * The game-action route (app/api/game-action/route.ts). POST validates a client's game
 * state, stores it in the registry and, for a finished game, records one history row;
 * DELETE asks the registry to forget a game. The registry call is returned as a value;
 * `GameStates.GameStateManager.SetGame` and `DeleteGame` say what it does.
 */
module GameAction {
  import opened Wrappers
  import opened GameTypes

  /** What a POST answers, and on success the state handed to setGame and the new history. */
  datatype PostOutcome =
    | MissingFields                                            // 400
    | SaveFailed                                               // 500
    | Saved(game: GameState, history: map<string, HistoryRow>) // 200

  datatype DeleteOutcome =
    | MissingId                  // 400
    | DeleteGame(gameId: string) // 200, after deleteGame(gameId)

  /** The id under which a finished game is recorded. */
  function ResultId(id: string): string {
    id + "-result"
  }

  /** `winner || isDraw`. */
  predicate Finished(b: GameBody) {
    Truthy(b.winner) || OrFalse(b.isDraw)
  }

  /** A string board is JSON-decoded (which may throw); an array is used as sent. */
  function ParseBoard(board: BoardValue, parse: string -> Option<BoardValue>): (r: Option<BoardValue>)
    ensures board.Cells? ==> r == Some(board)
    ensures board.Encoded? ==> r == parse(board.text)
  {
    match board
    case Cells(_) => Some(board)
    case Encoded(text) => parse(text)
  }

  /** The row the history insert proposes. */
  function HistoryRecord(b: GameBody, now: int): (h: HistoryRow)
    requires HasRequiredFields(b)
    ensures h.id == ResultId(b.id.value) && h.winner == OrNull(b.winner)
    ensures h.result == (if OrFalse(b.isDraw) then "draw" else "win")
  {
    HistoryRow(ResultId(b.id.value), b.gameType.value, b.playerX.value, b.playerO.value,
               OrNull(b.winner), if OrFalse(b.isDraw) then "draw" else "win", now)
  }

  /**
   * POST. `None` is a body that is not valid JSON, or is null (reading or destructuring it throws);
   * `parse` is JSON.parse; `now` is the clock, for updatedAt and created_at.
   */
  function Post(body: Option<GameBody>, parse: string -> Option<BoardValue>,
                history: map<string, HistoryRow>, now: int): (r: PostOutcome)
    ensures body.None? ==> r == SaveFailed
    ensures body.Some? && !HasRequiredFields(body.value) ==> r == MissingFields
    ensures r.Saved? ==> body.Some? && HasRequiredFields(body.value)
    ensures body.Some? && HasRequiredFields(body.value) && ParseBoard(body.value.board.value, parse).Some?
            ==> r.Saved?
    ensures r == SaveFailed ==> body.None? || ParseBoard(body.value.board.value, parse).None?
    ensures r.Saved? ==> var b := body.value;
      && r.game.id == b.id.value && r.game.gameType == b.gameType.value
      && r.game.playerX == b.playerX.value && r.game.playerO == b.playerO.value
      && r.game.currentTurn == b.currentTurn.value && r.game.updatedAt == now
      && Some(r.game.board) == ParseBoard(b.board.value, parse)
      && r.game.winner == OrNull(b.winner) && r.game.isDraw == OrFalse(b.isDraw)
      && r.game.newGameRequestedBy == OrNull(b.newGameRequestedBy)
    ensures r.Saved? && !Finished(body.value) ==> r.history == history
    ensures r.Saved? && Finished(body.value) ==>
      && r.history.Keys == history.Keys + {ResultId(body.value.id.value)}
      && forall k :: k in history ==> r.history[k] == history[k]
    ensures r.Saved? && Finished(body.value) && ResultId(body.value.id.value) !in history ==>
      r.history[ResultId(body.value.id.value)] == HistoryRecord(body.value, now)
  {
    match body
    case None => SaveFailed
    case Some(b) =>
      if !HasRequiredFields(b) then MissingFields
      else
        match ParseBoard(b.board.value, parse)
        case None => SaveFailed
        case Some(board) =>
          var game := GameState(b.id.value, b.gameType.value, b.playerX.value, b.playerO.value,
                                board, b.currentTurn.value, OrNull(b.winner), OrFalse(b.isDraw),
                                OrNull(b.newGameRequestedBy), now);
          if Finished(b) && ResultId(b.id.value) !in history then
            Saved(game, history[ResultId(b.id.value) := HistoryRecord(b, now)])
          else
            Saved(game, history)
  }

  /**
   * Posting a finished game again, at any later time, leaves the history as the first post
   * left it: the insert does nothing on conflict.
   */
  lemma RepostKeepsHistory(body: Option<GameBody>, parse: string -> Option<BoardValue>,
                           history: map<string, HistoryRow>, now: int, later: int)
    requires Post(body, parse, history, now).Saved?
    ensures Post(body, parse, Post(body, parse, history, now).history, later).Saved?
    ensures Post(body, parse, Post(body, parse, history, now).history, later).history
            == Post(body, parse, history, now).history
  {
  }

  /** A history row is only ever added for a finished game, and never replaced. */
  lemma HistoryOnlyGrows(body: Option<GameBody>, parse: string -> Option<BoardValue>,
                         history: map<string, HistoryRow>, now: int)
    requires Post(body, parse, history, now).Saved?
    ensures var h := Post(body, parse, history, now).history;
      && history.Keys <= h.Keys && |h.Keys - history.Keys| <= 1
      && (forall k :: k in history ==> h[k] == history[k])
      && (h != history ==> Finished(body.value))
  {
    var b := body.value;
    var h := Post(body, parse, history, now).history;
    if Finished(b) && ResultId(b.id.value) !in history {
      assert h.Keys - history.Keys == {ResultId(b.id.value)};
    } else {
      assert h.Keys - history.Keys == {};
    }
  }

  /** DELETE: the `id` query parameter must be present and non-empty. */
  function Delete(id: Option<string>): (r: DeleteOutcome)
    ensures r.MissingId? <==> !Truthy(id)
    ensures r.DeleteGame? ==> r.gameId == id.value
  {
    if Truthy(id) then DeleteGame(id.value) else MissingId
  }
}
