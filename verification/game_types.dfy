/**
 * The server-side game record (lib/gameStateManager.ts GameState and the active_games /
 * game_history rows) and the JSON request body the game routes accept, with the JavaScript
 * truthiness rules the routes apply to it.
 */
module GameTypes {
  import opened Wrappers

  datatype Seat = X | O

  type Cell = Option<Seat>

  /**
   * A board as a client sends it: a JSON array of cells, or that array JSON-encoded as a
   * string. The server never inspects it.
   */
  datatype BoardValue = Cells(cells: seq<Cell>) | Encoded(text: string)

  datatype GameState = GameState(
    id: string,
    gameType: string,
    playerX: string,
    playerO: string,
    board: BoardValue,
    currentTurn: string,
    winner: Option<string>,
    isDraw: bool,
    newGameRequestedBy: Option<string>,
    updatedAt: int)

  /** The destructured JSON body of a game POST; None is a missing field. */
  datatype GameBody = GameBody(
    id: Option<string>,
    gameType: Option<string>,
    playerX: Option<string>,
    playerO: Option<string>,
    board: Option<BoardValue>,
    currentTurn: Option<string>,
    winner: Option<string>,
    isDraw: Option<bool>,
    newGameRequestedBy: Option<string>)

  /** One row of the game_history table. */
  datatype HistoryRow = HistoryRow(
    id: string,
    gameType: string,
    playerX: string,
    playerO: string,
    winner: Option<string>,
    result: string,
    createdAt: int)

  const DefaultGameType := "tic-tac-toe"

  /** A string field is truthy when present and non-empty. */
  predicate Truthy(v: Option<string>) {
    v.Some? && v.value != ""
  }

  /** An array is always truthy; an encoded board only when non-empty. */
  predicate BoardTruthy(b: Option<BoardValue>) {
    b.Some? && (b.value.Cells? || b.value.text != "")
  }

  /** `v || null`. */
  function OrNull(v: Option<string>): (r: Option<string>)
    ensures r.Some? <==> Truthy(v)
    ensures r.Some? ==> r == v
  {
    if Truthy(v) then v else None
  }

  /** `v || false`. */
  function OrFalse(v: Option<bool>): (r: bool)
    ensures r <==> v == Some(true)
  {
    v.Some? && v.value
  }

  /** The guard `!id || !gameType || !playerX || !playerO || !board || !currentTurn`, negated. */
  predicate HasRequiredFields(b: GameBody) {
    Truthy(b.id) && Truthy(b.gameType) && Truthy(b.playerX) && Truthy(b.playerO)
    && BoardTruthy(b.board) && Truthy(b.currentTurn)
  }

  /** `searchParams.get('gameType') || 'tic-tac-toe'`. */
  function GameTypeParam(p: Option<string>): (t: string)
    ensures t != ""
    ensures Truthy(p) ==> t == p.value
  {
    if Truthy(p) then p.value else DefaultGameType
  }
}
