/**
 * The game-stats route (app/api/game-stats/route.ts): for every player who appears in the
 * game_history rows of one game type, how many of those games they played, won, drew and
 * lost. The table is a sequence of rows; the two SQL queries become counts over it.
 */
module GameStats {
  import opened Wrappers
  import opened GameTypes

  datatype PlayerStats = PlayerStats(totalGames: nat, wins: nat, draws: nat, losses: nat)

  /** The rows the per-player query aggregates: that type, with the player in either seat. */
  predicate Plays(row: HistoryRow, gameType: string, player: string) {
    row.gameType == gameType && (row.playerX == player || row.playerO == player)
  }

  /** `winner = player`: a missing winner never equals a name. */
  predicate Won(row: HistoryRow, player: string) {
    row.winner == Some(player)
  }

  /** `winner IS NOT NULL AND winner != player`. */
  predicate Lost(row: HistoryRow, player: string) {
    row.winner.Some? && row.winner.value != player
  }

  predicate Drawn(row: HistoryRow) {
    row.result == "draw"
  }

  /** The number of rows satisfying `f`. */
  function Count(rows: seq<HistoryRow>, f: HistoryRow -> bool): (n: nat)
    ensures n <= |rows|
    ensures n == 0 <==> forall i :: 0 <= i < |rows| ==> !f(rows[i])
  {
    if rows == [] then 0 else (if f(rows[0]) then 1 else 0) + Count(rows[1..], f)
  }

  /** `SELECT DISTINCT unnest(ARRAY[player_x, player_o]) … WHERE game_type = t`. */
  function PlayersOf(rows: seq<HistoryRow>, gameType: string): (r: set<string>)
    ensures forall p :: p in r <==> exists i :: 0 <= i < |rows| && Plays(rows[i], gameType, p)
  {
    (set i | 0 <= i < |rows| && rows[i].gameType == gameType :: rows[i].playerX)
    + (set i | 0 <= i < |rows| && rows[i].gameType == gameType :: rows[i].playerO)
  }

  /** The aggregate query for one player. */
  function StatsFor(rows: seq<HistoryRow>, gameType: string, player: string): PlayerStats {
    PlayerStats(
      Count(rows, r => Plays(r, gameType, player)),
      Count(rows, r => Plays(r, gameType, player) && Won(r, player)),
      Count(rows, r => Plays(r, gameType, player) && Drawn(r)),
      Count(rows, r => Plays(r, gameType, player) && Lost(r, player)))
  }

  /** A row is a win, a loss or neither for a player, never both. */
  lemma {:induction false} WinsAndLossesWithinGames(rows: seq<HistoryRow>, gameType: string, player: string)
    ensures Count(rows, r => Plays(r, gameType, player) && Won(r, player))
          + Count(rows, r => Plays(r, gameType, player) && Lost(r, player))
         <= Count(rows, r => Plays(r, gameType, player))
  {
    if rows != [] {
      WinsAndLossesWithinGames(rows[1..], gameType, player);
    }
  }

  /** A draw is one of the player's games. */
  lemma {:induction false} DrawsWithinGames(rows: seq<HistoryRow>, gameType: string, player: string)
    ensures Count(rows, r => Plays(r, gameType, player) && Drawn(r))
         <= Count(rows, r => Plays(r, gameType, player))
  {
    if rows != [] {
      DrawsWithinGames(rows[1..], gameType, player);
    }
  }

  /** For every reported player: wins + losses <= totalGames, draws <= totalGames, and at least one game. */
  lemma StatsBounded(rows: seq<HistoryRow>, gameType: string, player: string)
    requires player in PlayersOf(rows, gameType)
    ensures var s := StatsFor(rows, gameType, player);
      s.wins + s.losses <= s.totalGames && s.draws <= s.totalGames && s.totalGames >= 1
  {
    WinsAndLossesWithinGames(rows, gameType, player);
    DrawsWithinGames(rows, gameType, player);
  }

  /**
   * GET: one entry per distinct player of the requested type (by default tic-tac-toe),
   * filled in one player at a time.
   */
  method Get(param: Option<string>, rows: seq<HistoryRow>) returns (stats: map<string, PlayerStats>)
    ensures stats.Keys == PlayersOf(rows, GameTypeParam(param))
    ensures forall p :: p in stats ==> stats[p] == StatsFor(rows, GameTypeParam(param), p)
  {
    var gameType := GameTypeParam(param);
    var players := PlayersOf(rows, gameType);
    stats := map[];
    var todo := players;
    while todo != {}
      invariant todo <= players
      invariant stats.Keys == players - todo
      invariant forall p :: p in stats ==> stats[p] == StatsFor(rows, gameType, p)
      decreases todo
    {
      var playerName :| playerName in todo;
      stats := stats[playerName := StatsFor(rows, gameType, playerName)];
      todo := todo - {playerName};
    }
  }
}
