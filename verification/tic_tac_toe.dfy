/**
 * The hot-seat tic-tac-toe page (app/games/tic-tac-toe/page.tsx): a nine-cell board, the
 * player to move (❤️ or ⭐), the winner and its line, the draw flag and a running score.
 *
 * `Click` and `Initial` give the meaning of the page's handlers as functions of the whole
 * page state; the class `Game` holds that state in fields and its
 * methods are proved to follow those functions.
 */
module TicTacToe {
  import opened Wrappers

  datatype Mark = Heart | Star

  type Cell = Option<Mark>

  type Board = seq<Cell>

  type Index = i: nat | i < 9

  function Other(m: Mark): Mark {
    if m == Heart then Star else Heart
  }

  datatype Triple = Triple(a: Index, b: Index, c: Index)

  /** Rows, then columns, then diagonals: the order in which lines are scanned. */
  const WinningCombinations: seq<Triple> := [
    Triple(0, 1, 2), Triple(3, 4, 5), Triple(6, 7, 8),
    Triple(0, 3, 6), Triple(1, 4, 7), Triple(2, 5, 8),
    Triple(0, 4, 8), Triple(2, 4, 6)
  ]

  const EmptyBoard: Board := [None, None, None, None, None, None, None, None, None]

  function LineOf(t: Triple): seq<nat> {
    [t.a, t.b, t.c]
  }

  /** Line `k` holds three identical marks. */
  predicate Completes(board: Board, k: nat)
    requires |board| == 9 && k < 8
  {
    var t := WinningCombinations[k];
    board[t.a].Some? && board[t.a] == board[t.b] && board[t.a] == board[t.c]
  }

  /** The first completed line at position `from` or later in the scan order. */
  function FirstCompleted(board: Board, from: nat): (r: Option<nat>)
    requires |board| == 9 && from <= 8
    ensures r.Some? ==> from <= r.value < 8 && Completes(board, r.value)
    ensures r.Some? ==> forall j :: from <= j < r.value ==> !Completes(board, j)
    ensures r.None? ==> forall j :: from <= j < 8 ==> !Completes(board, j)
    decreases 8 - from
  {
    if from == 8 then None
    else if Completes(board, from) then Some(from)
    else FirstCompleted(board, from + 1)
  }

  /** The position of the line checkWinner reports: the first completed one. */
  function WinningLine(board: Board): (r: Option<nat>)
    requires |board| == 9
    ensures r.Some? ==> r.value < 8 && Completes(board, r.value)
    ensures r.Some? ==> forall j :: 0 <= j < r.value ==> !Completes(board, j)
    ensures r.None? <==> forall j :: 0 <= j < 8 ==> !Completes(board, j)
  {
    FirstCompleted(board, 0)
  }

  /** The mark on the first completed line, if there is one. */
  function Winner(board: Board): (w: Option<Mark>)
    requires |board| == 9
    ensures w.Some? <==> exists k :: 0 <= k < 8 && Completes(board, k)
  {
    match WinningLine(board)
    case Some(k) => board[WinningCombinations[k].a]
    case None => None
  }

  predicate Full(board: Board) {
    forall i :: 0 <= i < |board| ==> board[i].Some?
  }

  function CountOf(board: Board, c: Cell): nat {
    if board == [] then 0 else (if board[0] == c then 1 else 0) + CountOf(board[1..], c)
  }

  datatype Scores = Scores(hearts: nat, stars: nat, draws: nat) {
    function Total(): nat {
      hearts + stars + draws
    }

    /** `{ ...prev, [gameWinner]: prev[gameWinner] + 1 }`. */
    function Credit(m: Mark): (r: Scores)
      ensures m == Heart ==> r == this.(hearts := hearts + 1)
      ensures m == Star ==> r == this.(stars := stars + 1)
      ensures r.Total() == Total() + 1
      ensures r.draws == draws
    {
      if m == Heart then this.(hearts := hearts + 1) else this.(stars := stars + 1)
    }
  }

  /** Everything the page keeps in React state. */
  datatype State = State(
    board: Board,
    currentPlayer: Mark,
    winner: Option<Mark>,
    winningLine: seq<nat>,
    isDraw: bool,
    scores: Scores)
  {
    predicate Over() {
      winner.Some? || isDraw
    }
  }

  /** A click is taken when the cell is free and nobody has won or drawn yet. */
  predicate Legal(s: State, index: Index)
    requires |s.board| == 9
  {
    s.board[index].None? && s.winner.None? && !s.isDraw
  }

  /** handleCellClick. */
  function Click(s: State, index: Index): (r: State)
    requires |s.board| == 9
    ensures |r.board| == 9
    ensures !Legal(s, index) ==> r == s
    ensures Legal(s, index) ==> r.board[index] == Some(s.currentPlayer)
    ensures Legal(s, index) ==> forall j :: 0 <= j < 9 && j != index ==> r.board[j] == s.board[j]
    ensures Legal(s, index) ==> r.winner == Winner(r.board)
    ensures Legal(s, index) ==> (r.isDraw <==> r.winner.None? && Full(r.board))
    ensures Legal(s, index) && r.Over() ==> r.currentPlayer == s.currentPlayer
    ensures Legal(s, index) && !r.Over() ==> r.currentPlayer == Other(s.currentPlayer)
    ensures Legal(s, index) && r.winner.Some? ==> r.scores == s.scores.Credit(r.winner.value)
    ensures Legal(s, index) && r.isDraw ==> r.scores == s.scores.(draws := s.scores.draws + 1)
    ensures Legal(s, index) && !r.Over() ==> r.scores == s.scores
    ensures r.scores.Total() == s.scores.Total() + (if r.Over() && !s.Over() then 1 else 0)
  {
    if !Legal(s, index) then s
    else
      var b := s.board[index := Some(s.currentPlayer)];
      match WinningLine(b)
      case Some(k) =>
        var w := b[WinningCombinations[k].a].value;
        s.(board := b, winner := Some(w), winningLine := LineOf(WinningCombinations[k]),
           scores := s.scores.Credit(w))
      case None =>
        if Full(b) then
          s.(board := b, isDraw := true, scores := s.scores.(draws := s.scores.draws + 1))
        else
          s.(board := b, currentPlayer := Other(s.currentPlayer))
  }

  /** The state after resetGame, keeping the given scores. */
  function Initial(scores: Scores): (r: State)
    ensures |r.board| == 9 && forall i :: 0 <= i < 9 ==> r.board[i].None?
    ensures r.currentPlayer == Heart && !r.Over() && r.winningLine == []
    ensures r.scores == scores
  {
    State(EmptyBoard, Heart, None, [], false, scores)
  }

  /** resetScores: all three counters back to zero, then resetGame. */
  function ZeroScores(): (r: Scores)
    ensures r.Total() == 0
  {
    Scores(0, 0, 0)
  }

  /**
   * The invariant of every state reachable from a reset: marks alternate starting with ❤️,
   * so the player to move (or, once the game is over, the player who moved last) is
   * determined by the counts; the winner is the mark of the first completed line; a draw
   * is a full board with no line; an unfinished game has neither.
   */
  ghost predicate Consistent(s: State) {
    && |s.board| == 9
    && CountOf(s.board, Some(Heart))
       == CountOf(s.board, Some(Star)) + (if s.Over() == (s.currentPlayer == Heart) then 1 else 0)
    && (s.winner.Some? ==>
          && !s.isDraw
          && WinningLine(s.board).Some?
          && s.winner == Winner(s.board)
          && s.winner == Some(s.currentPlayer)
          && s.winningLine == LineOf(WinningCombinations[WinningLine(s.board).value]))
    && (s.isDraw ==> Full(s.board) && WinningLine(s.board).None? && s.winningLine == [])
    && (!s.Over() ==> WinningLine(s.board).None? && !Full(s.board) && s.winningLine == [])
  }

  lemma {:induction false} CountOfEmpty(n: nat, c: Mark)
    requires n <= 9
    ensures CountOf(EmptyBoard[..n], Some(c)) == 0
  {
    if n > 0 {
      assert EmptyBoard[..n][1..] == EmptyBoard[..n - 1];
      CountOfEmpty(n - 1, c);
    }
  }

  lemma InitialConsistent(scores: Scores)
    ensures Consistent(Initial(scores))
  {
    assert EmptyBoard[..9] == EmptyBoard;
    CountOfEmpty(9, Heart);
    CountOfEmpty(9, Star);
    assert forall i :: 0 <= i < 9 ==> EmptyBoard[i].None?;
    assert EmptyBoard[0].None?;
  }

  /** Filling a free cell with `m` adds one `m` and leaves the count of every other cell value. */
  lemma {:induction false} CountAfterPlace(b: Board, i: nat, m: Mark, c: Cell)
    requires i < |b| && b[i].None?
    ensures CountOf(b[i := Some(m)], c)
            == CountOf(b, c) + (if c == Some(m) then 1 else 0) - (if c.None? then 1 else 0)
  {
    if i == 0 {
      assert b[i := Some(m)][1..] == b[1..];
    } else {
      assert b[i := Some(m)][1..] == b[1..][i - 1 := Some(m)];
      CountAfterPlace(b[1..], i - 1, m, c);
    }
  }

  /** Every cell is empty, a heart or a star. */
  lemma {:induction false} CountsAddUp(b: Board)
    ensures CountOf(b, None) + CountOf(b, Some(Heart)) + CountOf(b, Some(Star)) == |b|
  {
    if b != [] {
      CountsAddUp(b[1..]);
      if b[0].Some? && b[0].value != Heart {
        assert b[0] == Some(Star);
      }
    }
  }

  lemma {:induction false} FullHasNoEmpty(b: Board)
    requires Full(b)
    ensures CountOf(b, None) == 0
  {
    if b != [] {
      FullHasNoEmpty(b[1..]);
    }
  }

  /**
   * On a board with no completed line, the move that completes one completes it with the
   * mover's mark: any new line runs through the cell just filled.
   */
  lemma WinnerIsMover(b: Board, i: Index, m: Mark)
    requires |b| == 9 && b[i].None? && WinningLine(b).None?
    requires WinningLine(b[i := Some(m)]).Some?
    ensures Winner(b[i := Some(m)]) == Some(m)
  {
    var b' := b[i := Some(m)];
    var k := WinningLine(b').value;
    var t := WinningCombinations[k];
    assert !Completes(b, k);
    assert t.a == i || t.b == i || t.c == i;
  }

  /** Every legal or rejected click keeps the invariant. */
  lemma ClickConsistent(s: State, index: Index)
    requires Consistent(s)
    ensures Consistent(Click(s, index))
  {
    if Legal(s, index) {
      var m := s.currentPlayer;
      var b := s.board[index := Some(m)];
      CountAfterPlace(s.board, index, m, Some(Heart));
      CountAfterPlace(s.board, index, m, Some(Star));
      if WinningLine(b).Some? {
        WinnerIsMover(s.board, index, m);
      }
    }
  }

  /**
   * A drawn game always ends on a ❤️ move: a full board holds five hearts and four stars.
   */
  lemma DrawEndsOnHeart(s: State)
    requires Consistent(s) && s.isDraw
    ensures s.currentPlayer == Heart
    ensures CountOf(s.board, Some(Heart)) == 5 && CountOf(s.board, Some(Star)) == 4
  {
    CountsAddUp(s.board);
    FullHasNoEmpty(s.board);
  }

  /** In every reachable state the ❤️ count equals or exceeds by one the ⭐ count. */
  lemma MarksBalanced(s: State)
    requires Consistent(s)
    ensures CountOf(s.board, Some(Heart)) == CountOf(s.board, Some(Star))
         || CountOf(s.board, Some(Heart)) == CountOf(s.board, Some(Star)) + 1
  {
  }

  /** Clicks applied one after another. */
  function Play(s: State, moves: seq<Index>): (r: State)
    requires |s.board| == 9
    ensures |r.board| == 9
    ensures r.scores.Total() >= s.scores.Total()
    decreases |moves|
  {
    if moves == [] then s else Play(Click(s, moves[0]), moves[1..])
  }

  /**
   * Between resets the score total grows by exactly one per finished game: a sequence of
   * clicks from a fresh board adds one if it ends the game and nothing otherwise.
   */
  lemma {:induction false} PlayScores(s: State, moves: seq<Index>)
    requires |s.board| == 9
    ensures Play(s, moves).scores.Total()
            == s.scores.Total() + (if Play(s, moves).Over() && !s.Over() then 1 else 0)
    decreases |moves|
  {
    if moves != [] {
      var s' := Click(s, moves[0]);
      PlayScores(s', moves[1..]);
      if s.Over() {
        assert s' == s;
      }
      if s'.Over() && !s.Over() {
        assert s'.Over();
        PlayOverStays(s', moves[1..]);
      }
    }
  }

  /** Every state a sequence of clicks reaches from a consistent one, in particular from a reset, is consistent. */
  lemma {:induction false} PlayConsistent(s: State, moves: seq<Index>)
    requires Consistent(s)
    ensures Consistent(Play(s, moves))
    decreases |moves|
  {
    if moves != [] {
      ClickConsistent(s, moves[0]);
      PlayConsistent(Click(s, moves[0]), moves[1..]);
    }
  }

  /** Once over, no click changes anything. */
  lemma {:induction false} PlayOverStays(s: State, moves: seq<Index>)
    requires |s.board| == 9 && s.Over()
    ensures Play(s, moves) == s
    decreases |moves|
  {
    if moves != [] {
      PlayOverStays(Click(s, moves[0]), moves[1..]);
    }
  }

  /** No line is completed, written out line by line. */
  predicate LineFree(b: Board)
    requires |b| == 9
  {
    && !(b[0].Some? && b[0] == b[1] && b[0] == b[2])
    && !(b[3].Some? && b[3] == b[4] && b[3] == b[5])
    && !(b[6].Some? && b[6] == b[7] && b[6] == b[8])
    && !(b[0].Some? && b[0] == b[3] && b[0] == b[6])
    && !(b[1].Some? && b[1] == b[4] && b[1] == b[7])
    && !(b[2].Some? && b[2] == b[5] && b[2] == b[8])
    && !(b[0].Some? && b[0] == b[4] && b[0] == b[8])
    && !(b[2].Some? && b[2] == b[4] && b[2] == b[6])
  }

  lemma LineFreeHasNoWinner(b: Board)
    requires |b| == 9
    ensures LineFree(b) <==> WinningLine(b).None?
  {
    if LineFree(b) {
      forall j | 0 <= j < 8 ensures !Completes(b, j) {
        assert WinningCombinations[j] in WinningCombinations;
      }
    } else {
      assert exists j :: 0 <= j < 8 && Completes(b, j) by {
        if !(b[0].Some? && b[0] == b[1] && b[0] == b[2]) {
          if !(b[3].Some? && b[3] == b[4] && b[3] == b[5]) {
            if !(b[6].Some? && b[6] == b[7] && b[6] == b[8]) {
              if !(b[0].Some? && b[0] == b[3] && b[0] == b[6]) {
                if !(b[1].Some? && b[1] == b[4] && b[1] == b[7]) {
                  if !(b[2].Some? && b[2] == b[5] && b[2] == b[8]) {
                    if !(b[0].Some? && b[0] == b[4] && b[0] == b[8]) {
                      assert Completes(b, 7);
                    } else { assert Completes(b, 6); }
                  } else { assert Completes(b, 5); }
                } else { assert Completes(b, 4); }
              } else { assert Completes(b, 3); }
            } else { assert Completes(b, 2); }
          } else { assert Completes(b, 1); }
        } else { assert Completes(b, 0); }
      }
    }
  }

  /** A click that neither completes a line nor fills the board hands the turn over. */
  lemma QuietClick(s: State, index: Index, b: Board)
    requires |s.board| == 9 && Legal(s, index) && b == s.board[index := Some(s.currentPlayer)]
    requires LineFree(b) && !Full(b)
    ensures Click(s, index) == s.(board := b, currentPlayer := Other(s.currentPlayer))
  {
    LineFreeHasNoWinner(b);
  }

  lemma {:induction false} PlayConcat(s: State, a: seq<Index>, b: seq<Index>)
    requires |s.board| == 9
    ensures Play(s, a + b) == Play(Play(s, a), b)
    decreases |a|
  {
    if a == [] {
      assert a + b == b;
    } else {
      assert (a + b)[1..] == a[1..] + b;
      PlayConcat(Click(s, a[0]), a[1..], b);
    }
  }

  /** Three clicks played as a move list. */
  lemma Play3(s: State, i: Index, j: Index, k: Index)
    requires |s.board| == 9
    ensures Play(s, [i, j, k]) == Click(Click(Click(s, i), j), k)
  {
    assert [i, j, k][1..] == [j, k];
    assert [j, k][1..] == [k];
    assert [k][1..] == [];
    var s1 := Click(s, i);
    var s2 := Click(s1, j);
    calc {
      Play(s, [i, j, k]);
      Play(s1, [j, k]);
      Play(s2, [k]);
      Play(Click(s2, k), []);
    }
  }

  /** ❤️ 0, ⭐ 3, ❤️ 1, ⭐ 4: no line yet, ❤️ to move. */
  lemma TopRowOpening(scores: Scores)
    ensures Click(Click(Click(Click(Initial(scores), 0), 3), 1), 4)
            == Initial(scores).(board := EmptyBoard[0 := Some(Heart)][3 := Some(Star)]
                                                   [1 := Some(Heart)][4 := Some(Star)])
  {
    var H, S := Some(Heart), Some(Star);
    var s0 := Initial(scores);
    var b1 := EmptyBoard[0 := H];
    var s1 := s0.(board := b1, currentPlayer := Star);
    QuietClick(s0, 0, b1);
    var b2 := b1[3 := S];
    var s2 := s1.(board := b2, currentPlayer := Heart);
    QuietClick(s1, 3, b2);
    var b3 := b2[1 := H];
    var s3 := s2.(board := b3, currentPlayer := Star);
    QuietClick(s2, 1, b3);
    var b4 := b3[4 := S];
    QuietClick(s3, 4, b4);
  }

  /**
   * ❤️ 0, ⭐ 3, ❤️ 1, ⭐ 4, ❤️ 2: the top row wins for ❤️, the turn stays with ❤️, the ❤️
   * score goes up by one, and a later click on a free cell is ignored.
   */
  lemma TopRowScenario(scores: Scores)
    ensures var r := Click(Click(Click(Click(Click(Initial(scores), 0), 3), 1), 4), 2);
      && r.winner == Some(Heart) && r.winningLine == [0, 1, 2] && r.currentPlayer == Heart
      && r.scores == scores.(hearts := scores.hearts + 1)
      && r.board[5].None? && Click(r, 5) == r
  {
    TopRowOpening(scores);
    var s4 := Click(Click(Click(Click(Initial(scores), 0), 3), 1), 4);
    var b5 := s4.board[2 := Some(Heart)];
    assert Completes(b5, 0);
    assert WinningLine(b5) == Some(0);
  }

  /** ❤️ 0, ⭐ 1, ❤️ 2. */
  lemma DrawOpening(scores: Scores)
    ensures Click(Click(Click(Initial(scores), 0), 1), 2)
            == Initial(scores).(board := EmptyBoard[0 := Some(Heart)][1 := Some(Star)][2 := Some(Heart)],
                                currentPlayer := Star)
  {
    var H, S := Some(Heart), Some(Star);
    var s0 := Initial(scores);
    var b1 := EmptyBoard[0 := H];
    var s1 := s0.(board := b1, currentPlayer := Star);
    QuietClick(s0, 0, b1);
    var b2 := b1[1 := S];
    var s2 := s1.(board := b2, currentPlayer := Heart);
    QuietClick(s1, 1, b2);
    var b3 := b2[2 := H];
    QuietClick(s2, 2, b3);
  }

  /** ⭐ 3, ❤️ 5, ⭐ 4. */
  lemma DrawMiddle(s: State)
    requires !s.Over() && s.currentPlayer == Star
    requires s.board == EmptyBoard[0 := Some(Heart)][1 := Some(Star)][2 := Some(Heart)]
    ensures Click(Click(Click(s, 3), 5), 4)
            == s.(board := s.board[3 := Some(Star)][5 := Some(Heart)][4 := Some(Star)],
                  currentPlayer := Heart)
  {
    var H, S := Some(Heart), Some(Star);
    var b1 := s.board[3 := S];
    var s1 := s.(board := b1, currentPlayer := Heart);
    QuietClick(s, 3, b1);
    var b2 := b1[5 := H];
    var s2 := s1.(board := b2, currentPlayer := Star);
    QuietClick(s1, 5, b2);
    var b3 := b2[4 := S];
    QuietClick(s2, 4, b3);
  }

  /** ❤️ 6, ⭐ 8, ❤️ 7: the ninth mark fills the board without a line. */
  lemma DrawEnding(s: State)
    requires !s.Over() && s.currentPlayer == Heart
    requires s.board == EmptyBoard[0 := Some(Heart)][1 := Some(Star)][2 := Some(Heart)]
                                  [3 := Some(Star)][5 := Some(Heart)][4 := Some(Star)]
    ensures Click(Click(Click(s, 6), 8), 7)
            == s.(board := s.board[6 := Some(Heart)][8 := Some(Star)][7 := Some(Heart)],
                  isDraw := true, scores := s.scores.(draws := s.scores.draws + 1))
  {
    var H, S := Some(Heart), Some(Star);
    var b1 := s.board[6 := H];
    var s1 := s.(board := b1, currentPlayer := Star);
    QuietClick(s, 6, b1);
    var b2 := b1[8 := S];
    var s2 := s1.(board := b2, currentPlayer := Heart);
    QuietClick(s1, 8, b2);
    var b3 := b2[7 := H];
    LineFreeHasNoWinner(b3);
    assert Full(b3);
  }

  /**
   * Cells 0, 1, 2, 3, 5, 4, 6, 8, 7 in turn: no line ever forms and the game ends drawn,
   * with the draw counter up by one.
   */
  lemma DrawScenario(scores: Scores)
    ensures var r := Play(Initial(scores), [0, 1, 2, 3, 5, 4, 6, 8, 7]);
      && r.isDraw && r.winner.None? && Full(r.board)
      && r.scores == scores.(draws := scores.draws + 1)
  {
    var s0 := Initial(scores);
    DrawOpening(scores);
    Play3(s0, 0, 1, 2);
    var s3 := Play(s0, [0, 1, 2]);
    DrawMiddle(s3);
    Play3(s3, 3, 5, 4);
    var s6 := Play(s3, [3, 5, 4]);
    DrawEnding(s6);
    Play3(s6, 6, 8, 7);
    PlayConcat(s0, [0, 1, 2], [3, 5, 4]);
    PlayConcat(s0, [0, 1, 2] + [3, 5, 4], [6, 8, 7]);
    DrawMoves();
  }

  lemma DrawMoves()
    ensures [0, 1, 2] + [3, 5, 4] + [6, 8, 7] == [0, 1, 2, 3, 5, 4, 6, 8, 7]
  {
  }

  /** The three outcomes of a legal click, spelled out. */
  lemma ClickCases(s: State, index: Index)
    requires |s.board| == 9 && Legal(s, index)
    ensures var b := s.board[index := Some(s.currentPlayer)];
      && (WinningLine(b).Some? ==>
            Click(s, index) == s.(board := b, winner := Winner(b),
                                  winningLine := LineOf(WinningCombinations[WinningLine(b).value]),
                                  scores := s.scores.Credit(Winner(b).value)))
      && (WinningLine(b).None? && Full(b) ==>
            Click(s, index) == s.(board := b, isDraw := true,
                                  scores := s.scores.(draws := s.scores.draws + 1)))
      && (WinningLine(b).None? && !Full(b) ==>
            Click(s, index) == s.(board := b, currentPlayer := Other(s.currentPlayer)))
  {
  }

  /** The page component: its React state as fields, its handlers as methods. */
  class Game {
    var board: Board
    var currentPlayer: Mark
    var winner: Option<Mark>
    var winningLine: seq<nat>
    var isDraw: bool
    var scores: Scores

    function Snapshot(): State
      reads this
    {
      State(board, currentPlayer, winner, winningLine, isDraw, scores)
    }

    ghost predicate Valid()
      reads this
    {
      Consistent(Snapshot())
    }

    /** The initial render: an empty board, ❤️ to move, all scores zero. */
    constructor ()
      ensures Snapshot() == Initial(ZeroScores()) && Valid()
    {
      var init := Initial(ZeroScores());
      board := init.board;
      currentPlayer := init.currentPlayer;
      winner := init.winner;
      winningLine := init.winningLine;
      isDraw := init.isDraw;
      scores := init.scores;
      new;
      InitialConsistent(ZeroScores());
    }

    /**
     * checkWinner: scans the lines in order and stops at the first completed one, whose
     * cells it records as the winning line.
     */
    method CheckWinner(newBoard: Board) returns (w: Option<Mark>)
      requires |newBoard| == 9
      modifies this`winningLine
      ensures w == Winner(newBoard) && (w.Some? <==> WinningLine(newBoard).Some?)
      ensures match WinningLine(newBoard)
        case Some(k) => winningLine == LineOf(WinningCombinations[k])
        case None => winningLine == old(winningLine)
    {
      for i := 0 to 8
        invariant FirstCompleted(newBoard, i) == WinningLine(newBoard)
        invariant winningLine == old(winningLine)
      {
        var t := WinningCombinations[i];
        if newBoard[t.a].Some? && newBoard[t.a] == newBoard[t.b] && newBoard[t.a] == newBoard[t.c] {
          winningLine := [t.a, t.b, t.c];
          return newBoard[t.a];
        }
      }
      return None;
    }

    /**
     * handleCellClick. Since the new state is `Click` of the old one, `ClickConsistent`
     * carries `Valid()` across every click.
     */
    method HandleCellClick(index: Index)
      requires |board| == 9
      modifies this
      ensures Snapshot() == Click(old(Snapshot()), index)
    {
      if board[index].Some? || winner.Some? || isDraw {
        return;
      }
      ghost var pre := Snapshot();
      ghost var post := Click(pre, index);
      ClickCases(pre, index);
      var newBoard := board[index := Some(currentPlayer)];
      board := newBoard;
      var gameWinner := CheckWinner(newBoard);
      if gameWinner.Some? {
        winner := gameWinner;
        scores := scores.Credit(gameWinner.value);
        assert post == State(board, currentPlayer, winner, winningLine, isDraw, scores);
      } else if Full(newBoard) {
        isDraw := true;
        scores := scores.(draws := scores.draws + 1);
        assert post == State(board, currentPlayer, winner, winningLine, isDraw, scores);
      } else {
        currentPlayer := Other(currentPlayer);
        assert post == State(board, currentPlayer, winner, winningLine, isDraw, scores);
      }
    }

    /** resetGame: a fresh board, ❤️ to move, the scores kept. */
    method ResetGame()
      modifies this
      ensures Valid() && Snapshot() == Initial(old(scores))
    {
      board := EmptyBoard;
      currentPlayer := Heart;
      winner := None;
      winningLine := [];
      isDraw := false;
      InitialConsistent(scores);
    }

    /** resetScores: every counter back to zero, then resetGame. */
    method ResetScores()
      modifies this
      ensures Valid() && Snapshot() == Initial(ZeroScores())
    {
      scores := Scores(0, 0, 0);
      ResetGame();
    }
  }
}
