/**
 The board evaluator: the fixed list of winning lines and `checkWinner`,
 which reports the first winning line, a draw on a full board, or nothing.
 */
module Board {
  import opened Wrappers

  /** A player's mark, 'X' or 'O'. */
  datatype Mark = X | O

  /** One cell of the board: `null` or a mark. */
  datatype Cell = Empty | Filled(mark: Mark)

  /** A cell index of the 3x3 board, addressed row by row. */
  type Idx = i: int | 0 <= i < 9

  /** The nine cells of a session's board. */
  type Board = b: seq<Cell> | |b| == 9
    witness [Empty, Empty, Empty, Empty, Empty, Empty, Empty, Empty, Empty]

  /** What `checkWinner` reports as the winner: a mark or 'draw'. */
  datatype Winner = Won(mark: Mark) | Draw

  /** The `{ winner, line }` object returned by `checkWinner`. */
  datatype Outcome = Outcome(winner: Winner, line: seq<int>)

  /** `Array(9).fill(null)`. */
  const EMPTY_BOARD: Board := [Empty, Empty, Empty, Empty, Empty, Empty, Empty, Empty, Empty]

  /** `WIN_COMBOS`: rows, then columns, then diagonals. */
  const WIN_COMBOS: seq<(Idx, Idx, Idx)> := [
    (0, 1, 2), (3, 4, 5), (6, 7, 8),
    (0, 3, 6), (1, 4, 7), (2, 5, 8),
    (0, 4, 8), (2, 4, 6)
  ]

  /** The mark that moves after `m`. */
  function Other(m: Mark): (r: Mark)
    ensures r != m
  {
    if m == X then O else X
  }

  /** The three cells of `line` hold the same mark. */
  predicate LineWins(b: Board, line: (Idx, Idx, Idx)) {
    b[line.0] != Empty && b[line.0] == b[line.1] && b[line.0] == b[line.2]
  }

  /** `board.every(cell => cell !== null)`. */
  predicate IsFull(b: Board) {
    forall i :: 0 <= i < |b| ==> b[i] != Empty
  }

  /** No combination with index in `[lo, hi)` wins. */
  predicate NoWinBetween(b: Board, lo: int, hi: int)
    requires 0 <= lo && hi <= |WIN_COMBOS|
  {
    forall j :: lo <= j < hi ==> !LineWins(b, WIN_COMBOS[j])
  }

  /** No combination wins at all. */
  predicate NoLineWins(b: Board) {
    NoWinBetween(b, 0, |WIN_COMBOS|)
  }

  /** Combination `k` wins and no earlier combination does. */
  predicate FirstWin(b: Board, k: int) {
    0 <= k < |WIN_COMBOS| && LineWins(b, WIN_COMBOS[k]) && NoWinBetween(b, 0, k)
  }

  /** The indices of a combination as the list `[a, b, c]`. */
  function LineOf(line: (Idx, Idx, Idx)): seq<int> {
    [line.0, line.1, line.2]
  }

  /** The result `checkWinner` builds for the winning combination `k`. */
  function WinAt(b: Board, k: int): Outcome
    requires 0 <= k < |WIN_COMBOS| && LineWins(b, WIN_COMBOS[k])
  {
    Outcome(Won(b[WIN_COMBOS[k].0].mark), LineOf(WIN_COMBOS[k]))
  }

  /**
   The `for ... of WIN_COMBOS` search with its early return, from
   combination `k` on: the first winning combination at or after `k`,
   or nothing when none wins.
   */
  function ScanLines(b: Board, k: nat): (r: Option<Outcome>)
    requires k <= |WIN_COMBOS|
    ensures r.None? <==> NoWinBetween(b, k, |WIN_COMBOS|)
    ensures forall j :: k <= j < |WIN_COMBOS| && LineWins(b, WIN_COMBOS[j]) && NoWinBetween(b, k, j)
                        ==> r == Some(WinAt(b, j))
    decreases |WIN_COMBOS| - k
  {
    if k == |WIN_COMBOS| then None
    else if LineWins(b, WIN_COMBOS[k]) then Some(WinAt(b, k))
    else ScanLines(b, k + 1)
  }

  /**
   `checkWinner(board)`: the first winning combination in `WIN_COMBOS`
   order with its mark, else a draw with an empty line on a full board,
   else `null`.
   */
  function CheckWinner(b: Board): (r: Option<Outcome>)
    ensures forall k :: FirstWin(b, k) ==> r == Some(WinAt(b, k))
    ensures NoLineWins(b) ==> r == if IsFull(b) then Some(Outcome(Draw, [])) else None
  {
    match ScanLines(b, 0)
    case Some(o) => Some(o)
    case None => if IsFull(b) then Some(Outcome(Draw, [])) else None
  }

  /** When some combination wins, there is a first one. */
  lemma {:induction false} SomeFirstWin(b: Board)
    requires !NoLineWins(b)
    ensures exists k :: FirstWin(b, k)
  {
    var k := 0;
    while k < |WIN_COMBOS| && !LineWins(b, WIN_COMBOS[k])
      invariant 0 <= k <= |WIN_COMBOS|
      invariant NoWinBetween(b, 0, k)
    {
      k := k + 1;
    }
    assert FirstWin(b, k);
  }

  /**
   The three cases of `checkWinner`, each in both directions: a mark wins
   exactly when some combination does, a draw is reported exactly when no
   combination wins on a full board, and `null` exactly when no
   combination wins and some cell is empty.
   */
  lemma CheckWinnerCases(b: Board)
    ensures (CheckWinner(b).Some? && CheckWinner(b).value.winner.Won?) <==> !NoLineWins(b)
    ensures CheckWinner(b) == Some(Outcome(Draw, [])) <==> NoLineWins(b) && IsFull(b)
    ensures CheckWinner(b).None? <==> NoLineWins(b) && !IsFull(b)
  {
    if !NoLineWins(b) {
      SomeFirstWin(b);
    }
  }

  /**
   Placing mark `m` on an empty cell `i` of a board where nothing wins can
   only complete combinations through `i`, all of them in mark `m`: the
   board never shows two different winners.
   */
  lemma PlacingWinsOnlyForMover(b: Board, i: Idx, m: Mark)
    requires NoLineWins(b) && b[i] == Empty
    ensures forall k :: 0 <= k < |WIN_COMBOS| && LineWins(b[i := Filled(m)], WIN_COMBOS[k])
                        ==> b[i := Filled(m)][WIN_COMBOS[k].0] == Filled(m) && i in LineOf(WIN_COMBOS[k])
    ensures CheckWinner(b[i := Filled(m)]) == None
         || CheckWinner(b[i := Filled(m)]) == Some(Outcome(Draw, []))
         || CheckWinner(b[i := Filled(m)]).value.winner == Won(m)
  {
    var b' := b[i := Filled(m)];
    forall k | 0 <= k < |WIN_COMBOS| && LineWins(b', WIN_COMBOS[k])
      ensures b'[WIN_COMBOS[k].0] == Filled(m) && i in LineOf(WIN_COMBOS[k])
    {
      assert !LineWins(b, WIN_COMBOS[k]);
    }
    if !NoLineWins(b') {
      SomeFirstWin(b');
    }
  }

  /**
   On a board where `checkWinner` reports nothing, a mark placed on an empty
   cell can only end the game as a draw or as a win for that mark.
   */
  lemma PlacedOutcome(b: Board, i: Idx, m: Mark)
    requires CheckWinner(b) == None && b[i] == Empty
    ensures CheckWinner(b[i := Filled(m)]).Some? ==> CheckWinner(b[i := Filled(m)]).value.winner in {Draw, Won(m)}
  {
    CheckWinnerCases(b);
    PlacingWinsOnlyForMover(b, i, m);
  }

  /** The number of cells holding mark `m`. */
  function Count(s: seq<Cell>, m: Mark): nat {
    if s == [] then 0 else (if s[0] == Filled(m) then 1 else 0) + Count(s[1..], m)
  }

  /** Writing `m` into an empty cell adds one `m` and no other mark. */
  lemma {:induction false} CountPlace(s: seq<Cell>, i: int, m: Mark, n: Mark)
    requires 0 <= i < |s| && s[i] == Empty
    ensures Count(s[i := Filled(m)], n) == Count(s, n) + (if m == n then 1 else 0)
  {
    if i == 0 {
      assert s[i := Filled(m)][1..] == s[1..];
    } else {
      CountPlace(s[1..], i - 1, m, n);
      assert s[i := Filled(m)][1..] == s[1..][i - 1 := Filled(m)];
    }
  }

  /** A board with no filled cell holds no mark. */
  lemma {:induction false} CountBlank(s: seq<Cell>, m: Mark)
    requires forall i :: 0 <= i < |s| ==> s[i] == Empty
    ensures Count(s, m) == 0
  {
    if s != [] {
      CountBlank(s[1..], m);
    }
  }

  /** The empty board holds no marks and no winning combination. */
  lemma EmptyBoardIsBlank()
    ensures Count(EMPTY_BOARD, X) == 0 && Count(EMPTY_BOARD, O) == 0
    ensures CheckWinner(EMPTY_BOARD) == None
  {
    assert !IsFull(EMPTY_BOARD) by { assert EMPTY_BOARD[0] == Empty; }
    CountBlank(EMPTY_BOARD, X);
    CountBlank(EMPTY_BOARD, O);
  }
}
