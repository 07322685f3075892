/**
 Joins, moves and a departure played through the step functions of module
 Sessions, on one session "g" with connections "A" and "B": the joins on a
 fresh session, one whole game from the first join to a win, single moves
 from given game records, and a departure mid-game.
 */
module Scenarios {
  import opened Wrappers
  import opened Board
  import opened Sessions

  const A: ConnId := "A"
  const B: ConnId := "B"
  const G: SessionId := "g"

  /** The record of a game in progress between A and B. */
  function InPlay(board: Board, turn: Mark): Record {
    Record([A, B], board, turn, Playing, None, [])
  }

  /** A's join on a fresh session: A alone gets 'waiting' with its share link. */
  lemma FirstJoinWaits(origin: string)
    ensures JoinStep(map[G := Fresh()], A, G, origin)
         == Step(map[G := Fresh().(players := [A])], [Message(A, Wait(G, origin + "/game/g"))])
  {
    assert Fresh().players + [A] == [A];
    assert ShareUrl(origin, G) == origin + "/game/g" by {
      assert "/game/" + G == "/game/g";
      assert origin + "/game/" + G == origin + ("/game/" + G);
    }
  }

  /**
   B's join after A's: the game starts and both get 'start' on the blank
   board with X to move, A as X and B as O.
   */
  lemma SecondJoinStarts(origin: string)
    ensures JoinStep(map[G := Fresh().(players := [A])], B, G, origin)
         == Step(map[G := InPlay(EMPTY_BOARD, X)],
                 [Message(A, Start(EMPTY_BOARD, X, X)), Message(B, Start(EMPTY_BOARD, X, O))])
  {
    assert [A] + [B] == [A, B];
    var out := StartMessages([A, B], EMPTY_BOARD, X);
    assert out == [Message(A, Start(EMPTY_BOARD, X, X)), Message(B, Start(EMPTY_BOARD, X, O))];
  }

  /** A third join on a full session gets "This game is already full." and changes nothing. */
  lemma ThirdJoinIsRefused(board: Board, turn: Mark, c: ConnId, origin: string)
    ensures var reg := map[G := InPlay(board, turn)];
      JoinStep(reg, c, G, origin) == Step(reg, [Message(c, Error(GAME_FULL))])
  {
  }

  /**
   A move by the player whose turn it is (A as X, B as O) on an empty cell
   that completes no line and leaves the board not full: the record gets the
   mark and the other mark to move, and A and B get 'update' in that order.
   */
  lemma PassingMove(board: Board, turn: Mark, cell: Idx)
    requires board[cell] == Empty
    requires CheckWinner(board[cell := Filled(turn)]) == None
    ensures var b, c := board[cell := Filled(turn)], if turn == X then A else B;
      MoveStep(map[G := InPlay(board, turn)], c, G, cell)
        == Step(map[G := InPlay(b, Other(turn))],
                [Message(A, Update(b, Other(turn))), Message(B, Update(b, Other(turn)))])
  {
    assert A != B by { assert A[0] != B[0]; }
    var reg := map[G := InPlay(board, turn)];
    var c := if turn == X then A else B;
    var b := board[cell := Filled(turn)];
    assert Judge(reg, c, G, cell) == Accepted(turn);
    MoveStepAccepted(reg, c, G, cell);
    ToAllPair([A, B], Update(b, Other(turn)));
  }

  /**
   X's opening move on 0 passes the turn to O and both players get 'update'
   with the new board and O to move.
   */
  lemma OpeningMove()
    ensures var b := EMPTY_BOARD[0 := Filled(X)];
      MoveStep(map[G := InPlay(EMPTY_BOARD, X)], A, G, 0)
        == Step(map[G := InPlay(b, O)], [Message(A, Update(b, O)), Message(B, Update(b, O))])
  {
    var b := EMPTY_BOARD[0 := Filled(X)];
    assert CheckWinner(b) == None by {
      assert NoLineWins(b);
      assert !IsFull(b) by { assert b[1] == Empty; }
    }
    PassingMove(EMPTY_BOARD, X, 0);
  }

  /** The board of the diagonal scenario is won by X on [0, 4, 8]. */
  lemma DiagonalIsFirstWin(b: Board)
    requires b == [Filled(X), Filled(O), Filled(O), Empty, Filled(X), Empty, Empty, Empty, Filled(X)]
    ensures CheckWinner(b) == Some(Outcome(Won(X), [0, 4, 8]))
  {
    assert FirstWin(b, 6);
  }

  /**
   From a game record with X on 0 and 4 and O on 1 and 2, X to move, X on 8
   completes the diagonal [0, 4, 8]: both players get 'end' with winner X
   and that line, and the session is gone.
   */
  lemma DiagonalWin()
    ensures var b4 := EMPTY_BOARD[0 := Filled(X)][1 := Filled(O)][4 := Filled(X)][2 := Filled(O)];
      var b5 := b4[8 := Filled(X)];
      MoveStep(map[G := InPlay(b4, X)], A, G, 8)
        == Step(map[], [Message(A, End(b5, Won(X), [0, 4, 8])), Message(B, End(b5, Won(X), [0, 4, 8]))])
  {
    var b4 := EMPTY_BOARD[0 := Filled(X)][1 := Filled(O)][4 := Filled(X)][2 := Filled(O)];
    var b5 := b4[8 := Filled(X)];
    var reg := map[G := InPlay(b4, X)];
    assert Judge(reg, A, G, 8) == Accepted(X);
    DiagonalIsFirstWin(b5);
    MoveStepAccepted(reg, A, G, 8);
    assert reg - {G} == map[];
    var ev := End(b5, Won(X), [0, 4, 8]);
    ToAllPair([A, B], ev);
  }

  /**
   From a game record with eight cells filled, no winning line and X to
   move, X fills the last cell without completing a line: both players get
   'end' with winner 'draw' and an empty line, and the session is gone.
   */
  lemma FullBoardIsDraw()
    ensures var b8 := [Filled(X), Filled(O), Filled(X), Filled(X), Filled(O), Filled(O), Filled(O), Filled(X), Empty];
      var b9 := b8[8 := Filled(X)];
      MoveStep(map[G := InPlay(b8, X)], A, G, 8)
        == Step(map[], [Message(A, End(b9, Draw, [])), Message(B, End(b9, Draw, []))])
  {
    var b8 := [Filled(X), Filled(O), Filled(X), Filled(X), Filled(O), Filled(O), Filled(O), Filled(X), Empty];
    var b9 := b8[8 := Filled(X)];
    assert NoLineWins(b9);
    assert IsFull(b9);
  }

  /** After O's first move, X's second and O's second, nobody has won yet. */
  lemma DiagonalPrefixUndecided()
    ensures var b2 := EMPTY_BOARD[0 := Filled(X)][1 := Filled(O)];
      var b3 := b2[4 := Filled(X)];
      var b4 := b3[2 := Filled(O)];
      CheckWinner(b2) == None && CheckWinner(b3) == None && CheckWinner(b4) == None
  {
    var b2 := EMPTY_BOARD[0 := Filled(X)][1 := Filled(O)];
    var b3 := b2[4 := Filled(X)];
    var b4 := b3[2 := Filled(O)];
    assert NoLineWins(b2) && b2[2] == Empty;
    assert NoLineWins(b3) && b3[2] == Empty;
    assert NoLineWins(b4) && b4[3] == Empty;
  }

  /**
   A whole game from a fresh session: A joins, B joins, then A, B, A, B, A
   play 0, 1, 4, 2 and 8. Every move but the last passes the turn and sends
   'update' to both; the last completes [0, 4, 8], sends both 'end' with
   winner X, and leaves the registry empty.
   */
  lemma DiagonalGame(origin: string)
    ensures var b1 := EMPTY_BOARD[0 := Filled(X)];
      var b2 := b1[1 := Filled(O)];
      var b3 := b2[4 := Filled(X)];
      var b4 := b3[2 := Filled(O)];
      var b5 := b4[8 := Filled(X)];
      var j1 := JoinStep(map[G := Fresh()], A, G, origin);
      var j2 := JoinStep(j1.registry, B, G, origin);
      var m1 := MoveStep(j2.registry, A, G, 0);
      var m2 := MoveStep(m1.registry, B, G, 1);
      var m3 := MoveStep(m2.registry, A, G, 4);
      var m4 := MoveStep(m3.registry, B, G, 2);
      var m5 := MoveStep(m4.registry, A, G, 8);
      && j2.registry == map[G := InPlay(EMPTY_BOARD, X)]
      && m1 == Step(map[G := InPlay(b1, O)], [Message(A, Update(b1, O)), Message(B, Update(b1, O))])
      && m2 == Step(map[G := InPlay(b2, X)], [Message(A, Update(b2, X)), Message(B, Update(b2, X))])
      && m3 == Step(map[G := InPlay(b3, O)], [Message(A, Update(b3, O)), Message(B, Update(b3, O))])
      && m4 == Step(map[G := InPlay(b4, X)], [Message(A, Update(b4, X)), Message(B, Update(b4, X))])
      && m5 == Step(map[], [Message(A, End(b5, Won(X), [0, 4, 8])), Message(B, End(b5, Won(X), [0, 4, 8]))])
  {
    var b1 := EMPTY_BOARD[0 := Filled(X)];
    var b2 := b1[1 := Filled(O)];
    var b3 := b2[4 := Filled(X)];
    var b4 := b3[2 := Filled(O)];
    FirstJoinWaits(origin);
    SecondJoinStarts(origin);
    OpeningMove();
    DiagonalPrefixUndecided();
    PassingMove(b1, O, 1);
    PassingMove(b2, X, 4);
    PassingMove(b3, O, 2);
    DiagonalWin();
  }

  /** A move by X when O is to move gets "It's not your turn." and changes nothing. */
  lemma OutOfTurnMoveIsRefused(board: Board, cell: int)
    ensures var reg := map[G := InPlay(board, O)];
      MoveStep(reg, A, G, cell) == Step(reg, [Message(A, Error(NOT_YOUR_TURN))])
  {
  }

  /**
   B disconnecting mid-game: A gets 'opponent_left' and the session is
   removed, so A's next move gets "No active game session.".
   */
  lemma OpponentLeavesMidGame(board: Board, turn: Mark, cell: int)
    ensures var s := CloseStep(map[G := InPlay(board, turn)], B, Some(G));
      && s == Step(map[], [Message(A, OpponentLeft)])
      && MoveStep(s.registry, A, G, cell) == Step(map[], [Message(A, Error(NO_ACTIVE_GAME))])
  {
    var reg := map[G := InPlay(board, turn)];
    assert A != B by { assert A[0] != B[0]; }
    assert [A, B][..1] == [A];
    assert [A][..0] == [];
    assert LeaveNotices([A], B) == [Message(A, OpponentLeft)] by {
      assert LeaveNotices([A][..0], B) == [];
    }
    assert LeaveNotices([A, B], B) == [Message(A, OpponentLeft)];
    assert reg - {G} == map[];
  }
}
