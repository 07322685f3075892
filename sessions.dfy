/**
 The session record as a value, the messages the server sends, and the
 `join`, `move` and `close` handlers as functions from the registry (the
 `sessions` map) to a new registry and the messages sent, in order.
 The imperative handlers in module GameServer are proved to compute
 exactly these steps; the properties of a handler are lemmas here.
 */
module Sessions {
  import opened Wrappers
  import opened Board

  /** A session identifier (a UUID minted by the HTTP route). */
  type SessionId = string

  /** A connection's identifier `ws.id` (a UUID minted on connection). */
  type ConnId = string

  /** `session.status`: 'waiting', 'playing' or 'ended'. */
  datatype Status = Waiting | Playing | Ended

  /**
   A session record as `createSession` builds it, without its `sessionId`
   (the registry key). `players` holds the players' connection ids in join
   order; a player's role is its position, never a stored field.
   */
  datatype Record = Record(
    players: seq<ConnId>,
    board: Board,
    currentTurn: Mark,
    status: Status,
    winner: Option<Winner>,
    winLine: seq<int>)

  /** The outbound events: 'waiting', 'start', 'update', 'end', 'opponent_left', 'error'. */
  datatype Event =
    | Wait(sessionId: SessionId, shareUrl: string)
    | Start(board: Board, currentTurn: Mark, yourRole: Mark)
    | Update(board: Board, currentTurn: Mark)
    | End(board: Board, winner: Winner, winLine: seq<int>)
    | OpponentLeft
    | Error(message: string)

  /** One `send` to the connection with id `to`. */
  datatype Message = Message(to: ConnId, event: Event)

  /** The `sessions` map. */
  type Registry = map<SessionId, Record>

  /** What one handler does: the registry afterwards and the messages it sent. */
  datatype Step = Step(registry: Registry, out: seq<Message>)

  const SESSION_NOT_FOUND: string := "Session not found."
  const GAME_FULL: string := "This game is already full."
  const NO_ACTIVE_GAME: string := "No active game session."
  const NOT_YOUR_TURN: string := "It's not your turn."
  const CELL_OCCUPIED: string := "Cell already occupied."

  /**
   What a session record satisfies while it is in the registry: at most two
   players, playing exactly when there are two, a blank board with X to move
   while waiting, no winning combination and an empty cell on the board
   (a finished game is removed at once), X ahead of O by one mark exactly
   when O is to move, and no winner or winning line recorded.
   */
  predicate Inv(r: Record) {
    && |r.players| <= 2
    && r.status != Ended
    && (r.status == Playing <==> |r.players| == 2)
    && (r.status == Waiting ==> r.board == EMPTY_BOARD && r.currentTurn == X)
    && CheckWinner(r.board) == None
    && Count(r.board, X) == Count(r.board, O) + (if r.currentTurn == O then 1 else 0)
    && r.winner == None
    && r.winLine == []
  }

  /** Every record in the registry satisfies Inv. */
  predicate ValidRegistry(reg: Registry) {
    forall sid {:trigger Inv(reg[sid])} :: sid in reg ==> Inv(reg[sid])
  }

  /** `reg` and `reg'` agree on every session other than `sid`. */
  ghost predicate SameElsewhere(reg: Registry, reg': Registry, sid: SessionId) {
    forall s :: s != sid ==> (s in reg <==> s in reg') && (s in reg ==> reg[s] == reg'[s])
  }

  /**
   `createSession`: no players, nine empty cells, X to move, waiting, no
   winner and an empty winning line. Such a record satisfies Inv.
   */
  function Fresh(): (r: Record)
    ensures Inv(r)
  {
    EmptyBoardIsBlank();
    Record([], EMPTY_BOARD, X, Waiting, None, [])
  }

  /** The role of the player at position `i`: `i === 0 ? 'X' : 'O'`. */
  function Role(i: int): Mark {
    if i == 0 then X else O
  }

  /** `players.findIndex(p => p.id === id)`: the first position of `id`, or -1. */
  function FindIndex(ps: seq<ConnId>, id: ConnId): (i: int)
    ensures -1 <= i < |ps|
    ensures i == -1 <==> id !in ps
    ensures 0 <= i ==> ps[i] == id && id !in ps[..i]
  {
    if ps == [] then -1
    else if ps[0] == id then 0
    else
      var j := FindIndex(ps[1..], id);
      if j == -1 then -1 else j + 1
  }

  /** The share link of the 'waiting' event: `${origin}/game/${sessionId}`. */
  function ShareUrl(origin: string, sid: SessionId): string {
    origin + "/game/" + sid
  }

  /** `broadcast(session, event, data)`: one message to each player, in join order. */
  function ToAll(ps: seq<ConnId>, ev: Event): (r: seq<Message>)
    ensures |r| == |ps|
    ensures forall i :: 0 <= i < |ps| ==> r[i].to == ps[i] && r[i].event == ev
  {
    seq(|ps|, i requires 0 <= i < |ps| => Message(ps[i], ev))
  }

  /** A broadcast to two players is one message to each, first player first. */
  lemma ToAllPair(ps: seq<ConnId>, ev: Event)
    requires |ps| == 2
    ensures ToAll(ps, ev) == [Message(ps[0], ev), Message(ps[1], ev)]
  {
  }

  /** The 'start' events of a second join, each carrying the player's own role. */
  function StartMessages(ps: seq<ConnId>, board: Board, turn: Mark): (r: seq<Message>)
    ensures |r| == |ps|
    ensures forall i :: 0 <= i < |ps| ==>
              r[i].to == ps[i] && r[i].event == Start(board, turn, if i == 0 then X else O)
  {
    seq(|ps|, i requires 0 <= i < |ps| => Message(ps[i], Start(board, turn, Role(i))))
  }

  /** `players.filter(p => p.id !== conn)`: the players other than `conn`, in join order. */
  function Others(ps: seq<ConnId>, conn: ConnId): (r: seq<ConnId>)
    ensures |r| <= |ps|
    ensures forall p :: p in r <==> p in ps && p != conn
  {
    if ps == [] then []
    else (if ps[0] != conn then [ps[0]] else []) + Others(ps[1..], conn)
  }

  /**
   The sends of the `close` handler's loop over the players: 'opponent_left'
   to every player whose id is not `conn`, in join order.
   */
  function LeaveNotices(ps: seq<ConnId>, conn: ConnId): (r: seq<Message>)
    ensures |r| <= |ps|
    ensures forall i :: 0 <= i < |r| ==> r[i].event == OpponentLeft && r[i].to != conn
    decreases |ps|
  {
    if ps == [] then []
    else
      LeaveNotices(ps[..|ps| - 1], conn)
      + (if ps[|ps| - 1] != conn then [Message(ps[|ps| - 1], OpponentLeft)] else [])
  }

  /** A `join` on `sid` gets past both guards. */
  predicate CanJoin(reg: Registry, sid: SessionId) {
    sid in reg && |reg[sid].players| < 2
  }

  /** The `join` handler of connection `conn` for session `sid`. */
  function JoinStep(reg: Registry, conn: ConnId, sid: SessionId, origin: string): (s: Step)
    ensures s.registry.Keys == reg.Keys
    ensures |s.out| >= 1
  {
    if sid !in reg then Step(reg, [Message(conn, Error(SESSION_NOT_FOUND))])
    else if |reg[sid].players| >= 2 then Step(reg, [Message(conn, Error(GAME_FULL))])
    else
      var r := reg[sid];
      var ps := r.players + [conn];
      if |ps| == 1 then
        Step(reg[sid := r.(players := ps)], [Message(conn, Wait(sid, ShareUrl(origin, sid)))])
      else
        Step(reg[sid := r.(players := ps, status := Playing)], StartMessages(ps, r.board, r.currentTurn))
  }

  /** What the four guards of the `move` handler decide, in their order. */
  datatype Verdict = NoActiveGame | UnknownPlayer | OutOfTurn | Occupied | Accepted(role: Mark)

  /**
   The guards of `move`. A move is accepted exactly when the session is
   playing, the connection is a player, the role of its first position is
   the one to move, and the cell is in range and empty; the accepted role is
   the one to move.
   */
  function Judge(reg: Registry, conn: ConnId, sid: SessionId, cell: int): (v: Verdict)
    ensures v.Accepted? <==>
      && sid in reg && reg[sid].status == Playing
      && conn in reg[sid].players
      && reg[sid].currentTurn == (if reg[sid].players[0] == conn then X else O)
      && 0 <= cell < 9 && reg[sid].board[cell] == Empty
    ensures v.Accepted? ==> v.role == reg[sid].currentTurn
    ensures v == NoActiveGame <==> sid !in reg || reg[sid].status != Playing
    ensures v == UnknownPlayer <==>
      sid in reg && reg[sid].status == Playing && conn !in reg[sid].players
    ensures v == OutOfTurn <==>
      && sid in reg && reg[sid].status == Playing
      && conn in reg[sid].players
      && reg[sid].currentTurn != (if reg[sid].players[0] == conn then X else O)
    ensures v == Occupied <==>
      && sid in reg && reg[sid].status == Playing
      && conn in reg[sid].players
      && reg[sid].currentTurn == (if reg[sid].players[0] == conn then X else O)
      && !(0 <= cell < 9 && reg[sid].board[cell] == Empty)
  {
    if sid !in reg || reg[sid].status != Playing then NoActiveGame
    else
      var r := reg[sid];
      var i := FindIndex(r.players, conn);
      if i == -1 then UnknownPlayer
      else if r.currentTurn != Role(i) then OutOfTurn
      else if !(0 <= cell < 9) || r.board[cell] != Empty then Occupied
      else Accepted(Role(i))
  }

  /** `session.board[cellIndex] = playerRole`. */
  function Place(r: Record, cell: Idx, m: Mark): (r': Record)
    ensures r'.board[cell] == Filled(m)
    ensures forall i :: 0 <= i < 9 && i != cell ==> r'.board[i] == r.board[i]
    ensures r' == r.(board := r'.board)
  {
    r.(board := r.board[cell := Filled(m)])
  }

  /**
   After a placed move: on a result of `checkWinner`, status 'ended' and the
   winner (but not `winLine`, which the handler never assigns); otherwise
   the turn passes to the other mark.
   */
  function Settle(r: Record): (r': Record)
    ensures r'.players == r.players && r'.board == r.board && r'.winLine == r.winLine
    ensures r'.currentTurn != r.currentTurn <==> CheckWinner(r.board).None?
    ensures CheckWinner(r.board).Some? ==> r'.status == Ended && r'.winner.Some?
  {
    match CheckWinner(r.board)
    case Some(o) => r.(status := Ended, winner := Some(o.winner))
    case None => r.(currentTurn := Other(r.currentTurn))
  }

  /** The session record after a `move`, whether or not it stays registered. */
  function MoveRecord(reg: Registry, conn: ConnId, sid: SessionId, cell: int): (r: Record)
    requires sid in reg
    ensures r.players == reg[sid].players && r.winLine == reg[sid].winLine
    ensures !Judge(reg, conn, sid, cell).Accepted? ==> r == reg[sid]
    ensures Judge(reg, conn, sid, cell).Accepted? ==>
      && r.board == reg[sid].board[cell := Filled(reg[sid].currentTurn)]
      && (r.status == Ended <==> CheckWinner(r.board).Some?)
  {
    match Judge(reg, conn, sid, cell)
    case Accepted(role) => Settle(Place(reg[sid], cell, role))
    case _ => reg[sid]
  }

  /** The `move` handler of connection `conn` on cell `cell` of session `sid`. */
  function MoveStep(reg: Registry, conn: ConnId, sid: SessionId, cell: int): (s: Step)
    ensures s.registry.Keys <= reg.Keys
    ensures reg.Keys - {sid} <= s.registry.Keys
  {
    match Judge(reg, conn, sid, cell)
    case NoActiveGame => Step(reg, [Message(conn, Error(NO_ACTIVE_GAME))])
    case UnknownPlayer => Step(reg, [])
    case OutOfTurn => Step(reg, [Message(conn, Error(NOT_YOUR_TURN))])
    case Occupied => Step(reg, [Message(conn, Error(CELL_OCCUPIED))])
    case Accepted(_) =>
      var r := MoveRecord(reg, conn, sid, cell);
      match CheckWinner(r.board)
      case Some(o) => Step(reg - {sid}, ToAll(r.players, End(r.board, o.winner, o.line)))
      case None => Step(reg[sid := r], ToAll(r.players, Update(r.board, r.currentTurn)))
  }

  /**
   The `close` handler of connection `conn` whose `ws.sessionId` is `bound`
   (an empty id is falsy and counts as unbound).
   */
  function CloseStep(reg: Registry, conn: ConnId, bound: Option<SessionId>): (s: Step)
    ensures s.registry.Keys <= reg.Keys
    ensures bound.Some? && bound.value in reg && bound.value != "" ==> |s.out| <= |reg[bound.value].players|
  {
    if bound == None || bound.value == "" || bound.value !in reg then Step(reg, [])
    else Step(reg - {bound.value}, LeaveNotices(reg[bound.value].players, conn))
  }

  // ----- join -----

  /**
   A `join` on an unknown session, or on one that already has two players,
   answers only the joiner with an error and changes no session.
   */
  lemma JoinRejected(reg: Registry, conn: ConnId, sid: SessionId, origin: string)
    requires !CanJoin(reg, sid)
    ensures JoinStep(reg, conn, sid, origin).registry == reg
    ensures JoinStep(reg, conn, sid, origin).out
            == [Message(conn, Error(if sid in reg then GAME_FULL else SESSION_NOT_FOUND))]
  {
  }

  /**
   A successful `join` appends exactly the joiner and touches no other
   session or field. The first join leaves the session waiting and sends
   only the joiner a 'waiting' event with the share link; the second starts
   play and sends each player a 'start' event on the blank board with X to
   move, role X to the first player and O to the joiner.
   */
  lemma JoinAccepted(reg: Registry, conn: ConnId, sid: SessionId, origin: string)
    requires ValidRegistry(reg) && CanJoin(reg, sid)
    ensures var s := JoinStep(reg, conn, sid, origin);
      && sid in s.registry
      && s.registry[sid] == reg[sid].(players := reg[sid].players + [conn],
                                      status := if |reg[sid].players| == 0 then Waiting else Playing)
      && SameElsewhere(reg, s.registry, sid)
      && (|reg[sid].players| == 0 ==>
            && s.registry[sid].status == Waiting
            && s.out == [Message(conn, Wait(sid, ShareUrl(origin, sid)))])
      && (|reg[sid].players| == 1 ==>
            && s.registry[sid].status == Playing
            && s.out == [Message(reg[sid].players[0], Start(EMPTY_BOARD, X, X)),
                         Message(conn, Start(EMPTY_BOARD, X, O))])
  {
    var r := reg[sid];
    assert Inv(r);
    if |r.players| == 1 {
      var ps := r.players + [conn];
      var out := StartMessages(ps, r.board, r.currentTurn);
      assert |out| == 2 && out[0] == Message(ps[0], Start(EMPTY_BOARD, X, X));
      assert out[1] == Message(conn, Start(EMPTY_BOARD, X, O));
    }
  }

  /** `join` keeps every registered record within Inv: never a third player. */
  lemma JoinPreservesValid(reg: Registry, conn: ConnId, sid: SessionId, origin: string)
    requires ValidRegistry(reg)
    ensures ValidRegistry(JoinStep(reg, conn, sid, origin).registry)
  {
    if CanJoin(reg, sid) {
      var r := reg[sid];
      assert Inv(r);
      var reg' := JoinStep(reg, conn, sid, origin).registry;
      assert Inv(reg'[sid]);
    }
  }

  // ----- move -----

  /**
   A rejected `move` changes no session. A move on a missing or non-playing
   session, out of turn, or on an occupied or out-of-range cell answers only
   the mover with the matching error; a move from a connection that is not
   a player of the session sends nothing at all.
   */
  lemma MoveRejected(reg: Registry, conn: ConnId, sid: SessionId, cell: int)
    requires !Judge(reg, conn, sid, cell).Accepted?
    ensures MoveStep(reg, conn, sid, cell).registry == reg
    ensures sid in reg ==> MoveRecord(reg, conn, sid, cell) == reg[sid]
    ensures MoveStep(reg, conn, sid, cell).out ==
      match Judge(reg, conn, sid, cell)
      case UnknownPlayer => []
      case NoActiveGame => [Message(conn, Error(NO_ACTIVE_GAME))]
      case OutOfTurn => [Message(conn, Error(NOT_YOUR_TURN))]
      case _ => [Message(conn, Error(CELL_OCCUPIED))]
    ensures Judge(reg, conn, sid, cell) == UnknownPlayer <==>
      sid in reg && reg[sid].status == Playing && conn !in reg[sid].players
    ensures Judge(reg, conn, sid, cell) == Occupied ==>
      sid in reg && (cell < 0 || 9 <= cell || reg[sid].board[cell] != Empty)
  {
  }

  /**
   An accepted `move` writes the mover's role into the chosen cell, which
   was empty, and changes no other cell: a filled cell never changes.
   */
  lemma MoveAcceptedPlacesMark(reg: Registry, conn: ConnId, sid: SessionId, cell: int)
    requires Judge(reg, conn, sid, cell).Accepted?
    ensures var r, r' := reg[sid], MoveRecord(reg, conn, sid, cell);
      && 0 <= cell < 9 && r.board[cell] == Empty
      && r'.board[cell] == Filled(Judge(reg, conn, sid, cell).role)
      && (forall i :: 0 <= i < 9 && i != cell ==> r'.board[i] == r.board[i])
      && (forall i :: 0 <= i < 9 && r.board[i] != Empty ==> r'.board[i] == r.board[i])
      && r'.players == r.players
  {
  }

  /**
   A `move` changes no session other than its own, and changes no session's
   players: only `join` adds a player.
   */
  lemma MoveKeepsOthers(reg: Registry, conn: ConnId, sid: SessionId, cell: int)
    ensures SameElsewhere(reg, MoveStep(reg, conn, sid, cell).registry, sid)
    ensures sid in MoveStep(reg, conn, sid, cell).registry ==>
              MoveStep(reg, conn, sid, cell).registry[sid].players == reg[sid].players
  {
  }

  /** An accepted `move` in closed form: place the mark, then end the game or pass the turn. */
  lemma MoveStepAccepted(reg: Registry, conn: ConnId, sid: SessionId, cell: int)
    requires Judge(reg, conn, sid, cell).Accepted?
    ensures var role := Judge(reg, conn, sid, cell).role;
      var placed := Place(reg[sid], cell, role);
      && MoveRecord(reg, conn, sid, cell) == Settle(placed)
      && MoveStep(reg, conn, sid, cell) ==
           match CheckWinner(placed.board)
           case Some(o) => Step(reg - {sid}, ToAll(reg[sid].players, End(placed.board, o.winner, o.line)))
           case None => Step(reg[sid := placed.(currentTurn := Other(role))],
                             ToAll(reg[sid].players, Update(placed.board, Other(role))))
  {
  }

  /** Removing a key forgets what was last stored under it. */
  lemma RemoveAfterStore(reg: Registry, sid: SessionId, r: Record)
    ensures reg[sid := r] - {sid} == reg - {sid}
  {
  }

  /** A second store under the same key overrides the first. */
  lemma StoreTwice(reg: Registry, sid: SessionId, r: Record, r': Record)
    ensures reg[sid := r][sid := r'] == reg[sid := r']
  {
  }

  /** Registering a record that satisfies Inv keeps the registry valid. */
  lemma StoreKeepsValid(reg: Registry, sid: SessionId, r: Record)
    requires ValidRegistry(reg) && Inv(r)
    ensures ValidRegistry(reg[sid := r])
  {
    var reg' := reg[sid := r];
    forall s | s in reg'
      ensures Inv(reg'[s])
    {
      if s != sid {
        assert Inv(reg[s]);
      }
    }
  }

  /**
   A placed mark after which `checkWinner` reports a result: the record of
   two players ends with that winner, which is a draw or the mover, keeps
   its players and its empty `winLine`, and 'end' goes to both players.
   */
  lemma EndKeepsRecord(r: Record, cell: Idx, m: Mark)
    requires Inv(r) && r.status == Playing && r.board[cell] == Empty
    requires CheckWinner(r.board[cell := Filled(m)]).Some?
    ensures var b', r' := r.board[cell := Filled(m)], Settle(Place(r, cell, m));
      var o := CheckWinner(b').value;
      && r' == r.(board := b', status := Ended, winner := Some(o.winner))
      && o.winner in {Draw, Won(m)}
      && |r.players| == 2
  {
    PlacedOutcome(r.board, cell, m);
  }

  /**
   A mark placed by the player to move on an empty cell, with no result from
   `checkWinner`, followed by the turn passing: the record stays within Inv.
   */
  lemma ContinueKeepsInv(r: Record, cell: Idx, m: Mark)
    requires Inv(r) && r.status == Playing && r.board[cell] == Empty && m == r.currentTurn
    requires CheckWinner(r.board[cell := Filled(m)]).None?
    ensures Inv(r.(board := r.board[cell := Filled(m)], currentTurn := Other(m)))
  {
    CountPlace(r.board, cell, m, X);
    CountPlace(r.board, cell, m, O);
  }

  /**
   An accepted `move` after which `checkWinner` reports a result, in a valid
   registry: the record ends with that winner, a draw or the mover's own
   mark and never the opponent's; its `winLine` stays empty (the handler
   never assigns it); the session is removed and both players get 'end'
   with the final board, the winner and the reported line.
   */
  lemma MoveEndsGame(reg: Registry, conn: ConnId, sid: SessionId, cell: int)
    requires ValidRegistry(reg) && Judge(reg, conn, sid, cell).Accepted?
    requires CheckWinner(reg[sid].board[cell := Filled(reg[sid].currentTurn)]).Some?
    ensures var role, r' := Judge(reg, conn, sid, cell).role, MoveRecord(reg, conn, sid, cell);
      var o, s := CheckWinner(r'.board).value, MoveStep(reg, conn, sid, cell);
      && s.registry == reg - {sid}
      && r'.status == Ended
      && r'.winner == Some(o.winner)
      && (o.winner == Draw || o.winner == Won(role))
      && r'.winLine == []
      && |r'.players| == 2
      && s.out == [Message(r'.players[0], End(r'.board, o.winner, o.line)),
                   Message(r'.players[1], End(r'.board, o.winner, o.line))]
  {
    var r := reg[sid];
    assert Inv(r);
    MoveStepAccepted(reg, conn, sid, cell);
    var role := Judge(reg, conn, sid, cell).role;
    EndKeepsRecord(r, cell, role);
    var b' := r.board[cell := Filled(role)];
    var o := CheckWinner(b').value;
    ToAllPair(r.players, End(b', o.winner, o.line));
  }

  /**
   An accepted `move` after which `checkWinner` reports nothing, in a valid
   registry: play goes on, the turn passes to the other mark, the session
   keeps its new record and both players get 'update' with the new board and
   the new turn.
   */
  lemma MoveContinuesGame(reg: Registry, conn: ConnId, sid: SessionId, cell: int)
    requires ValidRegistry(reg) && Judge(reg, conn, sid, cell).Accepted?
    requires CheckWinner(reg[sid].board[cell := Filled(reg[sid].currentTurn)]).None?
    ensures var role, r' := Judge(reg, conn, sid, cell).role, MoveRecord(reg, conn, sid, cell);
      var s := MoveStep(reg, conn, sid, cell);
      && s.registry == reg[sid := r']
      && r'.status == Playing
      && r'.currentTurn == Other(role)
      && |r'.players| == 2
      && s.out == [Message(r'.players[0], Update(r'.board, Other(role))),
                   Message(r'.players[1], Update(r'.board, Other(role)))]
  {
    var r := reg[sid];
    assert Inv(r);
    MoveStepAccepted(reg, conn, sid, cell);
    var role := Judge(reg, conn, sid, cell).role;
    ToAllPair(r.players, Update(r.board[cell := Filled(role)], Other(role)));
  }

  /** `move` keeps every registered record within Inv, the turn count included. */
  lemma MovePreservesValid(reg: Registry, conn: ConnId, sid: SessionId, cell: int)
    requires ValidRegistry(reg)
    ensures ValidRegistry(MoveStep(reg, conn, sid, cell).registry)
  {
    var v := Judge(reg, conn, sid, cell);
    if v.Accepted? {
      var r := reg[sid];
      assert Inv(r);
      MoveStepAccepted(reg, conn, sid, cell);
      var b' := r.board[cell := Filled(v.role)];
      if CheckWinner(b').None? {
        ContinueKeepsInv(r, cell, v.role);
        StoreKeepsValid(reg, sid, r.(board := b', currentTurn := Other(v.role)));
      }
    }
  }

  /**
   Once an accepted move has finished the game, the session is gone: a later
   `join` on it gets "Session not found." and a later `move` gets "No active
   game session.", and neither changes the registry.
   */
  lemma FinishedGameIsGone(reg: Registry, conn: ConnId, sid: SessionId, cell: int,
                           other: ConnId, origin: string, cell': int)
    requires Judge(reg, conn, sid, cell).Accepted?
    requires CheckWinner(MoveRecord(reg, conn, sid, cell).board).Some?
    ensures var reg' := MoveStep(reg, conn, sid, cell).registry;
      && JoinStep(reg', other, sid, origin) == Step(reg', [Message(other, Error(SESSION_NOT_FOUND))])
      && MoveStep(reg', other, sid, cell') == Step(reg', [Message(other, Error(NO_ACTIVE_GAME))])
  {
  }

  /**
   Roles come from list positions: a connection that joined a session twice
   holds both positions, is always found first, and so can never move as O.
   */
  lemma SelfPairedNeverMovesAsO(reg: Registry, conn: ConnId, sid: SessionId, cell: int)
    requires sid in reg && reg[sid].players == [conn, conn]
    ensures Judge(reg, conn, sid, cell) != Accepted(O)
  {
  }

  // ----- close -----

  /** The leave notices go to exactly the players other than `conn`, each as 'opponent_left'. */
  lemma {:induction false} LeaveNoticesExact(ps: seq<ConnId>, conn: ConnId)
    ensures forall m :: m in LeaveNotices(ps, conn) ==> m.event == OpponentLeft && m.to in ps && m.to != conn
    ensures forall p :: p in ps && p != conn ==> Message(p, OpponentLeft) in LeaveNotices(ps, conn)
    decreases |ps|
  {
    if ps != [] {
      var init := ps[..|ps| - 1];
      LeaveNoticesExact(init, conn);
      assert ps == init + [ps[|ps| - 1]];
    }
  }

  /** Filtering a list extended by one player extends the filtered list by that player, unless it is `conn`. */
  lemma {:induction false} OthersSnoc(ps: seq<ConnId>, p: ConnId, conn: ConnId)
    ensures Others(ps + [p], conn) == Others(ps, conn) + (if p != conn then [p] else [])
  {
    if ps != [] {
      OthersSnoc(ps[1..], p, conn);
      assert (ps + [p])[1..] == ps[1..] + [p];
    }
  }

  /** A broadcast to two lists one after the other is the broadcast to their concatenation. */
  lemma ToAllAppend(ps: seq<ConnId>, qs: seq<ConnId>, ev: Event)
    ensures ToAll(ps + qs, ev) == ToAll(ps, ev) + ToAll(qs, ev)
  {
  }

  /**
   The close notices in closed form: one 'opponent_left' to each entry of
   `players.filter(p => p.id !== conn)`, each exactly once, in join order.
   */
  lemma {:induction false} LeaveNoticesInOrder(ps: seq<ConnId>, conn: ConnId)
    ensures LeaveNotices(ps, conn) == ToAll(Others(ps, conn), OpponentLeft)
    decreases |ps|
  {
    if ps != [] {
      var init, last := ps[..|ps| - 1], ps[|ps| - 1];
      LeaveNoticesInOrder(init, conn);
      assert ps == init + [last];
      OthersSnoc(init, last, conn);
      ToAllAppend(Others(init, conn), if last != conn then [last] else [], OpponentLeft);
    }
  }

  /**
   On close of a connection bound to a registered session, every other
   player gets 'opponent_left' and the session is removed; with no binding,
   or a binding to a session no longer registered, nothing happens.
   */
  lemma CloseEffect(reg: Registry, conn: ConnId, bound: Option<SessionId>)
    ensures var s := CloseStep(reg, conn, bound);
      if bound.Some? && bound.value != "" && bound.value in reg then
        && s.registry == reg - {bound.value}
        && bound.value !in s.registry
        && SameElsewhere(reg, s.registry, bound.value)
        && (forall m :: m in s.out ==> m.event == OpponentLeft && m.to in reg[bound.value].players && m.to != conn)
        && (forall p :: p in reg[bound.value].players && p != conn ==> Message(p, OpponentLeft) in s.out)
        && s.out == ToAll(Others(reg[bound.value].players, conn), OpponentLeft)
      else
        s == Step(reg, [])
  {
    if bound.Some? && bound.value != "" && bound.value in reg {
      LeaveNoticesExact(reg[bound.value].players, conn);
      LeaveNoticesInOrder(reg[bound.value].players, conn);
    }
  }

  /** `close` keeps every registered record within Inv. */
  lemma ClosePreservesValid(reg: Registry, conn: ConnId, bound: Option<SessionId>)
    requires ValidRegistry(reg)
    ensures ValidRegistry(CloseStep(reg, conn, bound).registry)
  {
  }

  /** Registering a fresh record under a new id keeps every record within Inv. */
  lemma CreatePreservesValid(reg: Registry, sid: SessionId)
    requires ValidRegistry(reg) && sid !in reg
    ensures ValidRegistry(reg[sid := Fresh()])
    ensures SameElsewhere(reg, reg[sid := Fresh()], sid)
  {
  }
}
