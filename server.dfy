/**
 The server's mutable state and its handlers: the `sessions` map of
 session objects updated in place, each connection's `ws.sessionId`, and
 the outbound traffic as an outbox to which `send` and `broadcast` append.
 Each handler is proved to do exactly what the matching function of module
 Sessions says, on the registry seen as values (View).
 */
module GameServer {
  import opened Wrappers
  import opened Board
  import opened Sessions

  /** A WebSocket connection: its `ws.id` and the session it last joined, `ws.sessionId`. */
  class Connection {
    const id: ConnId
    var sessionId: Option<SessionId>

    /** A new connection gets a fresh id and no session. */
    constructor (id: ConnId)
      ensures this.id == id && sessionId == None
    {
      this.id := id;
      sessionId := None;
    }
  }

  /** The object `createSession` returns, whose fields the handlers assign in place. */
  class Session {
    const sessionId: SessionId
    var players: seq<ConnId>
    var board: Board
    var currentTurn: Mark
    var status: Status
    var winner: Option<Winner>
    var winLine: seq<int>

    /** `createSession(sessionId)`. */
    constructor (sessionId: SessionId)
      ensures this.sessionId == sessionId
      ensures players == [] && board == EMPTY_BOARD && currentTurn == X
      ensures status == Waiting && winner == None && winLine == []
      ensures State() == Fresh()
    {
      this.sessionId := sessionId;
      players := [];
      board := EMPTY_BOARD;
      currentTurn := X;
      status := Waiting;
      winner := None;
      winLine := [];
    }

    /** The record's fields as a value. */
    ghost function State(): Record
      reads this
    {
      Record(players, board, currentTurn, status, winner, winLine)
    }
  }

  /** The `sessions` map and everything sent so far. */
  class Server {
    var sessions: map<SessionId, Session>
    var outbox: seq<Message>

    /** The registry as a map of record values. */
    ghost function View(): Registry
      reads this`sessions, sessions.Values
    {
      map sid | sid in sessions :: sessions[sid].State()
    }

    /**
     Each session is stored under its own id (so distinct ids hold distinct
     objects) and every registered record satisfies Inv.
     */
    ghost predicate Valid()
      reads this`sessions, sessions.Values
    {
      && (forall sid :: sid in sessions ==> sessions[sid].sessionId == sid)
      && ValidRegistry(View())
    }

    /** After only the fields of the session under `sid` changed, View changes only at `sid`. */
    twostate lemma ViewAfterUpdate(sid: SessionId)
      requires sessions == old(sessions) && sid in sessions
      requires forall k :: k in sessions && k != sid ==> unchanged(sessions[k])
      ensures View() == old(View())[sid := sessions[sid].State()]
    {
    }

    /** After removing `sid` and changing no other session, View loses exactly `sid`. */
    twostate lemma ViewAfterRemove(sid: SessionId)
      requires sessions == old(sessions) - {sid}
      requires forall k :: k in sessions ==> unchanged(sessions[k])
      ensures View() == old(View()) - {sid}
    {
    }

    /** After adding a new object under an unused `sid` and changing no registered session, View gains exactly `sid`. */
    twostate lemma ViewAfterInsert(sid: SessionId)
      requires sid !in old(sessions) && sid in sessions && sessions == old(sessions)[sid := sessions[sid]]
      requires forall k :: k in old(sessions) ==> unchanged(old(sessions)[k])
      ensures View() == old(View())[sid := sessions[sid].State()]
    {
    }

    /** An empty registry and no traffic. */
    constructor ()
      ensures Valid() && sessions == map[] && outbox == []
    {
      sessions := map[];
      outbox := [];
    }

    /** `send(ws, event, data)`: one message to one connection. */
    method Send(to: ConnId, ev: Event)
      modifies this`outbox
      ensures outbox == old(outbox) + [Message(to, ev)]
    {
      outbox := outbox + [Message(to, ev)];
    }

    /** `broadcast(session, event, data)`: one message to each player, in join order. */
    method Broadcast(session: Session, ev: Event)
      modifies this`outbox
      ensures outbox == old(outbox) + ToAll(session.players, ev)
    {
      var i := 0;
      while i < |session.players|
        invariant 0 <= i <= |session.players|
        invariant outbox == old(outbox) + ToAll(session.players[..i], ev)
      {
        Send(session.players[i], ev);
        assert ToAll(session.players[..i + 1], ev) == ToAll(session.players[..i], ev) + [Message(session.players[i], ev)];
        i := i + 1;
      }
      assert session.players[..i] == session.players;
    }

    /**
     The `GET /` route's `sessions.set(sessionId, createSession(sessionId))`
     under an id not yet registered: one fresh waiting session more, nothing
     sent.
     */
    method Create(sid: SessionId)
      requires Valid() && sid !in sessions
      modifies this`sessions
      ensures Valid() && sid in sessions && fresh(sessions[sid])
      ensures View() == old(View())[sid := Fresh()]
      ensures outbox == old(outbox)
    {
      var session := new Session(sid);
      sessions := sessions[sid := session];
      ViewAfterInsert(sid);
      CreatePreservesValid(old(View()), sid);
    }

    /** The `join` message of connection `ws` for session `sid`. */
    method Join(ws: Connection, sid: SessionId, origin: string)
      requires Valid()
      modifies this`outbox, ws, sessions.Values
      ensures Valid() && sessions == old(sessions)
      ensures View() == JoinStep(old(View()), ws.id, sid, origin).registry
      ensures outbox == old(outbox) + JoinStep(old(View()), ws.id, sid, origin).out
      ensures ws.sessionId == if CanJoin(old(View()), sid) then Some(sid) else old(ws.sessionId)
    {
      ghost var reg := View();
      if sid !in sessions {
        Send(ws.id, Error(SESSION_NOT_FOUND));
        return;
      }
      var session := sessions[sid];
      assert reg[sid] == session.State();
      if |session.players| >= 2 {
        Send(ws.id, Error(GAME_FULL));
        return;
      }
      ghost var r := reg[sid];
      ws.sessionId := Some(sid);
      session.players := session.players + [ws.id];
      if |session.players| == 1 {
        Send(ws.id, Wait(sid, ShareUrl(origin, sid)));
        assert session.State() == r.(players := r.players + [ws.id]);
      } else {
        session.status := Playing;
        SendStarts(session);
        assert session.State() == r.(players := r.players + [ws.id], status := Playing);
      }
      assert forall k :: k in sessions && k != sid ==> sessions[k] != session;
      ViewAfterUpdate(sid);
      JoinPreservesValid(reg, ws.id, sid, origin);
    }

    /** The 'start' event of the second `join`: to each player with the role of its position. */
    method SendStarts(session: Session)
      modifies this`outbox
      ensures outbox == old(outbox) + StartMessages(session.players, session.board, session.currentTurn)
    {
      var i := 0;
      while i < |session.players|
        invariant 0 <= i <= |session.players|
        invariant outbox == old(outbox) + StartMessages(session.players[..i], session.board, session.currentTurn)
      {
        Send(session.players[i], Start(session.board, session.currentTurn, if i == 0 then X else O));
        assert StartMessages(session.players[..i + 1], session.board, session.currentTurn)
            == StartMessages(session.players[..i], session.board, session.currentTurn)
               + [Message(session.players[i], Start(session.board, session.currentTurn, Role(i)))];
        i := i + 1;
      }
      assert session.players[..i] == session.players;
    }

    /** The `move` message of connection `ws` on cell `cellIndex` of session `sid`. */
    method Move(ws: Connection, sid: SessionId, cellIndex: int)
      requires Valid()
      modifies this, sessions.Values
      ensures Valid()
      ensures View() == MoveStep(old(View()), ws.id, sid, cellIndex).registry
      ensures outbox == old(outbox) + MoveStep(old(View()), ws.id, sid, cellIndex).out
      ensures sid in old(sessions) ==> old(sessions[sid]).State() == MoveRecord(old(View()), ws.id, sid, cellIndex)
    {
      ghost var reg := View();
      if sid !in sessions || sessions[sid].status != Playing {
        assert Judge(reg, ws.id, sid, cellIndex) == NoActiveGame;
        Send(ws.id, Error(NO_ACTIVE_GAME));
        return;
      }
      var session := sessions[sid];
      assert reg[sid] == session.State();
      var playerIndex := FindIndex(session.players, ws.id);
      if playerIndex == -1 {
        assert Judge(reg, ws.id, sid, cellIndex) == UnknownPlayer;
        return;
      }
      var playerRole := if playerIndex == 0 then X else O;
      if session.currentTurn != playerRole {
        assert Judge(reg, ws.id, sid, cellIndex) == OutOfTurn;
        Send(ws.id, Error(NOT_YOUR_TURN));
        return;
      }
      if !(0 <= cellIndex < 9) || session.board[cellIndex] != Empty {
        assert Judge(reg, ws.id, sid, cellIndex) == Occupied;
        Send(ws.id, Error(CELL_OCCUPIED));
        return;
      }
      assert Judge(reg, ws.id, sid, cellIndex) == Accepted(playerRole);
      Apply(ws.id, sid, cellIndex, playerRole);
    }

    /**
     The part of `move` after its guards: write the mover's role into the
     cell, then on a result of `checkWinner` end the game, or else pass the
     turn.
     */
    method Apply(conn: ConnId, sid: SessionId, cellIndex: int, role: Mark)
      requires Valid() && Judge(View(), conn, sid, cellIndex) == Accepted(role)
      modifies this, sessions.Values
      ensures Valid()
      ensures View() == MoveStep(old(View()), conn, sid, cellIndex).registry
      ensures outbox == old(outbox) + MoveStep(old(View()), conn, sid, cellIndex).out
      ensures old(sessions[sid]).State() == MoveRecord(old(View()), conn, sid, cellIndex)
    {
      ghost var reg := View();
      var session := sessions[sid];
      assert reg[sid] == session.State();
      MoveStepAccepted(reg, conn, sid, cellIndex);
      ghost var placed := Place(reg[sid], cellIndex, role);
      session.board := session.board[cellIndex := Filled(role)];
      assert session.State() == placed;
      assert forall k :: k in sessions && k != sid ==> sessions[k] != session;
      ViewAfterUpdate(sid);
      ghost var mid := View();
      var result := CheckWinner(session.board);
      if result.Some? {
        EndGame(session, result.value);
        RemoveAfterStore(reg, sid, placed);
      } else {
        PassTurn(session);
        StoreTwice(reg, sid, placed, session.State());
      }
      MovePreservesValid(reg, conn, sid, cellIndex);
    }

    /**
     A move that finished the game: status 'ended' and the winner on the
     record, 'end' to both players, then `sessions.delete(sessionId)`.
     */
    method EndGame(session: Session, o: Outcome)
      requires session.sessionId in sessions && sessions[session.sessionId] == session
      requires forall k :: k in sessions ==> sessions[k].sessionId == k
      modifies this, session
      ensures sessions == old(sessions) - {session.sessionId}
      ensures session.State() == old(session.State()).(status := Ended, winner := Some(o.winner))
      ensures View() == old(View()) - {session.sessionId}
      ensures outbox == old(outbox) + ToAll(session.players, End(session.board, o.winner, o.line))
    {
      session.status := Ended;
      session.winner := Some(o.winner);
      Broadcast(session, End(session.board, o.winner, o.line));
      sessions := sessions - {session.sessionId};
      ViewAfterRemove(session.sessionId);
    }

    /** A move that did not finish the game: the turn passes and both players get 'update'. */
    method PassTurn(session: Session)
      requires session.sessionId in sessions && sessions[session.sessionId] == session
      requires forall k :: k in sessions ==> sessions[k].sessionId == k
      modifies this`outbox, session
      ensures session.State() == old(session.State()).(currentTurn := Other(old(session.currentTurn)))
      ensures View() == old(View())[session.sessionId := session.State()]
      ensures outbox == old(outbox) + ToAll(session.players, Update(session.board, session.currentTurn))
    {
      session.currentTurn := if session.currentTurn == X then O else X;
      Broadcast(session, Update(session.board, session.currentTurn));
      ViewAfterUpdate(session.sessionId);
    }

    /** The `close` event of connection `ws`. */
    method Close(ws: Connection)
      requires Valid()
      modifies this
      ensures Valid()
      ensures View() == CloseStep(old(View()), ws.id, ws.sessionId).registry
      ensures outbox == old(outbox) + CloseStep(old(View()), ws.id, ws.sessionId).out
    {
      if ws.sessionId == None || ws.sessionId.value == "" {
        return;
      }
      var sid := ws.sessionId.value;
      if sid !in sessions {
        return;
      }
      var session := sessions[sid];
      var i := 0;
      while i < |session.players|
        modifies this`outbox
        invariant 0 <= i <= |session.players|
        invariant outbox == old(outbox) + LeaveNotices(session.players[..i], ws.id)
      {
        if session.players[i] != ws.id {
          Send(session.players[i], OpponentLeft);
        }
        assert session.players[..i + 1][..i] == session.players[..i];
        i := i + 1;
      }
      assert session.players[..i] == session.players;
      sessions := sessions - {sid};
      ViewAfterRemove(sid);
      ClosePreservesValid(old(View()), ws.id, ws.sessionId);
    }
  }
}
