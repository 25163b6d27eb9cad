/**
 * The relay server: the room table, the connections it knows about, and
 * one method per event handler. Each handler runs to completion before
 * the next event, so every method is one atomic step.
 *
 * Connections are opaque ids. `open` is the set of connections whose
 * socket is open (`readyState === 1`); `attached` holds each connection's
 * `gameId`. Every `send` call is recorded in `outbox`, whether
 * or not the transport can deliver it.
 */
module RelayServer {

  import opened GameIds
  import opened Rooms

  /** An inbound message, by its `type`; any other type is ignored by the switch. */
  datatype Inbound =
    | CreateGame(secretWord: string)
    | JoinGame(gameId: string)
    | AskQuestion(question: string)
    | SendAnswer(answer: string)
    | EndGame(winner: Option<int>)
    | Unrecognised(kind: string)

  class Server {
    var games: map<GameId, Game>
    var attached: map<ConnId, GameId>
    var open: set<ConnId>
    var outbox: seq<Sent>

    /** Every key is a well-formed id and every room keeps the room invariant. */
    ghost predicate Valid()
      reads this
    {
      forall id | id in games :: IsGameId(id) && GameInv(games[id])
    }

    /** The room an event from `c` acts on: `games[ws.gameId]`, if there is one. */
    function RoomOf(c: ConnId): Option<GameId>
      reads this
    {
      if c in attached && attached[c] in games then Some(attached[c]) else None
    }

    constructor ()
      ensures Valid()
      ensures games == map[] && attached == map[] && open == {} && outbox == []
    {
      games := map[];
      attached := map[];
      open := {};
      outbox := [];
    }

    /** A new connection (`ws.id` is set): its socket is open, and it is not yet attached to a room. */
    method Connect(c: ConnId)
      requires Valid()
      requires c !in open && c !in attached
      modifies this
      ensures Valid()
      ensures open == old(open) + {c}
      ensures games == old(games) && attached == old(attached) && outbox == old(outbox)
    {
      open := open + {c};
    }

    /**
     * `createGame`: store a new waiting room under a fresh id with the
     * sender as player 1, attach the sender to it, and send the
     * confirmation to the sender alone.
     */
    method CreateGame(c: ConnId, secretWord: string, rand: nat -> real) returns (id: GameId)
      requires Valid()
      requires EventuallyFresh(games.Keys, rand)
      modifies this
      ensures Valid()
      ensures IsGameId(id) && id !in old(games)
      ensures games == old(games)[id := NewGame(c, secretWord)]
      ensures games[id].player1 == c && games[id].player2 == None && games[id].secretWord == secretWord
      ensures games[id].guessesLeft == InitialGuesses && games[id].currentPlayer == Setter
      ensures games[id].messages == [] && games[id].lastQuestion == ""
      ensures games[id].status == Waiting && games[id].winner == None
      ensures attached == old(attached)[c := id] && open == old(open)
      ensures outbox == old(outbox) + [Sent(c, GameCreated(id, Sanitize(games[id])))]
      ensures outbox[|outbox| - 1].msg.gameState.secretWord == Some(secretWord)
    {
      ghost var rejected;
      id, rejected := GenerateGameId(games.Keys, rand);
      NewGameSatisfiesInvariant(c, secretWord);
      games := games[id := NewGame(c, secretWord)];
      attached := attached[c := id];
      outbox := outbox + [Sent(c, GameCreated(id, Sanitize(games[id])))];
    }

    /**
     * `joinGame`: an unknown id and a room whose guesser is still open are
     * refused with an error to the sender alone and change nothing; else
     * the sender becomes player 2, the room becomes active with the
     * guesser's turn, and both players get the new state.
     */
    method JoinGame(c: ConnId, gameId: string)
      requires Valid()
      modifies this
      ensures Valid()
      ensures open == old(open)
      ensures gameId !in old(games) ==>
                && games == old(games) && attached == old(attached)
                && outbox == old(outbox) + [Sent(c, Error(GameNotFoundMessage))]
      ensures gameId in old(games) && IsFull(old(games)[gameId], open) ==>
                && games == old(games) && attached == old(attached)
                && outbox == old(outbox) + [Sent(c, Error(GameFullMessage))]
      ensures gameId in old(games) && !IsFull(old(games)[gameId], open) ==>
                && games == old(games)[gameId := Joined(old(games)[gameId], c)]
                && games[gameId].player2 == Some(c)
                && games[gameId].status == Active && AcceptsQuestion(games[gameId])
                && games[gameId].secretWord == old(games)[gameId].secretWord
                && games[gameId].guessesLeft == old(games)[gameId].guessesLeft
                && games[gameId].messages == old(games)[gameId].messages
                && attached == old(attached)[c := gameId]
                && outbox == old(outbox) + Broadcast(games[gameId], GameUpdate(Sanitize(games[gameId])))
    {
      if gameId in games {
        var g := games[gameId];
        if IsFull(g, open) {
          outbox := outbox + [Sent(c, Error(GameFullMessage))];
          return;
        }
        JoinedKeepsInvariant(g, c);
        var joined := Joined(g, c);
        games := games[gameId := joined];
        attached := attached[c := gameId];
        outbox := outbox + Broadcast(joined, GameUpdate(Sanitize(joined)));
      } else {
        outbox := outbox + [Sent(c, Error(GameNotFoundMessage))];
      }
    }

    /**
     * `askQuestion`: acts only when the sender's room exists and it is
     * player 2's turn (whoever the sender is); then the question becomes
     * the pending one, is appended to the transcript, the turn passes to
     * player 1 and both players get the new state. Otherwise nothing
     * changes and nothing is sent.
     */
    method AskQuestion(c: ConnId, question: string)
      requires Valid()
      modifies this
      ensures Valid()
      ensures attached == old(attached) && open == old(open)
      ensures var r := old(RoomOf(c));
        if r.Some? && AcceptsQuestion(old(games)[r.value]) then
          && games == old(games)[r.value := Asked(old(games)[r.value], question)]
          && games[r.value].lastQuestion == question
          && games[r.value].messages == old(games)[r.value].messages + [Entry(Question, question)]
          && AcceptsAnswer(games[r.value])
          && games[r.value].guessesLeft == old(games)[r.value].guessesLeft
          && outbox == old(outbox) + Broadcast(games[r.value], GameUpdate(Sanitize(games[r.value])))
        else
          games == old(games) && outbox == old(outbox)
    {
      var r := RoomOf(c);
      if r.Some? && AcceptsQuestion(games[r.value]) {
        var id := r.value;
        AskedKeepsInvariant(games[id], question);
        var asked := Asked(games[id], question);
        games := games[id := asked];
        outbox := outbox + Broadcast(asked, GameUpdate(Sanitize(asked)));
      }
    }

    /**
     * `sendAnswer`: acts only when the sender's room exists and it is
     * player 1's turn (whoever the sender is, whatever the status); then
     * one guess is used, the answer is logged after the pending question,
     * the room finishes with player 1 winning when no guess is left or
     * else the turn passes to player 2, and both players get the new state
     * with the secret word in it only if the room is finished.
     */
    method SendAnswer(c: ConnId, answer: string)
      requires Valid()
      modifies this
      ensures Valid()
      ensures attached == old(attached) && open == old(open)
      ensures var r := old(RoomOf(c));
        if r.Some? && AcceptsAnswer(old(games)[r.value]) then
          var before := old(games)[r.value];
          var after := Answered(before, answer);
          && games == old(games)[r.value := after]
          && after.guessesLeft == before.guessesLeft - 1
          && after.messages == before.messages + [Entry(Answer, before.lastQuestion + "\n> " + answer)]
          && (after.guessesLeft <= 0 ==> after.status == Finished && after.winner == Some(Setter) && AcceptsAnswer(after))
          && (after.guessesLeft > 0 ==> after.status == before.status && after.winner == before.winner && AcceptsQuestion(after))
          && outbox == old(outbox) + Broadcast(after, GameUpdate(AnswerView(after)))
        else
          games == old(games) && outbox == old(outbox)
      ensures forall i | |old(outbox)| <= i < |outbox| ::
                outbox[i].msg.GameUpdate?
                && (outbox[i].msg.state.secretWord.Some? <==> outbox[i].msg.state.status == Finished)
    {
      var r := RoomOf(c);
      if r.Some? && AcceptsAnswer(games[r.value]) {
        var id := r.value;
        AnsweredKeepsInvariant(games[id], answer);
        var answered := Answered(games[id], answer);
        games := games[id := answered];
        var sent := Broadcast(answered, GameUpdate(AnswerView(answered)));
        outbox := outbox + sent;
        assert outbox[|old(outbox)|..] == sent;
      }
    }

    /**
     * `endGame`: on the sender's room, whoever sends it and whatever the
     * room's status, the room finishes with the winner the payload names,
     * and both players get the state with the secret word.
     */
    method EndGame(c: ConnId, winner: Option<int>)
      requires Valid()
      modifies this
      ensures Valid()
      ensures attached == old(attached) && open == old(open)
      ensures var r := old(RoomOf(c));
        if r.Some? then
          var before := old(games)[r.value];
          var after := Ended(before, winner);
          && games == old(games)[r.value := after]
          && after.status == Finished && after.winner == winner
          && after.guessesLeft == before.guessesLeft && after.messages == before.messages
          && after.currentPlayer == before.currentPlayer
          && outbox == old(outbox) + Broadcast(after, GameUpdate(Sanitize(after)))
          && Sanitize(after).secretWord == Some(before.secretWord)
        else
          games == old(games) && outbox == old(outbox)
    {
      var r := RoomOf(c);
      if r.Some? {
        var id := r.value;
        EndedKeepsInvariant(games[id], winner);
        var ended := Ended(games[id], winner);
        games := games[id := ended];
        outbox := outbox + Broadcast(ended, GameUpdate(Sanitize(ended)));
      }
    }

    /**
     * `close`: the socket of `c` is no longer open. If its room exists,
     * the other player is declared the winner, told so with the secret
     * word when that player is open, and the room is deleted.
     */
    method OnClose(c: ConnId)
      requires Valid()
      modifies this
      ensures Valid()
      ensures open == old(open) - {c} && attached == old(attached)
      ensures var r := old(RoomOf(c));
        if r.Some? then
          var g := old(games)[r.value];
          && games == old(games) - {r.value}
          && r.value !in games
          && outbox == old(outbox) + Farewell(g, c, open)
          && (forall i | |old(outbox)| <= i < |outbox| ::
                outbox[i].msg.OpponentDisconnected?
                && outbox[i].msg.gameState.winner == Some(if g.player1 == c then Guesser else Setter))
        else
          games == old(games) && outbox == old(outbox)
      ensures forall i | |old(outbox)| <= i < |outbox| ::
                outbox[i].to != c && outbox[i].to in open
                && outbox[i].msg.OpponentDisconnected?
                && outbox[i].msg.gameState.status == Finished
                && outbox[i].msg.gameState.secretWord.Some?
    {
      open := open - {c};
      var r := RoomOf(c);
      if r.Some? {
        var id := r.value;
        outbox := outbox + Farewell(games[id], c, open);
        games := games - {id};
      }
    }

    /** The `message` handler: the switch on the inbound type. */
    method OnMessage(c: ConnId, m: Inbound, rand: nat -> real)
      requires Valid()
      requires m.CreateGame? ==> EventuallyFresh(games.Keys, rand)
      modifies this
      ensures Valid()
      ensures open == old(open)
      ensures m.Unrecognised? ==> games == old(games) && attached == old(attached) && outbox == old(outbox)
    {
      match m
      case CreateGame(word) =>
        var _ := CreateGame(c, word, rand);
      case JoinGame(id) =>
        JoinGame(c, id);
      case AskQuestion(q) =>
        AskQuestion(c, q);
      case SendAnswer(a) =>
        SendAnswer(c, a);
      case EndGame(w) =>
        EndGame(c, w);
      case Unrecognised(_) =>
    }
  }

  /**
   * The scripted game: a room is created with any secret word, a guesser
   * joins, and twenty questions are asked and answered. The first reply
   * carries a well-formed id and a full budget; the last broadcast says
   * the room is finished, player 1 won, and reveals the word.
   */
  method FullGameScenario(rand: nat -> real, word: string, question: string, answer: string)
    returns (created: OutMsg, final: OutMsg)
    requires ValidDraws(rand)
    ensures created.GameCreated? && IsGameId(created.gameId) && created.gameState.guessesLeft == InitialGuesses
    ensures created.gameState.status == Waiting
    ensures final.GameUpdate? && final.state.status == Finished && final.state.winner == Some(Setter)
    ensures final.state.secretWord == Some(word) && final.state.guessesLeft == 0
  {
    var s := new Server();
    s.Connect(1);
    s.Connect(2);
    NoRoomsFirstCandidateFree(rand);
    var id := s.CreateGame(1, word, rand);
    created := s.outbox[|s.outbox| - 1].msg;
    s.JoinGame(2, id);
    var n := 0;
    while n < InitialGuesses
      invariant 0 <= n <= InitialGuesses
      invariant s.Valid() && id in s.games && s.RoomOf(2) == Some(id) && s.RoomOf(1) == Some(id)
      invariant s.games[id].guessesLeft == InitialGuesses - n && s.games[id].secretWord == word
      invariant n < InitialGuesses ==> AcceptsQuestion(s.games[id]) && s.games[id].status == Active
      invariant n == InitialGuesses ==>
                  && |s.outbox| > 0 && s.outbox[|s.outbox| - 1].msg == GameUpdate(AnswerView(s.games[id]))
                  && s.games[id].status == Finished && s.games[id].winner == Some(Setter)
      modifies s
    {
      s.AskQuestion(2, question);
      s.SendAnswer(1, answer);
      n := n + 1;
    }
    final := s.outbox[|s.outbox| - 1].msg;
  }

  /**
   * `joinGame` never looks at the status: a room the setter ended before
   * anyone joined has a free guesser slot, and a join makes it active again.
   */
  method JoinReopensFinishedRoom(rand: nat -> real, word: string) returns (ended: Status, rejoined: Status)
    requires ValidDraws(rand)
    ensures ended == Finished && rejoined == Active
  {
    var s := new Server();
    s.Connect(1);
    s.Connect(3);
    NoRoomsFirstCandidateFree(rand);
    var id := s.CreateGame(1, word, rand);
    s.EndGame(1, None);
    ended := s.games[id].status;
    s.JoinGame(3, id);
    rejoined := s.games[id].status;
  }

  /**
   * The setter leaves an active room: the guesser, still open, is told it
   * won and learns the word; the room is gone, so joining it again is
   * refused as not found.
   */
  method DisconnectScenario(rand: nat -> real, word: string) returns (notice: Sent, rejoin: Sent)
    requires ValidDraws(rand)
    ensures notice.to == 2 && notice.msg.OpponentDisconnected?
    ensures notice.msg.gameState.winner == Some(Guesser) && notice.msg.gameState.secretWord == Some(word)
    ensures rejoin == Sent(3, Error(GameNotFoundMessage))
  {
    var s := new Server();
    s.Connect(1);
    s.Connect(2);
    s.Connect(3);
    NoRoomsFirstCandidateFree(rand);
    var id := s.CreateGame(1, word, rand);
    s.JoinGame(2, id);
    s.OnClose(1);
    notice := s.outbox[|s.outbox| - 1];
    s.JoinGame(3, id);
    rejoin := s.outbox[|s.outbox| - 1];
  }
}
