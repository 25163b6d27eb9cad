/**
 * One game room of the 20-questions relay server, as a value: the record
 * kept in the room table, the state the server broadcasts, and the effect
 * that each accepted event has on a room.
 *
 * Player 1 is the setter (who created the room and knows the secret word),
 * player 2 the guesser. `currentPlayer` says whose event the room accepts:
 * 2 for a question, 1 for an answer. Nothing else is checked: not the
 * sender, not the status.
 */
module Rooms {

  datatype Option<+T> = None | Some(value: T)

  /** A connection, identified by an opaque id. */
  type ConnId = int

  const InitialGuesses: int := 20

  /** The player numbers stored in `currentPlayer` and `winner`. */
  const Setter: int := 1
  const Guesser: int := 2

  const GameFullMessage: string := "This game is already full."
  const GameNotFoundMessage: string := "Game not found."
  const OpponentLeftMessage: string := "Your opponent has disconnected. You win!"

  datatype Status = Waiting | Active | Finished

  datatype EntryKind = Question | Answer

  /** One entry of the room's transcript, `{type, text}`. */
  datatype Entry = Entry(kind: EntryKind, text: string)

  /** The record stored in the room table under the room's id. */
  datatype Game = Game(
    player1: ConnId,
    player2: Option<ConnId>,
    secretWord: string,
    guessesLeft: int,
    currentPlayer: int,
    messages: seq<Entry>,
    lastQuestion: string,
    status: Status,
    winner: Option<int>)

  /** The state sent to clients: the room without its connections, the secret word optional. */
  datatype GameState = GameState(
    secretWord: Option<string>,
    guessesLeft: int,
    currentPlayer: int,
    messages: seq<Entry>,
    lastQuestion: string,
    status: Status,
    winner: Option<int>)

  /** Outbound messages, by their `type`. */
  datatype OutMsg =
    | GameCreated(gameId: string, gameState: GameState)
    | GameUpdate(state: GameState)
    | Error(message: string)
    | OpponentDisconnected(message: string, gameState: GameState)

  /** One `send` call: the connection it was made on and the message. */
  datatype Sent = Sent(to: ConnId, msg: OutMsg)

  // ---------------------------------------------------------------------
  // Transitions of one room

  /** The record a `createGame` event stores for its sender. */
  function NewGame(setter: ConnId, secretWord: string): (g: Game)
    ensures g.player1 == setter && g.player2 == None && g.secretWord == secretWord
    ensures g.messages == [] && g.status == Waiting && g.winner == None
    ensures AcceptsAnswer(g) && !AcceptsQuestion(g)
  {
    Game(setter, None, secretWord, InitialGuesses, Setter, [], "", Waiting, None)
  }

  /** A `joinGame` event is refused only when the guesser slot holds a connection that is still open. */
  predicate IsFull(g: Game, open: set<ConnId>) {
    g.player2.Some? && g.player2.value in open
  }

  /** The room after a successful `joinGame` by `guesser`. */
  function Joined(g: Game, guesser: ConnId): (j: Game)
    ensures j.player2 == Some(guesser) && j.status == Active && AcceptsQuestion(j)
    ensures j.(player2 := g.player2, status := g.status, currentPlayer := g.currentPlayer) == g
  {
    g.(player2 := Some(guesser), status := Active, currentPlayer := Guesser)
  }

  /** Whether the room takes an `askQuestion` event: its turn number, and nothing else. */
  predicate AcceptsQuestion(g: Game) {
    g.currentPlayer == Guesser
  }

  /** Whether the room takes a `sendAnswer` event: its turn number, and nothing else. */
  predicate AcceptsAnswer(g: Game) {
    g.currentPlayer == Setter
  }

  /** The room after an accepted question. */
  function Asked(g: Game, question: string): (a: Game)
    ensures a.lastQuestion == question && AcceptsAnswer(a)
    ensures |a.messages| == |g.messages| + 1 && a.messages[|g.messages|] == Entry(Question, question)
    ensures a.guessesLeft == g.guessesLeft && a.status == g.status && a.winner == g.winner
    ensures a.messages[..|g.messages|] == g.messages
    ensures a.(lastQuestion := g.lastQuestion, messages := g.messages, currentPlayer := g.currentPlayer) == g
  {
    g.(lastQuestion := question,
       messages := g.messages + [Entry(Question, question)],
       currentPlayer := Setter)
  }

  /** The transcript text of an answer: the pending question, a newline, `> ` and the answer. */
  function AnswerText(lastQuestion: string, answer: string): string {
    lastQuestion + "\n> " + answer
  }

  /**
   * The room after an accepted answer: one guess used; when none is left
   * the setter wins and the turn stays with the setter, else the turn
   * passes to the guesser.
   */
  function Answered(g: Game, answer: string): (a: Game)
    ensures a.guessesLeft == g.guessesLeft - 1
    ensures a.messages == g.messages + [Entry(Answer, AnswerText(g.lastQuestion, answer))]
    ensures a.guessesLeft <= 0 ==> a.status == Finished && a.winner == Some(Setter) && a.currentPlayer == g.currentPlayer
    ensures a.guessesLeft > 0 ==> a.status == g.status && a.winner == g.winner && AcceptsQuestion(a)
    ensures a.player1 == g.player1 && a.player2 == g.player2
    ensures a.secretWord == g.secretWord && a.lastQuestion == g.lastQuestion
  {
    var left := g.guessesLeft - 1;
    var logged := g.(guessesLeft := left,
                     messages := g.messages + [Entry(Answer, AnswerText(g.lastQuestion, answer))]);
    if left <= 0 then logged.(status := Finished, winner := Some(Setter))
    else logged.(currentPlayer := Guesser)
  }

  /** The room after an `endGame` event carrying `winner`. */
  function Ended(g: Game, winner: Option<int>): (e: Game)
    ensures e.status == Finished && e.winner == winner
    ensures e.(status := g.status, winner := g.winner) == g
  {
    g.(status := Finished, winner := winner)
  }

  /** The room as the `close` handler leaves it just before deleting it: the other player wins. */
  function ClosedBy(g: Game, closer: ConnId): (h: Game)
    ensures h.status == Finished
    ensures closer == g.player1 ==> h.winner == Some(Guesser)
    ensures closer != g.player1 ==> h.winner == Some(Setter)
    ensures h.(status := g.status, winner := g.winner) == g
  {
    g.(status := Finished, winner := Some(if g.player1 == closer then Guesser else Setter))
  }

  /** The connection the `close` handler notifies: player 2 if player 1 closed, else player 1. */
  function Opponent(g: Game, closer: ConnId): (other: Option<ConnId>)
    ensures other.Some? ==> other.value == g.player1 || other == g.player2
    ensures other.None? <==> closer == g.player1 && g.player2.None?
    ensures closer != g.player1 ==> other == Some(g.player1)
    ensures closer == g.player1 ==> other == g.player2
  {
    if g.player1 == closer then g.player2 else Some(g.player1)
  }

  // ---------------------------------------------------------------------
  // What is sent

  /** The sanitized state: every field but the connections, the secret word included. */
  function Sanitize(g: Game): (s: GameState)
    ensures s.secretWord == Some(g.secretWord)
  {
    GameState(Some(g.secretWord), g.guessesLeft, g.currentPlayer, g.messages,
              g.lastQuestion, g.status, g.winner)
  }

  /** The state broadcast after an answer: the secret word is dropped while the room is not finished. */
  function AnswerView(g: Game): (v: GameState)
    ensures v.secretWord.Some? <==> g.status == Finished
    ensures v.secretWord.Some? ==> v.secretWord.value == g.secretWord
    ensures v.(secretWord := None) == Sanitize(g).(secretWord := None)
  {
    if g.status == Finished then Sanitize(g) else Sanitize(g).(secretWord := None)
  }

  /** One `send` to player 1 and, when there is one, one to player 2, in that order. */
  function Broadcast(g: Game, m: OutMsg): (sent: seq<Sent>)
    ensures |sent| == if g.player2.Some? then 2 else 1
    ensures sent[0].to == g.player1 && (g.player2.Some? ==> sent[1].to == g.player2.value)
    ensures forall i | 0 <= i < |sent| :: sent[i].msg == m
  {
    [Sent(g.player1, m)] + if g.player2.Some? then [Sent(g.player2.value, m)] else []
  }

  /** What the `close` handler sends: the notice, to the opponent only, and only if it is open. */
  function Farewell(g: Game, closer: ConnId, open: set<ConnId>): (sent: seq<Sent>)
    ensures |sent| == 1 <==> Opponent(g, closer).Some? && Opponent(g, closer).value in open
    ensures |sent| <= 1
    ensures forall i | 0 <= i < |sent| ::
              && Some(sent[i].to) == Opponent(g, closer) && sent[i].to in open
              && sent[i].msg == OpponentDisconnected(OpponentLeftMessage, Sanitize(ClosedBy(g, closer)))
              && sent[i].msg.gameState.status == Finished
              && sent[i].msg.gameState.secretWord == Some(g.secretWord)
  {
    var other := Opponent(g, closer);
    if other.Some? && other.value in open
    then [Sent(other.value, OpponentDisconnected(OpponentLeftMessage, Sanitize(ClosedBy(g, closer))))]
    else []
  }

  // ---------------------------------------------------------------------
  // The room invariant

  /** The number of answer entries in a transcript. */
  function AnswersIn(log: seq<Entry>): nat {
    if log == [] then 0
    else (if log[0].kind == Answer then 1 else 0) + AnswersIn(log[1..])
  }

  /** The text of the last question entry of a transcript, or the empty string. */
  function LastQuestionIn(log: seq<Entry>): string {
    if log == [] then ""
    else if log[|log| - 1].kind == Question then log[|log| - 1].text
    else LastQuestionIn(log[..|log| - 1])
  }

  /**
   * What every room in the table satisfies: the turn is 1 or 2; one guess
   * has been spent per answer in the transcript; the pending question is
   * the last question asked; a waiting room has no guesser and no winner.
   */
  predicate GameInv(g: Game) {
    && (g.currentPlayer == Setter || g.currentPlayer == Guesser)
    && g.guessesLeft + AnswersIn(g.messages) == InitialGuesses
    && g.lastQuestion == LastQuestionIn(g.messages)
    && (g.status == Waiting ==> g.player2 == None && g.winner == None)
  }

  lemma {:induction false} AnswersInAppend(log: seq<Entry>, e: Entry)
    ensures AnswersIn(log + [e]) == AnswersIn(log) + (if e.kind == Answer then 1 else 0)
  {
    if log != [] {
      assert (log + [e])[1..] == log[1..] + [e];
      AnswersInAppend(log[1..], e);
    }
  }

  lemma LastQuestionInAppend(log: seq<Entry>, e: Entry)
    ensures LastQuestionIn(log + [e]) == if e.kind == Question then e.text else LastQuestionIn(log)
  {
    assert (log + [e])[..|log|] == log;
  }

  lemma NewGameSatisfiesInvariant(setter: ConnId, secretWord: string)
    ensures GameInv(NewGame(setter, secretWord))
    ensures NewGame(setter, secretWord).guessesLeft == InitialGuesses
  {
  }

  lemma JoinedKeepsInvariant(g: Game, guesser: ConnId)
    requires GameInv(g)
    ensures GameInv(Joined(g, guesser))
    ensures Joined(g, guesser).secretWord == g.secretWord
    ensures Joined(g, guesser).guessesLeft == g.guessesLeft
    ensures Joined(g, guesser).messages == g.messages
  {
  }

  lemma AskedKeepsInvariant(g: Game, question: string)
    requires GameInv(g)
    ensures GameInv(Asked(g, question))
    ensures Asked(g, question).guessesLeft == g.guessesLeft
  {
    AnswersInAppend(g.messages, Entry(Question, question));
    LastQuestionInAppend(g.messages, Entry(Question, question));
  }

  lemma AnsweredKeepsInvariant(g: Game, answer: string)
    requires GameInv(g)
    ensures GameInv(Answered(g, answer))
    ensures AnswersIn(Answered(g, answer).messages) == AnswersIn(g.messages) + 1
  {
    var e := Entry(Answer, AnswerText(g.lastQuestion, answer));
    AnswersInAppend(g.messages, e);
    LastQuestionInAppend(g.messages, e);
  }

  lemma EndedKeepsInvariant(g: Game, winner: Option<int>)
    requires GameInv(g)
    ensures GameInv(Ended(g, winner))
  {
  }

  /** In any room of the table the budget is never above 20, and it is at or below 0 once 20 answers are logged. */
  lemma BudgetAccounting(g: Game)
    requires GameInv(g)
    ensures g.guessesLeft <= InitialGuesses
    ensures g.guessesLeft <= 0 <==> AnswersIn(g.messages) >= InitialGuesses
  {
  }

  // ---------------------------------------------------------------------
  // Turns and whole games

  /** A question is followed by the setter's turn; an answer hands the turn back unless the budget ran out. */
  lemma TurnsAlternate(g: Game, question: string, answer: string)
    requires AcceptsQuestion(g) || AcceptsAnswer(g)
    ensures AcceptsAnswer(Asked(g, question)) && !AcceptsQuestion(Asked(g, question))
    ensures AcceptsAnswer(g) ==>
              (AcceptsQuestion(Answered(g, answer)) <==> g.guessesLeft > 1)
              && (AcceptsAnswer(Answered(g, answer)) <==> g.guessesLeft <= 1)
  {
  }

  /** One question followed by one answer. */
  datatype Round = Round(question: string, answer: string)

  /** The effect on a room of an `askQuestion` then a `sendAnswer` event, each applied only if the turn allows. */
  function PlayRound(g: Game, r: Round): Game {
    var asked := if AcceptsQuestion(g) then Asked(g, r.question) else g;
    if AcceptsAnswer(asked) then Answered(asked, r.answer) else asked
  }

  function PlayRounds(g: Game, rounds: seq<Round>): Game
    decreases |rounds|
  {
    if rounds == [] then g
    else PlayRound(PlayRounds(g, rounds[..|rounds| - 1]), rounds[|rounds| - 1])
  }

  /** While the budget lasts, each round uses one guess, logs two entries and gives the turn back to the guesser. */
  lemma {:induction false} RoundsCountDown(g: Game, rounds: seq<Round>)
    requires AcceptsQuestion(g) && |rounds| < g.guessesLeft
    ensures var f := PlayRounds(g, rounds);
      && AcceptsQuestion(f)
      && f.guessesLeft == g.guessesLeft - |rounds|
      && |f.messages| == |g.messages| + 2 * |rounds|
      && f.messages[..|g.messages|] == g.messages
      && f.status == g.status && f.winner == g.winner && f.secretWord == g.secretWord
  {
    if rounds != [] {
      var init := rounds[..|rounds| - 1];
      RoundsCountDown(g, init);
      var f := PlayRounds(g, init);
      assert PlayRounds(g, rounds) == PlayRound(f, rounds[|rounds| - 1]);
    }
  }

  /**
   * A joined room played for twenty rounds ends with the setter winning,
   * no guesses left, and the final answer broadcast revealing the word.
   */
  lemma {:induction false} TwentyRoundsSetterWins(setter: ConnId, guesser: ConnId, word: string, rounds: seq<Round>)
    requires |rounds| == InitialGuesses
    ensures var f := PlayRounds(Joined(NewGame(setter, word), guesser), rounds);
      && f.status == Finished && f.winner == Some(Setter)
      && f.guessesLeft == 0
      && |f.messages| == 2 * InitialGuesses
      && AnswerView(f).secretWord == Some(word)
  {
    var g := Joined(NewGame(setter, word), guesser);
    var init := rounds[..|rounds| - 1];
    RoundsCountDown(g, init);
    assert PlayRounds(g, rounds) == PlayRound(PlayRounds(g, init), rounds[|rounds| - 1]);
  }

  // ---------------------------------------------------------------------
  // Behaviour of the code as written

  /** A room nobody has joined already takes an answer: its turn number starts at 1 and status is not checked. */
  lemma WaitingRoomAcceptsAnswer(setter: ConnId, word: string, answer: string)
    ensures AcceptsAnswer(NewGame(setter, word))
    ensures var g := Answered(NewGame(setter, word), answer);
      g.status == Waiting && g.guessesLeft == InitialGuesses - 1 && AcceptsQuestion(g)
  {
  }

  /** A room finished by exhaustion keeps the setter's turn, so a further answer drives the budget below zero. */
  lemma ExhaustedRoomStillAcceptsAnswers(g: Game, answer: string, again: string)
    requires AcceptsAnswer(g) && g.guessesLeft == 1
    ensures var f := Answered(g, answer);
      && f.status == Finished && f.winner == Some(Setter) && AcceptsAnswer(f)
      && Answered(f, again).guessesLeft == -1
  {
  }

  /** Once an open connection has joined, every further join is refused while it stays open. */
  lemma JoinedByOpenIsFull(g: Game, guesser: ConnId, open: set<ConnId>)
    requires guesser in open
    ensures IsFull(Joined(g, guesser), open)
    ensures !IsFull(Joined(g, guesser), open - {guesser})
  {
  }

  /** The broadcasts after a join (and a question) carry the secret word to both players while the game runs. */
  lemma JoinBroadcastRevealsSecret(g: Game, guesser: ConnId, question: string)
    ensures Joined(g, guesser).status == Active
    ensures Sanitize(Joined(g, guesser)).secretWord == Some(g.secretWord)
    ensures Sanitize(Asked(Joined(g, guesser), question)).secretWord == Some(g.secretWord)
    ensures Sent(guesser, GameUpdate(Sanitize(Joined(g, guesser)))) in Broadcast(Joined(g, guesser), GameUpdate(Sanitize(Joined(g, guesser))))
  {
  }

  /** The sanitized state forgets exactly the two connection references. */
  lemma SanitizeForgetsOnlyConnections(g: Game, h: Game)
    ensures Sanitize(g) == Sanitize(h) <==> g.(player1 := h.player1, player2 := h.player2) == h
  {
  }
}
