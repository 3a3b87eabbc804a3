/**
 * The Socket.io handlers of the quiz server as methods over the database object and
 * the connection object. Each runs atomically and returns the acknowledgement it
 * passes to its callback and the broadcasts it emits, in emission order; each is
 * proved to do exactly what its rule in `GameRules` says.
 */
module GameSocket {
  import opened Wrappers
  import opened Seqs
  import opened Schema
  import opened Store
  import opened GameRules

  /** The properties the server attaches to one socket. */
  class Connection {
    const socketId: string
    var gameId: Option<nat>
    var roomCode: Option<string>
    var isHost: bool
    var playerId: Option<nat>

    function State(): ConnState
      reads this
    {
      ConnState(socketId, gameId, roomCode, isHost, playerId)
    }

    predicate Valid()
      reads this
    {
      State().Valid()
    }

    /** A freshly connected socket, bound to nothing. */
    constructor (socketId: string)
      ensures State() == ConnState(socketId, None, None, false, None)
      ensures Valid()
    {
      this.socketId := socketId;
      this.gameId := None;
      this.roomCode := None;
      this.isHost := false;
      this.playerId := None;
    }
  }

  // ---------------------------------------------------------------- room codes

  /** The room code six random draws pick, draw `i` choosing character `i`. */
  function RoomCodeOf(draws: seq<nat>): (code: string)
    requires forall i :: 0 <= i < |draws| ==> draws[i] < |Alphabet|
    ensures |code| == |draws|
    ensures |draws| == RoomCodeLength ==> IsRoomCode(code)
  {
    seq(|draws|, i requires 0 <= i < |draws| => Alphabet[draws[i]])
  }

  /**
   * `generateRoomCode`: one character of the alphabet per draw, appended in turn. The
   * draws stand for `Math.floor(Math.random() * 36)`.
   */
  method GenerateRoomCode(draws: seq<nat>) returns (code: string)
    requires |draws| == RoomCodeLength
    requires forall i :: 0 <= i < |draws| ==> draws[i] < |Alphabet|
    ensures code == RoomCodeOf(draws)
    ensures IsRoomCode(code)
  {
    code := "";
    var i := 0;
    while i < RoomCodeLength
      invariant 0 <= i <= RoomCodeLength
      invariant code == RoomCodeOf(draws[..i])
    {
      code := code + [Alphabet[draws[i]]];
      i := i + 1;
    }
    assert draws[..i] == draws;
  }

  /** Every room code is the outcome of some draws: the generator can produce any of them. */
  lemma EveryRoomCodeCanBeDrawn(code: string)
    requires IsRoomCode(code)
    ensures exists draws: seq<nat> ::
      |draws| == RoomCodeLength && (forall i :: 0 <= i < |draws| ==> draws[i] < |Alphabet|) && RoomCodeOf(draws) == code
  {
    var draws := seq(|code|, i requires 0 <= i < |code| => IndexOf(Alphabet, code[i]));
    assert RoomCodeOf(draws) == code;
  }

  // ---------------------------------------------------------------- handlers

  /** `create-room`: a new lobby game under a fresh room code; the socket becomes its host. */
  method CreateRoom(db: Database, conn: Connection, hostName: string, draws: seq<nat>)
    returns (reply: Reply, events: seq<Event>)
    requires |draws| == RoomCodeLength
    requires forall i :: 0 <= i < |draws| ==> draws[i] < |Alphabet|
    modifies db, conn
    ensures Outcome(db.View(), conn.State(), reply, events) ==
      GameRules.CreateRoom(old(db.View()), old(conn.State()), hostName, RoomCodeOf(draws))
    ensures old(db.Valid()) ==> db.Valid()
  {
    var code := GenerateRoomCode(draws);
    var g := db.InsertGame(code, hostName);
    conn.gameId := Some(g.id);
    conn.roomCode := Some(code);
    conn.isHost := true;
    reply := RoomCreated(code, g.id);
    events := [];
  }

  /** `join-room`: join the first game with this code while it is in the lobby. */
  method JoinRoom(db: Database, conn: Connection, code: string, name: string)
    returns (reply: Reply, events: seq<Event>)
    modifies db, conn
    ensures Outcome(db.View(), conn.State(), reply, events) ==
      GameRules.JoinRoom(old(db.View()), old(conn.State()), code, name)
    ensures old(db.Valid()) ==> db.Valid()
  {
    var found := GameByCode(db.games, code);
    if found.None? {
      return Fail(Rejected(RoomNotFound)), [];
    }
    var g := found.value;
    if g.status != Lobby {
      return Fail(Rejected(GameAlreadyRunning)), [];
    }
    var p := db.InsertPlayer(g.id, name, conn.socketId);
    conn.gameId := Some(g.id);
    conn.playerId := Some(p.id);
    conn.roomCode := Some(code);
    events := [Event(code, PlayersUpdate(Roster(db.players, g.id)))];
    reply := Joined(p.id, g.id);
  }

  /** `start-game`: the host sets the game playing, then introduces its first category. */
  method StartGame(db: Database, conn: Connection) returns (reply: Reply, events: seq<Event>)
    requires conn.Valid()
    modifies db
    ensures Outcome(db.View(), conn.State(), reply, events) == GameRules.StartGame(old(db.View()), conn.State())
    ensures old(db.Valid()) ==> db.Valid()
  {
    if !conn.isHost {
      return Fail(Rejected(StartNotHost)), [];
    }
    var gid := conn.gameId.value;
    db.UpdateGames(GameIdIs(gid), SetPlaying);
    var first := Nth(BoundCategories(db.gameCategories, db.categories, gid), 0);
    if first.None? {
      return Fail(Rejected(NoCategoriesSelected)), [];
    }
    reply := Ok;
    events := [Event(conn.roomCode.value, Intro(first.value))];
  }

  /** `start-category`: the host shows the current question of the current category. */
  method StartCategory(db: Database, conn: Connection) returns (reply: Reply, events: seq<Event>)
    requires conn.Valid()
    ensures Outcome(db.View(), conn.State(), reply, events) == GameRules.StartCategory(db.View(), conn.State())
  {
    if !conn.isHost {
      return Fail(Rejected(StartNotHost)), [];
    }
    var gid := conn.gameId.value;
    var game := GameById(db.games, conn.gameId);
    if game.None? {
      return Fail(Exception), [];
    }
    var g := game.value;
    var category := Nth(BoundCategories(db.gameCategories, db.categories, gid), g.categoryIndex);
    if category.None? {
      return Fail(Rejected(CategoryNotFound)), [];
    }
    var cat := category.value;
    var question := Nth(CategoryQuestions(db.questions, gid, cat.id), g.questionIndex);
    if question.None? {
      return Fail(Rejected(NoQuestions)), [];
    }
    reply := Ok;
    events := [Event(conn.roomCode.value, CategoryStarted(QInfo(question.value), Info(cat)))];
  }

  /** `buzz`: record the first buzz on the current question and announce it at time `now`. */
  method Buzz(db: Database, conn: Connection, now: string) returns (reply: Reply, events: seq<Event>)
    requires conn.Valid()
    modifies db
    ensures Outcome(db.View(), conn.State(), reply, events) == GameRules.PressBuzzer(old(db.View()), conn.State(), now)
    ensures old(db.Valid()) ==> db.Valid()
  {
    var game := GameById(db.games, conn.gameId);
    if game.None? {
      return Fail(Exception), [];
    }
    var g := game.value;
    if g.status != Playing {
      return Fail(Rejected(GameNotRunning)), [];
    }
    var gid := conn.gameId.value;
    var question := Nth(GameQuestions(db.questions, gid), g.questionIndex);
    if question.None? {
      return Fail(Exception), [];
    }
    var q := question.value;
    if |BuzzesOn(db.buzzes, gid, q.id)| > 0 {
      return Fail(Rejected(AlreadyBuzzed)), [];
    }
    db.InsertBuzz(Schema.Buzz(gid, q.id, conn.playerId));
    var player := PlayerById(db.players, conn.playerId);
    if player.None? {
      return Fail(Exception), [];
    }
    var p := player.value;
    reply := Ok;
    events := [Event(conn.roomCode.value, PlayerBuzzed(p.id, p.name, now))];
  }

  /** `judge-answer`: the host awards the point of a correct answer and reports the scores. */
  method JudgeAnswer(db: Database, conn: Connection, playerId: nat, correct: bool)
    returns (reply: Reply, events: seq<Event>)
    requires conn.Valid()
    modifies db
    ensures Outcome(db.View(), conn.State(), reply, events) ==
      GameRules.JudgeAnswer(old(db.View()), conn.State(), playerId, correct)
    ensures old(db.Valid()) ==> db.Valid()
  {
    if !conn.isHost {
      return Fail(Rejected(JudgeNotHost)), [];
    }
    var points := if correct then 1 else 0;
    var player := PlayerById(db.players, Some(playerId));
    if correct {
      db.UpdatePlayers(PlayerIdIs(playerId), AddPoint);
    }
    var room := conn.roomCode.value;
    events := [Event(room, ScoresUpdate(Ranking(db.players, conn.gameId.value)))];
    if player.None? {
      return Fail(Exception), events;
    }
    events := events + [Event(room, AnswerJudged(correct, playerId, player.value.name, points))];
    reply := Judged(correct);
  }

  /** `unlock-buzzer`: the host deletes the buzzes on the current question. */
  method UnlockBuzzer(db: Database, conn: Connection) returns (reply: Reply, events: seq<Event>)
    requires conn.Valid()
    modifies db
    ensures Outcome(db.View(), conn.State(), reply, events) == GameRules.UnlockBuzzer(old(db.View()), conn.State())
    ensures old(db.Valid()) ==> db.Valid()
  {
    if !conn.isHost {
      return Fail(Rejected(UnlockNotHost)), [];
    }
    var game := GameById(db.games, conn.gameId);
    if game.None? {
      return Fail(Exception), [];
    }
    var g := game.value;
    var question := Nth(GameQuestions(db.questions, conn.gameId.value), g.questionIndex);
    if question.Some? {
      db.DeleteBuzzes(NotBuzzOn(conn.gameId.value, question.value.id));
    }
    reply := Ok;
    events := [Event(conn.roomCode.value, BuzzerUnlocked)];
  }

  /** `next-question`: the host increments the question index, then moves on from there. */
  method NextQuestion(db: Database, conn: Connection) returns (reply: Reply, events: seq<Event>)
    requires conn.Valid()
    modifies db
    ensures Outcome(db.View(), conn.State(), reply, events) == GameRules.NextQuestion(old(db.View()), conn.State())
    ensures old(db.Valid()) ==> db.Valid()
  {
    if !conn.isHost {
      return Fail(Rejected(AdvanceNotHost)), [];
    }
    db.UpdateGames(GameIdIs(conn.gameId.value), BumpQuestion);
    reply, events := Advance(db, conn);
  }

  /** next-question after its increment: the next question, or the end of the category. */
  method Advance(db: Database, conn: Connection) returns (reply: Reply, events: seq<Event>)
    requires conn.Valid() && conn.isHost
    modifies db
    ensures Outcome(db.View(), conn.State(), reply, events) == AdvanceFrom(old(db.View()), conn.State())
  {
    var gid := conn.gameId.value;
    var game := GameById(db.games, conn.gameId);
    if game.None? {
      return Fail(Exception), [];
    }
    var g := game.value;
    var current := Nth(BoundCategories(db.gameCategories, db.categories, gid), g.categoryIndex);
    if current.None? {
      return Fail(Exception), [];
    }
    var cur := current.value;
    if g.questionIndex >= CountQuestions(db.questions, gid, cur.id) {
      reply, events := Close(db, conn);
      return;
    }
    var question := Nth(CategoryQuestions(db.questions, gid, cur.id), g.questionIndex);
    if question.None? {
      return Fail(Exception), [];
    }
    reply := SameCategory;
    events := [Event(conn.roomCode.value, ShowNextQuestion(QInfo(question.value), Info(cur)))];
  }

  /** next-question past a category's last question: the next category, or the end of the game. */
  method Close(db: Database, conn: Connection) returns (reply: Reply, events: seq<Event>)
    requires conn.Valid() && conn.isHost
    modifies db
    ensures Outcome(db.View(), conn.State(), reply, events) == CloseCategory(old(db.View()), conn.State())
  {
    var gid := conn.gameId.value;
    var room := conn.roomCode.value;
    db.UpdateGames(GameIdIs(gid), NextCategory);
    var updated := GameById(db.games, conn.gameId);
    if updated.None? {
      return Fail(Exception), [];
    }
    var next := Nth(BoundCategories(db.gameCategories, db.categories, gid), updated.value.categoryIndex);
    if next.None? {
      db.UpdateGames(GameIdIs(gid), SetFinished);
      return GameOver, [Event(room, GameFinished(Ranking(db.players, gid)))];
    }
    reply := CategoryChange;
    events := [Event(room, Intro(next.value))];
  }

  /**
   * `disconnect`: a socket with a bound player deletes the player rows on this socket
   * and, when bound to a room, sends the room the remaining roster.
   */
  method Disconnect(db: Database, conn: Connection) returns (reply: Reply, events: seq<Event>)
    requires conn.Valid()
    modifies db
    ensures Outcome(db.View(), conn.State(), reply, events) == GameRules.Disconnect(old(db.View()), conn.State())
    ensures old(db.Valid()) ==> db.Valid()
  {
    reply := NoAck;
    events := [];
    if conn.playerId.Some? && conn.playerId.value != 0 {
      db.DeletePlayers(NotOnSocket(conn.socketId));
      if conn.roomCode.Some? {
        events := [Event(conn.roomCode.value, PlayersUpdate(Roster(db.players, conn.gameId.value)))];
      }
    }
  }
}
