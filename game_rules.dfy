/**
 * What each Socket.io handler of the quiz server does, as a function from the
 * database and the connection's bound state to the new database, the new bound
 * state, the acknowledgement sent through the callback and the broadcasts.
 *
 * A handler that reads a field of a row its query did not find throws a
 * `TypeError` in the server; here that is `Fail(Exception)`, and whatever the
 * handler wrote or broadcast before the throw stays written and broadcast.
 */
module GameRules {
  import opened Wrappers
  import opened Seqs
  import opened Schema

  // ---------------------------------------------------------------- constants

  const Alphabet := "ABCDEFGHIJKLMNOPQRSTUVWXYZ0123456789"
  const RoomCodeLength := 6

  const RoomNotFound := "Raum nicht gefunden"
  const GameAlreadyRunning := "Spiel läuft bereits"
  const StartNotHost := "Nur Host kann starten"
  const NoCategoriesSelected := "Keine Kategorien ausgewählt"
  const CategoryNotFound := "Keine Kategorie gefunden"
  const NoQuestions := "Keine Fragen vorhanden"
  const GameNotRunning := "Spiel läuft nicht"
  const AlreadyBuzzed := "Jemand hat bereits gebuzzert"
  const JudgeNotHost := "Nur Host kann bewerten"
  const UnlockNotHost := "Nur Host kann freigeben"
  const AdvanceNotHost := "Nur Host kann weiter"

  /** A room code: six characters of the upper-case alphanumeric alphabet. */
  predicate IsRoomCode(s: string) {
    |s| == RoomCodeLength && forall i :: 0 <= i < |s| ==> s[i] in Alphabet
  }

  // ---------------------------------------------------------------- connection state

  /** The properties the server attaches to a socket (`socket.gameId` and the rest). */
  datatype ConnState = ConnState(socketId: string, gameId: Option<nat>, roomCode: Option<string>,
                                 isHost: bool, playerId: Option<nat>)
  {
    /** A socket is bound to a game exactly when it is bound to its room; a host always is. */
    predicate Valid() {
      gameId.Some? == roomCode.Some? && (isHost ==> gameId.Some?)
    }
  }

  // ---------------------------------------------------------------- replies and broadcasts

  datatype Error = Rejected(message: string) | Exception

  /** The object each handler passes to its callback. */
  datatype Reply =
    | Fail(error: Error)                              // { success: false, error }
    | RoomCreated(roomCode: string, gameId: nat)      // create-room
    | Joined(playerId: nat, gameId: nat)              // join-room
    | Ok                                              // { success: true }
    | Judged(correct: bool)                           // judge-answer
    | GameOver                                        // { success: true, finished: true }
    | CategoryChange                                  // { success: true, categoryChange: true }
    | SameCategory                                    // { success: true, finished: false, categoryChange: false }
    | NoAck                                           // disconnect has no callback

  datatype QuestionInfo = QuestionInfo(id: nat, text: string, order: int)
  datatype CategoryInfo = CategoryInfo(id: nat, name: string, icon: Option<string>)

  /** The body of each event the server emits. */
  datatype Payload =
    | PlayersUpdate(players: seq<PlayerView>)
    | CategoryIntro(categoryId: nat, name: string, icon: Option<string>, description: Option<string>)
    | CategoryStarted(question: QuestionInfo, category: CategoryInfo)
    | PlayerBuzzed(playerId: nat, playerName: string, timestamp: string)
    | ScoresUpdate(players: seq<PlayerView>)
    | AnswerJudged(correct: bool, judgedId: nat, playerName: string, points: int)
    | BuzzerUnlocked
    | GameFinished(players: seq<PlayerView>)
    | ShowNextQuestion(question: QuestionInfo, category: CategoryInfo)

  /** `io.to(room).emit(...)` */
  datatype Event = Event(room: string, payload: Payload)

  datatype Outcome = Outcome(tables: Tables, conn: ConnState, reply: Reply, events: seq<Event>)

  function Intro(c: Category): Payload { CategoryIntro(c.id, c.name, c.icon, c.description) }
  function Info(c: Category): CategoryInfo { CategoryInfo(c.id, c.name, c.icon) }
  function QInfo(q: Question): QuestionInfo { QuestionInfo(q.id, q.text, q.order) }

  // ---------------------------------------------------------------- row updates

  function SetPlaying(g: Game): Game { g.(status := Playing) }
  function SetFinished(g: Game): Game { g.(status := Finished) }
  function BumpQuestion(g: Game): Game { g.(questionIndex := g.questionIndex + 1) }
  function NextCategory(g: Game): Game { g.(categoryIndex := g.categoryIndex + 1, questionIndex := 0) }
  function AddPoint(p: Player): Player { p.(score := p.score + 1) }

  /**
   * The question the buzzer works on: the one at the game's question index among ALL
   * the game's questions in question order, whatever the current category.
   */
  function CurrentQuestion(t: Tables, g: Game): (r: Option<Question>)
    ensures r.Some? ==> r.value in t.questions && r.value.gameId == g.id
    ensures r.Some? <==> g.questionIndex < |GameQuestions(t.questions, g.id)|
  {
    Nth(GameQuestions(t.questions, g.id), g.questionIndex)
  }

  // ---------------------------------------------------------------- create-room

  /** A new game in the lobby under `code`; the socket becomes its host. */
  function CreateRoom(t: Tables, c: ConnState, hostName: string, code: string): (o: Outcome)
    ensures var g := Game(t.nextGameId, code, hostName, Lobby, 0, 0);
      && o.tables.games == t.games + [g]
      && o.tables.nextGameId == t.nextGameId + 1
      && o.tables.(games := t.games, nextGameId := t.nextGameId) == t
      && o.reply == RoomCreated(code, g.id) && o.events == []
      && o.conn == c.(gameId := Some(g.id), roomCode := Some(code), isHost := true)
      && (WellFormed(t) ==> GameById(o.tables.games, o.conn.gameId) == Some(g))
    ensures o.conn.Valid()
    ensures WellFormed(t) ==> WellFormed(o.tables)
  {
    var g := Game(t.nextGameId, code, hostName, Lobby, 0, 0);
    var games := t.games + [g];
    assert WellFormed(t) ==> Keyed(games, GameKey, t.nextGameId + 1) && First(games, GameIdIs(g.id)) == Some(g) by {
      if WellFormed(t) {
        KeyedAppend(t.games, GameKey, t.nextGameId, g);
        FirstConcat(t.games, [g], GameIdIs(g.id));
      }
    }
    Outcome(t.(games := games, nextGameId := t.nextGameId + 1),
            c.(gameId := Some(g.id), roomCode := Some(code), isHost := true),
            RoomCreated(code, g.id), [])
  }

  // ---------------------------------------------------------------- join-room

  /** The player row join-room inserts. */
  function NewPlayer(t: Tables, gameId: nat, name: string, socketId: string): Player {
    Player(t.nextPlayerId, gameId, name, 0, Some(socketId), None, None, None)
  }

  /**
   * Join the first game with this room code, if it is still in the lobby, as a new
   * player with score 0; the room gets the game's roster.
   */
  function JoinRoom(t: Tables, c: ConnState, code: string, name: string): (o: Outcome)
    ensures GameByCode(t.games, code).None? ==> o == Outcome(t, c, Fail(Rejected(RoomNotFound)), [])
    ensures GameByCode(t.games, code).Some? && GameByCode(t.games, code).value.status != Lobby ==>
      o == Outcome(t, c, Fail(Rejected(GameAlreadyRunning)), [])
    ensures GameByCode(t.games, code).Some? && GameByCode(t.games, code).value.status == Lobby ==>
      var g := GameByCode(t.games, code).value;
      var p := NewPlayer(t, g.id, name, c.socketId);
      && o.tables.players == t.players + [p]
      && o.tables.nextPlayerId == t.nextPlayerId + 1
      && o.tables.(players := t.players, nextPlayerId := t.nextPlayerId) == t
      && o.conn == c.(gameId := Some(g.id), playerId := Some(p.id), roomCode := Some(code))
      && o.reply == Joined(p.id, g.id)
      && o.events == [Event(code, PlayersUpdate(Roster(o.tables.players, g.id)))]
      && View(p) in Roster(o.tables.players, g.id)
      && (WellFormed(t) ==> PlayerById(o.tables.players, o.conn.playerId) == Some(p))
    ensures c.Valid() ==> o.conn.Valid()
    ensures WellFormed(t) ==> WellFormed(o.tables)
  {
    match GameByCode(t.games, code)
    case None => Outcome(t, c, Fail(Rejected(RoomNotFound)), [])
    case Some(g) =>
      if g.status != Lobby then Outcome(t, c, Fail(Rejected(GameAlreadyRunning)), [])
      else
        var p := NewPlayer(t, g.id, name, c.socketId);
        var players := t.players + [p];
        assert p in players;
        assert WellFormed(t) ==> Keyed(players, PlayerKey, t.nextPlayerId + 1) && First(players, PlayerIdIs(p.id)) == Some(p) by {
          if WellFormed(t) {
            KeyedAppend(t.players, PlayerKey, t.nextPlayerId, p);
            FirstConcat(t.players, [p], PlayerIdIs(p.id));
          }
        }
        Outcome(t.(players := players, nextPlayerId := t.nextPlayerId + 1),
                c.(gameId := Some(g.id), playerId := Some(p.id), roomCode := Some(code)),
                Joined(p.id, g.id),
                [Event(code, PlayersUpdate(Roster(players, g.id)))])
  }

  // ---------------------------------------------------------------- start-game

  /**
   * The host starts the game: its status becomes playing (before anything else is
   * checked), then the category first in play order is introduced.
   */
  function StartGame(t: Tables, c: ConnState): (o: Outcome)
    requires c.Valid()
    ensures !c.isHost ==> o == Outcome(t, c, Fail(Rejected(StartNotHost)), [])
    ensures c.isHost ==>
      var gid := c.gameId.value;
      var rows := BoundRows(t.gameCategories, t.categories, gid);
      && o.conn == c
      && o.tables.(games := t.games) == t
      && |o.tables.games| == |t.games|
      && (forall i :: 0 <= i < |t.games| ==>
            o.tables.games[i] == if t.games[i].id == gid then t.games[i].(status := Playing) else t.games[i])
      && (rows == [] ==> o.reply == Fail(Rejected(NoCategoriesSelected)) && o.events == [])
      && (rows != [] ==>
            && o.reply == Ok
            && o.events == [Event(c.roomCode.value, Intro(rows[0].category))]
            && forall row :: row in rows ==> rows[0].binding.playOrder <= row.binding.playOrder)
    ensures WellFormed(t) ==> WellFormed(o.tables)
  {
    if !c.isHost then Outcome(t, c, Fail(Rejected(StartNotHost)), [])
    else
      var gid := c.gameId.value;
      var t1 := t.(games := UpdateWhere(t.games, GameIdIs(gid), SetPlaying));
      KeyedUpdate(t.games, GameKey, t.nextGameId, GameIdIs(gid), SetPlaying);
      var rows := BoundRows(t1.gameCategories, t1.categories, gid);
      assert rows != [] ==> forall row :: row in rows ==> PlayOrder(rows[0], row) by {
        if rows != [] {
          OrderingsArePreorders();
          SortedHeadIsLeast(rows, PlayOrder);
        }
      }
      match Nth(BoundCategories(t1.gameCategories, t1.categories, gid), 0)
      case None => Outcome(t1, c, Fail(Rejected(NoCategoriesSelected)), [])
      case Some(first) => Outcome(t1, c, Ok, [Event(c.roomCode.value, Intro(first))])
  }

  // ---------------------------------------------------------------- start-category

  /**
   * The host confirms the category intro: the question at the game's question index
   * within the category at its category index is shown. Nothing is written.
   */
  function StartCategory(t: Tables, c: ConnState): (o: Outcome)
    requires c.Valid()
    ensures o.tables == t && o.conn == c
    ensures o.reply != Ok ==> o.events == []
    ensures !c.isHost ==> o.reply == Fail(Rejected(StartNotHost))
    ensures c.isHost && GameById(t.games, c.gameId).None? ==> o.reply == Fail(Exception)
    ensures c.isHost && GameById(t.games, c.gameId).Some? ==>
      var g := GameById(t.games, c.gameId).value;
      var bound := BoundCategories(t.gameCategories, t.categories, g.id);
      && (g.categoryIndex >= |bound| ==> o.reply == Fail(Rejected(CategoryNotFound)))
      && (g.categoryIndex < |bound| ==>
            var qs := CategoryQuestions(t.questions, g.id, bound[g.categoryIndex].id);
            && (g.questionIndex >= |qs| ==> o.reply == Fail(Rejected(NoQuestions)))
            && (g.questionIndex < |qs| ==>
                  && o.reply == Ok
                  && o.events == [Event(c.roomCode.value,
                                        CategoryStarted(QInfo(qs[g.questionIndex]), Info(bound[g.categoryIndex])))]
                  && qs[g.questionIndex].categoryId == bound[g.categoryIndex].id))
  {
    if !c.isHost then Outcome(t, c, Fail(Rejected(StartNotHost)), [])
    else
      match GameById(t.games, c.gameId)
      case None => Outcome(t, c, Fail(Exception), [])
      case Some(g) =>
        match Nth(BoundCategories(t.gameCategories, t.categories, c.gameId.value), g.categoryIndex)
        case None => Outcome(t, c, Fail(Rejected(CategoryNotFound)), [])
        case Some(cat) =>
          var qs := CategoryQuestions(t.questions, c.gameId.value, cat.id);
          assert g.questionIndex < |qs| ==> qs[g.questionIndex] in qs;
          match Nth(qs, g.questionIndex)
          case None => Outcome(t, c, Fail(Rejected(NoQuestions)), [])
          case Some(q) =>
            Outcome(t, c, Ok, [Event(c.roomCode.value, CategoryStarted(QInfo(q), Info(cat)))])
  }

  // ---------------------------------------------------------------- buzz

  /** Whether somebody has already buzzed on question `q` of game `g`. */
  predicate Buzzed(t: Tables, g: Game, q: Question) {
    BuzzesOn(t.buzzes, g.id, q.id) != []
  }

  /**
   * A buzz on the current question: refused while the game is not playing or once
   * somebody has buzzed on it; otherwise recorded, then announced with the buzzing
   * player's name and the time `now`.
   */
  function PressBuzzer(t: Tables, c: ConnState, now: string): (o: Outcome)
    requires c.Valid()
    ensures o.conn == c && o.tables.(buzzes := t.buzzes) == t
    ensures GameById(t.games, c.gameId).None? ==> o == Outcome(t, c, Fail(Exception), [])
    ensures GameById(t.games, c.gameId).Some? ==>
      var g := GameById(t.games, c.gameId).value;
      var cur := CurrentQuestion(t, g);
      && (g.status != Playing ==> o == Outcome(t, c, Fail(Rejected(GameNotRunning)), []))
      && (g.status == Playing && cur.None? ==> o == Outcome(t, c, Fail(Exception), []))
      && (g.status == Playing && cur.Some? && Buzzed(t, g, cur.value) ==>
            o == Outcome(t, c, Fail(Rejected(AlreadyBuzzed)), []))
      && (g.status == Playing && cur.Some? && !Buzzed(t, g, cur.value) ==>
            && o.tables.buzzes == t.buzzes + [Buzz(g.id, cur.value.id, c.playerId)]
            && |BuzzesOn(o.tables.buzzes, g.id, cur.value.id)| == 1
            && (PlayerById(t.players, c.playerId).None? ==> o.reply == Fail(Exception) && o.events == [])
            && (PlayerById(t.players, c.playerId).Some? ==>
                  var p := PlayerById(t.players, c.playerId).value;
                  o.reply == Ok && o.events == [Event(c.roomCode.value, PlayerBuzzed(p.id, p.name, now))]))
    ensures WellFormed(t) ==> WellFormed(o.tables)
  {
    match GameById(t.games, c.gameId)
    case None => Outcome(t, c, Fail(Exception), [])
    case Some(g) =>
      if g.status != Playing then Outcome(t, c, Fail(Rejected(GameNotRunning)), [])
      else
        match Nth(GameQuestions(t.questions, c.gameId.value), g.questionIndex)
        case None => Outcome(t, c, Fail(Exception), [])
        case Some(q) =>
          if |BuzzesOn(t.buzzes, c.gameId.value, q.id)| > 0 then
            Outcome(t, c, Fail(Rejected(AlreadyBuzzed)), [])
          else
            var b := Buzz(c.gameId.value, q.id, c.playerId);
            var buzzes := t.buzzes + [b];
            FilterConcat(t.buzzes, [b], BuzzOn(g.id, q.id));
            assert OneBuzzPerQuestion(t.buzzes) ==> OneBuzzPerQuestion(buzzes) by {
              if OneBuzzPerQuestion(t.buzzes) {
                forall i, j | 0 <= i < j < |buzzes|
                  ensures buzzes[i].gameId != buzzes[j].gameId || buzzes[i].questionId != buzzes[j].questionId
                {
                  if j == |t.buzzes| { assert buzzes[i] in t.buzzes; }
                }
              }
            }
            var t1 := t.(buzzes := buzzes);
            match PlayerById(t1.players, c.playerId)
            case None => Outcome(t1, c, Fail(Exception), [])
            case Some(p) => Outcome(t1, c, Ok, [Event(c.roomCode.value, PlayerBuzzed(p.id, p.name, now))])
  }

  // ---------------------------------------------------------------- judge-answer

  /**
   * The host judges the answer of player `playerId`: a correct answer adds one point
   * to that player (whatever game it belongs to); the room then gets the host's game
   * ranked by score and the verdict with the player's name.
   */
  function JudgeAnswer(t: Tables, c: ConnState, playerId: nat, correct: bool): (o: Outcome)
    requires c.Valid()
    ensures !c.isHost ==> o == Outcome(t, c, Fail(Rejected(JudgeNotHost)), [])
    ensures c.isHost ==>
      var room := c.roomCode.value;
      var scores := Event(room, ScoresUpdate(Ranking(o.tables.players, c.gameId.value)));
      var judged := PlayerById(t.players, Some(playerId));
      && o.conn == c
      && o.tables.(players := t.players) == t
      && |o.tables.players| == |t.players|
      && (forall i :: 0 <= i < |t.players| ==>
            o.tables.players[i] == if correct && t.players[i].id == playerId
                                   then t.players[i].(score := t.players[i].score + 1) else t.players[i])
      && (judged.None? ==> o.reply == Fail(Exception) && o.events == [scores])
      && (judged.Some? ==>
            && o.reply == Judged(correct)
            && o.events == [scores, Event(room, AnswerJudged(correct, playerId, judged.value.name,
                                                             if correct then 1 else 0))])
    ensures WellFormed(t) ==> WellFormed(o.tables)
  {
    if !c.isHost then Outcome(t, c, Fail(Rejected(JudgeNotHost)), [])
    else
      var points := if correct then 1 else 0;
      var player := PlayerById(t.players, Some(playerId));
      var t1 := if correct then t.(players := UpdateWhere(t.players, PlayerIdIs(playerId), AddPoint)) else t;
      KeyedUpdate(t.players, PlayerKey, t.nextPlayerId, PlayerIdIs(playerId), AddPoint);
      var scores := Event(c.roomCode.value, ScoresUpdate(Ranking(t1.players, c.gameId.value)));
      match player
      case None => Outcome(t1, c, Fail(Exception), [scores])
      case Some(p) =>
        Outcome(t1, c, Judged(correct),
                [scores, Event(c.roomCode.value, AnswerJudged(correct, playerId, p.name, points))])
  }

  // ---------------------------------------------------------------- unlock-buzzer

  /** The host frees the buzzer: every buzz on the current question is deleted. */
  function UnlockBuzzer(t: Tables, c: ConnState): (o: Outcome)
    requires c.Valid()
    ensures o.conn == c && o.tables.(buzzes := t.buzzes) == t
    ensures !c.isHost ==> o == Outcome(t, c, Fail(Rejected(UnlockNotHost)), [])
    ensures c.isHost && GameById(t.games, c.gameId).None? ==> o == Outcome(t, c, Fail(Exception), [])
    ensures c.isHost && GameById(t.games, c.gameId).Some? ==>
      var g := GameById(t.games, c.gameId).value;
      var cur := CurrentQuestion(t, g);
      && o.reply == Ok
      && o.events == [Event(c.roomCode.value, BuzzerUnlocked)]
      && (cur.None? ==> o.tables == t)
      && (cur.Some? ==>
            && !Buzzed(o.tables, g, cur.value)
            && forall b :: b in o.tables.buzzes <==>
                 b in t.buzzes && !(b.gameId == g.id && b.questionId == cur.value.id))
    ensures WellFormed(t) ==> WellFormed(o.tables)
  {
    if !c.isHost then Outcome(t, c, Fail(Rejected(UnlockNotHost)), [])
    else
      match GameById(t.games, c.gameId)
      case None => Outcome(t, c, Fail(Exception), [])
      case Some(g) =>
        var cur := CurrentQuestion(t, g);
        var t1 := if cur.Some? then t.(buzzes := Filter(t.buzzes, NotBuzzOn(g.id, cur.value.id))) else t;
        assert cur.Some? ==> !Buzzed(t1, g, cur.value) && (WellFormed(t) ==> OneBuzzPerQuestion(t1.buzzes)) by {
          if cur.Some? {
            FilterNone(t1.buzzes, BuzzOn(g.id, cur.value.id));
            if WellFormed(t) { OneBuzzPerQuestionFilter(t.buzzes, NotBuzzOn(g.id, cur.value.id)); }
          }
        }
        Outcome(t1, c, Ok, [Event(c.roomCode.value, BuzzerUnlocked)])
  }

  // ---------------------------------------------------------------- next-question

  /**
   * How next-question may change the games table: the same rows with the same ids,
   * rows of other games untouched, and the category index of game `gameId` moved on
   * by at most one.
   */
  predicate GamesStep(before: seq<Game>, after: seq<Game>, gameId: nat) {
    && |after| == |before|
    && forall i :: 0 <= i < |before| ==>
         && after[i].id == before[i].id
         && before[i].categoryIndex <= after[i].categoryIndex <= before[i].categoryIndex + 1
         && (before[i].id != gameId ==> after[i] == before[i])
  }

  /**
   * The host moves on. The question index is incremented first; if it has run past
   * the current category's questions, the category index moves on and the question
   * index restarts at 0, and when no category is left the game is finished.
   */
  function NextQuestion(t: Tables, c: ConnState): (o: Outcome)
    requires c.Valid()
    ensures !c.isHost ==> o == Outcome(t, c, Fail(Rejected(AdvanceNotHost)), [])
    ensures o.conn == c && o.tables.(games := t.games) == t
    ensures c.isHost ==> GamesStep(t.games, o.tables.games, c.gameId.value)
    ensures c.isHost && GameById(t.games, c.gameId).None? ==> o == Outcome(t, c, Fail(Exception), [])
    ensures WellFormed(t) ==> WellFormed(o.tables)
  {
    if !c.isHost then Outcome(t, c, Fail(Rejected(AdvanceNotHost)), [])
    else
      var gid := c.gameId.value;
      var t1 := t.(games := UpdateWhere(t.games, GameIdIs(gid), BumpQuestion));
      KeyedUpdate(t.games, GameKey, t.nextGameId, GameIdIs(gid), BumpQuestion);
      GameByIdUpdate(t.games, gid, BumpQuestion);
      assert forall i :: 0 <= i < |t.games| ==>
        t1.games[i].id == t.games[i].id && t1.games[i].categoryIndex == t.games[i].categoryIndex
        && (t.games[i].id != gid ==> t1.games[i] == t.games[i]);
      AdvanceFrom(t1, c)
  }

  /**
   * The tables next-question continues from after its increment: only the games table
   * differs, and the game row it reads back is the old row with its question index one
   * higher.
   */
  lemma NextQuestionStart(t: Tables, c: ConnState, g: Game) returns (t1: Tables)
    requires c.Valid() && c.isHost && GameById(t.games, c.gameId) == Some(g)
    ensures NextQuestion(t, c) == AdvanceFrom(t1, c)
    ensures t1.gameCategories == t.gameCategories && t1.categories == t.categories
    ensures t1.questions == t.questions && t1.players == t.players
    ensures GameById(t1.games, c.gameId) == Some(BumpQuestion(g))
  {
    GameByIdUpdate(t.games, c.gameId.value, BumpQuestion);
    t1 := t.(games := UpdateWhere(t.games, GameIdIs(c.gameId.value), BumpQuestion));
  }

  /**
   * next-question when the game's category index is past its categories: the
   * increment is kept and the handler throws.
   */
  lemma NextQuestionNoCategory(t: Tables, c: ConnState, g: Game)
    requires c.Valid() && c.isHost && GameById(t.games, c.gameId) == Some(g)
    requires g.categoryIndex >= |BoundCategories(t.gameCategories, t.categories, g.id)|
    ensures GameById(NextQuestion(t, c).tables.games, c.gameId) == Some(g.(questionIndex := g.questionIndex + 1))
    ensures NextQuestion(t, c).reply == Fail(Exception)
    ensures NextQuestion(t, c).events == []
  {
    var t1 := NextQuestionStart(t, c, g);
    AdvanceNoCategory(t1, c, g);
  }

  /** next-question inside a category: the next question in question order is shown. */
  lemma NextQuestionSameCategory(t: Tables, c: ConnState, g: Game)
    requires c.Valid() && c.isHost && GameById(t.games, c.gameId) == Some(g)
    requires var bound := BoundCategories(t.gameCategories, t.categories, g.id);
      g.categoryIndex < |bound| && g.questionIndex + 1 < CountQuestions(t.questions, g.id, bound[g.categoryIndex].id)
    ensures GameById(NextQuestion(t, c).tables.games, c.gameId) == Some(g.(questionIndex := g.questionIndex + 1))
    ensures NextQuestion(t, c).reply == SameCategory
    ensures var bound := BoundCategories(t.gameCategories, t.categories, g.id);
      var qs := CategoryQuestions(t.questions, g.id, bound[g.categoryIndex].id);
      NextQuestion(t, c).events ==
        [Event(c.roomCode.value, ShowNextQuestion(QInfo(qs[g.questionIndex + 1]), Info(bound[g.categoryIndex])))]
  {
    var t1 := NextQuestionStart(t, c, g);
    AdvanceSameCategory(t1, c, g);
  }

  /**
   * next-question past the last question of a category that is not the last one:
   * the next category in play order is introduced and its questions start at 0.
   */
  lemma NextQuestionCategoryChange(t: Tables, c: ConnState, g: Game)
    requires c.Valid() && c.isHost && GameById(t.games, c.gameId) == Some(g)
    requires var bound := BoundCategories(t.gameCategories, t.categories, g.id);
      g.categoryIndex + 1 < |bound| && g.questionIndex + 1 >= CountQuestions(t.questions, g.id, bound[g.categoryIndex].id)
    ensures GameById(NextQuestion(t, c).tables.games, c.gameId) ==
      Some(g.(categoryIndex := g.categoryIndex + 1, questionIndex := 0))
    ensures NextQuestion(t, c).reply == CategoryChange
    ensures NextQuestion(t, c).events ==
      [Event(c.roomCode.value, Intro(BoundCategories(t.gameCategories, t.categories, g.id)[g.categoryIndex + 1]))]
  {
    var t1 := NextQuestionStart(t, c, g);
    AdvanceCloses(t1, c, g);
    CloseMovesOn(t1, c, g);
  }

  /**
   * next-question past the last question of the last category: the game is finished
   * and the room gets the final ranking.
   */
  lemma NextQuestionFinishes(t: Tables, c: ConnState, g: Game)
    requires c.Valid() && c.isHost && GameById(t.games, c.gameId) == Some(g)
    requires var bound := BoundCategories(t.gameCategories, t.categories, g.id);
      g.categoryIndex + 1 == |bound| && g.questionIndex + 1 >= CountQuestions(t.questions, g.id, bound[g.categoryIndex].id)
    ensures GameById(NextQuestion(t, c).tables.games, c.gameId) ==
      Some(g.(categoryIndex := g.categoryIndex + 1, questionIndex := 0, status := Finished))
    ensures NextQuestion(t, c).reply == GameOver
    ensures NextQuestion(t, c).events == [Event(c.roomCode.value, GameFinished(Ranking(t.players, g.id)))]
  {
    var t1 := NextQuestionStart(t, c, g);
    AdvanceCloses(t1, c, g);
    CloseFinishes(t1, c, g);
  }

  /** After the increment of row `g`, a category index past the categories throws. */
  lemma AdvanceNoCategory(t1: Tables, c: ConnState, g: Game)
    requires c.Valid() && c.isHost && GameById(t1.games, c.gameId) == Some(BumpQuestion(g))
    requires g.categoryIndex >= |BoundCategories(t1.gameCategories, t1.categories, g.id)|
    ensures GameById(AdvanceFrom(t1, c).tables.games, c.gameId) == Some(g.(questionIndex := g.questionIndex + 1))
    ensures AdvanceFrom(t1, c).reply == Fail(Exception)
    ensures AdvanceFrom(t1, c).events == []
  {
  }

  /** After the increment of row `g`, a question left in the category is shown. */
  lemma AdvanceSameCategory(t1: Tables, c: ConnState, g: Game)
    requires c.Valid() && c.isHost && GameById(t1.games, c.gameId) == Some(BumpQuestion(g))
    requires var bound := BoundCategories(t1.gameCategories, t1.categories, g.id);
      g.categoryIndex < |bound| && g.questionIndex + 1 < CountQuestions(t1.questions, g.id, bound[g.categoryIndex].id)
    ensures GameById(AdvanceFrom(t1, c).tables.games, c.gameId) == Some(g.(questionIndex := g.questionIndex + 1))
    ensures AdvanceFrom(t1, c).reply == SameCategory
    ensures var bound := BoundCategories(t1.gameCategories, t1.categories, g.id);
      var qs := CategoryQuestions(t1.questions, g.id, bound[g.categoryIndex].id);
      AdvanceFrom(t1, c).events ==
        [Event(c.roomCode.value, ShowNextQuestion(QInfo(qs[g.questionIndex + 1]), Info(bound[g.categoryIndex])))]
  {
    var o := AdvanceFrom(t1, c);
    var g1 := GameById(t1.games, c.gameId).value;
    assert g1 == BumpQuestion(g);
    var bound := BoundCategories(t1.gameCategories, t1.categories, g1.id);
    var qs := CategoryQuestions(t1.questions, g1.id, bound[g1.categoryIndex].id);
    assert o == Outcome(t1, c, SameCategory,
                        [Event(c.roomCode.value, ShowNextQuestion(QInfo(qs[g1.questionIndex]), Info(bound[g1.categoryIndex])))]);
  }

  /**
   * After the increment of row `g`, a question index past the category's questions
   * closes the category.
   */
  lemma AdvanceCloses(t1: Tables, c: ConnState, g: Game)
    requires c.Valid() && c.isHost && GameById(t1.games, c.gameId) == Some(BumpQuestion(g))
    requires var bound := BoundCategories(t1.gameCategories, t1.categories, g.id);
      g.categoryIndex < |bound| && g.questionIndex + 1 >= CountQuestions(t1.questions, g.id, bound[g.categoryIndex].id)
    ensures AdvanceFrom(t1, c) == CloseCategory(t1, c)
  {
  }

  /** Closing a category of the incremented row `g` when another category follows. */
  lemma CloseMovesOn(t1: Tables, c: ConnState, g: Game)
    requires c.Valid() && c.isHost && GameById(t1.games, c.gameId) == Some(BumpQuestion(g))
    requires g.categoryIndex + 1 < |BoundCategories(t1.gameCategories, t1.categories, g.id)|
    ensures GameById(CloseCategory(t1, c).tables.games, c.gameId) ==
      Some(g.(categoryIndex := g.categoryIndex + 1, questionIndex := 0))
    ensures CloseCategory(t1, c).reply == CategoryChange
    ensures CloseCategory(t1, c).events ==
      [Event(c.roomCode.value, Intro(BoundCategories(t1.gameCategories, t1.categories, g.id)[g.categoryIndex + 1]))]
  {
    var g1 := GameById(t1.games, c.gameId).value;
    assert g1.id == g.id && g1.categoryIndex == g.categoryIndex;
    assert NextCategory(g1) == g.(categoryIndex := g.categoryIndex + 1, questionIndex := 0);
  }

  /** Closing the last category of the incremented row `g`. */
  lemma CloseFinishes(t1: Tables, c: ConnState, g: Game)
    requires c.Valid() && c.isHost && GameById(t1.games, c.gameId) == Some(BumpQuestion(g))
    requires g.categoryIndex + 1 >= |BoundCategories(t1.gameCategories, t1.categories, g.id)|
    ensures GameById(CloseCategory(t1, c).tables.games, c.gameId) ==
      Some(g.(categoryIndex := g.categoryIndex + 1, questionIndex := 0, status := Finished))
    ensures CloseCategory(t1, c).reply == GameOver
    ensures CloseCategory(t1, c).events == [Event(c.roomCode.value, GameFinished(Ranking(t1.players, g.id)))]
  {
    assert SetFinished(NextCategory(BumpQuestion(g))) ==
      g.(categoryIndex := g.categoryIndex + 1, questionIndex := 0, status := Finished);
  }

  /** next-question once the question index has been incremented. */
  function AdvanceFrom(t1: Tables, c: ConnState): (o: Outcome)
    requires c.Valid() && c.isHost
    ensures o.conn == c && o.tables.(games := t1.games) == t1
    ensures GamesStep(t1.games, o.tables.games, c.gameId.value)
    ensures GameById(t1.games, c.gameId).None? ==> o == Outcome(t1, c, Fail(Exception), [])
    ensures GameById(t1.games, c.gameId).Some? ==>
      var g := GameById(t1.games, c.gameId).value;
      var bound := BoundCategories(t1.gameCategories, t1.categories, g.id);
      && (g.categoryIndex >= |bound| ==> o == Outcome(t1, c, Fail(Exception), []))
      && (g.categoryIndex < |bound| && g.questionIndex < CountQuestions(t1.questions, g.id, bound[g.categoryIndex].id) ==>
            o == Outcome(t1, c, SameCategory,
                         [Event(c.roomCode.value,
                                ShowNextQuestion(QInfo(CategoryQuestions(t1.questions, g.id, bound[g.categoryIndex].id)[g.questionIndex]),
                                                 Info(bound[g.categoryIndex])))]))
      && (g.categoryIndex < |bound| && g.questionIndex >= CountQuestions(t1.questions, g.id, bound[g.categoryIndex].id) ==>
            o == CloseCategory(t1, c))
    ensures WellFormed(t1) ==> WellFormed(o.tables)
  {
    var gid := c.gameId.value;
    match GameById(t1.games, c.gameId)
    case None => Outcome(t1, c, Fail(Exception), [])
    case Some(g) =>
      match Nth(BoundCategories(t1.gameCategories, t1.categories, gid), g.categoryIndex)
      case None => Outcome(t1, c, Fail(Exception), [])
      case Some(cur) =>
        if g.questionIndex >= CountQuestions(t1.questions, gid, cur.id) then CloseCategory(t1, c)
        else
          match Nth(CategoryQuestions(t1.questions, gid, cur.id), g.questionIndex)
          case None => Outcome(t1, c, Fail(Exception), [])
          case Some(q) =>
            Outcome(t1, c, SameCategory, [Event(c.roomCode.value, ShowNextQuestion(QInfo(q), Info(cur)))])
  }

  /**
   * next-question past the last question of a category: the category index moves on
   * and the question index restarts at 0; with no category left the game is finished
   * and the room gets the final ranking.
   */
  function CloseCategory(t1: Tables, c: ConnState): (o: Outcome)
    requires c.Valid() && c.isHost
    ensures o.conn == c && o.tables.(games := t1.games) == t1
    ensures GamesStep(t1.games, o.tables.games, c.gameId.value)
    ensures GameById(t1.games, c.gameId).Some? ==>
      var g := GameById(t1.games, c.gameId).value;
      var bound := BoundCategories(t1.gameCategories, t1.categories, g.id);
      var now := GameById(o.tables.games, c.gameId);
      if g.categoryIndex + 1 < |bound| then
        && now == Some(NextCategory(g))
        && o.reply == CategoryChange
        && o.events == [Event(c.roomCode.value, Intro(bound[g.categoryIndex + 1]))]
      else
        && now == Some(SetFinished(NextCategory(g)))
        && o.reply == GameOver
        && o.events == [Event(c.roomCode.value, GameFinished(Ranking(t1.players, g.id)))]
    ensures WellFormed(t1) ==> WellFormed(o.tables)
  {
    var gid := c.gameId.value;
    var room := c.roomCode.value;
    var t2 := t1.(games := UpdateWhere(t1.games, GameIdIs(gid), NextCategory));
    KeyedUpdate(t1.games, GameKey, t1.nextGameId, GameIdIs(gid), NextCategory);
    GameByIdUpdate(t1.games, gid, NextCategory);
    match GameById(t2.games, c.gameId)
    case None => Outcome(t2, c, Fail(Exception), [])
    case Some(g2) =>
      match Nth(BoundCategories(t1.gameCategories, t1.categories, gid), g2.categoryIndex)
      case None =>
        var t3 := t2.(games := UpdateWhere(t2.games, GameIdIs(gid), SetFinished));
        KeyedUpdate(t2.games, GameKey, t2.nextGameId, GameIdIs(gid), SetFinished);
        GameByIdUpdate(t2.games, gid, SetFinished);
        Outcome(t3, c, GameOver, [Event(room, GameFinished(Ranking(t1.players, gid)))])
      case Some(next) => Outcome(t2, c, CategoryChange, [Event(room, Intro(next))])
  }

  // ---------------------------------------------------------------- disconnect

  /**
   * A socket goes away. If it had bound a (non-zero) player id, every player row on
   * this socket is deleted, and if it had bound a room, the room gets the game's
   * remaining roster. The room test is a truthiness test on the code; the model tests
   * that a code is bound, which differs only for an empty code, and no handler binds
   * one: create-room binds a six-character generated code and join-room the code of
   * a game it found.
   */
  function Disconnect(t: Tables, c: ConnState): (o: Outcome)
    requires c.Valid()
    ensures o.conn == c && o.reply == NoAck && o.tables.(players := t.players) == t
    ensures !(c.playerId.Some? && c.playerId.value != 0) ==> o.tables == t && o.events == []
    ensures c.playerId.Some? && c.playerId.value != 0 ==>
      && (forall p :: p in o.tables.players <==> p in t.players && p.socketId != Some(c.socketId))
      && (c.roomCode.None? ==> o.events == [])
      && (c.roomCode.Some? ==>
            o.events == [Event(c.roomCode.value, PlayersUpdate(Roster(o.tables.players, c.gameId.value)))])
    ensures WellFormed(t) ==> WellFormed(o.tables)
  {
    if c.playerId.Some? && c.playerId.value != 0 then
      var players := Filter(t.players, NotOnSocket(c.socketId));
      assert WellFormed(t) ==> Keyed(players, PlayerKey, t.nextPlayerId) by {
        if WellFormed(t) { KeyedFilter(t.players, PlayerKey, t.nextPlayerId, NotOnSocket(c.socketId)); }
      }
      var events := if c.roomCode.Some? then [Event(c.roomCode.value, PlayersUpdate(Roster(players, c.gameId.value)))] else [];
      Outcome(t.(players := players), c, NoAck, events)
    else
      Outcome(t, c, NoAck, [])
  }
}
