/**
 * Properties of the quiz server that involve more than one handler, or a handler
 * together with the rejoin queries or the category route: two buzzes in a row, an
 * unlock and a buzz, a start and a rejoin, a join and a session lookup.
 */
module GameProperties {
  import opened Wrappers
  import opened Seqs
  import opened Schema
  import opened GameRules
  import SessionUtils
  import CategoryRoutes

  /** In a table with a serial key, two rows with the same key are the same row. */
  lemma KeyedUnique<T>(s: seq<T>, key: T -> int, next: int, x: T, y: T)
    requires Keyed(s, key, next) && x in s && y in s && key(x) == key(y)
    ensures x == y
  {
    var i :| 0 <= i < |s| && s[i] == x;
    var j :| 0 <= j < |s| && s[j] == y;
    if i < j {
      assert key(s[i]) < key(s[j]);
    } else if j < i {
      assert key(s[j]) < key(s[i]);
    }
  }

  // ---------------------------------------------------------------- buzzer

  /** Freeing the buzzer twice leaves the database as freeing it once. */
  lemma {:induction false} UnlockIsIdempotent(t: Tables, c: ConnState)
    requires c.Valid()
    ensures var once := UnlockBuzzer(t, c).tables;
      UnlockBuzzer(once, c).tables == once
  {
    if c.isHost && GameById(t.games, c.gameId).Some? {
      var g := GameById(t.games, c.gameId).value;
      var cur := CurrentQuestion(t, g);
      if cur.Some? {
        FilterIdempotent(t.buzzes, NotBuzzOn(g.id, cur.value.id));
      }
    }
  }

  /**
   * Once a buzz is recorded, the next buzz in that game is refused, from whatever
   * socket, and changes nothing. (Each handler is taken to run to its end before the
   * next one starts.)
   */
  lemma {:induction false} SecondBuzzRejected(t: Tables, first: ConnState, second: ConnState, now1: string, now2: string)
    requires first.Valid() && second.Valid() && second.gameId == first.gameId
    requires PressBuzzer(t, first, now1).tables.buzzes != t.buzzes
    ensures var after := PressBuzzer(t, first, now1).tables;
      PressBuzzer(after, second, now2) == Outcome(after, second, Fail(Rejected(AlreadyBuzzed)), [])
  {
    var after := PressBuzzer(t, first, now1).tables;
    var g := GameById(t.games, first.gameId).value;
    var cur := CurrentQuestion(t, g);
    assert after.games == t.games && after.questions == t.questions;
    assert CurrentQuestion(after, g) == cur;
    assert |BuzzesOn(after.buzzes, g.id, cur.value.id)| == 1;
  }

  /** After the host frees the buzzer, the next buzz on the current question is recorded. */
  lemma {:induction false} UnlockThenBuzz(t: Tables, host: ConnState, player: ConnState, now: string, g: Game)
    requires host.Valid() && player.Valid() && host.isHost && player.gameId == host.gameId
    requires GameById(t.games, host.gameId) == Some(g) && g.status == Playing
    requires CurrentQuestion(t, g).Some?
    ensures var freed := UnlockBuzzer(t, host).tables;
      PressBuzzer(freed, player, now).tables.buzzes == freed.buzzes + [Buzz(g.id, CurrentQuestion(t, g).value.id, player.playerId)]
  {
    var freed := UnlockBuzzer(t, host).tables;
    assert freed.games == t.games && freed.questions == t.questions;
    assert CurrentQuestion(freed, g) == CurrentQuestion(t, g);
    assert !Buzzed(freed, g, CurrentQuestion(t, g).value);
  }

  /** next-question deletes no buzz: a buzz stays on its question for the rest of the game. */
  lemma {:induction false} NextQuestionKeepsBuzzes(t: Tables, c: ConnState)
    requires c.Valid()
    ensures NextQuestion(t, c).tables.buzzes == t.buzzes
  {
    assert NextQuestion(t, c).tables.(games := t.games) == t;
  }

  // ---------------------------------------------------------------- buzz target

  /** After the category route, the game's questions in question order are the generated ones, in order. */
  lemma {:induction false} AssignedGameQuestions(t: Tables, gameId: nat, categoryIds: seq<nat>)
    ensures GameQuestions(CategoryRoutes.Assigned(t, gameId, categoryIds).questions, gameId) ==
      CategoryRoutes.Generate(t.templates, gameId, categoryIds, t.nextQuestionId)
  {
    var gen := CategoryRoutes.Generate(t.templates, gameId, categoryIds, t.nextQuestionId);
    CategoryRoutes.AssignedQuestions(t, gameId, categoryIds);
    CategoryRoutes.GenerateNumbering(t.templates, gameId, categoryIds, t.nextQuestionId);
    assert Sorted(gen, QuestionOrder);
    SortBySortedIdentity(gen, QuestionOrder);
  }

  /**
   * The buzzer works on the question at the game's question index among ALL the
   * game's questions, while that index starts again at 0 in each category. So in
   * every category, as long as the first selected category has more questions than
   * the index, buzzes land on a question of the first category.
   */
  lemma {:induction false} BuzzTargetsFirstCategory(t: Tables, categoryIds: seq<nat>, g: Game)
    requires categoryIds != [] && g.questionIndex < |TemplatesOf(t.templates, categoryIds[0])|
    ensures var cur := CurrentQuestion(CategoryRoutes.Assigned(t, g.id, categoryIds), g);
      cur.Some? && cur.value.categoryId == categoryIds[0]
  {
    var gen := CategoryRoutes.Generate(t.templates, g.id, categoryIds, t.nextQuestionId);
    var tps := TemplatesOf(t.templates, categoryIds[0]);
    AssignedGameQuestions(t, g.id, categoryIds);
    CategoryRoutes.GenerateGrouped(t.templates, g.id, categoryIds, t.nextQuestionId, 0);
    assert categoryIds[..0] == [];
    assert categoryIds[..1][..0] == [];
    assert CategoryRoutes.TemplateCount(t.templates, categoryIds[..1]) == |tps|;
    var block := CategoryRoutes.Instantiate(tps, g.id, categoryIds[0], t.nextQuestionId, 0);
    assert gen[0..|tps|] == block;
    assert gen[g.questionIndex] == block[g.questionIndex];
  }

  /**
   * Hence, from the second category on, start-category shows the room one question
   * while buzzes are recorded against another, a question of the first category; the
   * rejoin snapshot shows the question that was started.
   */
  lemma {:induction false} BuzzTargetIsNotShownQuestion(t: Tables, categoryIds: seq<nat>, c: ConnState, g: Game)
    requires c.Valid() && c.isHost && GameById(t.games, c.gameId) == Some(g)
    requires categoryIds != [] && g.questionIndex < |TemplatesOf(t.templates, categoryIds[0])|
    requires var t1 := CategoryRoutes.Assigned(t, g.id, categoryIds);
      && StartCategory(t1, c).reply == Ok
      && BoundCategories(t1.gameCategories, t1.categories, g.id)[g.categoryIndex].id != categoryIds[0]
    ensures var t1 := CategoryRoutes.Assigned(t, g.id, categoryIds);
      var cat := BoundCategories(t1.gameCategories, t1.categories, g.id)[g.categoryIndex];
      var shown := CategoryQuestions(t1.questions, g.id, cat.id)[g.questionIndex];
      var cur := CurrentQuestion(t1, g);
      && StartCategory(t1, c).events == [Event(c.roomCode.value, CategoryStarted(QInfo(shown), Info(cat)))]
      && SessionUtils.GameStateForRejoin(t1, g.id).value.question == Some(shown)
      && cur.Some? && cur.value.categoryId == categoryIds[0] && cur.value != shown
  {
    var t1 := CategoryRoutes.Assigned(t, g.id, categoryIds);
    assert t1.games == t.games;
    BuzzTargetsFirstCategory(t, categoryIds, g);
  }

  // ---------------------------------------------------------------- rooms and judging

  /**
   * Room codes are not checked for collisions: a room created under a code already in
   * use is shadowed by the older game, so joining by that code never reaches it.
   */
  lemma {:induction false} RoomCodeCollision(t: Tables, c: ConnState, hostName: string, code: string,
                                             joiner: ConnState, name: string)
    requires WellFormed(t) && GameByCode(t.games, code).Some?
    ensures var o := CreateRoom(t, c, hostName, code);
      && GameByCode(o.tables.games, code) == GameByCode(t.games, code)
      && GameByCode(o.tables.games, code).value.id != o.reply.gameId
      && (JoinRoom(o.tables, joiner, code, name).reply.Joined? ==>
            JoinRoom(o.tables, joiner, code, name).reply.gameId != o.reply.gameId)
  {
    var g := Game(t.nextGameId, code, hostName, Lobby, 0, 0);
    FirstConcat(t.games, [g], RoomCodeIs(code));
    var older := GameByCode(t.games, code).value;
    var k :| 0 <= k < |t.games| && t.games[k] == older;
    assert older.id < t.nextGameId;
  }

  /** A game's ranking lists only ids of rows of that game. */
  lemma {:induction false} RankedIdsBelongToGame(players: seq<Player>, gameId: nat, id: nat)
    requires forall q :: q in players && q.gameId == gameId ==> q.id != id
    ensures forall v :: v in Ranking(players, gameId) ==> v.id != id
  {
    forall v | v in Ranking(players, gameId) ensures v.id != id {
      assert v in multiset(Roster(players, gameId));
      assert v in Roster(players, gameId);
      var q :| q in players && q.gameId == gameId && View(q) == v;
    }
  }

  /**
   * Adding a point to the player `p` keeps it in its own game, and in a keyed table
   * no other row has its id.
   */
  lemma {:induction false} PointStaysWithPlayer(players: seq<Player>, next: int, p: Player)
    requires Keyed(players, PlayerKey, next) && p in players
    ensures forall q :: q in UpdateWhere(players, PlayerIdIs(p.id), AddPoint) && q.id == p.id ==> q.gameId == p.gameId
  {
    var after := UpdateWhere(players, PlayerIdIs(p.id), AddPoint);
    forall q | q in after && q.id == p.id ensures q.gameId == p.gameId {
      var i :| 0 <= i < |after| && after[i] == q;
      assert after[i].id == players[i].id && after[i].gameId == players[i].gameId;
      KeyedUnique(players, PlayerKey, next, players[i], p);
    }
  }

  /** Adding a point to player `p` raises that row only, and it stays out of other games' rankings. */
  lemma {:induction false} PointForPlayer(players: seq<Player>, next: int, p: Player, gameId: nat)
    requires Keyed(players, PlayerKey, next) && p in players && p.gameId != gameId
    ensures var after := UpdateWhere(players, PlayerIdIs(p.id), AddPoint);
      && PlayerById(after, Some(p.id)) == Some(AddPoint(p))
      && forall v :: v in Ranking(after, gameId) ==> v.id != p.id
  {
    var after := UpdateWhere(players, PlayerIdIs(p.id), AddPoint);
    var found := PlayerById(players, Some(p.id)).value;
    KeyedUnique(players, PlayerKey, next, found, p);
    FirstUpdateWhere(players, PlayerIdIs(p.id), AddPoint);
    PointStaysWithPlayer(players, next, p);
    RankedIdsBelongToGame(after, gameId, p.id);
  }

  /** A correct answer writes the `UPDATE ... WHERE id = $2` that adds the point, and no other row change. */
  lemma {:induction false} CorrectAnswerPlayers(t: Tables, c: ConnState, playerId: nat)
    requires c.Valid() && c.isHost
    ensures JudgeAnswer(t, c, playerId, true).tables.players == UpdateWhere(t.players, PlayerIdIs(playerId), AddPoint)
  {
    var o := JudgeAnswer(t, c, playerId, true);
    var after := UpdateWhere(t.players, PlayerIdIs(playerId), AddPoint);
    assert |o.tables.players| == |after|;
    assert forall i :: 0 <= i < |after| ==> o.tables.players[i] == after[i];
  }

  /**
   * Judging does not check the player's game: the host of one game can award a point
   * to a player of another game, and the ranking sent to the host's room does not
   * show that player.
   */
  lemma {:induction false} JudgeOtherGame(t: Tables, c: ConnState, p: Player)
    requires WellFormed(t) && c.Valid() && c.isHost
    requires p in t.players && p.gameId != c.gameId.value
    ensures var o := JudgeAnswer(t, c, p.id, true);
      && o.reply == Judged(true)
      && PlayerById(o.tables.players, Some(p.id)) == Some(p.(score := p.score + 1))
      && forall v :: v in Ranking(o.tables.players, c.gameId.value) ==> v.id != p.id
  {
    PointForPlayer(t.players, t.nextPlayerId, p, c.gameId.value);
    CorrectAnswerPlayers(t, c, p.id);
  }

  /** A socket that is not the host changes no table, whichever host-only handler it calls. */
  lemma NonHostChangesNothing(t: Tables, c: ConnState, playerId: nat, correct: bool)
    requires c.Valid() && !c.isHost
    ensures StartGame(t, c).tables == t && StartCategory(t, c).tables == t
    ensures JudgeAnswer(t, c, playerId, correct).tables == t && UnlockBuzzer(t, c).tables == t
    ensures NextQuestion(t, c).tables == t
  {
  }

  // ---------------------------------------------------------------- rejoining

  /**
   * A socket rejoining after start-category sees the category and the question that
   * the room was shown.
   */
  lemma {:induction false} RejoinShowsStartedQuestion(t: Tables, c: ConnState)
    requires c.Valid() && c.isHost && StartCategory(t, c).reply == Ok
    ensures var r := SessionUtils.GameStateForRejoin(t, c.gameId.value);
      && r.Some? && r.value.category.Some? && r.value.question.Some?
      && StartCategory(t, c).events ==
           [Event(c.roomCode.value, CategoryStarted(QInfo(r.value.question.value), Info(r.value.category.value)))]
  {
    assert GameById(t.games, c.gameId).Some?;
  }

  /** A player who has joined a game is listed in the game's rejoin snapshot. */
  lemma {:induction false} JoinThenRejoin(t: Tables, c: ConnState, code: string, name: string)
    requires GameByCode(t.games, code).Some? && GameByCode(t.games, code).value.status == Lobby
    ensures var g := GameByCode(t.games, code).value;
      var r := SessionUtils.GameStateForRejoin(JoinRoom(t, c, code, name).tables, g.id);
      r.Some? && View(NewPlayer(t, g.id, name, c.socketId)) in r.value.players
  {
    var g := GameByCode(t.games, code).value;
    var after := JoinRoom(t, c, code, name).tables;
    assert after.games == t.games;
    assert GameById(after.games, Some(g.id)).Some?;
    assert View(NewPlayer(t, g.id, name, c.socketId)) in multiset(Roster(after.players, g.id));
  }

  /**
   * join-room stores no session token, so after a join the session lookup of the
   * rejoin path finds exactly what it found before.
   */
  lemma {:induction false} JoinLeavesSessionsAlone(t: Tables, c: ConnState, code: string, name: string, token: string)
    ensures SessionUtils.PlayerBySession(JoinRoom(t, c, code, name).tables.players, token) ==
      SessionUtils.PlayerBySession(t.players, token)
  {
    var found := GameByCode(t.games, code);
    if found.Some? && found.value.status == Lobby {
      FirstConcat(t.players, [NewPlayer(t, found.value.id, name, c.socketId)], SessionIs(token));
    }
  }

  /**
   * disconnect deletes the rows of the players on the socket, so rejoining by session
   * token cannot find such a player again, and the rejoin snapshot no longer lists it.
   */
  lemma {:induction false} DisconnectForgetsPlayer(t: Tables, c: ConnState, p: Player, token: string)
    requires WellFormed(t) && c.Valid() && c.playerId.Some? && c.playerId.value != 0
    requires p in t.players && p.socketId == Some(c.socketId)
    ensures var after := Disconnect(t, c).tables;
      && SessionUtils.PlayerBySession(after.players, token) != Some(p)
      && var r := SessionUtils.GameStateForRejoin(after, p.gameId);
         r.Some? ==> forall v :: v in r.value.players ==> v.id != p.id
  {
    var after := Disconnect(t, c).tables;
    var r := SessionUtils.GameStateForRejoin(after, p.gameId);
    if r.Some? {
      forall v | v in r.value.players ensures v.id != p.id {
        assert v in multiset(Roster(after.players, p.gameId));
        var q :| q in after.players && q.gameId == p.gameId && View(q) == v;
        if q.id == p.id {
          KeyedUnique(t.players, PlayerKey, t.nextPlayerId, q, p);
        }
      }
    }
  }
}
