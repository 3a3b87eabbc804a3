/**
 * The session helpers of the server: a player looked up by session token, the
 * read-only snapshot a rejoining client gets, and the update that rebinds a player
 * row to a new socket.
 */
module SessionUtils {
  import opened Wrappers
  import opened Seqs
  import opened Schema
  import opened Store

  // ---------------------------------------------------------------- getPlayerBySession

  /** `SELECT * FROM players WHERE session_id = $1`, first row, or nothing. */
  function PlayerBySession(players: seq<Player>, token: string): (r: Option<Player>)
    ensures r.Some? ==> r.value in players && r.value.sessionId == Some(token)
    ensures r.None? <==> forall p :: p in players ==> p.sessionId != Some(token)
  {
    First(players, SessionIs(token))
  }

  /** The player found is the earliest in table order with that token. */
  lemma PlayerBySessionIsEarliest(players: seq<Player>, token: string)
    requires PlayerBySession(players, token).Some?
    ensures exists i :: 0 <= i < |players| && players[i] == PlayerBySession(players, token).value &&
                        forall j :: 0 <= j < i ==> players[j].sessionId != Some(token)
  {
    FirstIsEarliest(players, SessionIs(token));
  }

  // ---------------------------------------------------------------- getGameStateForRejoin

  /** A row of `SELECT p.id, p.name FROM buzzes b JOIN players p ON b.player_id = p.id`. */
  datatype BuzzerPlayer = BuzzerPlayer(id: nat, name: string)

  /** What a rejoining client is sent. */
  datatype RejoinState = RejoinState(
    game: Game,
    category: Option<Category>,
    question: Option<Question>,
    players: seq<PlayerView>,
    buzzerLocked: bool,
    buzzerPlayer: Option<BuzzerPlayer>)

  /** The players who made the buzzes `bs`, buzz by buzz; a buzz without a (still existing) player joins nothing. */
  function BuzzingPlayers(bs: seq<Buzz>, players: seq<Player>): (r: seq<BuzzerPlayer>)
    ensures forall x :: x in r <==> exists b, p :: b in bs && p in players && b.playerId == Some(p.id) && x == BuzzerPlayer(p.id, p.name)
  {
    if bs == [] then []
    else
      var here := Filter(players, (p: Player) => bs[0].playerId == Some(p.id));
      var mine := seq(|here|, i requires 0 <= i < |here| => BuzzerPlayer(here[i].id, here[i].name));
      assert forall x :: x in mine <==> exists p :: p in players && bs[0].playerId == Some(p.id) && x == BuzzerPlayer(p.id, p.name) by {
        forall x | x in mine ensures exists p :: p in players && bs[0].playerId == Some(p.id) && x == BuzzerPlayer(p.id, p.name) {
          var i :| 0 <= i < |mine| && mine[i] == x;
          assert here[i] in here;
        }
        forall p | p in players && bs[0].playerId == Some(p.id) ensures BuzzerPlayer(p.id, p.name) in mine {
          var i :| 0 <= i < |here| && here[i] == p;
          assert mine[i] == BuzzerPlayer(p.id, p.name);
        }
      }
      var rest := BuzzingPlayers(bs[1..], players);
      assert forall b :: b in bs <==> b == bs[0] || b in bs[1..];
      mine + rest
  }

  /**
   * The first row of the buzzer query on question `q`: a player who buzzed on it and
   * still has a row, or nothing when no such buzz exists.
   */
  function BuzzerOn(t: Tables, gameId: nat, q: Question): (r: Option<BuzzerPlayer>)
    ensures r.None? <==> forall b, p :: (b in t.buzzes && b.gameId == gameId && b.questionId == q.id && p in t.players) ==>
                                        b.playerId != Some(p.id)
    ensures r.Some? ==> exists b, p :: b in t.buzzes && b.gameId == gameId && b.questionId == q.id &&
                                       p in t.players && b.playerId == Some(p.id) && r.value == BuzzerPlayer(p.id, p.name)
  {
    var buzzing := BuzzingPlayers(BuzzesOn(t.buzzes, gameId, q.id), t.players);
    assert forall b, p :: (b in t.buzzes && b.gameId == gameId && b.questionId == q.id && p in t.players &&
                            b.playerId == Some(p.id)) ==> BuzzerPlayer(p.id, p.name) in buzzing by {
      forall b, p | b in t.buzzes && b.gameId == gameId && b.questionId == q.id && p in t.players && b.playerId == Some(p.id)
        ensures BuzzerPlayer(p.id, p.name) in buzzing
      {
        assert b in BuzzesOn(t.buzzes, gameId, q.id);
      }
    }
    if buzzing == [] then
      None
    else
      assert buzzing[0] in buzzing;
      Some(buzzing[0])
  }

  /**
   * `getGameStateForRejoin`: nothing for an unknown game; otherwise the game row, the
   * category at its category index in play order, the question at its question index
   * within that category, the players by score, and whether (and by whom) the buzzer
   * is taken on that question. Reads only.
   */
  function GameStateForRejoin(t: Tables, gameId: nat): (r: Option<RejoinState>)
    ensures r.None? <==> GameById(t.games, Some(gameId)).None?
    ensures r.Some? ==>
      var g := GameById(t.games, Some(gameId)).value;
      var bound := BoundCategories(t.gameCategories, t.categories, gameId);
      && r.value.game == g
      && r.value.category == (if g.categoryIndex < |bound| then Some(bound[g.categoryIndex]) else None)
      && (r.value.category.None? ==> r.value.question.None?)
      && (r.value.category.Some? ==>
            var qs := CategoryQuestions(t.questions, gameId, r.value.category.value.id);
            r.value.question == if g.questionIndex < |qs| then Some(qs[g.questionIndex]) else None)
    ensures r.Some? ==>
      && Sorted(r.value.players, ScoreDesc)
      && multiset(r.value.players) == multiset(Roster(t.players, gameId))
    ensures r.Some? ==>
      && (r.value.buzzerLocked <==> r.value.buzzerPlayer.Some?)
      && (r.value.question.None? ==> r.value.buzzerPlayer.None?)
      && (r.value.question.Some? ==> r.value.buzzerPlayer == BuzzerOn(t, gameId, r.value.question.value))
  {
    match GameById(t.games, Some(gameId))
    case None => None
    case Some(g) =>
      var category := Nth(BoundCategories(t.gameCategories, t.categories, gameId), g.categoryIndex);
      var question := if category.Some? then Nth(CategoryQuestions(t.questions, gameId, category.value.id), g.questionIndex) else None;
      var buzzer := if question.Some? then BuzzerOn(t, gameId, question.value) else None;
      Some(RejoinState(g, category, question, Ranking(t.players, gameId), buzzer.Some?, buzzer))
  }

  /**
   * The snapshot can show a free buzzer while a buzz on its question is recorded: the
   * buzz of a player whose row has since been deleted (as disconnect does) joins no
   * player, although the buzz handler goes on refusing new buzzes on that question.
   */
  lemma RejoinHidesBuzzOfDepartedPlayer(t: Tables, gameId: nat)
    requires GameStateForRejoin(t, gameId).Some? && GameStateForRejoin(t, gameId).value.question.Some?
    requires var q := GameStateForRejoin(t, gameId).value.question.value;
      forall b :: b in t.buzzes && b.gameId == gameId && b.questionId == q.id ==>
        b.playerId.None? || forall p :: p in t.players ==> p.id != b.playerId.value
    ensures !GameStateForRejoin(t, gameId).value.buzzerLocked
  {
  }

  // ---------------------------------------------------------------- updatePlayerConnection

  /** The columns `updatePlayerConnection` may assign. */
  datatype Column = SocketIdColumn | DisconnectAtColumn | LastSeenQuestionColumn

  /** One `column = ...` item of the `SET` list: a numbered placeholder, or `NULL`. */
  datatype Assignment = SetParam(column: Column, placeholder: nat) | SetNull(column: Column)

  /** A query parameter. */
  datatype Param = Text(text: string) | Number(number: nat)

  /** The optional question id counts only when JavaScript finds it truthy (present and not 0). */
  predicate Truthy(questionId: Option<nat>) { questionId.Some? && questionId.value != 0 }

  /** What the update does to the row of the player: socket set, disconnect cleared, last-seen question if given. */
  function Reconnect(socketId: string, questionId: Option<nat>): Player -> Player {
    (p: Player) =>
      p.(socketId := Some(socketId), disconnectAt := None,
         lastSeenQuestionId := if Truthy(questionId) then Some(questionId.value) else p.lastSeenQuestionId)
  }

  /** The effect of a `SET` list on one row, placeholders `$k` standing for `params[k - 1]`. */
  function Assign(updates: seq<Assignment>, params: seq<Param>, p: Player): Player
    decreases |updates|
  {
    if updates == [] then p
    else
      var u := updates[0];
      var p' := match u
        case SetNull(SocketIdColumn) => p.(socketId := None)
        case SetNull(DisconnectAtColumn) => p.(disconnectAt := None)
        case SetNull(LastSeenQuestionColumn) => p.(lastSeenQuestionId := None)
        case SetParam(col, k) =>
          if 1 <= k <= |params| then
            match (col, params[k - 1])
            case (SocketIdColumn, Text(s)) => p.(socketId := Some(s))
            case (LastSeenQuestionColumn, Number(n)) => p.(lastSeenQuestionId := Some(n))
            case _ => p
          else p;
      Assign(updates[1..], params, p')
  }

  /**
   * `updatePlayerConnection`: build the `SET` list and the parameter list (socket id
   * as `$1`, player id as `$2`, the question id, if truthy, pushed as the next
   * parameter and assigned through its placeholder), then update the player's row.
   * Always answers true: a failing query is not modelled.
   */
  method UpdatePlayerConnection(db: Database, playerId: nat, socketId: string, questionId: Option<nat>)
    returns (ok: bool)
    modifies db
    ensures ok
    ensures db.View() == old(db.View()).(players := UpdateWhere(old(db.players), PlayerIdIs(playerId), Reconnect(socketId, questionId)))
    ensures old(db.Valid()) ==> db.Valid()
  {
    var updates := [SetParam(SocketIdColumn, 1), SetNull(DisconnectAtColumn)];
    var params := [Text(socketId), Number(playerId)];
    if Truthy(questionId) {
      updates := updates + [SetParam(LastSeenQuestionColumn, |params| + 1)];
      params := params + [Number(questionId.value)];
    }
    var reconnect := (p: Player) => Assign(updates, params, p);
    forall p: Player ensures reconnect(p) == Reconnect(socketId, questionId)(p) {
      var p1 := p.(socketId := Some(socketId));
      var p2 := p1.(disconnectAt := None);
      assert Assign(updates, params, p) == Assign(updates[1..], params, p1);
      assert Assign(updates[1..], params, p1) == Assign(updates[2..], params, p2);
      if Truthy(questionId) {
        var p3 := p2.(lastSeenQuestionId := Some(questionId.value));
        assert updates[2..] == [SetParam(LastSeenQuestionColumn, 3)] && params[2] == Number(questionId.value);
        assert Assign(updates[2..], params, p2) == Assign(updates[3..], params, p3);
        assert updates[3..] == [];
      } else {
        assert updates[2..] == [];
      }
    }
    db.UpdatePlayers(PlayerIdIs(playerId), reconnect);
    KeyedUpdate(old(db.players), PlayerKey, old(db.nextPlayerId), PlayerIdIs(playerId), Reconnect(socketId, questionId));
    return true;
  }

  /**
   * The rebind touches only the given player's row, and of it only the connection
   * columns: every other row, and every id, game, name and score, stays as it was.
   */
  lemma {:induction false} ReconnectTouchesOnlyThePlayer(players: seq<Player>, playerId: nat, socketId: string, questionId: Option<nat>)
    ensures var after := UpdateWhere(players, PlayerIdIs(playerId), Reconnect(socketId, questionId));
      && |after| == |players|
      && forall i :: 0 <= i < |players| ==>
           && (players[i].id != playerId ==> after[i] == players[i])
           && after[i].id == players[i].id && after[i].gameId == players[i].gameId
           && after[i].name == players[i].name && after[i].score == players[i].score
           && after[i].sessionId == players[i].sessionId
           && (players[i].id == playerId ==>
                 && after[i].socketId == Some(socketId) && after[i].disconnectAt.None?
                 && after[i].lastSeenQuestionId ==
                      if Truthy(questionId) then questionId else players[i].lastSeenQuestionId)
  {
  }
}
