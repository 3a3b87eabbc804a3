/**
 * The PostgreSQL database as a mutable object: one sequence field per table and
 * the serial counters. Its `View` is the `Tables` value over which the handlers'
 * rules are stated.
 */
module Store {
  import opened Wrappers
  import opened Seqs
  import opened Schema

  class Database {
    var games: seq<Game>
    var players: seq<Player>
    var categories: seq<Category>
    var templates: seq<QuestionTemplate>
    var gameCategories: seq<GameCategory>
    var questions: seq<Question>
    var buzzes: seq<Buzz>
    var nextGameId: nat
    var nextPlayerId: nat
    var nextQuestionId: nat

    /** The current contents of every table. */
    function View(): Tables
      reads this
    {
      Tables(games, players, categories, templates, gameCategories, questions, buzzes,
             nextGameId, nextPlayerId, nextQuestionId)
    }

    ghost predicate Valid()
      reads this
    {
      WellFormed(View())
    }

    /** A database holding only the category catalogue; every serial starts at 1. */
    constructor (categories: seq<Category>, templates: seq<QuestionTemplate>)
      ensures View() == Tables([], [], categories, templates, [], [], [], 1, 1, 1)
      ensures Valid()
    {
      this.games := [];
      this.players := [];
      this.categories := categories;
      this.templates := templates;
      this.gameCategories := [];
      this.questions := [];
      this.buzzes := [];
      this.nextGameId := 1;
      this.nextPlayerId := 1;
      this.nextQuestionId := 1;
    }

    // ------------------------------------------------------------ statements

    /** `INSERT INTO games (room_code, host_name, status) VALUES (..., 'lobby') RETURNING *` */
    method InsertGame(roomCode: string, hostName: string) returns (g: Game)
      modifies this
      ensures g == Game(old(nextGameId), roomCode, hostName, Lobby, 0, 0)
      ensures View() == old(View()).(games := old(games) + [g], nextGameId := old(nextGameId) + 1)
    {
      g := Game(nextGameId, roomCode, hostName, Lobby, 0, 0);
      games := games + [g];
      nextGameId := nextGameId + 1;
    }

    /** `UPDATE games SET ... WHERE ...` */
    method UpdateGames(p: Game -> bool, f: Game -> Game)
      modifies this
      ensures View() == old(View()).(games := UpdateWhere(old(games), p, f))
    {
      games := UpdateWhere(games, p, f);
    }

    /** `INSERT INTO players (game_id, name, socket_id) VALUES (...) RETURNING *` */
    method InsertPlayer(gameId: nat, name: string, socketId: string) returns (p: Player)
      modifies this
      ensures p == Player(old(nextPlayerId), gameId, name, 0, Some(socketId), None, None, None)
      ensures View() == old(View()).(players := old(players) + [p], nextPlayerId := old(nextPlayerId) + 1)
    {
      p := Player(nextPlayerId, gameId, name, 0, Some(socketId), None, None, None);
      players := players + [p];
      nextPlayerId := nextPlayerId + 1;
    }

    /** `UPDATE players SET ... WHERE ...` */
    method UpdatePlayers(p: Player -> bool, f: Player -> Player)
      modifies this
      ensures View() == old(View()).(players := UpdateWhere(old(players), p, f))
    {
      players := UpdateWhere(players, p, f);
    }

    /** `DELETE FROM players WHERE ...`, given the rows to keep. */
    method DeletePlayers(keep: Player -> bool)
      modifies this
      ensures View() == old(View()).(players := Filter(old(players), keep))
    {
      players := Filter(players, keep);
    }

    /** `INSERT INTO buzzes (game_id, question_id, player_id) VALUES (...)` */
    method InsertBuzz(b: Buzz)
      modifies this
      ensures View() == old(View()).(buzzes := old(buzzes) + [b])
    {
      buzzes := buzzes + [b];
    }

    /** `DELETE FROM buzzes WHERE ...`, given the rows to keep. */
    method DeleteBuzzes(keep: Buzz -> bool)
      modifies this
      ensures View() == old(View()).(buzzes := Filter(old(buzzes), keep))
    {
      buzzes := Filter(buzzes, keep);
    }

    /** `DELETE FROM game_categories WHERE ...`, given the rows to keep. */
    method DeleteGameCategories(keep: GameCategory -> bool)
      modifies this
      ensures View() == old(View()).(gameCategories := Filter(old(gameCategories), keep))
    {
      gameCategories := Filter(gameCategories, keep);
    }

    /** `INSERT INTO game_categories (game_id, category_id, play_order) VALUES (...)` */
    method InsertGameCategory(gc: GameCategory)
      modifies this
      ensures View() == old(View()).(gameCategories := old(gameCategories) + [gc])
    {
      gameCategories := gameCategories + [gc];
    }

    /** `DELETE FROM questions WHERE ...`, given the rows to keep. */
    method DeleteQuestions(keep: Question -> bool)
      modifies this
      ensures View() == old(View()).(questions := Filter(old(questions), keep))
    {
      questions := Filter(questions, keep);
    }

    /** `INSERT INTO questions (game_id, category_id, question_text, question_order, image_url) VALUES (...)` */
    method InsertQuestion(gameId: nat, categoryId: nat, text: string, order: int, imageUrl: Option<string>)
      returns (q: Question)
      modifies this
      ensures q == Question(old(nextQuestionId), gameId, categoryId, text, order, imageUrl)
      ensures View() == old(View()).(questions := old(questions) + [q], nextQuestionId := old(nextQuestionId) + 1)
    {
      q := Question(nextQuestionId, gameId, categoryId, text, order, imageUrl);
      questions := questions + [q];
      nextQuestionId := nextQuestionId + 1;
    }
  }
}
