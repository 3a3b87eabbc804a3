/**
 * The rows of the quiz server's PostgreSQL tables, the whole database as one value
 * (`Tables`), its integrity constraints (`WellFormed`) and the `SELECT` queries the
 * handlers issue, each as a function over the tables.
 *
 * Tables are sequences in insertion order. A serial id is allocated from a counter
 * kept beside its table, starting at 1 as a PostgreSQL sequence does; `joined_at`
 * order is insertion order.
 */
module Schema {
  import opened Wrappers
  import opened Seqs

  datatype Status = Lobby | Playing | Finished

  /** A row of `games`; score and indices start at 0 (the column defaults). */
  datatype Game = Game(id: nat, roomCode: string, hostName: string, status: Status,
                       categoryIndex: nat, questionIndex: nat)

  /** A row of `players`. */
  datatype Player = Player(id: nat, gameId: nat, name: string, score: int,
                           socketId: Option<string>, sessionId: Option<string>,
                           disconnectAt: Option<string>, lastSeenQuestionId: Option<nat>)

  /** A row of `categories` (template data, never written by the game server). */
  datatype Category = Category(id: nat, name: string, icon: Option<string>,
                               description: Option<string>, categoryType: Option<string>)

  /** A row of `question_templates`. */
  datatype QuestionTemplate = QuestionTemplate(id: nat, categoryId: nat, text: string, imageUrl: Option<string>)

  /** A row of `game_categories`: category `categoryId` is played `playOrder`-th in game `gameId`. */
  datatype GameCategory = GameCategory(gameId: nat, categoryId: nat, playOrder: int)

  /** A row of `questions`: a template instantiated for one game. */
  datatype Question = Question(id: nat, gameId: nat, categoryId: nat, text: string,
                               order: int, imageUrl: Option<string>)

  /** A row of `buzzes`; `playerId` is whatever the buzzing connection had bound (possibly nothing). */
  datatype Buzz = Buzz(gameId: nat, questionId: nat, playerId: Option<nat>)

  /** The projection `SELECT id, name, score FROM players`. */
  datatype PlayerView = PlayerView(id: nat, name: string, score: int)

  /** A row of the join `categories c JOIN game_categories gc ON c.id = gc.category_id`. */
  datatype BoundRow = BoundRow(binding: GameCategory, category: Category)

  datatype Tables = Tables(
    games: seq<Game>,
    players: seq<Player>,
    categories: seq<Category>,
    templates: seq<QuestionTemplate>,
    gameCategories: seq<GameCategory>,
    questions: seq<Question>,
    buzzes: seq<Buzz>,
    nextGameId: nat,
    nextPlayerId: nat,
    nextQuestionId: nat)

  function GameKey(g: Game): int { g.id }
  function PlayerKey(p: Player): int { p.id }
  function QuestionKey(q: Question): int { q.id }

  /** No two buzz rows share a (game, question) pair. */
  predicate OneBuzzPerQuestion(bs: seq<Buzz>) {
    forall i, j :: 0 <= i < j < |bs| ==> bs[i].gameId != bs[j].gameId || bs[i].questionId != bs[j].questionId
  }

  /** The integrity of the database: serial primary keys and the single-winner buzz rule. */
  predicate WellFormed(t: Tables) {
    && 0 < t.nextGameId && 0 < t.nextPlayerId && 0 < t.nextQuestionId
    && Keyed(t.games, GameKey, t.nextGameId)
    && Keyed(t.players, PlayerKey, t.nextPlayerId)
    && Keyed(t.questions, QuestionKey, t.nextQuestionId)
    && OneBuzzPerQuestion(t.buzzes)
  }

  /** Deleting buzz rows keeps at most one per question. */
  lemma {:induction false} OneBuzzPerQuestionFilter(bs: seq<Buzz>, p: Buzz -> bool)
    requires OneBuzzPerQuestion(bs)
    ensures OneBuzzPerQuestion(Filter(bs, p))
  {
    if bs != [] {
      assert OneBuzzPerQuestion(bs[1..]);
      OneBuzzPerQuestionFilter(bs[1..], p);
      var rest := Filter(bs[1..], p);
      assert forall x :: x in rest ==> bs[0].gameId != x.gameId || bs[0].questionId != x.questionId by {
        forall x | x in rest ensures bs[0].gameId != x.gameId || bs[0].questionId != x.questionId {
          var k :| 0 <= k < |bs[1..]| && bs[1..][k] == x;
          assert bs[k + 1] == x;
        }
      }
      if p(bs[0]) {
        var r := [bs[0]] + rest;
        forall i, j | 0 <= i < j < |r| ensures r[i].gameId != r[j].gameId || r[i].questionId != r[j].questionId {
          if i == 0 { assert r[j] in rest; } else { assert r[i] == rest[i - 1] && r[j] == rest[j - 1]; }
        }
      }
    }
  }

  // ---------------------------------------------------------------- row predicates

  function GameIdIs(id: nat): Game -> bool { (g: Game) => g.id == id }
  function RoomCodeIs(code: string): Game -> bool { (g: Game) => g.roomCode == code }
  function PlayerIdIs(id: nat): Player -> bool { (p: Player) => p.id == id }
  function InGame(gameId: nat): Player -> bool { (p: Player) => p.gameId == gameId }
  function SessionIs(token: string): Player -> bool { (p: Player) => p.sessionId == Some(token) }
  function CategoryIdIs(id: nat): Category -> bool { (c: Category) => c.id == id }
  function BindingOf(gameId: nat): GameCategory -> bool { (gc: GameCategory) => gc.gameId == gameId }
  function QuestionOf(gameId: nat): Question -> bool { (q: Question) => q.gameId == gameId }
  function QuestionIn(gameId: nat, categoryId: nat): Question -> bool {
    (q: Question) => q.gameId == gameId && q.categoryId == categoryId
  }
  function TemplateOf(categoryId: nat): QuestionTemplate -> bool {
    (tp: QuestionTemplate) => tp.categoryId == categoryId
  }
  function BuzzOn(gameId: nat, questionId: nat): Buzz -> bool {
    (b: Buzz) => b.gameId == gameId && b.questionId == questionId
  }

  /** The rows a `DELETE ... WHERE` keeps. */
  function NotBuzzOn(gameId: nat, questionId: nat): Buzz -> bool {
    (b: Buzz) => !(b.gameId == gameId && b.questionId == questionId)
  }
  function NotOnSocket(socketId: string): Player -> bool { (p: Player) => p.socketId != Some(socketId) }
  function BindingNotOf(gameId: nat): GameCategory -> bool { (gc: GameCategory) => gc.gameId != gameId }
  function QuestionNotOf(gameId: nat): Question -> bool { (q: Question) => q.gameId != gameId }

  // ---------------------------------------------------------------- orderings

  /** `ORDER BY score DESC` */
  predicate ScoreDesc(a: PlayerView, b: PlayerView) { a.score >= b.score }
  /** `ORDER BY gc.play_order` */
  predicate PlayOrder(a: BoundRow, b: BoundRow) { a.binding.playOrder <= b.binding.playOrder }
  /** `ORDER BY question_order` */
  predicate QuestionOrder(a: Question, b: Question) { a.order <= b.order }

  lemma OrderingsArePreorders()
    ensures TotalPreorder(ScoreDesc) && TotalPreorder(PlayOrder) && TotalPreorder(QuestionOrder)
  {
  }

  // ---------------------------------------------------------------- queries

  /** `SELECT * FROM games WHERE id = $1`, first row; an unbound id (SQL NULL) matches nothing. */
  function GameById(games: seq<Game>, id: Option<nat>): (r: Option<Game>)
    ensures r.Some? ==> r.value in games && id == Some(r.value.id)
    ensures r.None? <==> id.None? || forall g :: g in games ==> g.id != id.value
  {
    match id
    case None => None
    case Some(k) => First(games, GameIdIs(k))
  }

  /** An `UPDATE games ... WHERE id = $1` that keeps ids moves the row `GameById` finds along with it. */
  lemma GameByIdUpdate(games: seq<Game>, gameId: nat, f: Game -> Game)
    requires forall g :: f(g).id == g.id
    ensures var before := GameById(games, Some(gameId));
      GameById(UpdateWhere(games, GameIdIs(gameId), f), Some(gameId)) ==
        if before.Some? then Some(f(before.value)) else None
  {
    FirstUpdateWhere(games, GameIdIs(gameId), f);
  }

  /** `SELECT * FROM games WHERE room_code = $1`, first row in table order. */
  function GameByCode(games: seq<Game>, code: string): (r: Option<Game>)
    ensures r.Some? ==> r.value in games && r.value.roomCode == code
    ensures r.None? <==> forall g :: g in games ==> g.roomCode != code
  {
    First(games, RoomCodeIs(code))
  }

  /** `SELECT * FROM players WHERE id = $1`, first row; an unbound id matches nothing. */
  function PlayerById(players: seq<Player>, id: Option<nat>): (r: Option<Player>)
    ensures r.Some? ==> r.value in players && id == Some(r.value.id)
    ensures r.None? <==> id.None? || forall p :: p in players ==> p.id != id.value
  {
    match id
    case None => None
    case Some(k) => First(players, PlayerIdIs(k))
  }

  function View(p: Player): PlayerView { PlayerView(p.id, p.name, p.score) }

  function Views(ps: seq<Player>): (r: seq<PlayerView>)
    ensures |r| == |ps| && forall i :: 0 <= i < |ps| ==> r[i] == View(ps[i])
  {
    seq(|ps|, i requires 0 <= i < |ps| => View(ps[i]))
  }

  /** `SELECT id, name, score FROM players WHERE game_id = $1` in table (= joined_at) order. */
  function Roster(players: seq<Player>, gameId: nat): (r: seq<PlayerView>)
    ensures forall v :: v in r <==> exists p :: p in players && p.gameId == gameId && View(p) == v
  {
    var ps := Filter(players, InGame(gameId));
    var r := Views(ps);
    assert forall v :: v in r ==> exists p :: p in ps && View(p) == v by {
      forall v | v in r ensures exists p :: p in ps && View(p) == v {
        var i :| 0 <= i < |r| && r[i] == v;
        assert ps[i] in ps;
      }
    }
    assert forall p :: p in ps ==> View(p) in r by {
      forall p | p in ps ensures View(p) in r {
        var i :| 0 <= i < |ps| && ps[i] == p;
        assert r[i] == View(p);
      }
    }
    r
  }

  /**
   * Players get serial ids as they join and the table is only appended to, so the
   * table order is the `joined_at` order: the roster lists the game's players with
   * strictly increasing ids.
   */
  lemma RosterInJoinOrder(players: seq<Player>, next: int, gameId: nat)
    requires Keyed(players, PlayerKey, next)
    ensures var r := Roster(players, gameId);
      forall i, j :: 0 <= i < j < |r| ==> r[i].id < r[j].id
  {
    var ps := Filter(players, InGame(gameId));
    KeyedFilter(players, PlayerKey, next, InGame(gameId));
    assert forall i, j :: 0 <= i < j < |ps| ==> PlayerKey(ps[i]) < PlayerKey(ps[j]);
  }

  /** `SELECT id, name, score FROM players WHERE game_id = $1 ORDER BY score DESC`. */
  function Ranking(players: seq<Player>, gameId: nat): (r: seq<PlayerView>)
    ensures Sorted(r, ScoreDesc)
    ensures multiset(r) == multiset(Roster(players, gameId))
  {
    OrderingsArePreorders();
    SortBySorted(Roster(players, gameId), ScoreDesc);
    SortBy(Roster(players, gameId), ScoreDesc)
  }

  /** All (binding, category) pairs of the join, binding by binding. */
  function Join(bindings: seq<GameCategory>, categories: seq<Category>): (r: seq<BoundRow>)
    ensures forall row :: row in r ==>
      row.binding in bindings && row.category in categories && row.category.id == row.binding.categoryId
  {
    if bindings == [] then []
    else
      var cs := Filter(categories, CategoryIdIs(bindings[0].categoryId));
      var here := seq(|cs|, i requires 0 <= i < |cs| => BoundRow(bindings[0], cs[i]));
      assert forall row :: row in here ==>
        row.binding == bindings[0] && row.category in categories && row.category.id == row.binding.categoryId by {
        forall row | row in here
          ensures row.binding == bindings[0] && row.category in categories && row.category.id == row.binding.categoryId
        {
          var i :| 0 <= i < |here| && here[i] == row;
          assert cs[i] in cs;
        }
      }
      here + Join(bindings[1..], categories)
  }

  /** The join misses no pair: every binding appears with every category carrying its id. */
  lemma {:induction false} JoinComplete(bindings: seq<GameCategory>, categories: seq<Category>)
    ensures forall b, c :: b in bindings && c in categories && c.id == b.categoryId ==> BoundRow(b, c) in Join(bindings, categories)
  {
    if bindings != [] {
      var cs := Filter(categories, CategoryIdIs(bindings[0].categoryId));
      var here := seq(|cs|, i requires 0 <= i < |cs| => BoundRow(bindings[0], cs[i]));
      assert Join(bindings, categories) == here + Join(bindings[1..], categories);
      JoinComplete(bindings[1..], categories);
      forall c | c in categories && c.id == bindings[0].categoryId ensures BoundRow(bindings[0], c) in here {
        var i :| 0 <= i < |cs| && cs[i] == c;
        assert here[i] == BoundRow(bindings[0], c);
      }
      assert forall b :: b in bindings ==> b == bindings[0] || b in bindings[1..];
    }
  }

  /**
   * `SELECT c.*, gc.* FROM categories c JOIN game_categories gc ON c.id = gc.category_id
   *  WHERE gc.game_id = $1 ORDER BY gc.play_order`.
   */
  function BoundRows(gameCategories: seq<GameCategory>, categories: seq<Category>, gameId: nat): (r: seq<BoundRow>)
    ensures Sorted(r, PlayOrder)
    ensures forall row :: row in r ==>
      && row.binding in gameCategories && row.binding.gameId == gameId
      && row.category in categories && row.category.id == row.binding.categoryId
  {
    var joined := Join(Filter(gameCategories, BindingOf(gameId)), categories);
    OrderingsArePreorders();
    SortBySorted(joined, PlayOrder);
    SortByMembers(joined, PlayOrder);
    SortBy(joined, PlayOrder)
  }

  /** Every binding of the game appears in the join with every category carrying its id. */
  lemma BoundRowsComplete(gameCategories: seq<GameCategory>, categories: seq<Category>, gameId: nat)
    ensures var r := BoundRows(gameCategories, categories, gameId);
      forall b, c :: b in gameCategories && b.gameId == gameId && c in categories && c.id == b.categoryId ==>
        BoundRow(b, c) in r
  {
    var joined := Join(Filter(gameCategories, BindingOf(gameId)), categories);
    JoinComplete(Filter(gameCategories, BindingOf(gameId)), categories);
    SortByMembers(joined, PlayOrder);
  }

  /** The categories of a game in play order (the `SELECT c.*` of the join). */
  function BoundCategories(gameCategories: seq<GameCategory>, categories: seq<Category>, gameId: nat): (r: seq<Category>)
    ensures var rows := BoundRows(gameCategories, categories, gameId);
      |r| == |rows| && forall i :: 0 <= i < |r| ==> r[i] == rows[i].category
  {
    var rows := BoundRows(gameCategories, categories, gameId);
    seq(|rows|, i requires 0 <= i < |rows| => rows[i].category)
  }

  /** A category is among the game's categories exactly when some binding of the game names its id. */
  lemma BoundCategoriesContent(gameCategories: seq<GameCategory>, categories: seq<Category>, gameId: nat)
    ensures var r := BoundCategories(gameCategories, categories, gameId);
      forall c :: c in r <==> c in categories && exists b :: b in gameCategories && b.gameId == gameId && b.categoryId == c.id
  {
    var rows := BoundRows(gameCategories, categories, gameId);
    var r := BoundCategories(gameCategories, categories, gameId);
    BoundRowsComplete(gameCategories, categories, gameId);
    forall c | c in r ensures c in categories && exists b :: b in gameCategories && b.gameId == gameId && b.categoryId == c.id {
      var i :| 0 <= i < |r| && r[i] == c;
      assert rows[i] in rows;
    }
    forall c, b | c in categories && b in gameCategories && b.gameId == gameId && b.categoryId == c.id ensures c in r {
      assert BoundRow(b, c) in rows;
      var i :| 0 <= i < |rows| && rows[i] == BoundRow(b, c);
      assert r[i] == c;
    }
  }

  /** `SELECT * FROM questions WHERE game_id = $1 ORDER BY question_order` (no category filter). */
  function GameQuestions(questions: seq<Question>, gameId: nat): (r: seq<Question>)
    ensures Sorted(r, QuestionOrder)
    ensures forall q :: q in r <==> q in questions && q.gameId == gameId
    ensures multiset(r) == multiset(Filter(questions, QuestionOf(gameId)))
  {
    var qs := Filter(questions, QuestionOf(gameId));
    OrderingsArePreorders();
    SortBySorted(qs, QuestionOrder);
    SortByMembers(qs, QuestionOrder);
    SortBy(qs, QuestionOrder)
  }

  /** `SELECT * FROM questions WHERE game_id = $1 AND category_id = $2 ORDER BY question_order`. */
  function CategoryQuestions(questions: seq<Question>, gameId: nat, categoryId: nat): (r: seq<Question>)
    ensures Sorted(r, QuestionOrder)
    ensures |r| == CountQuestions(questions, gameId, categoryId)
    ensures forall q :: q in r <==> q in questions && q.gameId == gameId && q.categoryId == categoryId
  {
    var qs := Filter(questions, QuestionIn(gameId, categoryId));
    OrderingsArePreorders();
    SortBySorted(qs, QuestionOrder);
    SortByMembers(qs, QuestionOrder);
    SortByLength(qs, QuestionOrder);
    SortBy(qs, QuestionOrder)
  }

  /** `SELECT COUNT(*) FROM questions WHERE game_id = $1 AND category_id = $2`. */
  function CountQuestions(questions: seq<Question>, gameId: nat, categoryId: nat): nat {
    |Filter(questions, QuestionIn(gameId, categoryId))|
  }

  /** `SELECT * FROM buzzes WHERE game_id = $1 AND question_id = $2`. */
  function BuzzesOn(buzzes: seq<Buzz>, gameId: nat, questionId: nat): (r: seq<Buzz>)
    ensures forall b :: b in r <==> b in buzzes && b.gameId == gameId && b.questionId == questionId
  {
    Filter(buzzes, BuzzOn(gameId, questionId))
  }

  /** `SELECT * FROM question_templates WHERE category_id = $1`, in table order. */
  function TemplatesOf(templates: seq<QuestionTemplate>, categoryId: nat): (r: seq<QuestionTemplate>)
    ensures forall tp :: tp in r <==> tp in templates && tp.categoryId == categoryId
  {
    Filter(templates, TemplateOf(categoryId))
  }
}
