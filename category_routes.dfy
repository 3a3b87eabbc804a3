/**
 * The REST routes of the category catalogue: the catalogue sorted by name, and the
 * route that stores a game's category selection, rewriting its bindings and
 * instantiating its questions from the templates with a running question order.
 * The players route is `Schema.Ranking`.
 */
module CategoryRoutes {
  import opened Wrappers
  import opened Seqs
  import opened Schema
  import opened Store

  // ---------------------------------------------------------------- GET /categories

  /** Lexicographic order of strings by character code. */
  predicate LexLe(a: string, b: string) {
    a == [] || (b != [] && (a[0] < b[0] || (a[0] == b[0] && LexLe(a[1..], b[1..]))))
  }

  lemma {:induction false} LexLeTotal(a: string, b: string)
    ensures LexLe(a, b) || LexLe(b, a)
  {
    if a != [] && b != [] && a[0] == b[0] {
      LexLeTotal(a[1..], b[1..]);
    }
  }

  lemma {:induction false} LexLeTransitive(a: string, b: string, c: string)
    requires LexLe(a, b) && LexLe(b, c)
    ensures LexLe(a, c)
  {
    if a != [] && a[0] == b[0] && b[0] == c[0] {
      LexLeTransitive(a[1..], b[1..], c[1..]);
    }
  }

  /** `ORDER BY name` */
  predicate NameOrder(a: Category, b: Category) { LexLe(a.name, b.name) }

  lemma NameOrderIsPreorder()
    ensures TotalPreorder(NameOrder)
  {
    forall a: Category, b: Category ensures NameOrder(a, b) || NameOrder(b, a) {
      LexLeTotal(a.name, b.name);
    }
    forall a: Category, b: Category, c: Category | NameOrder(a, b) && NameOrder(b, c)
      ensures NameOrder(a, c)
    {
      LexLeTransitive(a.name, b.name, c.name);
    }
  }

  /** `SELECT * FROM categories ORDER BY name`: the whole catalogue, by name. */
  function ListCategories(categories: seq<Category>): (r: seq<Category>)
    ensures Sorted(r, NameOrder)
    ensures multiset(r) == multiset(categories)
  {
    NameOrderIsPreorder();
    SortBySorted(categories, NameOrder);
    SortBy(categories, NameOrder)
  }

  // ---------------------------------------------------------------- POST /games/:gameId/categories

  /** The bindings the route inserts: the `i`-th selected category is played `i`-th. */
  function Bindings(gameId: nat, categoryIds: seq<nat>): seq<GameCategory> {
    seq(|categoryIds|, i requires 0 <= i < |categoryIds| => GameCategory(gameId, categoryIds[i], i))
  }

  /** How many templates the selected categories have in all (a category selected twice counts twice). */
  function TemplateCount(templates: seq<QuestionTemplate>, categoryIds: seq<nat>): nat
    decreases |categoryIds|
  {
    if categoryIds == [] then 0
    else
      var k := |categoryIds| - 1;
      TemplateCount(templates, categoryIds[..k]) + |TemplatesOf(templates, categoryIds[k])|
  }

  /** The questions instantiated from templates `tps` of one category, ids and orders counting up. */
  function Instantiate(tps: seq<QuestionTemplate>, gameId: nat, categoryId: nat, firstId: nat, firstOrder: nat)
    : seq<Question>
  {
    seq(|tps|, k requires 0 <= k < |tps| =>
      Question(firstId + k, gameId, categoryId, tps[k].text, firstOrder + k, tps[k].imageUrl))
  }

  /** The questions the route generates, category by category, the first getting serial id `firstId`. */
  function Generate(templates: seq<QuestionTemplate>, gameId: nat, categoryIds: seq<nat>, firstId: nat)
    : seq<Question>
    decreases |categoryIds|
  {
    if categoryIds == [] then []
    else
      var k := |categoryIds| - 1;
      var before := TemplateCount(templates, categoryIds[..k]);
      Generate(templates, gameId, categoryIds[..k], firstId) +
        Instantiate(TemplatesOf(templates, categoryIds[k]), gameId, categoryIds[k], firstId + before, before)
  }

  /**
   * The database after the route: the game's bindings replaced by the selection, its
   * questions replaced by the generated ones; everything else as it was.
   */
  function Assigned(t: Tables, gameId: nat, categoryIds: seq<nat>): Tables {
    t.(gameCategories := Filter(t.gameCategories, BindingNotOf(gameId)) + Bindings(gameId, categoryIds),
       questions := Filter(t.questions, QuestionNotOf(gameId)) + Generate(t.templates, gameId, categoryIds, t.nextQuestionId),
       nextQuestionId := t.nextQuestionId + TemplateCount(t.templates, categoryIds))
  }

  /**
   * `POST /games/:gameId/categories`: replace the game's bindings by the selection,
   * delete the game's questions, then insert one question per template of each
   * selected category in turn, the question order counting up from 0 across
   * categories.
   */
  method AssignCategories(db: Database, gameId: nat, categoryIds: seq<nat>)
    modifies db
    ensures db.View() == Assigned(old(db.View()), gameId, categoryIds)
    ensures old(db.Valid()) ==> db.Valid()
  {
    ghost var t := db.View();
    BindCategories(db, gameId, categoryIds);
    db.DeleteQuestions(QuestionNotOf(gameId));
    InsertSelection(db, gameId, categoryIds);
    if WellFormed(t) {
      AssignedWellFormed(t, gameId, categoryIds);
    }
  }

  /**
   * The second half of the route: for each selected category in turn, one question
   * per template, the running question order starting at 0.
   */
  method InsertSelection(db: Database, gameId: nat, categoryIds: seq<nat>)
    modifies db
    ensures db.questions == old(db.questions) + Generate(db.templates, gameId, categoryIds, old(db.nextQuestionId))
    ensures db.nextQuestionId == old(db.nextQuestionId) + TemplateCount(db.templates, categoryIds)
    ensures db.View() == old(db.View()).(questions := db.questions, nextQuestionId := db.nextQuestionId)
  {
    ghost var start := db.questions;
    ghost var firstId := db.nextQuestionId;
    ghost var all := db.templates;
    var questionOrder := 0;
    var i := 0;
    while i < |categoryIds|
      invariant 0 <= i <= |categoryIds|
      invariant questionOrder == TemplateCount(all, categoryIds[..i])
      invariant db.questions == start + Generate(all, gameId, categoryIds[..i], firstId)
      invariant db.nextQuestionId == firstId + questionOrder
      invariant db.View() == old(db.View()).(questions := db.questions, nextQuestionId := db.nextQuestionId)
    {
      var categoryId := categoryIds[i];
      var templates := TemplatesOf(db.templates, categoryId);
      ghost var done := Generate(all, gameId, categoryIds[..i], firstId);
      ghost var block := Instantiate(templates, gameId, categoryId, firstId + questionOrder, questionOrder);
      GenerateStep(all, gameId, categoryIds, firstId, i);
      assert done + block == Generate(all, gameId, categoryIds[..i + 1], firstId);
      questionOrder := InsertTemplates(db, gameId, categoryId, templates, questionOrder);
      AppendAssociative(start, done, block);
      i := i + 1;
    }
    assert categoryIds[..i] == categoryIds;
  }

  /** The first half of the route: the game's bindings become the selection, in order. */
  method BindCategories(db: Database, gameId: nat, categoryIds: seq<nat>)
    modifies db
    ensures db.View() == old(db.View()).(gameCategories :=
      Filter(old(db.gameCategories), BindingNotOf(gameId)) + Bindings(gameId, categoryIds))
  {
    db.DeleteGameCategories(BindingNotOf(gameId));
    ghost var kept := db.gameCategories;
    var i := 0;
    while i < |categoryIds|
      invariant 0 <= i <= |categoryIds|
      invariant db.gameCategories == kept + Bindings(gameId, categoryIds[..i])
      invariant db.View() == old(db.View()).(gameCategories := db.gameCategories)
    {
      db.InsertGameCategory(GameCategory(gameId, categoryIds[i], i));
      assert Bindings(gameId, categoryIds[..i + 1]) ==
        Bindings(gameId, categoryIds[..i]) + [GameCategory(gameId, categoryIds[i], i)];
      i := i + 1;
    }
    assert categoryIds[..i] == categoryIds;
  }

  /**
   * The inner loop of the route: one question per template of one category, with the
   * question order continuing from `questionOrder`; returns the order after the last.
   */
  method InsertTemplates(db: Database, gameId: nat, categoryId: nat, templates: seq<QuestionTemplate>,
                         questionOrder: nat) returns (next: nat)
    modifies db
    ensures next == questionOrder + |templates|
    ensures db.questions == old(db.questions) + Instantiate(templates, gameId, categoryId, old(db.nextQuestionId), questionOrder)
    ensures db.nextQuestionId == old(db.nextQuestionId) + |templates|
    ensures db.View() == old(db.View()).(questions := db.questions, nextQuestionId := db.nextQuestionId)
  {
    next := questionOrder;
    var j := 0;
    while j < |templates|
      invariant 0 <= j <= |templates|
      invariant next == questionOrder + j
      invariant db.questions == old(db.questions) + Instantiate(templates[..j], gameId, categoryId, old(db.nextQuestionId), questionOrder)
      invariant db.nextQuestionId == old(db.nextQuestionId) + j
      invariant db.View() == old(db.View()).(questions := db.questions, nextQuestionId := db.nextQuestionId)
    {
      var template := templates[j];
      var q := db.InsertQuestion(gameId, categoryId, template.text, next, template.imageUrl);
      assert Instantiate(templates[..j + 1], gameId, categoryId, old(db.nextQuestionId), questionOrder) ==
        Instantiate(templates[..j], gameId, categoryId, old(db.nextQuestionId), questionOrder) + [q];
      next := next + 1;
      j := j + 1;
    }
    assert templates[..j] == templates;
  }

  // ---------------------------------------------------------------- properties

  lemma {:induction false} GenerateLength(templates: seq<QuestionTemplate>, gameId: nat, categoryIds: seq<nat>, firstId: nat)
    ensures |Generate(templates, gameId, categoryIds, firstId)| == TemplateCount(templates, categoryIds)
    decreases |categoryIds|
  {
    if categoryIds != [] {
      GenerateLength(templates, gameId, categoryIds[..|categoryIds| - 1], firstId);
    }
  }

  /** The generated questions get consecutive ids from `firstId` and question orders 0, 1, 2, ... */
  lemma {:induction false} GenerateNumbering(templates: seq<QuestionTemplate>, gameId: nat, categoryIds: seq<nat>, firstId: nat)
    ensures var qs := Generate(templates, gameId, categoryIds, firstId);
      && |qs| == TemplateCount(templates, categoryIds)
      && forall k :: 0 <= k < |qs| ==> qs[k].id == firstId + k && qs[k].order == k && qs[k].gameId == gameId
    decreases |categoryIds|
  {
    if categoryIds != [] {
      GenerateNumbering(templates, gameId, categoryIds[..|categoryIds| - 1], firstId);
    }
  }

  /** One more selected category adds its block of questions at the end. */
  lemma {:induction false} GenerateStep(templates: seq<QuestionTemplate>, gameId: nat, categoryIds: seq<nat>, firstId: nat, i: nat)
    requires i < |categoryIds|
    ensures var before := TemplateCount(templates, categoryIds[..i]);
      && TemplateCount(templates, categoryIds[..i + 1]) == before + |TemplatesOf(templates, categoryIds[i])|
      && Generate(templates, gameId, categoryIds[..i + 1], firstId) ==
           Generate(templates, gameId, categoryIds[..i], firstId) +
           Instantiate(TemplatesOf(templates, categoryIds[i]), gameId, categoryIds[i], firstId + before, before)
  {
    assert categoryIds[..i + 1][..i] == categoryIds[..i];
  }

  /** Generating for a prefix of the selection generates a prefix of the questions. */
  lemma {:induction false} GeneratePrefix(templates: seq<QuestionTemplate>, gameId: nat, categoryIds: seq<nat>,
                                          firstId: nat, n: nat)
    requires n <= |categoryIds|
    ensures Generate(templates, gameId, categoryIds[..n], firstId) <= Generate(templates, gameId, categoryIds, firstId)
    decreases |categoryIds|
  {
    if n < |categoryIds| {
      var pre := categoryIds[..|categoryIds| - 1];
      assert pre[..n] == categoryIds[..n];
      GeneratePrefix(templates, gameId, pre, firstId, n);
    } else {
      assert categoryIds[..n] == categoryIds;
    }
  }

  /**
   * The generated questions come in one block per selected category, in selection
   * order: the block of the `i`-th category holds its templates' text and image, in
   * template order, under the `i`-th category's id.
   */
  lemma {:induction false} GenerateGrouped(templates: seq<QuestionTemplate>, gameId: nat, categoryIds: seq<nat>, firstId: nat, i: nat)
    requires i < |categoryIds|
    ensures var qs := Generate(templates, gameId, categoryIds, firstId);
      var from := TemplateCount(templates, categoryIds[..i]);
      var to := TemplateCount(templates, categoryIds[..i + 1]);
      && from <= to <= |qs|
      && qs[from..to] == Instantiate(TemplatesOf(templates, categoryIds[i]), gameId, categoryIds[i], firstId + from, from)
  {
    var qs := Generate(templates, gameId, categoryIds, firstId);
    var done := Generate(templates, gameId, categoryIds[..i], firstId);
    var from := TemplateCount(templates, categoryIds[..i]);
    var block := Instantiate(TemplatesOf(templates, categoryIds[i]), gameId, categoryIds[i], firstId + from, from);
    GenerateStep(templates, gameId, categoryIds, firstId, i);
    GenerateLength(templates, gameId, categoryIds[..i], firstId);
    GeneratePrefix(templates, gameId, categoryIds, firstId, i + 1);
    SliceOfPrefix(done + block, qs, |done|, |done| + |block|);
    SliceOfAppend(done, block);
  }

  /** Each generated question copies a template of its own category, which is one of the selected. */
  lemma {:induction false} GenerateFromTemplates(templates: seq<QuestionTemplate>, gameId: nat, categoryIds: seq<nat>, firstId: nat, q: Question)
    requires q in Generate(templates, gameId, categoryIds, firstId)
    ensures q.categoryId in categoryIds
    ensures exists tp :: tp in templates && tp.categoryId == q.categoryId && tp.text == q.text && tp.imageUrl == q.imageUrl
    decreases |categoryIds|
  {
    var k := |categoryIds| - 1;
    var pre := categoryIds[..k];
    var before := TemplateCount(templates, pre);
    var tps := TemplatesOf(templates, categoryIds[k]);
    var block := Instantiate(tps, gameId, categoryIds[k], firstId + before, before);
    if q in Generate(templates, gameId, pre, firstId) {
      GenerateFromTemplates(templates, gameId, pre, firstId, q);
      assert q.categoryId in categoryIds by {
        var m :| 0 <= m < |pre| && pre[m] == q.categoryId;
        assert categoryIds[m] == q.categoryId;
      }
    } else {
      assert q in block;
      var m :| 0 <= m < |block| && block[m] == q;
      assert tps[m] in tps;
    }
  }

  /** After the route the game's bindings are exactly the selection, with play order = position. */
  lemma {:induction false} AssignedBindings(t: Tables, gameId: nat, categoryIds: seq<nat>)
    ensures var bs := Filter(Assigned(t, gameId, categoryIds).gameCategories, BindingOf(gameId));
      && |bs| == |categoryIds|
      && forall i :: 0 <= i < |bs| ==> bs[i] == GameCategory(gameId, categoryIds[i], i)
  {
    var kept := Filter(t.gameCategories, BindingNotOf(gameId));
    FilterConcat(kept, Bindings(gameId, categoryIds), BindingOf(gameId));
    FilterNone(kept, BindingOf(gameId));
    FilterAll(Bindings(gameId, categoryIds), BindingOf(gameId));
  }

  /** After the route the game's questions are exactly the generated ones. */
  lemma {:induction false} AssignedQuestions(t: Tables, gameId: nat, categoryIds: seq<nat>)
    ensures Filter(Assigned(t, gameId, categoryIds).questions, QuestionOf(gameId)) ==
      Generate(t.templates, gameId, categoryIds, t.nextQuestionId)
  {
    var kept := Filter(t.questions, QuestionNotOf(gameId));
    var gen := Generate(t.templates, gameId, categoryIds, t.nextQuestionId);
    GenerateNumbering(t.templates, gameId, categoryIds, t.nextQuestionId);
    FilterConcat(kept, gen, QuestionOf(gameId));
    FilterNone(kept, QuestionOf(gameId));
    FilterAll(gen, QuestionOf(gameId));
  }

  /** No question the game had before the route survives it. */
  lemma {:induction false} AssignedRemovesOldQuestions(t: Tables, gameId: nat, categoryIds: seq<nat>, q: Question)
    requires WellFormed(t) && q in t.questions && q.gameId == gameId
    ensures q !in Assigned(t, gameId, categoryIds).questions
  {
    var gen := Generate(t.templates, gameId, categoryIds, t.nextQuestionId);
    GenerateNumbering(t.templates, gameId, categoryIds, t.nextQuestionId);
    var k :| 0 <= k < |t.questions| && t.questions[k] == q;
    assert q.id < t.nextQuestionId;
    assert forall m :: 0 <= m < |gen| ==> gen[m] != q;
  }

  /** The bindings and questions of every other game are left as they were. */
  lemma {:induction false} AssignedLeavesOtherGames(t: Tables, gameId: nat, categoryIds: seq<nat>, other: nat)
    requires other != gameId
    ensures Filter(Assigned(t, gameId, categoryIds).gameCategories, BindingOf(other)) == Filter(t.gameCategories, BindingOf(other))
    ensures Filter(Assigned(t, gameId, categoryIds).questions, QuestionOf(other)) == Filter(t.questions, QuestionOf(other))
  {
    var bindings := Bindings(gameId, categoryIds);
    var gen := Generate(t.templates, gameId, categoryIds, t.nextQuestionId);
    FilterConcat(Filter(t.gameCategories, BindingNotOf(gameId)), bindings, BindingOf(other));
    FilterSubsumed(t.gameCategories, BindingNotOf(gameId), BindingOf(other));
    FilterNone(bindings, BindingOf(other));
    GenerateNumbering(t.templates, gameId, categoryIds, t.nextQuestionId);
    FilterConcat(Filter(t.questions, QuestionNotOf(gameId)), gen, QuestionOf(other));
    FilterSubsumed(t.questions, QuestionNotOf(gameId), QuestionOf(other));
    FilterNone(gen, QuestionOf(other));
  }

  /** The route keeps the database well formed: the new questions continue the serial ids. */
  lemma {:induction false} AssignedWellFormed(t: Tables, gameId: nat, categoryIds: seq<nat>)
    requires WellFormed(t)
    ensures WellFormed(Assigned(t, gameId, categoryIds))
  {
    var kept := Filter(t.questions, QuestionNotOf(gameId));
    var gen := Generate(t.templates, gameId, categoryIds, t.nextQuestionId);
    var next := t.nextQuestionId + TemplateCount(t.templates, categoryIds);
    KeyedFilter(t.questions, QuestionKey, t.nextQuestionId, QuestionNotOf(gameId));
    GenerateNumbering(t.templates, gameId, categoryIds, t.nextQuestionId);
    assert Keyed(gen, QuestionKey, next);
    KeyedConcat(kept, gen, QuestionKey, t.nextQuestionId, next);
  }
}
