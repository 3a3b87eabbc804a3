/**
 * The host's category picker: the ordered selection it builds from the category
 * list (toggle, move up, move down) and what saving sends to the category route.
 */
module CategorySelector {
  import opened Seqs
  import opened Schema
  import CategoryRoutes

  /** Some entry of the selection has this id (`findIndex(...) >= 0`). */
  predicate HasId(selection: seq<Category>, id: nat) {
    exists c :: c in selection && c.id == id
  }

  /** No id occurs twice in the selection. */
  predicate UniqueIds(selection: seq<Category>) {
    forall i, j :: 0 <= i < j < |selection| ==> selection[i].id != selection[j].id
  }

  function OtherId(id: nat): Category -> bool { (c: Category) => c.id != id }

  /**
   * `toggleCategory`: when an entry with the category's id is selected, every entry
   * with that id is removed and the rest keep their order; otherwise the category is
   * appended.
   */
  function Toggle(selection: seq<Category>, category: Category): (r: seq<Category>)
    ensures HasId(selection, category.id) ==>
      && !HasId(r, category.id)
      && forall c :: c in r <==> c in selection && c.id != category.id
    ensures !HasId(selection, category.id) ==> r == selection + [category]
  {
    if HasId(selection, category.id) then Filter(selection, OtherId(category.id)) else selection + [category]
  }

  /** Selecting a category and then deselecting it restores the selection. */
  lemma ToggleTwice(selection: seq<Category>, category: Category)
    requires !HasId(selection, category.id)
    ensures Toggle(Toggle(selection, category), category) == selection
  {
    var once := selection + [category];
    assert category in once;
    FilterConcat(selection, [category], OtherId(category.id));
    FilterAll(selection, OtherId(category.id));
    assert Filter([category], OtherId(category.id)) == [];
  }

  /** With distinct ids, no entry before or after position `k` shares its id. */
  lemma OthersHaveOtherIds(selection: seq<Category>, k: nat)
    requires UniqueIds(selection) && k < |selection|
    ensures forall x :: x in selection[..k] ==> x.id != selection[k].id
    ensures forall x :: x in selection[k + 1..] ==> x.id != selection[k].id
  {
    forall x | x in selection[..k] ensures x.id != selection[k].id {
      var i :| 0 <= i < k && selection[..k][i] == x;
      assert selection[i] == x;
    }
    forall x | x in selection[k + 1..] ensures x.id != selection[k].id {
      var i :| 0 <= i < |selection| - k - 1 && selection[k + 1..][i] == x;
      assert selection[k + 1 + i] == x;
    }
  }

  /**
   * With distinct ids, deselecting removes the one entry that has the id and the
   * others keep their order.
   */
  lemma ToggleRemovesInPlace(selection: seq<Category>, category: Category)
    requires UniqueIds(selection) && HasId(selection, category.id)
    ensures exists k ::
      && 0 <= k < |selection| && selection[k].id == category.id
      && Toggle(selection, category) == selection[..k] + selection[k + 1..]
  {
    var c :| c in selection && c.id == category.id;
    var k :| 0 <= k < |selection| && selection[k] == c;
    OthersHaveOtherIds(selection, k);
    assert selection == selection[..k] + [selection[k]] + selection[k + 1..];
    FilterCutsOne(selection[..k], selection[k], selection[k + 1..], OtherId(category.id));
    assert Toggle(selection, category) == Filter(selection, OtherId(category.id));
  }

  /** Filtering never brings two entries with the same id together. */
  lemma {:induction false} FilterUniqueIds(selection: seq<Category>, p: Category -> bool)
    requires UniqueIds(selection)
    ensures UniqueIds(Filter(selection, p))
  {
    if selection != [] {
      var rest := selection[1..];
      assert UniqueIds(rest) by {
        forall i, j | 0 <= i < j < |rest| ensures rest[i].id != rest[j].id {
          assert rest[i] == selection[i + 1] && rest[j] == selection[j + 1];
        }
      }
      FilterUniqueIds(rest, p);
      if p(selection[0]) {
        var r := Filter(selection, p);
        assert r == [selection[0]] + Filter(rest, p);
        forall k | 0 < k < |r| ensures r[k].id != selection[0].id {
          assert r[k] in Filter(rest, p);
          var m :| 0 <= m < |rest| && rest[m] == r[k];
          assert selection[m + 1] == r[k];
        }
      }
    }
  }

  /** Toggling never introduces a duplicate id. */
  lemma ToggleKeepsIdsUnique(selection: seq<Category>, category: Category)
    requires UniqueIds(selection)
    ensures UniqueIds(Toggle(selection, category))
  {
    if HasId(selection, category.id) {
      FilterUniqueIds(selection, OtherId(category.id));
    } else {
      var r := selection + [category];
      forall i, j | 0 <= i < j < |r| ensures r[i].id != r[j].id {
        if j == |selection| {
          assert r[i] in selection;
        }
      }
    }
  }

  /** `moveUp`: nothing at the top; otherwise the entry trades places with the one above it. */
  function MoveUp(selection: seq<Category>, index: nat): (r: seq<Category>)
    requires index < |selection|
    ensures |r| == |selection| && multiset(r) == multiset(selection)
    ensures index == 0 ==> r == selection
    ensures index > 0 ==>
      && r[index - 1] == selection[index] && r[index] == selection[index - 1]
      && forall k :: 0 <= k < |r| && k != index - 1 && k != index ==> r[k] == selection[k]
  {
    if index == 0 then selection
    else selection[index - 1 := selection[index]][index := selection[index - 1]]
  }

  /** `moveDown`: nothing at the bottom; otherwise the entry trades places with the one below it. */
  function MoveDown(selection: seq<Category>, index: nat): (r: seq<Category>)
    requires index < |selection|
    ensures |r| == |selection| && multiset(r) == multiset(selection)
    ensures index == |selection| - 1 ==> r == selection
    ensures index < |selection| - 1 ==>
      && r[index] == selection[index + 1] && r[index + 1] == selection[index]
      && forall k :: 0 <= k < |r| && k != index && k != index + 1 ==> r[k] == selection[k]
  {
    if index == |selection| - 1 then selection
    else selection[index := selection[index + 1]][index + 1 := selection[index]]
  }

  /** Moving an entry down and then back up restores the selection. */
  lemma MoveDownThenUp(selection: seq<Category>, index: nat)
    requires index + 1 < |selection|
    ensures MoveUp(MoveDown(selection, index), index + 1) == selection
  {
    var r := MoveUp(MoveDown(selection, index), index + 1);
    assert forall k :: 0 <= k < |r| ==> r[k] == selection[k];
  }

  /** Moving an entry up and then back down restores the selection. */
  lemma MoveUpThenDown(selection: seq<Category>, index: nat)
    requires 0 < index < |selection|
    ensures MoveDown(MoveUp(selection, index), index - 1) == selection
  {
    var r := MoveDown(MoveUp(selection, index), index - 1);
    assert forall k :: 0 <= k < |r| ==> r[k] == selection[k];
  }

  /** The moves keep the ids of the selection distinct. */
  lemma MovesKeepIdsUnique(selection: seq<Category>, index: nat)
    requires index < |selection| && UniqueIds(selection)
    ensures UniqueIds(MoveUp(selection, index)) && UniqueIds(MoveDown(selection, index))
  {
    var up := MoveUp(selection, index);
    var down := MoveDown(selection, index);
    forall i, j | 0 <= i < j < |up| ensures up[i].id != up[j].id {
      var si := if index > 0 && i == index - 1 then index else if index > 0 && i == index then index - 1 else i;
      var sj := if index > 0 && j == index - 1 then index else if index > 0 && j == index then index - 1 else j;
      assert up[i] == selection[si] && up[j] == selection[sj] && si != sj;
    }
    forall i, j | 0 <= i < j < |down| ensures down[i].id != down[j].id {
      var last := index == |selection| - 1;
      var si := if !last && i == index then index + 1 else if !last && i == index + 1 then index else i;
      var sj := if !last && j == index then index + 1 else if !last && j == index + 1 then index else j;
      assert down[i] == selection[si] && down[j] == selection[sj] && si != sj;
    }
  }

  const NothingSelected := "Bitte wähle mindestens eine Kategorie"

  /** What pressing save does: show an error, or post these category ids. */
  datatype SaveAction = ShowError(message: string) | PostCategories(categoryIds: seq<nat>)

  /** `saveCategories`: with nothing selected an error and no request, else the ids in selection order. */
  function SaveCategories(selection: seq<Category>): (r: SaveAction)
    ensures r.ShowError? <==> selection == []
    ensures r.ShowError? ==> r.message == NothingSelected
    ensures r.PostCategories? ==>
      |r.categoryIds| == |selection| && forall i :: 0 <= i < |selection| ==> r.categoryIds[i] == selection[i].id
  {
    if |selection| == 0 then ShowError(NothingSelected)
    else PostCategories(seq(|selection|, i requires 0 <= i < |selection| => selection[i].id))
  }

  /**
   * What is saved becomes the play order: after the category route has stored the
   * posted ids, the `i`-th selected category is played `i`-th in the game.
   */
  lemma SavedSelectionIsPlayOrder(t: Tables, gameId: nat, selection: seq<Category>)
    requires selection != []
    ensures var bs := Filter(CategoryRoutes.Assigned(t, gameId, SaveCategories(selection).categoryIds).gameCategories, BindingOf(gameId));
      && |bs| == |selection|
      && forall i :: 0 <= i < |bs| ==> bs[i] == GameCategory(gameId, selection[i].id, i)
  {
    CategoryRoutes.AssignedBindings(t, gameId, SaveCategories(selection).categoryIds);
  }
}
