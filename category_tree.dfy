/** The list logic the preference screens run over the category forest and the
    user's subscriptions: top-level categories, the children of a category,
    and whether a category is subscribed. Both preference screens use the same
    rules, so they are defined once here. */
module CategoryTree {
  import opened Common
  import opened Schema

  predicate IsTopLevel(c: Category) {
    c.parentId.None?
  }

  /** `categories.filter((cat) => !cat.parentId)`. */
  function MainCategories(categories: seq<Category>): seq<Category> {
    Filter(categories, IsTopLevel)
  }

  /** `categories.filter((cat) => cat.parentId === parentId)`. */
  function Subcategories(categories: seq<Category>, parentId: Id): seq<Category> {
    Filter(categories, (c: Category) => c.parentId == Some(parentId))
  }

  /** `preferences.some((p) => p.categoryId === id)`. */
  predicate IsSelected(prefs: seq<ArtPreference>, categoryId: Id) {
    exists i :: 0 <= i < |prefs| && prefs[i].categoryId == categoryId
  }

  /** `preferences.find((p) => p.categoryId === id)`: the first subscription to the category. */
  function FindByCategory(prefs: seq<ArtPreference>, categoryId: Id): (r: Option<ArtPreference>)
    ensures r.Some? ==> r.value in prefs && r.value.categoryId == categoryId
    decreases |prefs|
  {
    if prefs == [] then None
    else if prefs[0].categoryId == categoryId then Some(prefs[0])
    else FindByCategory(prefs[1..], categoryId)
  }

  /** The top-level list is exactly the categories without a parent, in their order. */
  lemma MainCategoriesSpec(categories: seq<Category>, c: Category)
    ensures c in MainCategories(categories) <==> c in categories && c.parentId.None?
    ensures SubsequenceOf(MainCategories(categories), categories)
  {
    FilterMembership(categories, IsTopLevel, c);
    FilterIsSubsequence(categories, IsTopLevel);
  }

  /** The children of `parentId` are exactly the categories pointing at it, in their order. */
  lemma SubcategoriesSpec(categories: seq<Category>, parentId: Id, c: Category)
    ensures c in Subcategories(categories, parentId) <==> c in categories && c.parentId == Some(parentId)
    ensures SubsequenceOf(Subcategories(categories, parentId), categories)
  {
    FilterMembership(categories, (d: Category) => d.parentId == Some(parentId), c);
    FilterIsSubsequence(categories, (d: Category) => d.parentId == Some(parentId));
  }

  /** A category is selected exactly when `find` returns a subscription, and
      that subscription is the first one for the category. */
  lemma {:induction false} FindByCategorySpec(prefs: seq<ArtPreference>, categoryId: Id)
    ensures IsSelected(prefs, categoryId) <==> FindByCategory(prefs, categoryId).Some?
    ensures FindByCategory(prefs, categoryId).Some? ==>
      exists i :: 0 <= i < |prefs| && prefs[i] == FindByCategory(prefs, categoryId).value
        && forall k :: 0 <= k < i ==> prefs[k].categoryId != categoryId
    decreases |prefs|
  {
    if prefs != [] && prefs[0].categoryId != categoryId {
      var rest := prefs[1..];
      FindByCategorySpec(rest, categoryId);
      if IsSelected(prefs, categoryId) {
        var i :| 0 <= i < |prefs| && prefs[i].categoryId == categoryId;
        assert rest[i - 1] == prefs[i];
      }
      if IsSelected(rest, categoryId) {
        var i :| 0 <= i < |rest| && rest[i].categoryId == categoryId;
        assert prefs[i + 1] == rest[i];
      }
      if FindByCategory(rest, categoryId).Some? {
        var i :| 0 <= i < |rest| && rest[i] == FindByCategory(rest, categoryId).value
          && forall k :: 0 <= k < i ==> rest[k].categoryId != categoryId;
        assert prefs[i + 1] == rest[i];
        forall k | 0 <= k < i + 1 ensures prefs[k].categoryId != categoryId {
          if k > 0 {
            assert prefs[k] == rest[k - 1];
          }
        }
      }
    } else if prefs != [] {
      assert IsSelected(prefs, categoryId) by {
        assert prefs[0].categoryId == categoryId;
      }
    }
  }

  /** Removing a category through its first subscription drops only that id:
      a second subscription to the same category, under another id, keeps the
      category selected. */
  lemma DuplicateStaysSelected(prefs: seq<ArtPreference>, categoryId: Id, i: nat, j: nat)
    requires i < |prefs| && j < |prefs|
    requires prefs[i].categoryId == categoryId && prefs[j].categoryId == categoryId
    requires prefs[i].id != prefs[j].id
    ensures FindByCategory(prefs, categoryId).Some?
    ensures IsSelected(WithoutPreference(prefs, FindByCategory(prefs, categoryId).value.id), categoryId)
  {
    FindByCategorySpec(prefs, categoryId);
    var first := FindByCategory(prefs, categoryId).value;
    var keep := if prefs[i].id != first.id then prefs[i] else prefs[j];
    var f := (p: ArtPreference) => p.id != first.id;
    FilterMembership(prefs, f, keep);
    var rest := WithoutPreference(prefs, first.id);
    var k :| 0 <= k < |rest| && rest[k] == keep;
  }
}
