/** Recipes and the id-based lookups the dashboard performs on lists of them:
  * `find`, `some` and `filter` by id. */
module Recipes {
  import opened Wrappers
  import opened Seqs

  datatype Difficulty = Beginner | Intermediate | Advanced

  /** A catalogue recipe; immutable once fetched. */
  datatype Recipe = Recipe(
    id: string,
    title: string,
    description: string,
    difficulty: Difficulty,
    cookTime: string,
    image: string,
    ingredients: seq<string>,
    steps: seq<string>)

  /** No two recipes in the list share an id. */
  predicate UniqueIds(rs: seq<Recipe>) {
    forall i, j :: 0 <= i < j < |rs| ==> rs[i].id != rs[j].id
  }

  /** `rs.some(r => r.id === id)`. */
  function HasId(rs: seq<Recipe>, id: string): (b: bool)
    ensures b <==> exists k :: 0 <= k < |rs| && rs[k].id == id
  {
    if rs == [] then false
    else rs[0].id == id || HasId(rs[1..], id)
  }

  /** `rs.find(r => r.id === id)`: the first recipe with that id, if any. */
  function FindById(rs: seq<Recipe>, id: string): (o: Option<Recipe>)
    ensures o.None? <==> !HasId(rs, id)
    ensures o.Some? ==> exists k :: 0 <= k < |rs| && rs[k] == o.value && o.value.id == id
                                    && forall j :: 0 <= j < k ==> rs[j].id != id
  {
    if rs == [] then None
    else if rs[0].id == id then Some(rs[0])
    else
      var o := FindById(rs[1..], id);
      assert o.Some? ==> exists k :: 0 < k < |rs| && rs[k] == o.value && o.value.id == id
                                    && forall j :: 0 <= j < k ==> rs[j].id != id by {
        if o.Some? {
          var k :| 0 <= k < |rs[1..]| && rs[1..][k] == o.value && o.value.id == id
                   && forall j :: 0 <= j < k ==> rs[1..][j].id != id;
          assert rs[k + 1] == o.value;
          forall j | 0 <= j < k + 1 ensures rs[j].id != id {
            if j > 0 { assert rs[j] == rs[1..][j - 1]; }
          }
        }
      }
      o
  }

  /** `rs.filter(r => r.id !== id)`. */
  function WithoutId(rs: seq<Recipe>, id: string): (r: seq<Recipe>)
    ensures !HasId(r, id)
    ensures forall x :: x in r <==> x in rs && x.id != id
    ensures HasId(rs, id) ==> |r| < |rs|
  {
    var keep := (x: Recipe) => x.id != id;
    var r := Filter(rs, keep);
    assert forall k :: 0 <= k < |r| ==> r[k] in r;
    if HasId(rs, id) then
      var k :| 0 <= k < |rs| && rs[k].id == id;
      FilterDrops(rs, keep, k);
      r
    else r
  }

  /** Removing an id that is not there leaves the list as it was. */
  lemma WithoutAbsentId(rs: seq<Recipe>, id: string)
    requires !HasId(rs, id)
    ensures WithoutId(rs, id) == rs
  {
    FilterKeepsAll(rs, (x: Recipe) => x.id != id);
  }

  /** Once an id is rejected it can no longer be found, so accepting it
    * (from the feed or from the favourites' "Cook Again") finds nothing. */
  lemma RejectedNotFound(rs: seq<Recipe>, id: string)
    ensures FindById(WithoutId(rs, id), id) == None
  {
  }

  /** Removing the same id twice is removing it once. */
  lemma WithoutIdIdempotent(rs: seq<Recipe>, id: string)
    ensures WithoutId(WithoutId(rs, id), id) == WithoutId(rs, id)
  {
    WithoutAbsentId(WithoutId(rs, id), id);
  }

  /** Removal by id keeps the survivors in their original order: it works
    * piecewise on any split of the list. */
  lemma WithoutIdConcat(a: seq<Recipe>, b: seq<Recipe>, id: string)
    ensures WithoutId(a + b, id) == WithoutId(a, id) + WithoutId(b, id)
  {
    FilterConcat(a, b, (x: Recipe) => x.id != id);
  }

  /** Removal by id keeps ids unique. */
  lemma {:induction false} WithoutIdKeepsUnique(rs: seq<Recipe>, id: string)
    requires UniqueIds(rs)
    ensures UniqueIds(WithoutId(rs, id))
  {
    if rs != [] {
      var tail := rs[1..];
      assert rs == [rs[0]] + tail;
      WithoutIdConcat([rs[0]], tail, id);
      WithoutIdKeepsUnique(tail, id);
      var rest := WithoutId(tail, id);
      forall k | 0 <= k < |rest| ensures rest[k].id != rs[0].id {
        assert rest[k] in tail;
      }
    }
  }

  /** The favourites list after `toggleFavorite(recipe)`: every entry with the
    * recipe's id removed if there was one, otherwise the recipe appended. */
  function Toggle(favorites: seq<Recipe>, recipe: Recipe): (r: seq<Recipe>)
    ensures HasId(r, recipe.id) == !HasId(favorites, recipe.id)
    ensures forall id :: id != recipe.id ==> HasId(r, id) == HasId(favorites, id)
    ensures forall x :: x in r <==>
              (x in favorites && x.id != recipe.id) || (x == recipe && !HasId(favorites, recipe.id))
    ensures HasId(favorites, recipe.id) ==> |r| < |favorites|
    ensures !HasId(favorites, recipe.id) ==>
              |r| == |favorites| + 1 && r[..|favorites|] == favorites && r[|favorites|] == recipe
  {
    if HasId(favorites, recipe.id) then WithoutId(favorites, recipe.id)
    else
      HasIdAppend(favorites, recipe);
      favorites + [recipe]
  }

  /** An appended recipe adds exactly its own id. */
  lemma HasIdAppend(rs: seq<Recipe>, recipe: Recipe)
    ensures forall id :: HasId(rs + [recipe], id) == (HasId(rs, id) || recipe.id == id)
  {
    var all := rs + [recipe];
    forall id ensures HasId(all, id) == (HasId(rs, id) || recipe.id == id) {
      if HasId(rs, id) {
        var k :| 0 <= k < |rs| && rs[k].id == id;
        assert all[k] == rs[k];
      }
      if HasId(all, id) && recipe.id != id {
        var k :| 0 <= k < |all| && all[k].id == id;
        assert all[k] == rs[k];
      }
      assert all[|rs|] == recipe;
    }
  }

  /** Toggling twice restores membership of every id. */
  lemma ToggleTwiceMembership(favorites: seq<Recipe>, recipe: Recipe, id: string)
    ensures HasId(Toggle(Toggle(favorites, recipe), recipe), id) == HasId(favorites, id)
  {
  }

  /** Toggling a recipe that is not a favourite in and out again restores the
    * list itself. */
  lemma ToggleTwiceRestores(favorites: seq<Recipe>, recipe: Recipe)
    requires !HasId(favorites, recipe.id)
    ensures Toggle(Toggle(favorites, recipe), recipe) == favorites
  {
    WithoutIdConcat(favorites, [recipe], recipe.id);
    WithoutAbsentId(favorites, recipe.id);
    assert WithoutId([recipe], recipe.id) == [];
  }

  /** Favourites never hold two entries with the same id. */
  lemma ToggleKeepsUnique(favorites: seq<Recipe>, recipe: Recipe)
    requires UniqueIds(favorites)
    ensures UniqueIds(Toggle(favorites, recipe))
  {
    if HasId(favorites, recipe.id) {
      WithoutIdKeepsUnique(favorites, recipe.id);
    }
  }
}
