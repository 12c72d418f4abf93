/**
  The data the recipe-matching engine reads: users with their pantries, the
  ingredient catalogue and the recipe book, as plain values. The database
  queries of the backend become explicit inputs: the users table is a
  sequence searched by `FindUser`, the recipe table is a sequence of recipes.
 */
module Store {

  datatype Option<T> = None | Some(value: T)

  /** The only error the engine raises itself: the requested user does not exist. */
  datatype SuggestError = UserNotFound

  datatype Result<T> = Success(value: T) | Failure(error: SuggestError)

  /** An ingredient of the catalogue. Matching compares ingredients by name only. */
  datatype Ingredient = Ingredient(id: int, name: string, defaultShelfLifeDays: int)

  /** One entry of a user's pantry; `expiryDay` is a day number, absent when unset. */
  datatype PantryEntry = PantryEntry(ingredient: Ingredient, quantity: int, expiryDay: Option<int>)

  datatype User = User(id: int, email: string, pantry: seq<PantryEntry>)

  /** One requirement of a recipe; the amount is free text the engine never reads. */
  datatype Requirement = Requirement(ingredient: Ingredient, amount: Option<string>)

  type RecipeId = string

  datatype Recipe = Recipe(id: RecipeId, name: string, requirements: seq<Requirement>)

  /** The first user of the table whose id is `id`, or None when there is none. */
  function FindUser(users: seq<User>, id: int): (r: Option<User>)
    ensures r.None? <==> forall k | 0 <= k < |users| :: users[k].id != id
    ensures r.Some? ==> exists k | 0 <= k < |users| ::
      users[k] == r.value && r.value.id == id && forall j | 0 <= j < k :: users[j].id != id
    decreases |users|
  {
    if users == [] then None
    else if users[0].id == id then Some(users[0])
    else
      var r := FindUser(users[1..], id);
      if r.Some? then
        ghost var k :| 0 <= k < |users[1..]| && users[1..][k] == r.value && r.value.id == id
                       && forall j | 0 <= j < k :: users[1..][j].id != id;
        assert users[k + 1] == r.value;
        r
      else r
  }

  /** The user owns an ingredient with this name. */
  predicate Owns(pantry: seq<PantryEntry>, n: string) {
    exists e :: e in pantry && e.ingredient.name == n
  }

  /** The set of ingredient names in a pantry: quantities and expiry dates do not enter it. */
  function OwnedNames(pantry: seq<PantryEntry>): (r: set<string>)
    ensures forall n :: n in r <==> Owns(pantry, n)
  {
    set e | e in pantry :: e.ingredient.name
  }

  /** The recipe lists an ingredient with this name among its requirements. */
  predicate Requires(recipe: Recipe, n: string) {
    exists q :: q in recipe.requirements && q.ingredient.name == n
  }

  /** The set of ingredient names a recipe requires; a name listed twice appears once. */
  function RequiredNames(recipe: Recipe): (r: set<string>)
    ensures forall n :: n in r <==> Requires(recipe, n)
  {
    set q | q in recipe.requirements :: q.ingredient.name
  }

  /** Collapsing duplicates never makes the set of required names larger than the list. */
  lemma {:induction false} RequiredNamesSize(recipe: Recipe)
    ensures |RequiredNames(recipe)| <= |recipe.requirements|
    decreases |recipe.requirements|
  {
    var reqs := recipe.requirements;
    if reqs != [] {
      var rest := recipe.(requirements := reqs[1..]);
      RequiredNamesSize(rest);
      assert RequiredNames(recipe) == {reqs[0].ingredient.name} + RequiredNames(rest) by {
        assert reqs == [reqs[0]] + reqs[1..];
      }
    }
  }

  /** The requirement names of a recipe as a list: order and duplicates are kept. */
  function RequirementNames(recipe: Recipe): (r: seq<string>)
    ensures |r| == |recipe.requirements|
    ensures forall k | 0 <= k < |r| :: r[k] == recipe.requirements[k].ingredient.name
  {
    seq(|recipe.requirements|, k requires 0 <= k < |recipe.requirements| =>
      recipe.requirements[k].ingredient.name)
  }

  /** Two pantries hold ingredients of exactly the same names, whatever their quantities. */
  predicate SameIngredients(p1: seq<PantryEntry>, p2: seq<PantryEntry>) {
    (forall e | e in p1 :: Owns(p2, e.ingredient.name)) &&
    (forall e | e in p2 :: Owns(p1, e.ingredient.name))
  }

  lemma SameIngredientsSameOwned(p1: seq<PantryEntry>, p2: seq<PantryEntry>)
    requires SameIngredients(p1, p2)
    ensures OwnedNames(p1) == OwnedNames(p2)
  {
    forall n ensures n in OwnedNames(p1) <==> n in OwnedNames(p2) {
      if n in OwnedNames(p1) {
        var e :| e in p1 && e.ingredient.name == n;
        assert Owns(p2, e.ingredient.name);
      }
      if n in OwnedNames(p2) {
        var e :| e in p2 && e.ingredient.name == n;
        assert Owns(p1, e.ingredient.name);
      }
    }
  }

  /** Changing the quantity or expiry of one pantry entry keeps the same ingredients. */
  lemma RequantifyKeepsIngredients(pantry: seq<PantryEntry>, i: int, quantity: int, expiryDay: Option<int>)
    requires 0 <= i < |pantry|
    ensures SameIngredients(pantry, pantry[i := pantry[i].(quantity := quantity, expiryDay := expiryDay)])
  {
    var edited := pantry[i := pantry[i].(quantity := quantity, expiryDay := expiryDay)];
    forall e | e in pantry ensures Owns(edited, e.ingredient.name) {
      var k :| 0 <= k < |pantry| && pantry[k] == e;
      assert edited[k].ingredient.name == e.ingredient.name;
      assert edited[k] in edited;
    }
    forall e | e in edited ensures Owns(pantry, e.ingredient.name) {
      var k :| 0 <= k < |edited| && edited[k] == e;
      assert pantry[k].ingredient.name == e.ingredient.name;
      assert pantry[k] in pantry;
    }
  }

  /** Adding a second entry for an ingredient already in the pantry keeps the same ingredients. */
  lemma DuplicateKeepsIngredients(pantry: seq<PantryEntry>, i: int, quantity: int, expiryDay: Option<int>)
    requires 0 <= i < |pantry|
    ensures SameIngredients(pantry, pantry + [pantry[i].(quantity := quantity, expiryDay := expiryDay)])
  {
    var extended := pantry + [pantry[i].(quantity := quantity, expiryDay := expiryDay)];
    forall e | e in pantry ensures Owns(extended, e.ingredient.name) {
      assert e in extended;
    }
    forall e | e in extended ensures Owns(pantry, e.ingredient.name) {
      if e !in pantry {
        assert pantry[i] in pantry;
      }
    }
  }
}
