/**
  The set-based matching engine of the recipe service: the pantry and each
  recipe are reduced to sets of ingredient names, and a recipe's missing
  ingredients are the set difference. Because the service turns those sets
  into lists in an unspecified order, the records here carry them as sets.
 */
module RecipeService {
  import opened Store

  /** One feasibility record of the service's answer. */
  datatype SetFeasibility = SetFeasibility(
    id: RecipeId,
    name: string,
    canMake: bool,
    missingIngredients: set<string>,
    usedIngredients: set<string>)

  /** The record for one recipe, given the names the user owns. */
  function MatchSet(recipe: Recipe, owned: set<string>): (r: SetFeasibility)
    ensures r.id == recipe.id && r.name == recipe.name
    ensures forall n :: n in r.usedIngredients <==> Requires(recipe, n)
    ensures forall n :: n in r.missingIngredients <==> Requires(recipe, n) && n !in owned
    ensures r.missingIngredients <= r.usedIngredients
    ensures r.usedIngredients - r.missingIngredients <= owned
    ensures r.canMake <==> r.missingIngredients == {}
    ensures r.canMake <==> r.usedIngredients <= owned
  {
    var required := RequiredNames(recipe);
    var missing := required - owned;
    SetFeasibility(recipe.id, recipe.name, |missing| == 0, missing, required)
  }

  /** The records for a list of recipes, built the way the service appends them. */
  function SetReport(recipes: seq<Recipe>, owned: set<string>): (r: seq<SetFeasibility>)
    ensures |r| == |recipes|
    ensures forall i | 0 <= i < |recipes| :: r[i] == MatchSet(recipes[i], owned)
    decreases |recipes|
  {
    if recipes == [] then []
    else SetReport(recipes[..|recipes| - 1], owned) + [MatchSet(recipes[|recipes| - 1], owned)]
  }

  /** The service's answer for a user that was looked up (None: not found). */
  function SetSuggestion(user: Option<User>, recipes: seq<Recipe>): (r: Result<seq<SetFeasibility>>)
    ensures r.Failure? <==> user.None?
    ensures r.Failure? ==> r.error == UserNotFound
    ensures r.Success? ==> |r.value| == |recipes|
    ensures r.Success? ==> forall i | 0 <= i < |recipes| ::
      r.value[i].id == recipes[i].id && r.value[i].name == recipes[i].name
  {
    match user
    case None => Failure(UserNotFound)
    case Some(u) => Success(SetReport(recipes, OwnedNames(u.pantry)))
  }

  /** Looks the user up, then builds one record per recipe in a loop. */
  method SuggestRecipesForUser(users: seq<User>, userId: int, recipes: seq<Recipe>)
    returns (r: Result<seq<SetFeasibility>>)
    ensures r == SetSuggestion(FindUser(users, userId), recipes)
  {
    var user := FindUser(users, userId);
    if user.None? {
      return Failure(UserNotFound);
    }
    var owned := OwnedNames(user.value.pantry);
    var result := [];
    for i := 0 to |recipes|
      invariant result == SetReport(recipes[..i], owned)
    {
      assert recipes[..i + 1][..i] == recipes[..i];
      result := result + [MatchSet(recipes[i], owned)];
    }
    assert recipes[..|recipes|] == recipes;
    return Success(result);
  }

  /** A recipe without requirements can be made by anyone, even from an empty pantry. */
  lemma NoRequirementsAlwaysMakeable(recipe: Recipe, owned: set<string>)
    requires recipe.requirements == []
    ensures MatchSet(recipe, owned).canMake
    ensures MatchSet(recipe, owned).missingIngredients == {}
    ensures MatchSet(recipe, owned).usedIngredients == {}
  {
    assert RequiredNames(recipe) == {};
  }

  /** A requirement listed twice is reported once: the used set is smaller than the list. */
  lemma DuplicateRequirementReportedOnce(recipe: Recipe, owned: set<string>, i: int, j: int)
    requires 0 <= i < j < |recipe.requirements|
    requires recipe.requirements[i].ingredient.name == recipe.requirements[j].ingredient.name
    ensures |MatchSet(recipe, owned).usedIngredients| < |recipe.requirements|
  {
    var reqs := recipe.requirements;
    var others := recipe.(requirements := reqs[..j] + reqs[j + 1..]);
    var used := MatchSet(recipe, owned).usedIngredients;
    assert reqs == reqs[..j] + [reqs[j]] + reqs[j + 1..];
    forall n | n in used ensures n in RequiredNames(others) {
      var q :| q in reqs && q.ingredient.name == n;
      if q == reqs[j] {
        assert reqs[i] in others.requirements;
      } else {
        assert q in others.requirements;
      }
    }
    RequiredNamesSize(others);
    SubsetSize(used, RequiredNames(others));
  }

  /** A subset is never larger than the set containing it. */
  lemma SubsetSize(a: set<string>, b: set<string>)
    requires a <= b
    ensures |a| <= |b|
  {
    assert b == a + (b - a);
  }

  /** The scenario of a user owning egg and flour, and two recipes. */
  lemma PancakesAndOmelette()
    ensures
      var owned := OwnedNames([Entry("egg"), Entry("flour")]);
      var pancakes := MatchSet(Recipe("1", "Pancakes", [Need("egg"), Need("flour"), Need("milk")]), owned);
      var omelette := MatchSet(Recipe("2", "Omelette", [Need("egg")]), owned);
      && !pancakes.canMake && pancakes.missingIngredients == {"milk"}
      && omelette.canMake && omelette.missingIngredients == {}
  {
    var pantry := [Entry("egg"), Entry("flour")];
    assert pantry[0] in pantry && pantry[1] in pantry;
    assert OwnedNames(pantry) == {"egg", "flour"};
    var pancakes := Recipe("1", "Pancakes", [Need("egg"), Need("flour"), Need("milk")]);
    assert pancakes.requirements[0] in pancakes.requirements;
    assert pancakes.requirements[1] in pancakes.requirements;
    assert pancakes.requirements[2] in pancakes.requirements;
    assert RequiredNames(pancakes) == {"egg", "flour", "milk"};
    assert "milk" != "egg" && "milk" != "flour";
    var omelette := Recipe("2", "Omelette", [Need("egg")]);
    assert omelette.requirements[0] in omelette.requirements;
    assert RequiredNames(omelette) == {"egg"};
  }

  /** A requirement on egg listed twice, for a user owning nothing, is reported once. */
  lemma DoubledEggScenario()
    ensures
      var r := MatchSet(Recipe("3", "Eggs", [Need("egg"), Need("egg")]), OwnedNames([]));
      r.missingIngredients == {"egg"} && r.usedIngredients == {"egg"} && !r.canMake
  {
    var eggs := Recipe("3", "Eggs", [Need("egg"), Need("egg")]);
    assert eggs.requirements[0] in eggs.requirements;
    assert RequiredNames(eggs) == {"egg"};
  }

  /** A pantry entry of quantity one for the named ingredient (scenario helper). */
  function Entry(n: string): PantryEntry {
    PantryEntry(Ingredient(0, n, 7), 1, None)
  }

  /** A requirement on the named ingredient without an amount (scenario helper). */
  function Need(n: string): Requirement {
    Requirement(Ingredient(0, n, 7), None)
  }

  /** Pantries holding the same ingredient names give the same answer. */
  lemma SuggestionDependsOnlyOnNames(u1: User, u2: User, recipes: seq<Recipe>)
    requires SameIngredients(u1.pantry, u2.pantry)
    ensures SetSuggestion(Some(u1), recipes) == SetSuggestion(Some(u2), recipes)
  {
    SameIngredientsSameOwned(u1.pantry, u2.pantry);
  }

  /** Changing an entry's quantity or expiry never changes any record. */
  lemma QuantityIndependence(u: User, i: int, quantity: int, expiryDay: Option<int>, recipes: seq<Recipe>)
    requires 0 <= i < |u.pantry|
    ensures
      var edited := u.(pantry := u.pantry[i := u.pantry[i].(quantity := quantity, expiryDay := expiryDay)]);
      SetSuggestion(Some(edited), recipes) == SetSuggestion(Some(u), recipes)
  {
    RequantifyKeepsIngredients(u.pantry, i, quantity, expiryDay);
    SuggestionDependsOnlyOnNames(
      u.(pantry := u.pantry[i := u.pantry[i].(quantity := quantity, expiryDay := expiryDay)]), u, recipes);
  }

  /** A second pantry entry for an ingredient already owned never changes any record. */
  lemma DuplicateEntryIndependence(u: User, i: int, quantity: int, expiryDay: Option<int>, recipes: seq<Recipe>)
    requires 0 <= i < |u.pantry|
    ensures
      var extended := u.(pantry := u.pantry + [u.pantry[i].(quantity := quantity, expiryDay := expiryDay)]);
      SetSuggestion(Some(extended), recipes) == SetSuggestion(Some(u), recipes)
  {
    DuplicateKeepsIngredients(u.pantry, i, quantity, expiryDay);
    SuggestionDependsOnlyOnNames(
      u.(pantry := u.pantry + [u.pantry[i].(quantity := quantity, expiryDay := expiryDay)]), u, recipes);
  }
}
