/**
  The list-based matching of the `/recipes/suggest` handler: the pantry is
  reduced to a set of names, but each recipe's requirement names stay a list,
  so the missing ingredients keep the recipe's order and its duplicates.
 */
module RecipesRouter {
  import opened Store

  /** One feasibility record of the handler's answer. */
  datatype ListFeasibility = ListFeasibility(
    id: RecipeId,
    name: string,
    canMake: bool,
    missingIngredients: seq<string>,
    usedIngredients: seq<string>)

  /** The names of the list that the user does not own, in list order. */
  function Unowned(names: seq<string>, owned: set<string>): (r: seq<string>)
    ensures |r| <= |names|
    ensures forall n :: n in r <==> n in names && n !in owned
    decreases |names|
  {
    if names == [] then []
    else (if names[0] in owned then [] else [names[0]]) + Unowned(names[1..], owned)
  }

  /** Each unowned name occurs among the missing exactly as often as in the list. */
  lemma {:induction false} UnownedCount(names: seq<string>, owned: set<string>, n: string)
    ensures multiset(Unowned(names, owned))[n] == if n in owned then 0 else multiset(names)[n]
    decreases |names|
  {
    if names != [] {
      UnownedCount(names[1..], owned, n);
      assert names == [names[0]] + names[1..];
    }
  }

  /** Every unowned name occurs in `missing` as often as in `names`; owned names never occur. */
  ghost predicate KeepsUnownedCounts(missing: seq<string>, names: seq<string>, owned: set<string>) {
    forall n :: multiset(missing)[n] == (if n in owned then 0 else multiset(names)[n])
  }

  /** `s` is obtained from `t` by deleting elements, the rest keeping their order. */
  predicate IsSubsequence(s: seq<string>, t: seq<string>)
    decreases |t|
  {
    if s == [] then true
    else if t == [] then false
    else (s[0] == t[0] && IsSubsequence(s[1..], t[1..])) || IsSubsequence(s, t[1..])
  }

  /** The missing list is an order-preserving subsequence of the requirement list. */
  lemma {:induction false} UnownedIsSubsequence(names: seq<string>, owned: set<string>)
    ensures IsSubsequence(Unowned(names, owned), names)
    decreases |names|
  {
    if names != [] {
      UnownedIsSubsequence(names[1..], owned);
      if names[0] !in owned {
        assert Unowned(names, owned)[1..] == Unowned(names[1..], owned);
      } else {
        assert Unowned(names, owned) == Unowned(names[1..], owned);
      }
    }
  }

  /** Filtering distributes over concatenation: the filter keeps relative order. */
  lemma {:induction false} UnownedConcat(a: seq<string>, b: seq<string>, owned: set<string>)
    ensures Unowned(a + b, owned) == Unowned(a, owned) + Unowned(b, owned)
    decreases |a|
  {
    if a != [] {
      var head := if a[0] in owned then [] else [a[0]];
      assert (a + b)[0] == a[0];
      assert (a + b)[1..] == a[1..] + b;
      assert Unowned(a + b, owned) == head + Unowned(a[1..] + b, owned);
      UnownedConcat(a[1..], b, owned);
      assert Unowned(a, owned) == head + Unowned(a[1..], owned);
    } else {
      assert a + b == b;
    }
  }

  /** No name occurs twice in the list. */
  predicate Distinct(s: seq<string>) {
    forall i, j | 0 <= i < j < |s| :: s[i] != s[j]
  }

  /** Every name the list repeats is owned. */
  predicate RepeatsOnlyOwned(names: seq<string>, owned: set<string>) {
    forall i, j | 0 <= i < j < |names| :: names[i] == names[j] ==> names[i] in owned
  }

  /** When only owned names repeat, the missing list holds every name at most once. */
  lemma {:induction false} UnownedDistinct(names: seq<string>, owned: set<string>)
    requires RepeatsOnlyOwned(names, owned)
    ensures Distinct(Unowned(names, owned))
    decreases |names|
  {
    if names != [] {
      var tail := names[1..];
      assert RepeatsOnlyOwned(tail, owned) by {
        forall i, j | 0 <= i < j < |tail| && tail[i] == tail[j] ensures tail[i] in owned {
          assert names[i + 1] == names[j + 1];
        }
      }
      UnownedDistinct(tail, owned);
      var rest := Unowned(tail, owned);
      if names[0] !in owned {
        forall j | 0 <= j < |tail| ensures tail[j] != names[0] {
          assert names[0] != names[j + 1];
        }
        var r := Unowned(names, owned);
        assert r == [names[0]] + rest;
        forall i, j | 0 <= i < j < |r| ensures r[i] != r[j] {
          if i == 0 {
            assert r[j] == rest[j - 1];
            assert rest[j - 1] in rest;
          } else {
            assert r[i] == rest[i - 1] && r[j] == rest[j - 1];
          }
        }
      } else {
        assert Unowned(names, owned) == rest;
      }
    }
  }

  /** The record for one recipe, given the names the user owns. */
  function MatchList(recipe: Recipe, owned: set<string>): (r: ListFeasibility)
    ensures r.id == recipe.id && r.name == recipe.name
    ensures r.usedIngredients == RequirementNames(recipe)
    ensures |r.missingIngredients| <= |r.usedIngredients|
    ensures r.canMake <==> r.missingIngredients == []
  {
    var recipeIngs := RequirementNames(recipe);
    var missing := Unowned(recipeIngs, owned);
    ListFeasibility(recipe.id, recipe.name, |missing| == 0, missing, recipeIngs)
  }

  /** What a record of the handler says: used is the requirement-name list in order;
      missing is its order-preserving subsequence of unowned names, each kept as often
      as listed; the recipe can be made exactly when every requirement is owned. */
  lemma MatchListMeaning(recipe: Recipe, owned: set<string>)
    ensures var r := MatchList(recipe, owned);
      && |r.usedIngredients| == |recipe.requirements|
      && (forall k | 0 <= k < |r.usedIngredients| ::
            r.usedIngredients[k] == recipe.requirements[k].ingredient.name)
      && IsSubsequence(r.missingIngredients, r.usedIngredients)
      && (forall n :: n in r.missingIngredients <==> n in r.usedIngredients && n !in owned)
      && (forall n :: n in r.usedIngredients && n !in r.missingIngredients ==> n in owned)
      && KeepsUnownedCounts(r.missingIngredients, r.usedIngredients, owned)
      && (r.canMake <==> forall k | 0 <= k < |recipe.requirements| ::
            recipe.requirements[k].ingredient.name in owned)
  {
    var recipeIngs := RequirementNames(recipe);
    var missing := Unowned(recipeIngs, owned);
    assert MatchList(recipe, owned).missingIngredients == missing;
    UnownedIsSubsequence(recipeIngs, owned);
    forall n ensures multiset(missing)[n] == if n in owned then 0 else multiset(recipeIngs)[n] {
      UnownedCount(recipeIngs, owned, n);
    }
    if missing != [] {
      assert missing[0] in missing;
      assert missing[0] in recipeIngs;
    }
  }

  /** The records for a list of recipes, built the way the handler appends them. */
  function ListReport(recipes: seq<Recipe>, owned: set<string>): (r: seq<ListFeasibility>)
    ensures |r| == |recipes|
    ensures forall i | 0 <= i < |recipes| :: r[i] == MatchList(recipes[i], owned)
    decreases |recipes|
  {
    if recipes == [] then []
    else
      ListReport(recipes[..|recipes| - 1], owned) + [MatchList(recipes[|recipes| - 1], owned)]
  }

  /** The handler's answer for a user that was looked up (None: not found). */
  function ListSuggestion(user: Option<User>, recipes: seq<Recipe>): (r: Result<seq<ListFeasibility>>)
    ensures r.Failure? <==> user.None?
    ensures r.Failure? ==> r.error == UserNotFound
    ensures r.Success? ==> |r.value| == |recipes|
    ensures r.Success? ==> forall i | 0 <= i < |recipes| ::
      r.value[i].id == recipes[i].id && r.value[i].name == recipes[i].name
  {
    match user
    case None => Failure(UserNotFound)
    case Some(u) => Success(ListReport(recipes, OwnedNames(u.pantry)))
  }

  /** Looks the user up, then builds one record per recipe in a loop. */
  method SuggestRecipes(users: seq<User>, userId: int, recipes: seq<Recipe>)
    returns (r: Result<seq<ListFeasibility>>)
    ensures r == ListSuggestion(FindUser(users, userId), recipes)
  {
    var user := FindUser(users, userId);
    if user.None? {
      return Failure(UserNotFound);
    }
    var result := [];
    var userIngs := OwnedNames(user.value.pantry);
    for i := 0 to |recipes|
      invariant result == ListReport(recipes[..i], userIngs)
    {
      assert recipes[..i + 1][..i] == recipes[..i];
      result := result + [MatchList(recipes[i], userIngs)];
    }
    assert recipes[..|recipes|] == recipes;
    return Success(result);
  }

  /** A recipe without requirements can be made by anyone, even from an empty pantry. */
  lemma NoRequirementsAlwaysMakeable(recipe: Recipe, owned: set<string>)
    requires recipe.requirements == []
    ensures MatchList(recipe, owned).canMake
    ensures MatchList(recipe, owned).missingIngredients == []
    ensures MatchList(recipe, owned).usedIngredients == []
  {
  }

  /** An unowned requirement listed twice appears (at least) twice among the missing. */
  lemma DuplicateRequirementReportedTwice(recipe: Recipe, owned: set<string>, i: int, j: int)
    requires 0 <= i < j < |recipe.requirements|
    requires recipe.requirements[i].ingredient.name == recipe.requirements[j].ingredient.name
    requires recipe.requirements[i].ingredient.name !in owned
    ensures multiset(MatchList(recipe, owned).missingIngredients)[recipe.requirements[i].ingredient.name] >= 2
  {
    var names := RequirementNames(recipe);
    var n := names[i];
    assert names == names[..i] + [names[i]] + names[i + 1..j] + [names[j]] + names[j + 1..];
    assert multiset(names)[n] >= 2;
    assert MatchList(recipe, owned).missingIngredients == Unowned(names, owned);
    UnownedCount(names, owned, n);
  }

  /** Pantries holding the same ingredient names give the same answer. */
  lemma SuggestionDependsOnlyOnNames(u1: User, u2: User, recipes: seq<Recipe>)
    requires SameIngredients(u1.pantry, u2.pantry)
    ensures ListSuggestion(Some(u1), recipes) == ListSuggestion(Some(u2), recipes)
  {
    SameIngredientsSameOwned(u1.pantry, u2.pantry);
  }

  /** Changing an entry's quantity or expiry never changes any record. */
  lemma QuantityIndependence(u: User, i: int, quantity: int, expiryDay: Option<int>, recipes: seq<Recipe>)
    requires 0 <= i < |u.pantry|
    ensures
      var edited := u.(pantry := u.pantry[i := u.pantry[i].(quantity := quantity, expiryDay := expiryDay)]);
      ListSuggestion(Some(edited), recipes) == ListSuggestion(Some(u), recipes)
  {
    RequantifyKeepsIngredients(u.pantry, i, quantity, expiryDay);
    SuggestionDependsOnlyOnNames(
      u.(pantry := u.pantry[i := u.pantry[i].(quantity := quantity, expiryDay := expiryDay)]), u, recipes);
  }

  /** A second pantry entry for an ingredient already owned never changes any record. */
  lemma DuplicateEntryIndependence(u: User, i: int, quantity: int, expiryDay: Option<int>, recipes: seq<Recipe>)
    requires 0 <= i < |u.pantry|
    ensures
      var extended := u.(pantry := u.pantry + [u.pantry[i].(quantity := quantity, expiryDay := expiryDay)]);
      ListSuggestion(Some(extended), recipes) == ListSuggestion(Some(u), recipes)
  {
    DuplicateKeepsIngredients(u.pantry, i, quantity, expiryDay);
    SuggestionDependsOnlyOnNames(
      u.(pantry := u.pantry + [u.pantry[i].(quantity := quantity, expiryDay := expiryDay)]), u, recipes);
  }
}
