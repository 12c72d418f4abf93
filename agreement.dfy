/**
  How the two matching engines relate. The handler's list-based records refine
  the service's set-based ones: read as sets they carry the same missing and
  used names and the same verdict. The handler's lists are longer than the
  service's sets exactly when a recipe lists an ingredient twice (used), or
  lists an ingredient it does not own twice (missing).
 */
module Agreement {
  import opened Store
  import RecipeService
  import RecipesRouter

  /** The set of names occurring in a list. */
  function Elements(s: seq<string>): (r: set<string>)
    ensures forall n :: n in r <==> n in s
  {
    set n | n in s
  }

  lemma {:induction false} ElementsSize(s: seq<string>)
    ensures |Elements(s)| <= |s|
    decreases |s|
  {
    if s != [] {
      ElementsSize(s[1..]);
      assert Elements(s) == {s[0]} + Elements(s[1..]) by {
        assert s == [s[0]] + s[1..];
      }
    }
  }

  /** A list in which some name occurs twice has fewer distinct names than entries. */
  lemma {:induction false} ElementsSizeWithDuplicate(s: seq<string>, n: string)
    requires multiset(s)[n] >= 2
    ensures |Elements(s)| < |s|
    decreases |s|
  {
    assert s == [s[0]] + s[1..];
    assert Elements(s) == {s[0]} + Elements(s[1..]);
    if s[0] == n {
      assert n in multiset(s[1..]);
      assert Elements(s) == Elements(s[1..]);
      ElementsSize(s[1..]);
    } else {
      ElementsSizeWithDuplicate(s[1..], n);
    }
  }

  /** A list without repeated names has as many distinct names as entries. */
  lemma {:induction false} ElementsSizeDistinct(s: seq<string>)
    requires RecipesRouter.Distinct(s)
    ensures |Elements(s)| == |s|
    decreases |s|
  {
    if s != [] {
      var tail := s[1..];
      assert RecipesRouter.Distinct(tail) by {
        forall i, j | 0 <= i < j < |tail| ensures tail[i] != tail[j] {
          assert s[i + 1] != s[j + 1];
        }
      }
      ElementsSizeDistinct(tail);
      forall j | 0 <= j < |tail| ensures tail[j] != s[0] {
        assert s[j + 1] != s[0];
      }
      assert Elements(s) == {s[0]} + Elements(tail) by {
        assert s == [s[0]] + tail;
      }
    }
  }

  /** The requirement-name list and the required-name set hold the same names. */
  lemma RequirementNamesElements(recipe: Recipe)
    ensures Elements(RequirementNames(recipe)) == RequiredNames(recipe)
  {
    var names := RequirementNames(recipe);
    forall n ensures n in names <==> Requires(recipe, n) {
      if n in names {
        var k :| 0 <= k < |names| && names[k] == n;
        assert recipe.requirements[k] in recipe.requirements;
      }
      if Requires(recipe, n) {
        var q :| q in recipe.requirements && q.ingredient.name == n;
        var k :| 0 <= k < |recipe.requirements| && recipe.requirements[k] == q;
        assert names[k] == n;
      }
    }
  }

  /** A list record agrees with a set record when, read as sets, they say the same. */
  predicate Agree(l: RecipesRouter.ListFeasibility, s: RecipeService.SetFeasibility) {
    && l.id == s.id && l.name == s.name
    && l.canMake == s.canMake
    && Elements(l.missingIngredients) == s.missingIngredients
    && Elements(l.usedIngredients) == s.usedIngredients
  }

  /** For every recipe and pantry, both engines give the same verdict and the same name sets. */
  lemma MatchesAgree(recipe: Recipe, owned: set<string>)
    ensures Agree(RecipesRouter.MatchList(recipe, owned), RecipeService.MatchSet(recipe, owned))
    ensures |RecipeService.MatchSet(recipe, owned).usedIngredients|
         <= |RecipesRouter.MatchList(recipe, owned).usedIngredients|
    ensures |RecipeService.MatchSet(recipe, owned).missingIngredients|
         <= |RecipesRouter.MatchList(recipe, owned).missingIngredients|
  {
    var l := RecipesRouter.MatchList(recipe, owned);
    var s := RecipeService.MatchSet(recipe, owned);
    RequirementNamesElements(recipe);
    assert Elements(l.usedIngredients) == s.usedIngredients;
    assert l.missingIngredients == RecipesRouter.Unowned(l.usedIngredients, owned);
    forall n ensures n in l.missingIngredients <==> n in s.missingIngredients {
      assert n in l.missingIngredients <==> n in l.usedIngredients && n !in owned;
    }
    assert Elements(l.missingIngredients) == s.missingIngredients;
    if l.missingIngredients != [] {
      assert l.missingIngredients[0] in s.missingIngredients;
    }
    ElementsSize(l.usedIngredients);
    ElementsSize(l.missingIngredients);
  }

  /** The two engines fail together, and otherwise answer record by record alike. */
  lemma SuggestionsAgree(user: Option<User>, recipes: seq<Recipe>)
    ensures RecipesRouter.ListSuggestion(user, recipes).Failure?
        <==> RecipeService.SetSuggestion(user, recipes).Failure?
    ensures RecipesRouter.ListSuggestion(user, recipes).Success? ==>
      var l := RecipesRouter.ListSuggestion(user, recipes).value;
      var s := RecipeService.SetSuggestion(user, recipes).value;
      |l| == |s| && forall i | 0 <= i < |l| :: Agree(l[i], s[i])
  {
    if user.Some? {
      var owned := OwnedNames(user.value.pantry);
      forall i | 0 <= i < |recipes|
        ensures Agree(RecipesRouter.ListReport(recipes, owned)[i], RecipeService.SetReport(recipes, owned)[i])
      {
        MatchesAgree(recipes[i], owned);
      }
    }
  }

  /** An unowned requirement listed twice makes the handler's missing list longer than the service's set. */
  lemma DuplicatesDisagreeInLength(recipe: Recipe, owned: set<string>, i: int, j: int)
    requires 0 <= i < j < |recipe.requirements|
    requires recipe.requirements[i].ingredient.name == recipe.requirements[j].ingredient.name
    requires recipe.requirements[i].ingredient.name !in owned
    ensures |RecipeService.MatchSet(recipe, owned).missingIngredients|
          < |RecipesRouter.MatchList(recipe, owned).missingIngredients|
  {
    var missing := RecipesRouter.MatchList(recipe, owned).missingIngredients;
    RecipesRouter.DuplicateRequirementReportedTwice(recipe, owned, i, j);
    ElementsSizeWithDuplicate(missing, recipe.requirements[i].ingredient.name);
    MatchesAgree(recipe, owned);
  }

  /** Some requirement name is listed twice. */
  predicate HasRepeat(recipe: Recipe) {
    exists i, j | 0 <= i < j < |recipe.requirements| ::
      recipe.requirements[i].ingredient.name == recipe.requirements[j].ingredient.name
  }

  /** Some requirement name the user does not own is listed twice. */
  predicate HasUnownedRepeat(recipe: Recipe, owned: set<string>) {
    exists i, j | 0 <= i < j < |recipe.requirements| ::
      recipe.requirements[i].ingredient.name == recipe.requirements[j].ingredient.name
      && recipe.requirements[i].ingredient.name !in owned
  }

  /** The handler's used list is longer than the service's used set exactly when a name repeats. */
  lemma UsedLongerExactlyOnRepeat(recipe: Recipe, owned: set<string>)
    ensures |RecipeService.MatchSet(recipe, owned).usedIngredients|
          < |RecipesRouter.MatchList(recipe, owned).usedIngredients|
        <==> HasRepeat(recipe)
  {
    var reqs := recipe.requirements;
    var names := RequirementNames(recipe);
    MatchesAgree(recipe, owned);
    if HasRepeat(recipe) {
      var i, j :| 0 <= i < j < |reqs| && reqs[i].ingredient.name == reqs[j].ingredient.name;
      RecipeService.DuplicateRequirementReportedOnce(recipe, owned, i, j);
    } else {
      assert RecipesRouter.Distinct(names) by {
        forall i, j | 0 <= i < j < |names| ensures names[i] != names[j] {
          assert reqs[i].ingredient.name == names[i] && reqs[j].ingredient.name == names[j];
        }
      }
      ElementsSizeDistinct(names);
      RequirementNamesElements(recipe);
    }
  }

  /** The handler's missing list is longer than the service's missing set exactly when an
      unowned name repeats. */
  lemma MissingLongerExactlyOnUnownedRepeat(recipe: Recipe, owned: set<string>)
    ensures |RecipeService.MatchSet(recipe, owned).missingIngredients|
          < |RecipesRouter.MatchList(recipe, owned).missingIngredients|
        <==> HasUnownedRepeat(recipe, owned)
  {
    var reqs := recipe.requirements;
    MatchesAgree(recipe, owned);
    if HasUnownedRepeat(recipe, owned) {
      var i, j :| 0 <= i < j < |reqs| && reqs[i].ingredient.name == reqs[j].ingredient.name
                  && reqs[i].ingredient.name !in owned;
      DuplicatesDisagreeInLength(recipe, owned, i, j);
    } else {
      var names := RequirementNames(recipe);
      assert RecipesRouter.RepeatsOnlyOwned(names, owned) by {
        forall i, j | 0 <= i < j < |names| && names[i] == names[j] ensures names[i] in owned {
          assert reqs[i].ingredient.name == names[i] && reqs[j].ingredient.name == names[j];
        }
      }
      RecipesRouter.UnownedDistinct(names, owned);
      assert RecipesRouter.MatchList(recipe, owned).missingIngredients == RecipesRouter.Unowned(names, owned);
      ElementsSizeDistinct(RecipesRouter.Unowned(names, owned));
    }
  }
}
