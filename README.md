# Recipe matching of the fridge-app backend, in Dafny

The fridge-app backend keeps, per user, a pantry of ingredient entries
(ingredient, quantity, expiry date) and a book of recipes, each listing the
ingredients it requires. Its one piece of domain logic is recipe matching:
for a user, produce one feasibility record per recipe saying whether the
recipe can be made and which ingredients are missing.

The repository holds two versions of that engine, and this model covers both:

- the **service** `suggest_recipes_for_user` (`backend/app/services/recipe_service.py`)
  reduces the pantry and each recipe to *sets* of ingredient names and reports
  `missing = required - owned`;
- the **handler** `suggest_recipes` behind `GET /recipes/suggest`
  (`backend/app/routers/recipes.py`) reduces the pantry to a set but keeps each
  recipe's requirement names as a *list*, so its missing list keeps the
  recipe's order and any duplicates.

Files:

- `store.dfy`, module `Store`: the entities as datatypes (`Ingredient`,
  `PantryEntry`, `User`, `Requirement`, `Recipe`), the `Result` type whose
  only error is `UserNotFound`, the user lookup `FindUser`, and the name
  extractions `OwnedNames`, `RequiredNames`, `RequirementNames`.
- `recipe_service.dfy`, module `RecipeService`: the set-based engine. `MatchSet`
  builds one record, `SetReport` the record list, `SetSuggestion` the answer
  for a looked-up user, and the method `SuggestRecipesForUser` does what the
  service does: a lookup, then a loop that appends one record per recipe.
- `recipes_router.dfy`, module `RecipesRouter`: the list-based engine with the
  same layout (`Unowned`, `MatchList`, `ListReport`, `ListSuggestion`, and the
  method `SuggestRecipes`).
- `agreement.dfy`, module `Agreement`: the refinement between the two. Read as
  sets, the handler's records equal the service's. The handler's used list is
  longer than the service's used set exactly when a recipe lists some
  ingredient twice. Its missing list is longer than the service's missing set
  exactly when a recipe lists some unowned ingredient twice. Both directions
  are proved.

The database reads become inputs. The users table is a sequence of users.
`FindUser` returns the first one with the requested id, as `.first()` does.
The recipe table is a sequence of recipes, kept in its order. The service
turns its sets into lists with `list(...)`, whose order Python does not fix.
So the service's `missing_ingredients` and `used_ingredients` are modelled as
sets.

The two versions differ in what they emit as `used_ingredients`:

- The service emits `list(recipe_ingredients)`, where `recipe_ingredients` is
  a set (`backend/app/services/recipe_service.py:19-21`, `:31`). So a
  duplicated requirement appears once.
- The handler emits the raw list of requirement names
  (`backend/app/routers/recipes.py:25`, `:33`). So a duplicated requirement
  appears twice, and an unowned one appears twice among the missing as well.
  `RecipesRouter.DuplicateRequirementReportedTwice` and
  `Agreement.DuplicatesDisagreeInLength` prove this.

The two versions also reach the same data through differently named
relationships. Both pairs are folded into one field each:

- The pantry is `user.user_ingredients` in the service
  (`backend/app/services/recipe_service.py:15`) and `user.ingredients` in the
  handler (`backend/app/routers/recipes.py:22`). Only the latter is declared
  in `backend/app/models.py:9`. Both become the field `User.pantry`.
- A recipe's requirements are `recipe.recipe_ingredients` in the service
  (`backend/app/services/recipe_service.py:20`) and `recipe.ingredients` in
  the handler (`backend/app/routers/recipes.py:25`). Both become the field
  `Recipe.requirements`.

## Model

| member | source | states |
|---|---|---|
| `Store.FindUser` | backend/app/services/recipe_service.py:7-9 | the lookup finds nothing exactly when no user has the id; otherwise it returns a user of the table with that id, and no earlier user has it (same lookup at backend/app/routers/recipes.py:15-17) |
| `Store.OwnedNames` | backend/app/services/recipe_service.py:14-16 | a name is owned exactly when some pantry entry's ingredient carries it; quantity and expiry play no part |
| `Store.RequiredNames` | backend/app/services/recipe_service.py:19-21 | a name is required exactly when some requirement of the recipe names it |
| `Store.RequirementNames` | backend/app/routers/recipes.py:25 | the list has one name per requirement, in order, duplicates kept |
| `Store.RequiredNamesSize` | backend/app/services/recipe_service.py:19-21 | collapsing a recipe's requirements to a set never gives more names than requirements |
| `Store.SameIngredientsSameOwned` | backend/app/services/recipe_service.py:14-16 | two pantries whose entries name the same ingredients give the same owned-name set |
| `Store.RequantifyKeepsIngredients` | backend/app/services/recipe_service.py:14-16 | changing one entry's quantity or expiry keeps the same ingredient names |
| `Store.DuplicateKeepsIngredients` | backend/app/services/recipe_service.py:14-16 | adding a second entry for an ingredient already held keeps the same ingredient names |
| `RecipeService.MatchSet` | backend/app/services/recipe_service.py:19-32 | the record keeps the recipe's id and name; used = the names the recipe requires; missing = the required names not owned; missing is a subset of used; used minus missing is owned; can_make iff missing is empty iff every required name is owned |
| `RecipeService.SetReport` | backend/app/services/recipe_service.py:18-32 | exactly one record per recipe, in recipe order, record i being the match of recipe i |
| `RecipeService.SetSuggestion` | backend/app/services/recipe_service.py:7-12 | fails with UserNotFound exactly when the user is absent; otherwise returns one record per recipe carrying that recipe's id and name |
| `RecipeService.SuggestRecipesForUser` | backend/app/services/recipe_service.py:6-34 | the lookup-then-append loop returns exactly the specified answer: UserNotFound for an unknown id, otherwise the per-recipe records of the found user's pantry |
| `RecipeService.NoRequirementsAlwaysMakeable` | backend/app/services/recipe_service.py:19-24 | a recipe with no requirements can be made, with nothing missing, whatever the pantry |
| `RecipeService.DuplicateRequirementReportedOnce` | backend/app/services/recipe_service.py:19-21 | when a recipe lists an ingredient twice, the used set has fewer names than the recipe has requirements |
| `RecipeService.PancakesAndOmelette` | backend/app/services/recipe_service.py:14-24 | owning egg and flour: Pancakes (egg, flour, milk) cannot be made, missing exactly milk; Omelette (egg) can be made, missing nothing |
| `RecipeService.DoubledEggScenario` | backend/app/services/recipe_service.py:19-24 | a recipe listing egg twice, for an empty pantry, reports egg once as used and once as missing |
| `RecipeService.SuggestionDependsOnlyOnNames` | backend/app/services/recipe_service.py:14-16 | users whose pantries name the same ingredients get identical answers |
| `RecipeService.QuantityIndependence` | backend/app/services/recipe_service.py:14-16 | changing a pantry entry's quantity or expiry never changes the answer |
| `RecipeService.DuplicateEntryIndependence` | backend/app/services/recipe_service.py:14-16 | adding a duplicate pantry entry for an owned ingredient never changes the answer |
| `RecipesRouter.Unowned` | backend/app/routers/recipes.py:26 | the filtered list is no longer than the input and holds exactly the input's names that are not owned |
| `RecipesRouter.UnownedCount` | backend/app/routers/recipes.py:26 | every unowned name occurs in the filtered list exactly as often as in the input, and owned names never occur |
| `RecipesRouter.UnownedIsSubsequence` | backend/app/routers/recipes.py:26 | the filtered list is an order-preserving subsequence of the input |
| `RecipesRouter.UnownedConcat` | backend/app/routers/recipes.py:26 | filtering a concatenation is the concatenation of the filtered parts, so relative order is kept |
| `RecipesRouter.UnownedDistinct` | backend/app/routers/recipes.py:26 | when every repeated name of the list is owned, the filtered list holds no name twice |
| `RecipesRouter.MatchList` | backend/app/routers/recipes.py:25-33 | the record keeps the recipe's id and name; used is the requirement-name list; missing is no longer than used; can_make iff missing is empty |
| `RecipesRouter.MatchListMeaning` | backend/app/routers/recipes.py:25-33 | used has one entry per requirement, in order, duplicates kept; missing is an order-preserving subsequence of used holding exactly the unowned names, each as often as used lists it; every used name not missing is owned; can_make iff every requirement name is owned |
| `RecipesRouter.ListReport` | backend/app/routers/recipes.py:24-34 | exactly one record per recipe, in recipe order, record i being the match of recipe i |
| `RecipesRouter.ListSuggestion` | backend/app/routers/recipes.py:15-20 | fails with UserNotFound exactly when the user is absent; otherwise returns one record per recipe carrying that recipe's id and name |
| `RecipesRouter.SuggestRecipes` | backend/app/routers/recipes.py:13-36 | the lookup-then-append loop returns exactly the specified answer: UserNotFound for an unknown id, otherwise the per-recipe records of the found user's pantry |
| `RecipesRouter.NoRequirementsAlwaysMakeable` | backend/app/routers/recipes.py:25-31 | a recipe with no requirements can be made, with empty missing and used lists, whatever the pantry |
| `RecipesRouter.DuplicateRequirementReportedTwice` | backend/app/routers/recipes.py:25-26 | an unowned ingredient listed twice occurs at least twice in the missing list |
| `RecipesRouter.SuggestionDependsOnlyOnNames` | backend/app/routers/recipes.py:22 | users whose pantries name the same ingredients get identical answers |
| `RecipesRouter.QuantityIndependence` | backend/app/routers/recipes.py:22 | changing a pantry entry's quantity or expiry never changes the answer |
| `RecipesRouter.DuplicateEntryIndependence` | backend/app/routers/recipes.py:22 | adding a duplicate pantry entry for an owned ingredient never changes the answer |
| `Agreement.RequirementNamesElements` | backend/app/routers/recipes.py:25 | read as a set, the handler's requirement-name list is the service's required-name set (backend/app/services/recipe_service.py:19-21) |
| `Agreement.MatchesAgree` | backend/app/routers/recipes.py:22-33 | for every recipe and pantry both engines give the same id, name and can_make; the handler's missing and used lists, read as sets, equal the service's sets (backend/app/services/recipe_service.py:19-31), which are never larger |
| `Agreement.SuggestionsAgree` | backend/app/routers/recipes.py:13-36 | the handler and the service (backend/app/services/recipe_service.py:6-34) fail together, and otherwise return equally many records that agree one by one |
| `Agreement.DuplicatesDisagreeInLength` | backend/app/routers/recipes.py:25-26 | a recipe listing an unowned ingredient twice gets a longer missing list from the handler than the service's missing set |
| `Agreement.UsedLongerExactlyOnRepeat` | backend/app/routers/recipes.py:25-33 | the handler's used list is longer than the service's used set (backend/app/services/recipe_service.py:19-31) exactly when the recipe lists some ingredient twice |
| `Agreement.MissingLongerExactlyOnUnownedRepeat` | backend/app/routers/recipes.py:25-33 | the handler's missing list is longer than the service's missing set (backend/app/services/recipe_service.py:19-31) exactly when the recipe lists some unowned ingredient twice |

## Left out

- Database access: the SQLAlchemy queries, relationships and sessions are
  replaced by the explicit inputs `users` and `recipes`. A failing read of
  the database is not modelled.
- HTTP: the 404 status and its detail text become the `UserNotFound` error,
  and JSON encoding of the records is not modelled.
- The order of the service's `list(set)` results is not modelled. Python
  leaves it unspecified, so the service's lists are modelled as sets.
- The CRUD operations on ingredients, users, pantry entries and recipes are
  forwarding plumbing and are not modelled. This covers `backend/app/crud.py`,
  the other routers, and `backend/app/routers/recipes.py:38-67`.
- Expiry defaulting when a pantry entry is created
  (`backend/app/crud.py:29-31`) is not modelled. It reads the wall clock and
  does not affect matching. The model carries expiry only as an optional day
  number.
- Request validation and serialisation are not modelled
  (`backend/app/schemas.py`). Neither are application start-up and table
  creation (`backend/app/main.py`).
- Idempotence needs no statement: the matching engines are functions of
  their inputs, so equal inputs give equal answers.
