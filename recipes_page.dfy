/** The recipe listing of app/recipes/page.tsx: the fetched recipes narrowed
    by the optional search term, category and difficulty of the query
    string, and the message shown when nothing is left. */
module RecipesPage {
  import opened Wrappers
  import opened Types
  import Text
  import Seqs

  const NoMatchMessage := "No recipes match your filters. Try adjusting your search criteria."
  const NothingSharedMessage := "No recipes have been shared yet. Be the first to share a recipe!"

  /** A query parameter takes part only when present and non-empty. */
  predicate Active(param: Option<string>)
  {
    param.Some? && param.value != ""
  }

  /** The lower-cased term occurs in the lower-cased title, description (when
      there is one) or ingredients. */
  predicate SearchMatches(recipe: Recipe, term: string)
  {
    var needle := Text.ToLower(term);
    || Text.Contains(Text.ToLower(recipe.title), needle)
    || (recipe.description.Some? && Text.Contains(Text.ToLower(recipe.description.value), needle))
    || Text.Contains(Text.ToLower(recipe.ingredients), needle)
  }

  predicate CategoryMatches(recipe: Recipe, category: string)
  {
    recipe.category == Some(category)
  }

  predicate DifficultyMatches(recipe: Recipe, difficulty: string)
  {
    recipe.difficulty.Some? && DifficultyName(recipe.difficulty.value) == difficulty
  }

  /** Each filter as a condition on one recipe; an absent filter keeps everything. */
  predicate PassesSearch(recipe: Recipe, search: Option<string>)
  {
    Active(search) ==> SearchMatches(recipe, search.value)
  }

  predicate PassesCategory(recipe: Recipe, category: Option<string>)
  {
    Active(category) ==> CategoryMatches(recipe, category.value)
  }

  predicate PassesDifficulty(recipe: Recipe, difficulty: Option<string>)
  {
    Active(difficulty) ==> DifficultyMatches(recipe, difficulty.value)
  }

  /** The three query filters together. */
  predicate Matches(recipe: Recipe, search: Option<string>, category: Option<string>, difficulty: Option<string>)
  {
    PassesSearch(recipe, search) && PassesCategory(recipe, category) && PassesDifficulty(recipe, difficulty)
  }

  /** Each step of `RecipesList`: a filter applied only when its parameter is
      present; a recipe is kept exactly when it passes that filter, and the
      order is kept. */
  function BySearch(recipes: seq<Recipe>, search: Option<string>): (r: seq<Recipe>)
    ensures forall x :: x in r <==> x in recipes && PassesSearch(x, search)
    ensures Seqs.IsSubsequence(r, recipes)
  {
    if Active(search) then
      var p := x => SearchMatches(x, search.value);
      Seqs.FilterIsSubsequence(recipes, p);
      assert forall x :: x in Seqs.Filter(recipes, p) <==> x in recipes && p(x) by {
        forall x ensures x in Seqs.Filter(recipes, p) <==> x in recipes && p(x) {
          Seqs.FilterMembership(recipes, p, x);
        }
      }
      Seqs.Filter(recipes, p)
    else
      Seqs.SubsequenceOfItself(recipes);
      recipes
  }

  function ByCategory(recipes: seq<Recipe>, category: Option<string>): (r: seq<Recipe>)
    ensures forall x :: x in r <==> x in recipes && PassesCategory(x, category)
    ensures Seqs.IsSubsequence(r, recipes)
  {
    if Active(category) then
      var p := x => CategoryMatches(x, category.value);
      Seqs.FilterIsSubsequence(recipes, p);
      assert forall x :: x in Seqs.Filter(recipes, p) <==> x in recipes && p(x) by {
        forall x ensures x in Seqs.Filter(recipes, p) <==> x in recipes && p(x) {
          Seqs.FilterMembership(recipes, p, x);
        }
      }
      Seqs.Filter(recipes, p)
    else
      Seqs.SubsequenceOfItself(recipes);
      recipes
  }

  function ByDifficulty(recipes: seq<Recipe>, difficulty: Option<string>): (r: seq<Recipe>)
    ensures forall x :: x in r <==> x in recipes && PassesDifficulty(x, difficulty)
    ensures Seqs.IsSubsequence(r, recipes)
  {
    if Active(difficulty) then
      var p := x => DifficultyMatches(x, difficulty.value);
      Seqs.FilterIsSubsequence(recipes, p);
      assert forall x :: x in Seqs.Filter(recipes, p) <==> x in recipes && p(x) by {
        forall x ensures x in Seqs.Filter(recipes, p) <==> x in recipes && p(x) {
          Seqs.FilterMembership(recipes, p, x);
        }
      }
      Seqs.Filter(recipes, p)
    else
      Seqs.SubsequenceOfItself(recipes);
      recipes
  }

  /** `RecipesList` after the fetch: the search filter, then the category
      filter, then the difficulty filter. A recipe is listed exactly when it
      was fetched and passes every active filter. */
  function RecipesList(recipes: seq<Recipe>, search: Option<string>, category: Option<string>, difficulty: Option<string>)
    : (r: seq<Recipe>)
    ensures forall x :: x in r <==> x in recipes && Matches(x, search, category, difficulty)
  {
    ByDifficulty(ByCategory(BySearch(recipes, search), category), difficulty)
  }

  lemma BySearchIsFilter(recipes: seq<Recipe>, search: Option<string>, p: Recipe -> bool)
    requires forall x :: p(x) == PassesSearch(x, search)
    ensures BySearch(recipes, search) == Seqs.Filter(recipes, p)
  {
    if Active(search) {
      Seqs.FilterSamePredicate(recipes, x => SearchMatches(x, search.value), p);
    } else {
      Seqs.FilterAllKept(recipes, p);
    }
  }

  lemma ByCategoryIsFilter(recipes: seq<Recipe>, category: Option<string>, p: Recipe -> bool)
    requires forall x :: p(x) == PassesCategory(x, category)
    ensures ByCategory(recipes, category) == Seqs.Filter(recipes, p)
  {
    if Active(category) {
      Seqs.FilterSamePredicate(recipes, x => CategoryMatches(x, category.value), p);
    } else {
      Seqs.FilterAllKept(recipes, p);
    }
  }

  lemma ByDifficultyIsFilter(recipes: seq<Recipe>, difficulty: Option<string>, p: Recipe -> bool)
    requires forall x :: p(x) == PassesDifficulty(x, difficulty)
    ensures ByDifficulty(recipes, difficulty) == Seqs.Filter(recipes, p)
  {
    if Active(difficulty) {
      Seqs.FilterSamePredicate(recipes, x => DifficultyMatches(x, difficulty.value), p);
    } else {
      Seqs.FilterAllKept(recipes, p);
    }
  }

  /** Three filters in a row are one filter by the conjunction. */
  lemma FuseThree<T>(s: seq<T>, p: T -> bool, q: T -> bool, r: T -> bool, all: T -> bool)
    requires forall x :: all(x) == (p(x) && q(x) && r(x))
    ensures Seqs.Filter(Seqs.Filter(Seqs.Filter(s, p), q), r) == Seqs.Filter(s, all)
  {
    Seqs.FilterFuse(s, p, q);
    var pq := x => p(x) && q(x);
    Seqs.FilterFuse(s, pq, r);
    Seqs.FilterSamePredicate(s, x => pq(x) && r(x), all);
  }

  /** The chain of filters is one filter by the conjunction of the three conditions. */
  lemma RecipesListIsOneFilter(recipes: seq<Recipe>, search: Option<string>, category: Option<string>, difficulty: Option<string>)
    ensures RecipesList(recipes, search, category, difficulty) == Seqs.Filter(recipes, x => Matches(x, search, category, difficulty))
  {
    var ps := x => PassesSearch(x, search);
    var pc := x => PassesCategory(x, category);
    var pd := x => PassesDifficulty(x, difficulty);
    var s1 := Seqs.Filter(recipes, ps);
    BySearchIsFilter(recipes, search, ps);
    var s2 := Seqs.Filter(s1, pc);
    ByCategoryIsFilter(s1, category, pc);
    var s3 := Seqs.Filter(s2, pd);
    ByDifficultyIsFilter(s2, difficulty, pd);
    assert RecipesList(recipes, search, category, difficulty) == s3;
    FuseThree(recipes, ps, pc, pd, x => Matches(x, search, category, difficulty));
  }

  /** The listing keeps the fetched order: it is a subsequence of the fetched recipes. */
  lemma RecipesListIsSubsequence(recipes: seq<Recipe>, search: Option<string>, category: Option<string>, difficulty: Option<string>)
    ensures Seqs.IsSubsequence(RecipesList(recipes, search, category, difficulty), recipes)
  {
    RecipesListIsOneFilter(recipes, search, category, difficulty);
    Seqs.FilterIsSubsequence(recipes, x => Matches(x, search, category, difficulty));
  }

  /** Without filters the listing is the whole fetch. */
  lemma NoFiltersKeepsAll(recipes: seq<Recipe>, search: Option<string>, category: Option<string>, difficulty: Option<string>)
    requires !Active(search) && !Active(category) && !Active(difficulty)
    ensures RecipesList(recipes, search, category, difficulty) == recipes
  {
  }

  /** The order of the filters does not matter: difficulty, then category,
      then search gives the same listing. */
  lemma FiltersInAnyOrder(recipes: seq<Recipe>, search: Option<string>, category: Option<string>, difficulty: Option<string>)
    ensures RecipesList(recipes, search, category, difficulty) == BySearch(ByCategory(ByDifficulty(recipes, difficulty), category), search)
  {
    var ps := x => PassesSearch(x, search);
    var pc := x => PassesCategory(x, category);
    var pd := x => PassesDifficulty(x, difficulty);
    RecipesListIsOneFilter(recipes, search, category, difficulty);
    ByDifficultyIsFilter(recipes, difficulty, pd);
    ByCategoryIsFilter(Seqs.Filter(recipes, pd), category, pc);
    BySearchIsFilter(Seqs.Filter(Seqs.Filter(recipes, pd), pc), search, ps);
    FuseThree(recipes, pd, pc, ps, x => Matches(x, search, category, difficulty));
  }

  /** The empty-listing message: the "no match" text exactly when some filter is present. */
  function EmptyMessage(search: Option<string>, category: Option<string>, difficulty: Option<string>): (r: string)
    ensures r == NoMatchMessage <==> Active(search) || Active(category) || Active(difficulty)
    ensures r == NoMatchMessage || r == NothingSharedMessage
  {
    if Active(search) || Active(category) || Active(difficulty) then NoMatchMessage else NothingSharedMessage
  }

  /** What the listing renders: the grid with its empty message, or the
      "Unable to load recipes" notice when the fetch throws. */
  datatype ListingView = Grid(recipes: seq<Recipe>, emptyMessage: string) | LoadError

  function Listing(fetched: Result<seq<Recipe>>, search: Option<string>, category: Option<string>, difficulty: Option<string>): (r: ListingView)
    ensures r.LoadError? <==> fetched.Err?
    ensures r.Grid? ==> forall i | 0 <= i < |r.recipes| :: r.recipes[i] in fetched.value && Matches(r.recipes[i], search, category, difficulty)
    ensures r.Grid? && r.recipes == [] && |fetched.value| > 0 ==> r.emptyMessage == NoMatchMessage
  {
    if fetched.Err? then LoadError
    else
      var listed := RecipesList(fetched.value, search, category, difficulty);
      ListingFacts(fetched.value, search, category, difficulty);
      Grid(listed, EmptyMessage(search, category, difficulty))
  }

  /** Every listed recipe was fetched and passes the filters; an empty listing
      of a non-empty fetch means some filter is present. */
  lemma ListingFacts(recipes: seq<Recipe>, search: Option<string>, category: Option<string>, difficulty: Option<string>)
    ensures forall x | x in RecipesList(recipes, search, category, difficulty) :: x in recipes && Matches(x, search, category, difficulty)
    ensures RecipesList(recipes, search, category, difficulty) == [] && |recipes| > 0 ==> Active(search) || Active(category) || Active(difficulty)
  {
  }
}
