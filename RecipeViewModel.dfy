/**
 * The shared view-model: the search results, the search term and the
 * key -> favourite-flag map behind the heart icons, plus the two operations
 * that write through to the local cache (favourite toggle, search).
 */
module RecipeViewModel {
  import opened Wrappers
  import opened RecipeModel
  import opened RecipeDao
  import opened RemoteCatalog

  /** How a toggle ends: the new flag, or the `NullPointerException` that `!!` throws. */
  datatype Toggle = Toggled(newFlag: bool) | NullPointerException

  /**
   * What `updateRecipeIconState` does to the cache and the icon map: read the
   * row, flip its `isFavorite`, write it back and record the new flag. `None`
   * when the row is missing or its flag is null, where `!!` throws before
   * anything is written.
   */
  function ToggleFavorite(table: map<string, Recipe>, icons: map<string, bool>, key: string)
    : (r: Option<(map<string, Recipe>, map<string, bool>)>)
    requires KeyedTable(table)
    ensures r.Some? <==> key in table && table[key].isFavorite.Some?
    ensures r.Some? ==> var (t, i) := r.value;
      && t.Keys == table.Keys
      && t[key] == table[key].(isFavorite := Some(!table[key].isFavorite.value))
      && (forall k | k in table && k != key :: t[k] == table[k])
      && i.Keys == icons.Keys + {key}
      && i[key] == !table[key].isFavorite.value
      && (forall k | k in icons && k != key :: i[k] == icons[k])
  {
    if key in table && table[key].isFavorite.Some? then
      var recipe := table[key];
      var flipped := recipe.(isFavorite := Some(!recipe.isFavorite.value));
      Some((Updated(table, flipped), icons[key := flipped.isFavorite.value]))
    else
      None
  }

  /**
   * Toggling the same key twice gives back the cache as it was, and leaves
   * the icon map holding the original stored flag for that key.
   */
  lemma ToggleTwice(table: map<string, Recipe>, icons: map<string, bool>, key: string)
    requires KeyedTable(table)
    requires key in table && table[key].isFavorite.Some?
    ensures var first := ToggleFavorite(table, icons, key);
      && first.Some?
      && var second := ToggleFavorite(first.value.0, first.value.1, key);
      && second.Some?
      && second.value.0 == table
      && second.value.1 == icons[key := table[key].isFavorite.value]
  {
    var first := ToggleFavorite(table, icons, key).value;
    var second := ToggleFavorite(first.0, first.1, key).value;
    assert second.0 == table;
  }

  /** The icon map says for every key it holds what the cache says. */
  ghost predicate IconsAgree(table: map<string, Recipe>, icons: map<string, bool>) {
    forall k | k in icons :: k in table && table[k].isFavorite == Some(icons[k])
  }

  /** A toggle that succeeds keeps the icon map in agreement with the cache. */
  lemma ToggleKeepsAgreement(table: map<string, Recipe>, icons: map<string, bool>, key: string)
    requires KeyedTable(table)
    requires IconsAgree(table, icons)
    requires ToggleFavorite(table, icons, key).Some?
    ensures var (t, i) := ToggleFavorite(table, icons, key).value; IconsAgree(t, i)
  {
  }

  function SearchRequest(recipeName: string): (q: Request)
    ensures q.endpoint == SearchRecipeByName && q.requestType == "public" && q.query == recipeName
  {
    Request(SearchRecipeByName, "public", recipeName)
  }

  class RecipeViewModel {
    var recipes: seq<Recipe>
    var searchTerm: string
    var recipeIconState: map<string, bool>
    /** The calls handed to the search API, oldest first. */
    var requests: seq<Request>

    constructor ()
      ensures recipes == [] && searchTerm == "" && recipeIconState == map[] && requests == []
    {
      recipes := [];
      searchTerm := "";
      recipeIconState := map[];
      requests := [];
    }

    method UpdateRecipeIconState(compositeKey: string, dao: RecipeDao) returns (outcome: Toggle)
      requires dao.Valid()
      modifies this`recipeIconState, dao
      ensures dao.Valid()
      ensures var expected := ToggleFavorite(old(dao.table), old(recipeIconState), compositeKey);
        && (outcome.NullPointerException? <==> expected.None?)
        && (expected.None? ==> dao.table == old(dao.table) && recipeIconState == old(recipeIconState))
        && (expected.Some? ==> dao.table == expected.value.0 && recipeIconState == expected.value.1)
        && (outcome.Toggled? ==> outcome.newFlag == recipeIconState[compositeKey])
    {
      var recipe := dao.GetRecipeByCompositeKey(compositeKey);
      if recipe.None? || recipe.value.isFavorite.None? {
        return NullPointerException;
      }
      var flipped := recipe.value.(isFavorite := Some(!recipe.value.isFavorite.value));
      dao.UpdateRecipe(flipped);
      recipeIconState := recipeIconState[compositeKey := flipped.isFavorite.value];
      outcome := Toggled(flipped.isFavorite.value);
    }

    /**
     * `searchRecipes`, with the API's answer passed in: only `recipeName` is
     * sent, `selectedFilter` is not used; on success the results replace the
     * list and are then written to the cache.
     */
    method SearchRecipes(recipeName: string, selectedFilter: string, response: Response, dao: RecipeDao)
      requires dao.Valid()
      modifies this`recipes, this`requests, dao
      ensures dao.Valid()
      ensures requests == old(requests) + [SearchRequest(recipeName)]
      ensures recipes == AfterResponse(old(recipes), response)
      ensures dao.table == if response.Success? then InsertAll(old(dao.table), recipes) else old(dao.table)
    {
      requests := requests + [SearchRequest(recipeName)];
      match response {
        case Success(body) =>
          recipes := HitRecipes(body);
          dao.InsertAllRecipes(recipes);
        case HttpError(_) =>
        case NetworkFailure =>
      }
    }

    method SaveSearchTerm(term: string)
      modifies this`searchTerm
      ensures searchTerm == term
    {
      searchTerm := term;
    }
  }

  /**
   * The cache replaces whole records: after a successful search whose last
   * hit for a key comes with `isFavorite == false` (the JSON adapter's
   * default), the cached row is no longer a favourite even if it was one,
   * while the icon map is not touched.
   */
  lemma SearchOverwritesFavourite(table: map<string, Recipe>, data: RecipeData, i: int)
    requires LastWithKey(HitRecipes(Some(data)), i)
    requires data.hits[i].recipe.isFavorite == Some(false)
    ensures var t := InsertAll(table, AfterResponse([], Success(Some(data))));
      data.hits[i].recipe.compositeKey in t && t[data.hits[i].recipe.compositeKey].isFavorite == Some(false)
  {
    InsertAllLastWins(table, HitRecipes(Some(data)), i);
  }
}
