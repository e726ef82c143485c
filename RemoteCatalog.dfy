/**
 * The recipe search API as the app sees it: the requests it sends, the
 * `hits -> recipe` shape of a response body, and the three ways a call
 * can end (a 2xx response with or without a body, another status, or a
 * transport failure).
 */
module RemoteCatalog {
  import opened Wrappers
  import opened RecipeModel

  datatype Endpoint = GetRandomRecipes | SearchRecipeByName

  /** A call to `api/recipes/v2`; the app id and key sent with it are left out. */
  datatype Request = Request(endpoint: Endpoint, requestType: string, query: string)

  datatype Hit = Hit(recipe: Recipe)

  datatype RecipeData = RecipeData(hits: seq<Hit>)

  /** `onResponse` with `isSuccessful`, `onResponse` without it, or `onFailure`. */
  datatype Response =
    | Success(body: Option<RecipeData>)
    | HttpError(code: int)
    | NetworkFailure

  /** `response.body()?.hits?.map { it.recipe } ?: emptyList()` */
  function HitRecipes(body: Option<RecipeData>): (rs: seq<Recipe>)
    ensures body.None? ==> rs == []
    ensures body.Some? ==> |rs| == |body.value.hits|
    ensures body.Some? ==> forall i | 0 <= i < |rs| :: rs[i] == body.value.hits[i].recipe
  {
    match body
    case None => []
    case Some(data) => seq(|data.hits|, i requires 0 <= i < |data.hits| => data.hits[i].recipe)
  }

  /**
   * The result list once a response has been handled: the hits' recipes on a
   * successful response, the previous list otherwise.
   */
  function AfterResponse(current: seq<Recipe>, response: Response): (next: seq<Recipe>)
    ensures !response.Success? ==> next == current
    ensures response.Success? ==> next == HitRecipes(response.body)
  {
    if response.Success? then HitRecipes(response.body) else current
  }

  /** Handling the same response again leaves the list where the first delivery put it. */
  lemma AfterResponseIdempotent(current: seq<Recipe>, response: Response)
    ensures AfterResponse(AfterResponse(current, response), response) == AfterResponse(current, response)
  {
  }
}
