/**
 * The home-screen loader: created with an empty list, it asks the API for
 * "healthy" recipes once, and on success shows them and saves them.
 */
module RecipesManager {
  import opened Wrappers
  import opened RecipeModel
  import opened RecipeDao
  import opened RemoteCatalog

  function RandomRecipesRequest(): (q: Request)
    ensures q.endpoint == GetRandomRecipes && q.requestType == "public" && q.query == "healthy"
  {
    Request(GetRandomRecipes, "public", "healthy")
  }

  class RecipesManager {
    var recipesResponse: seq<Recipe>
    /** The calls handed to the API, oldest first. */
    var requests: seq<Request>

    /** `init { getRecipes(database) }`: the call is issued; its answer arrives in `OnRecipesResponse`. */
    constructor ()
      ensures recipesResponse == []
      ensures requests == [RandomRecipesRequest()]
    {
      recipesResponse := [];
      requests := [RandomRecipesRequest()];
    }

    /** The callback of `getRecipes`. */
    method OnRecipesResponse(response: Response, dao: RecipeDao)
      requires dao.Valid()
      modifies this`recipesResponse, dao
      ensures dao.Valid()
      ensures recipesResponse == AfterResponse(old(recipesResponse), response)
      ensures dao.table == if response.Success? then InsertAll(old(dao.table), recipesResponse) else old(dao.table)
    {
      match response {
        case Success(body) =>
          recipesResponse := HitRecipes(body);
          SaveDataToDatabase(dao, recipesResponse);
        case HttpError(_) =>
        case NetworkFailure =>
      }
    }

    static method SaveDataToDatabase(dao: RecipeDao, recipes: seq<Recipe>)
      requires dao.Valid()
      modifies dao
      ensures dao.Valid()
      ensures dao.table == InsertAll(old(dao.table), recipes)
    {
      dao.InsertAllRecipes(recipes);
    }
  }
}
