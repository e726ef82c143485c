# Healthy Recipe App — a Dafny model of its core

The app is an Android client for a recipe search API. It shows random
"healthy" recipes and search results. It caches every recipe it receives in a
local table keyed by a composite key. It lets the user mark favourites, which
are mirrored into a cloud document collection, and it lets the user edit the
ingredient lines of a saved favourite. A sign-in form guards the app with
email/password authentication.

This project models the logic of that core and proves what it promises:

- `Wrappers.dfy` — `Option`, standing for Kotlin's nullable types.
- `KotlinText.dfy` — the standard-library behaviour the app's text handling
  depends on, written out with its edge cases: 32-bit `Int`, `Int.toString()`,
  `String.toIntOrNull()`, `String.hashCode()` (the base-31 polynomial over UTF-16
  code units, wrapping at 32 bits), `Char.isWhitespace()`, `trim()`,
  `isBlank()` and `split(" ", limit = 2)`.
- `Recipe.dfy` — the `Recipe` record, its defaults and its primary key
  `"${label}_${url?.hashCode()}"`: how the key decodes, and exactly which
  recipes collide on it.
- `RecipeDao.dfy` — the local cache as a class over a `map` from key to
  record. Insert-all with replace-on-conflict, the point lookup and the
  update-if-present, with the algebra of insert-all (keys, last record wins,
  idempotence, the key invariant).
- `RemoteCatalog.dfy` — the requests sent to the search API and the three
  ways a call ends. The answer is a parameter, never fetched.
- `RecipeViewModel.dfy` — the shared view-model: the favourite toggle (flip
  the cached flag, record it in the icon map, or stop with the
  `NullPointerException` that `!!` throws), the search and the search term.
- `RecipesManager.dfy` — the home-screen loader: its one request and its
  response handler that saves the results.
- `RecipeDetailScreen.dfy` — the favourite button: the flag it derives from
  the icon map, the field map it writes, the create/merge/delete
  reconciliation of the cloud collection, and the existence query. The key is
  handed to `document(...)`, which reads it as a slash-separated path, so a
  label holding '/' sends the write elsewhere or makes the call throw; the
  model follows that path reading. It also shows where the three copies of
  "is favourite" stay in step and where they part.
- `SavedScreen.dfy` — the saved-recipes screen: documents read back as
  recipes, the ingredient editor (parse, edit, print) with its round trips,
  and saving with the refresh of the shown list.
- `AuthScreen.dfy` — the sign-in form: its three modes, the title, label and
  action each mode shows, the toggles, and the empty-input guards with their
  exact messages.

Modelling choices:

- Every body the app hands to `GlobalScope.launch` or to a completion callback
  is modelled as one atomic step. A network or cloud answer is a parameter of
  that step.
- The cloud collection is modelled as its own documents by id plus the
  documents written into sub-collections below them, by full path.
  `document(key)` splits the key at '/' as Firestore does: "//" or an even
  number of non-empty segments is refused with an exception, one segment is
  the id of a document of the collection, and three or more name a document
  further down. The collection keeps one invariant, which all of the app's
  writers respect: every document sits under the id that `document(...)` makes
  of its `recipe_compositeKey` field. With that invariant, the query by field
  is a lookup of that one document.
- A Kotlin `Double` is kept as its bit pattern, because the app only copies
  doubles.

## Model

| member | source | states |
|---|---|---|
| KotlinText.SplitAtFirstSpace | app/src/main/java/com/example/heathlyrecipeapp/screens/SavedScreen.kt:240 | `split(" ", limit = 2)` gives one part exactly when the line has no blank, and then that part is the line; otherwise two parts joined by the first blank rebuild the line |
| KotlinText.SplitAtFirstSpaceOf | app/src/main/java/com/example/heathlyrecipeapp/screens/SavedScreen.kt:240 | a blank-free prefix followed by a blank and any rest splits into exactly that prefix and that rest |
| KotlinText.ToIntOrNull | app/src/main/java/com/example/heathlyrecipeapp/screens/SavedScreen.kt:241 | `toIntOrNull` yields a value exactly when the text is an optional sign followed by one or more digits and the number it spells, negated after a minus, fits in 32 bits; the value is that number |
| KotlinText.ReadPositive | app/src/main/java/com/example/heathlyrecipeapp/screens/SavedScreen.kt:241 | a leading `+` in front of unsigned text reads the same as the text alone |
| KotlinText.RejectsNonDigit | app/src/main/java/com/example/heathlyrecipeapp/screens/SavedScreen.kt:241 | any character other than a digit after the optional sign makes the text read as null |
| KotlinText.IntToStringRoundTrip | app/src/main/java/com/example/heathlyrecipeapp/screens/SavedScreen.kt:269-272 | the quantity field shows `toString()` of an `Int` and reads it back with `toIntOrNull`, which gives the same `Int` |
| KotlinText.IntToStringInjective | app/src/main/java/com/example/heathlyrecipeapp/api/model/Recipe.kt:30 | two `Int`s with the same decimal text are equal, so the hash part of a key determines the hash |
| KotlinText.IntToString | app/src/main/java/com/example/heathlyrecipeapp/api/model/Recipe.kt:30 | the decimal text of an `Int` is non-empty, has no blank, underscore or slash, and is digits after an optional minus |
| KotlinText.Trim | app/src/main/java/com/example/heathlyrecipeapp/screens/SavedScreen.kt:357 | `trim()` returns the infix of the text left between a whitespace-only prefix and a whitespace-only suffix, and it neither starts nor ends with whitespace |
| KotlinText.TrimStart | app/src/main/java/com/example/heathlyrecipeapp/screens/SavedScreen.kt:357 | dropping leading whitespace leaves a suffix that does not start with whitespace, and every character dropped is whitespace |
| KotlinText.TrimEnd | app/src/main/java/com/example/heathlyrecipeapp/screens/SavedScreen.kt:357 | dropping trailing whitespace leaves a prefix that does not end with whitespace, and every character dropped is whitespace |
| KotlinText.TrimOf | app/src/main/java/com/example/heathlyrecipeapp/screens/SavedScreen.kt:357 | whatever text without whitespace at its ends sits between two whitespace-only runs is exactly what `trim()` returns, so the contract of `trim()` determines its result |
| KotlinText.BlankIffTrimEmpty | app/src/main/java/com/example/heathlyrecipeapp/screens/SavedScreen.kt:340 | `isBlank()` holds exactly when `trim()` leaves nothing |
| KotlinText.TrimOfTrimmed | app/src/main/java/com/example/heathlyrecipeapp/screens/SavedScreen.kt:357 | trimming text that has no whitespace at either end changes nothing |
| KotlinText.HashCode | app/src/main/java/com/example/heathlyrecipeapp/api/model/Recipe.kt:30 | `url.hashCode()` is a 32-bit value |
| KotlinText.Utf16 | app/src/main/java/com/example/heathlyrecipeapp/api/model/Recipe.kt:30 | a JVM string holds one or two UTF-16 code units per character, each below 0x10000 |
| KotlinText.HashUnits | app/src/main/java/com/example/heathlyrecipeapp/api/model/Recipe.kt:30 | the wrapping hash loop over code units stays a 32-bit value |
| KotlinText.HashIsPolynomialMod | app/src/main/java/com/example/heathlyrecipeapp/api/model/Recipe.kt:30 | the wrapping hash loop equals the unbounded base-31 polynomial over the UTF-16 code units, modulo 2^32 |
| RecipeModel.NewRecipe | app/src/main/java/com/example/heathlyrecipeapp/api/model/Recipe.kt:11-31 | a recipe built without an explicit key gets the key its label and url determine, and keeps the given label, url and favourite flag |
| RecipeModel.DefaultRecipe | app/src/main/java/com/example/heathlyrecipeapp/api/model/Recipe.kt:12-30 | with every default, all content fields are null, `isFavorite` is false and the key is `"null_null"` |
| RecipeModel.SplitAtLastUnderscore | app/src/main/java/com/example/heathlyrecipeapp/api/model/Recipe.kt:30 | a key with an underscore splits at its last one into a prefix and an underscore-free suffix that rebuild it |
| RecipeModel.TitleText | app/src/main/java/com/example/heathlyrecipeapp/api/model/Recipe.kt:30 | the template renders a label as its text and an absent label as `null` |
| RecipeModel.UrlHashText | app/src/main/java/com/example/heathlyrecipeapp/api/model/Recipe.kt:30 | the template renders `url?.hashCode()` as `null` without a url, and otherwise as text that `toIntOrNull` reads back as the 32-bit hash; it is never empty and holds no underscore or slash |
| RecipeModel.CompositeKey | app/src/main/java/com/example/heathlyrecipeapp/api/model/Recipe.kt:30 | the key splits at its last underscore back into the label's text and the url-hash text, whatever the label contains |
| RecipeModel.KeyCollision | app/src/main/java/com/example/heathlyrecipeapp/api/model/Recipe.kt:30 | two recipes share a key exactly when their labels render alike (an absent label renders `null`) and their urls are both absent or both present with equal 32-bit hashes |
| RecipeModel.CopyKeepsKey | app/src/main/java/com/example/heathlyrecipeapp/api/model/Recipe.kt:26-30 | copying a recipe with a new favourite flag or new ingredient lines keeps its key, and keeps it consistent with label and url |
| RecipeDao.KeysOf | app/src/main/java/com/example/heathlyrecipeapp/db/RecipeDao.kt:25-26 | the keys of a list are exactly the keys its recipes carry |
| RecipeDao.InsertAll | app/src/main/java/com/example/heathlyrecipeapp/db/RecipeDao.kt:25-26 | insert-all never drops a key, and the list's last record ends up stored under its key |
| RecipeDao.InsertAllKeys | app/src/main/java/com/example/heathlyrecipeapp/db/RecipeDao.kt:19-26 | after insert-all the table holds exactly the old keys plus the list's keys |
| RecipeDao.InsertAllKeepsOthers | app/src/main/java/com/example/heathlyrecipeapp/db/RecipeDao.kt:19-26 | rows whose key the list does not carry are untouched by insert-all |
| RecipeDao.InsertAllLastWins | app/src/main/java/com/example/heathlyrecipeapp/db/RecipeDao.kt:19-26 | each key of the list ends up holding the last record with that key, replacing the table's row |
| RecipeDao.InsertAllOverrides | app/src/main/java/com/example/heathlyrecipeapp/db/RecipeDao.kt:25-26 | for a key the list carries, the row after insert-all does not depend on the table before |
| RecipeDao.InsertAllIdempotent | app/src/main/java/com/example/heathlyrecipeapp/db/RecipeDao.kt:25-26 | inserting the same list twice gives the same table as inserting it once |
| RecipeDao.InsertAllKeyed | app/src/main/java/com/example/heathlyrecipeapp/db/RecipeDao.kt:25-26 | insert-all keeps every row stored under its own primary key |
| RecipeDao.Updated | app/src/main/java/com/example/heathlyrecipeapp/db/RecipeDao.kt:37-45 | update replaces only the row with the record's key when it exists, and never adds a key |
| RecipeDao.RecipeDao.InsertAllRecipes | app/src/main/java/com/example/heathlyrecipeapp/db/RecipeDao.kt:19-26 | the loop inserting each record in turn leaves the table that insert-all specifies |
| RecipeDao.RecipeDao.GetRecipeByCompositeKey | app/src/main/java/com/example/heathlyrecipeapp/db/RecipeDao.kt:28-35 | the lookup returns the row under the key, which carries that key, and null exactly when there is no such row |
| RecipeDao.RecipeDao.UpdateRecipe | app/src/main/java/com/example/heathlyrecipeapp/db/RecipeDao.kt:37-45 | the table becomes the update-if-present of the record and stays keyed |
| RemoteCatalog.HitRecipes | app/src/main/java/com/example/heathlyrecipeapp/mvvm/RecipeViewModel.kt:76 | the recipes of a body are its hits' recipes in order, and none when the body is null |
| RemoteCatalog.AfterResponse | app/src/main/java/com/example/heathlyrecipeapp/mvvm/RecipeViewModel.kt:73-86 | a successful response replaces the list with its hits' recipes; an error status or a failure leaves the list as it was |
| RemoteCatalog.AfterResponseIdempotent | app/src/main/java/com/example/heathlyrecipeapp/api/RecipesManager.kt:72-87 | handling the same response twice leaves the list where one delivery put it |
| RecipeViewModel.ToggleFavorite | app/src/main/java/com/example/heathlyrecipeapp/mvvm/RecipeViewModel.kt:49-55 | the toggle succeeds exactly when the row exists with a non-null flag; it then flips only that row's flag and sets the icon entry to the new flag, and otherwise changes nothing |
| RecipeViewModel.ToggleTwice | app/src/main/java/com/example/heathlyrecipeapp/mvvm/RecipeViewModel.kt:49-55 | toggling a key twice restores the cache, and the icon entry then holds the stored flag |
| RecipeViewModel.ToggleKeepsAgreement | app/src/main/java/com/example/heathlyrecipeapp/mvvm/RecipeViewModel.kt:49-55 | when every icon entry matches the cached flag, a successful toggle keeps them matching |
| RecipeViewModel.SearchRequest | app/src/main/java/com/example/heathlyrecipeapp/mvvm/RecipeViewModel.kt:70-71 | a search sends the name as the query with type "public", on the search endpoint |
| RecipeViewModel.RecipeViewModel.constructor | app/src/main/java/com/example/heathlyrecipeapp/mvvm/RecipeViewModel.kt:30-34 | the view-model starts with no recipes, an empty term and an empty icon map |
| RecipeViewModel.RecipeViewModel.UpdateRecipeIconState | app/src/main/java/com/example/heathlyrecipeapp/mvvm/RecipeViewModel.kt:47-59 | the cache and icon map become what the toggle specifies, or stay as they were with a `NullPointerException` outcome; the returned flag is the icon entry |
| RecipeViewModel.RecipeViewModel.SearchRecipes | app/src/main/java/com/example/heathlyrecipeapp/mvvm/RecipeViewModel.kt:68-90 | the request is recorded, the list follows the response, and only a success writes the new list into the cache |
| RecipeViewModel.RecipeViewModel.SaveSearchTerm | app/src/main/java/com/example/heathlyrecipeapp/mvvm/RecipeViewModel.kt:92-94 | the stored term becomes the given one |
| RecipeViewModel.SearchOverwritesFavourite | app/src/main/java/com/example/heathlyrecipeapp/mvvm/RecipeViewModel.kt:78-80 | a search result whose last hit for a key arrives with `isFavorite == false` un-favourites the cached row for that key |
| RecipesManager.RandomRecipesRequest | app/src/main/java/com/example/heathlyrecipeapp/api/RecipesManager.kt:63 | the loader asks the random endpoint for type "public" and query "healthy" |
| RecipesManager.RecipesManager.constructor | app/src/main/java/com/example/heathlyrecipeapp/api/RecipesManager.kt:49-51 | the loader starts with an empty list and has issued exactly one request |
| RecipesManager.RecipesManager.OnRecipesResponse | app/src/main/java/com/example/heathlyrecipeapp/api/RecipesManager.kt:65-88 | the list follows the response, and only a success saves the new list into the cache |
| RecipesManager.RecipesManager.SaveDataToDatabase | app/src/main/java/com/example/heathlyrecipeapp/api/RecipesManager.kt:98-101 | saving is insert-all of the list into the cache |
| RecipeDetail.RecipeFields | app/src/main/java/com/example/heathlyrecipeapp/screens/RecipeDetailScreen.kt:242-251 | the field map has exactly the eight field names, health labels excluded, and carries the recipe's key |
| RecipeDetail.DocumentRefOf | app/src/main/java/com/example/heathlyrecipeapp/screens/RecipeDetailScreen.kt:264 | `document(key)` reads the key as a path below the collection: "//" or an even number of non-empty segments is refused, one segment is a document id without a slash, three or more name a document of a nested sub-collection |
| RecipeDetail.PlainKeyIsTopLevel | app/src/main/java/com/example/heathlyrecipeapp/screens/RecipeDetailScreen.kt:264 | a non-empty key without a slash names the document with that id |
| RecipeDetail.OneSlashInLabel | app/src/main/java/com/example/heathlyrecipeapp/screens/RecipeDetailScreen.kt:264 | a label holding one slash gives a key that `document(...)` refuses |
| RecipeDetail.TwoSlashesInLabel | app/src/main/java/com/example/heathlyrecipeapp/screens/RecipeDetailScreen.kt:264 | a label holding two slashes gives a key naming a document two levels below the collection, in a sub-collection named by the middle piece |
| RecipeDetail.MergeAt | app/src/main/java/com/example/heathlyrecipeapp/screens/SavedScreen.kt:91-101 | a merging `set` keeps the document's other fields and writes every given field over them |
| RecipeDetail.DoesRecipeExistIffStored | app/src/main/java/com/example/heathlyrecipeapp/screens/RecipeDetailScreen.kt:354-357 | in a keyed collection, the query by key field is non-empty exactly when the document `document(key)` names exists and carries the key; a key that is refused or names a nested document is never found |
| RecipeDetail.FavoriteFlag | app/src/main/java/com/example/heathlyrecipeapp/screens/RecipeDetailScreen.kt:81 | the button's flag is true exactly when the icon map has no entry for the key or holds false |
| RecipeDetail.Reconciled | app/src/main/java/com/example/heathlyrecipeapp/screens/RecipeDetailScreen.kt:256-280 | the favourite update never removes a document below a sub-collection, and un-favouriting never writes one |
| RecipeDetail.ReconciledOutcome | app/src/main/java/com/example/heathlyrecipeapp/screens/RecipeDetailScreen.kt:256-280 | after reconciliation the query finds a document for the key exactly when the flag is true and the key names a document of the collection, which then holds every field of the map; a nested key gets its document written when the flag is true, a refused key changes nothing; other documents are untouched and the collection stays keyed |
| RecipeDetail.ReconcileTwice | app/src/main/java/com/example/heathlyrecipeapp/screens/RecipeDetailScreen.kt:261-279 | favouriting then un-favouriting a recipe whose key names a free id, or is refused, restores the collection; un-favouriting then re-favouriting one the query finds leaves a document it finds |
| RecipeDetail.NestedFavouriteStays | app/src/main/java/com/example/heathlyrecipeapp/screens/RecipeDetailScreen.kt:261-279 | for a key naming a document below a sub-collection, favouriting writes that document and un-favouriting leaves it in place, because the query never finds it; the collection's own documents do not change |
| RecipeDetail.FavoritesCollection.QueryExists | app/src/main/java/com/example/heathlyrecipeapp/screens/RecipeDetailScreen.kt:354-357 | `doesRecipeExist` answers whether the query by key field is non-empty, which is whether the document the key names carries it |
| RecipeDetail.FavoritesCollection.HandleFirestoreUpdate | app/src/main/java/com/example/heathlyrecipeapp/screens/RecipeDetailScreen.kt:234-285 | the query, then a create under the id or nested path `document(key)` names (nothing when the call is refused and the exception logged), a merge or a delete, leaves the collection that reconciliation specifies, still keyed |
| RecipeDetail.OnFavoriteClick | app/src/main/java/com/example/heathlyrecipeapp/screens/RecipeDetailScreen.kt:133-144 | a click toggles the cache and icon map as the toggle specifies, and reconciles the collection with a copy of the recipe carrying the flag from the icon map before the click; the view-model's list, term and request log are not touched |
| RecipeDetail.ClickKeepsCopiesInStep | app/src/main/java/com/example/heathlyrecipeapp/screens/RecipeDetailScreen.kt:133-144 | when the icon map agrees with the cache, one click leaves the cached flag and the icon entry equal to the new flag, and the query finds a document exactly when that flag is true and the key names a document of the collection |
| RecipeDetail.ClickDiverges | app/src/main/java/com/example/heathlyrecipeapp/screens/RecipeDetailScreen.kt:135 | with no icon entry and a cached favourite, the click writes the recipe's document (found by the query, or nested) while the cache flips to not-favourite |
| SavedScreen.ParseIngredientLine | app/src/main/java/com/example/heathlyrecipeapp/screens/SavedScreen.kt:238-243 | the quantity is `toIntOrNull` of the first token; without one the name is the whole line; with one, token, blank and name rebuild the line |
| SavedScreen.ParseIngredients | app/src/main/java/com/example/heathlyrecipeapp/screens/SavedScreen.kt:236-246 | the editor's rows are the parsed lines in order, and none when the recipe has no lines |
| SavedScreen.SerializeIngredient | app/src/main/java/com/example/heathlyrecipeapp/screens/SavedScreen.kt:357 | a printed row has no whitespace at either end |
| SavedScreen.SerializeIngredients | app/src/main/java/com/example/heathlyrecipeapp/screens/SavedScreen.kt:356-358 | the saved lines are the printed rows, one per row, in order |
| SavedScreen.SerializeParse | app/src/main/java/com/example/heathlyrecipeapp/screens/SavedScreen.kt:240-243 | a trimmed line whose numeric first token is canonical prints back to itself after parsing |
| SavedScreen.ParseSerialize | app/src/main/java/com/example/heathlyrecipeapp/screens/SavedScreen.kt:356-358 | a row with a trimmed name, whose name does not start with a number when it has no quantity, parses back to itself after printing |
| SavedScreen.SerializeParseAll | app/src/main/java/com/example/heathlyrecipeapp/screens/SavedScreen.kt:354-359 | opening the editor on canonical lines and saving without edits gives the same lines |
| SavedScreen.EditRecipeDialog.constructor | app/src/main/java/com/example/heathlyrecipeapp/screens/SavedScreen.kt:236-249 | the dialog opens on the recipe's parsed rows with both new-ingredient inputs empty |
| SavedScreen.EditRecipeDialog.OnQuantityChange | app/src/main/java/com/example/heathlyrecipeapp/screens/SavedScreen.kt:270-273 | only the row's quantity changes, to `toIntOrNull` of the typed text |
| SavedScreen.EditRecipeDialog.OnNameChange | app/src/main/java/com/example/heathlyrecipeapp/screens/SavedScreen.kt:286-289 | only the row's name changes |
| SavedScreen.EditRecipeDialog.OnDelete | app/src/main/java/com/example/heathlyrecipeapp/screens/SavedScreen.kt:300-303 | the row at the index is removed and the others keep their order |
| SavedScreen.EditRecipeDialog.OnNewQuantityChange | app/src/main/java/com/example/heathlyrecipeapp/screens/SavedScreen.kt:321 | the new-quantity input holds the typed text |
| SavedScreen.EditRecipeDialog.OnNewNameChange | app/src/main/java/com/example/heathlyrecipeapp/screens/SavedScreen.kt:331 | the new-name input holds the typed text |
| SavedScreen.EditRecipeDialog.OnAdd | app/src/main/java/com/example/heathlyrecipeapp/screens/SavedScreen.kt:339-344 | with a non-blank name and a quantity that reads as an `Int`, the row is appended and both inputs cleared; otherwise nothing changes |
| SavedScreen.EditRecipeDialog.OnConfirm | app/src/main/java/com/example/heathlyrecipeapp/screens/SavedScreen.kt:354-360 | the saved recipe differs from the opened one only in its ingredient lines, the printed rows, so its key is unchanged |
| SavedScreen.FromDocument | app/src/main/java/com/example/heathlyrecipeapp/screens/SavedScreen.kt:64-75 | a document reads as a recipe exactly when its key field holds a string, which becomes the key; health labels are never read |
| SavedScreen.FieldsRoundTrip | app/src/main/java/com/example/heathlyrecipeapp/screens/RecipeDetailScreen.kt:242-251 | reading back the field map a recipe was written as gives the recipe without its health labels |
| SavedScreen.MergedRoundTrip | app/src/main/java/com/example/heathlyrecipeapp/screens/SavedScreen.kt:91-101 | after merging a recipe's field map into any document, the document reads back as that recipe without its health labels |
| SavedScreen.LoadSaved | app/src/main/java/com/example/heathlyrecipeapp/screens/SavedScreen.kt:63-78 | the list is every document read in query order, and there is none when one document's key field is missing or not a string |
| SavedScreen.Refresh | app/src/main/java/com/example/heathlyrecipeapp/screens/SavedScreen.kt:104 | the entries with the saved recipe's key become it, and the others are unchanged in place |
| SavedScreen.RefreshKeepsKeys | app/src/main/java/com/example/heathlyrecipeapp/screens/SavedScreen.kt:104 | the refresh keeps every entry's key in place, and refreshing with the same record again changes nothing |
| SavedScreen.RefreshAfterEdit | app/src/main/java/com/example/heathlyrecipeapp/screens/SavedScreen.kt:104 | after saving an edit, the entries with the edited key hold the edit under the same key, and every other entry is unchanged |
| SavedScreen.PreferencesScreen.constructor | app/src/main/java/com/example/heathlyrecipeapp/screens/SavedScreen.kt:53-54 | the screen starts with an empty list and no recipe being edited |
| SavedScreen.PreferencesScreen.OnLoaded | app/src/main/java/com/example/heathlyrecipeapp/screens/SavedScreen.kt:63-78 | the list becomes the loaded recipes, and stays as it was when reading a document throws |
| SavedScreen.PreferencesScreen.OnEdit | app/src/main/java/com/example/heathlyrecipeapp/screens/SavedScreen.kt:135 | the chosen recipe becomes the one being edited |
| SavedScreen.PreferencesScreen.OnDismiss | app/src/main/java/com/example/heathlyrecipeapp/screens/SavedScreen.kt:88 | no recipe is being edited any more |
| SavedScreen.PreferencesScreen.OnSave | app/src/main/java/com/example/heathlyrecipeapp/screens/SavedScreen.kt:89-110 | a write that succeeds merges the field map into the document `document(key)` names (in the collection or below it), refreshes the list and closes the dialog; a failed write or a refused key changes nothing |
| AuthScreen.PerformRegistration | app/src/main/java/com/example/heathlyrecipeapp/screens/AuthScreen.kt:206-209 | registration is rejected with "Please fill in all fields" exactly when email, password or display name is empty, and otherwise calls account creation with the three inputs |
| AuthScreen.PerformSignIn | app/src/main/java/com/example/heathlyrecipeapp/screens/AuthScreen.kt:250-253 | sign-in is rejected with "Please enter email and password" exactly when email or password is empty, and otherwise signs in with them |
| AuthScreen.PerformPasswordReset | app/src/main/java/com/example/heathlyrecipeapp/screens/AuthScreen.kt:279-282 | a reset is rejected with "Please enter your email" exactly when the email is empty, and otherwise sends the reset mail to it |
| AuthScreen.Title | app/src/main/java/com/example/heathlyrecipeapp/screens/AuthScreen.kt:58-62 | the heading is "Create Account" exactly when registering, "Reset Password" exactly when resetting without registering, and "Sign In" exactly when neither |
| AuthScreen.ActionLabel | app/src/main/java/com/example/heathlyrecipeapp/screens/AuthScreen.kt:144-148 | the button reads "Register", "Reset Password" or "Sign In" by the same priority |
| AuthScreen.MainAction | app/src/main/java/com/example/heathlyrecipeapp/screens/AuthScreen.kt:116-137 | the button is rejected exactly when the email is empty, or registering without password or display name, or signing in without password; a reset needs only the email; the call made is the mode's own, with the email as typed |
| AuthScreen.ApplyToggle | app/src/main/java/com/example/heathlyrecipeapp/screens/AuthScreen.kt:159-178 | each toggle flips its own flag and clears the other, so after any toggle the two are never both set |
| AuthScreen.TitleLabelActionAgree | app/src/main/java/com/example/heathlyrecipeapp/screens/AuthScreen.kt:58-148 | title, button label and dispatched call follow one priority, so the call made is the one the title and label name |
| AuthScreen.TogglesExclusive | app/src/main/java/com/example/heathlyrecipeapp/screens/AuthScreen.kt:159-178 | from the initial state no sequence of toggles sets both the registering and the reset flag |
| AuthScreen.AuthScreen.constructor | app/src/main/java/com/example/heathlyrecipeapp/screens/AuthScreen.kt:40-45 | the form starts empty, in sign-in mode, with no error |
| AuthScreen.AuthScreen.OnToggleRegister | app/src/main/java/com/example/heathlyrecipeapp/screens/AuthScreen.kt:159-163 | the registering flag flips, the reset flag clears and the error clears |
| AuthScreen.AuthScreen.OnToggleReset | app/src/main/java/com/example/heathlyrecipeapp/screens/AuthScreen.kt:174-178 | the reset flag flips, the registering flag clears and the error clears |
| AuthScreen.AuthScreen.OnEmailChange | app/src/main/java/com/example/heathlyrecipeapp/screens/AuthScreen.kt:83 | the email field holds the typed text |
| AuthScreen.AuthScreen.OnPasswordChange | app/src/main/java/com/example/heathlyrecipeapp/screens/AuthScreen.kt:95 | the password field holds the typed text |
| AuthScreen.AuthScreen.OnDisplayNameChange | app/src/main/java/com/example/heathlyrecipeapp/screens/AuthScreen.kt:71 | the display-name field holds the typed text |
| AuthScreen.AuthScreen.OnMainAction | app/src/main/java/com/example/heathlyrecipeapp/screens/AuthScreen.kt:116-137 | the mode's guard runs: a rejection sets the error to its message and makes no call; otherwise the mode's call is made and the error is left alone |

## Left out

- Firebase Authentication calls and their completion callbacks (toasts, navigation, the service's error messages): these are external I/O. The model stops at the request the guard lets through.
- Retrofit, Moshi JSON decoding, Room's type converters and SQL: the network answer is a parameter, and the table is a map from key to record.
- The API application id and key sent with every request are not part of the model.
- Concurrency: each launched coroutine body and each callback is one atomic step. Interleavings of the toggle and the cloud reconciliation, and the un-awaited `update` call, are not modelled.
- RecipeDetail.FavoritesCollection.HandleFirestoreUpdate: assumes the query and the write succeed. In the app a thrown exception is only logged, which can leave the collection partly updated. The one exception the model does follow is `document(key)` refusing a key, which happens before any write and so changes nothing.
- RecipeDetail.ReconciledOutcome: the query finding a document agrees with the flag only for keys that name a document of the collection. A label holding '/' breaks that agreement, as RecipeDetail.OneSlashInLabel and RecipeDetail.NestedFavouriteStays show.
- RecipeDetail.ClickKeepsCopiesInStep: for the same reason, the document's existence follows the flag only for keys without a path reading; the cached flag and the icon entry follow it for every key.
- RecipeDetail.ReconcileTwice: the restore holds for a key naming a free id or a refused key; a nested key leaves its document behind, and a key whose id already holds another recipe's document overwrites it.
- RecipeDetail.DocumentRefOf: Firestore's further limits on document ids (reserved names, length) are not modelled; such keys count as ordinary ids.
- RecipeDetail.OnFavoriteClick: when the toggle's `!!` throws, the model still runs the reconciliation. In the app the exception in the launched coroutine crashes the process.
- SavedScreen.PreferencesScreen.OnSave: the write's success is a parameter; the logged failure message is left out. A key that `document(...)` refuses throws inside the click handler, which in the app crashes it; the model changes nothing instead.
- SavedScreen.PreferencesScreen.OnLoaded: a document whose key field is missing or not a string makes the cast throw inside the success listener, which in the app crashes it. The model keeps the previous list instead.
- Cloud query order: the snapshot passed to `SavedScreen.LoadSaved` is taken in the order given.
- SavedScreen.EditRecipeDialog.OnQuantityChange and OnNameChange: the app's lambdas capture the row as it was when the list was last drawn. The model uses the current row, so two edits of one row between redraws are not modelled.
- SavedScreen.EditRecipeDialog.OnAdd: the app appends to the list in place, without assigning a new list, so the screen may not redraw. The model treats it as an append to the row list.
- RecipeViewModel.RecipeViewModel.UpdateRecipeIconState: the app flips `isFavorite` in place on the row object it read (a `var` field), which a caller holding the same object would see. The model writes a copy.
- KotlinText.ToIntOrNull: reads ASCII digits only. The JVM also accepts other Unicode decimal digits.
- Kotlin `Double` values are kept as bit patterns and never compared or computed with.
- Compose rendering, navigation, the tabs and the search screen's filter menu are not part of this model. The chosen filter reaches `searchRecipes`, which ignores it, as the model does. `getRecipesByHealthLabel` is never called from the modelled code.
- The read-only `recipesResponse` getters that wrap the state in `remember` are Compose plumbing, not modelled.
