/**
 * The `Recipe` record: every content field is nullable, `isFavorite` defaults
 * to false, and the primary key `compositeKey` is a constructor parameter
 * whose default value is the string template `"${label}_${url?.hashCode()}"`.
 */
module RecipeModel {
  import opened Wrappers
  import opened KotlinText

  /** A Kotlin `Double`, kept as its raw IEEE 754 bit pattern: the app only copies these. */
  datatype Double = Double(bits: bv64)

  /** The JSON field `label` is called `title` here, `label` being a Dafny keyword. */
  datatype Recipe = Recipe(
    title: Option<string>,
    calories: Option<Double>,
    totalTime: Option<Double>,
    healthLabels: Option<seq<string>>,
    image: Option<string>,
    ingredientLines: Option<seq<string>>,
    url: Option<string>,
    isFavorite: Option<bool>,
    compositeKey: string)

  /** How a string template renders a nullable string: its text, or "null". */
  function TitleText(title: Option<string>): (t: string)
    ensures title.Some? ==> t == title.value
    ensures title.None? ==> t == "null"
  {
    title.GetOr("null")
  }

  /** How `${url?.hashCode()}` renders: the decimal hash, or "null" when there is no url. */
  function UrlHashText(url: Option<string>): (t: string)
    ensures '_' !in t && '/' !in t && t != []
    ensures url.None? ==> t == "null"
    ensures url.Some? ==> ToIntOrNull(t) == Some(HashCode(url.value))
  {
    if url.None? then "null"
    else
      IntToStringRoundTrip(HashCode(url.value));
      IntToString(HashCode(url.value))
  }

  /**
   * The default value of `compositeKey`. Whatever the title holds, the key
   * reads back, at its last underscore, as the title text and the url-hash text.
   */
  function CompositeKey(title: Option<string>, url: Option<string>): (key: string)
    ensures SplitAtLastUnderscore(key) == Some((TitleText(title), UrlHashText(url)))
  {
    SplitAtLastUnderscoreOf(TitleText(title), UrlHashText(url));
    TitleText(title) + "_" + UrlHashText(url)
  }

  /** A record whose key is still the one its title and url determine. */
  predicate WellKeyed(r: Recipe) {
    r.compositeKey == CompositeKey(r.title, r.url)
  }

  /** The primary constructor called without `compositeKey`, as the JSON adapter does. */
  function NewRecipe(
    title: Option<string>, calories: Option<Double>, totalTime: Option<Double>,
    healthLabels: Option<seq<string>>, image: Option<string>,
    ingredientLines: Option<seq<string>>, url: Option<string>, isFavorite: Option<bool>): (r: Recipe)
    ensures WellKeyed(r)
    ensures r.title == title && r.url == url && r.isFavorite == isFavorite
  {
    Recipe(title, calories, totalTime, healthLabels, image, ingredientLines, url, isFavorite,
           CompositeKey(title, url))
  }

  /** `Recipe()`: every argument left at its default. */
  function DefaultRecipe(): (r: Recipe)
    ensures r.title.None? && r.calories.None? && r.totalTime.None? && r.healthLabels.None?
    ensures r.image.None? && r.ingredientLines.None? && r.url.None?
    ensures r.isFavorite == Some(false)
    ensures r.compositeKey == "null_null"
  {
    NewRecipe(None, None, None, None, None, None, None, Some(false))
  }

  // ---------------------------------------------------------------------------
  // Reading a key back

  /** Splits a key at its last underscore, the one the template puts before the hash. */
  function SplitAtLastUnderscore(key: string): (parts: Option<(string, string)>)
    ensures parts.None? <==> '_' !in key
    ensures parts.Some? ==> key == parts.value.0 + "_" + parts.value.1 && '_' !in parts.value.1
  {
    if key == [] then None
    else if key[|key| - 1] == '_' then
      assert key == key[..|key| - 1] + "_" + "";
      Some((key[..|key| - 1], ""))
    else
      match SplitAtLastUnderscore(key[..|key| - 1])
      case None => None
      case Some((a, b)) =>
        assert key == key[..|key| - 1] + [key[|key| - 1]];
        Some((a, b + [key[|key| - 1]]))
  }

  lemma {:induction false} SplitAtLastUnderscoreOf(a: string, b: string)
    requires '_' !in b
    ensures SplitAtLastUnderscore(a + "_" + b) == Some((a, b))
  {
    var key := a + "_" + b;
    if b == [] {
      assert key[..|key| - 1] == a;
    } else {
      var b' := b[..|b| - 1];
      assert key[..|key| - 1] == a + "_" + b';
      SplitAtLastUnderscoreOf(a, b');
      assert b' + [b[|b| - 1]] == b;
    }
  }

  /**
   * Two (title, url) pairs get the same key exactly when their titles render
   * alike and either both urls are absent or both are present with equal
   * `hashCode()`s. So equal title and url always give equal keys, and the
   * collisions are precisely those of the rendering ("null" for an absent
   * title) and of the 32-bit hash.
   */
  lemma KeyCollision(l1: Option<string>, u1: Option<string>, l2: Option<string>, u2: Option<string>)
    ensures CompositeKey(l1, u1) == CompositeKey(l2, u2) <==>
      && TitleText(l1) == TitleText(l2)
      && u1.None? == u2.None?
      && (u1.Some? && u2.Some? ==> HashCode(u1.value) == HashCode(u2.value))
  {
    if CompositeKey(l1, u1) == CompositeKey(l2, u2) {
      if u1.Some? && u2.Some? {
        IntToStringInjective(HashCode(u1.value), HashCode(u2.value));
      }
    }
  }

  /**
   * `copy(isFavorite = ...)` and `copy(ingredientLines = ...)` carry the key
   * over unchanged, and a record keyed from its title and url stays so.
   */
  lemma CopyKeepsKey(r: Recipe, isFavorite: Option<bool>, ingredientLines: Option<seq<string>>)
    ensures r.(isFavorite := isFavorite).compositeKey == r.compositeKey
    ensures r.(ingredientLines := ingredientLines).compositeKey == r.compositeKey
    ensures WellKeyed(r) ==> WellKeyed(r.(isFavorite := isFavorite)) && WellKeyed(r.(ingredientLines := ingredientLines))
  {
  }
}
