/**
 * The saved-recipes screen: reading favourites back from the cloud
 * collection, the ingredient editor (parse each line into a name and an
 * optional quantity, edit the list, print it back), and saving an edited
 * recipe with the refresh of the shown list.
 */
module SavedScreen {
  import opened Wrappers
  import opened KotlinText
  import opened RecipeModel
  import opened RecipeDetail

  // ---------------------------------------------------------------------------
  // Ingredient lines

  /** `name to quantity`: one row of the editor. */
  datatype Ingredient = Ingredient(name: string, quantity: Option<int>)

  /**
   * One line: when the text before the first blank reads as an `Int`, that
   * is the quantity and the rest of the line (or "") is the name; otherwise
   * the whole line is the name and there is no quantity.
   */
  function ParseIngredientLine(line: string): (ing: Ingredient)
    ensures ing.quantity == ToIntOrNull(FirstToken(line))
    ensures ing.quantity.None? ==> ing.name == line
    ensures ing.quantity.Some? && ' ' in line ==> line == FirstToken(line) + " " + ing.name
    ensures ing.quantity.Some? && ' ' !in line ==> ing.name == "" && line == FirstToken(line)
  {
    var parts := SplitAtFirstSpace(line);
    var quantity := ToIntOrNull(parts[0]);
    if quantity.None? then Ingredient(line, None)
    else if |parts| == 2 then Ingredient(parts[1], quantity)
    else Ingredient("", quantity)
  }

  /** The text before the first blank (the whole line when there is none). */
  function FirstToken(line: string): string {
    SplitAtFirstSpace(line)[0]
  }

  /** `ingredientLines?.map { ... } ?: mutableListOf()` */
  function ParseIngredients(lines: Option<seq<string>>): (ings: seq<Ingredient>)
    ensures lines.None? ==> ings == []
    ensures lines.Some? ==> |ings| == |lines.value|
    ensures lines.Some? ==> forall i | 0 <= i < |ings| :: ings[i] == ParseIngredientLine(lines.value[i])
  {
    match lines
    case None => []
    case Some(ls) => seq(|ls|, i requires 0 <= i < |ls| => ParseIngredientLine(ls[i]))
  }

  /** `"${quantity ?: ""} ${name}".trim()` */
  function SerializeIngredient(ing: Ingredient): (line: string)
    ensures Trimmed(line)
  {
    Trim((if ing.quantity.Some? then IntToString(ing.quantity.value) else "") + " " + ing.name)
  }

  function SerializeIngredients(ings: seq<Ingredient>): (lines: seq<string>)
    ensures |lines| == |ings|
    ensures forall i | 0 <= i < |ings| :: lines[i] == SerializeIngredient(ings[i])
  {
    seq(|ings|, i requires 0 <= i < |ings| => SerializeIngredient(ings[i]))
  }

  /** The first token is not an `Int`, or is one written the way `Int.toString()` writes it. */
  predicate CanonicalFirstToken(line: string) {
    var q := ToIntOrNull(FirstToken(line));
    q.None? || IntToString(q.value) == FirstToken(line)
  }

  /**
   * Printing a parsed line gives the line back when it has no whitespace at
   * either end and its first token, if it is a number, is in canonical form.
   */
  lemma SerializeParse(line: string)
    requires Trimmed(line) && CanonicalFirstToken(line)
    ensures SerializeIngredient(ParseIngredientLine(line)) == line
  {
    var ing := ParseIngredientLine(line);
    var text := if ing.quantity.Some? then IntToString(ing.quantity.value) else "";
    var joined := text + " " + ing.name;
    assert SerializeIngredient(ing) == Trim(joined);
    if ing.quantity.None? {
      assert joined == " " + line;
      TrimLeadingSpace(line);
    } else if ' ' in line {
      assert joined == line;
      TrimOfTrimmed(line);
    } else {
      assert joined == line + " ";
      TrimTrailingSpace(line);
    }
  }

  /**
   * Parsing a printed row gives the row back when its name has no whitespace
   * at either end and, for a row without a quantity, the name's first token
   * does not read as a number.
   */
  lemma ParseSerialize(ing: Ingredient)
    requires Trimmed(ing.name)
    requires ing.quantity.Some? ==> IsInt(ing.quantity.value)
    requires ing.quantity.None? ==> ToIntOrNull(FirstToken(ing.name)).None?
    ensures ParseIngredientLine(SerializeIngredient(ing)) == ing
  {
    if ing.quantity.None? {
      ParseSerializeUnquantified(ing.name);
    } else if ing.name == [] {
      ParseSerializeBare(ing.quantity.value);
    } else {
      ParseSerializeNamed(ing.quantity.value, ing.name);
    }
  }

  lemma ParseSerializeUnquantified(name: string)
    requires Trimmed(name) && ToIntOrNull(FirstToken(name)).None?
    ensures ParseIngredientLine(SerializeIngredient(Ingredient(name, None))) == Ingredient(name, None)
  {
    PrintUnquantified(name);
    var ing := ParseIngredientLine(name);
    assert ing.quantity.None? && ing.name == name;
  }

  lemma PrintUnquantified(name: string)
    requires Trimmed(name)
    ensures SerializeIngredient(Ingredient(name, None)) == name
  {
    assert "" + " " + name == " " + name;
    TrimLeadingSpace(name);
  }

  lemma ParseSerializeBare(q: int)
    requires IsInt(q)
    ensures ParseIngredientLine(SerializeIngredient(Ingredient("", Some(q)))) == Ingredient("", Some(q))
  {
    var t := IntToString(q);
    assert t + " " + "" == t + " ";
    TrimTrailingSpace(t);
    IntToStringRoundTrip(q);
    ParseBareToken(t);
  }

  /** A single token that reads as an `Int` is a quantity with an empty name. */
  lemma ParseBareToken(token: string)
    requires ' ' !in token && ToIntOrNull(token).Some?
    ensures ParseIngredientLine(token) == Ingredient("", ToIntOrNull(token))
  {
  }

  lemma ParseSerializeNamed(q: int, name: string)
    requires IsInt(q) && name != [] && Trimmed(name)
    ensures ParseIngredientLine(SerializeIngredient(Ingredient(name, Some(q)))) == Ingredient(name, Some(q))
  {
    var t := IntToString(q);
    var line := t + " " + name;
    assert line[0] == t[0];
    assert line[|line| - 1] == name[|name| - 1];
    TrimOfTrimmed(line);
    IntToStringRoundTrip(q);
    ParseWithQuantity(t, name);
  }

  lemma ParseWithQuantity(token: string, name: string)
    requires ' ' !in token && ToIntOrNull(token).Some?
    ensures ParseIngredientLine(token + " " + name) == Ingredient(name, ToIntOrNull(token))
  {
    SplitAtFirstSpaceOf(token, name);
  }

  /** A whole list of canonical lines survives opening and saving the editor unchanged. */
  lemma SerializeParseAll(lines: seq<string>)
    requires forall i | 0 <= i < |lines| :: Trimmed(lines[i]) && CanonicalFirstToken(lines[i])
    ensures SerializeIngredients(ParseIngredients(Some(lines))) == lines
  {
    forall i | 0 <= i < |lines|
      ensures SerializeIngredient(ParseIngredientLine(lines[i])) == lines[i]
    {
      SerializeParse(lines[i]);
    }
  }

  // ---------------------------------------------------------------------------
  // The edit dialog

  class EditRecipeDialog {
    const recipe: Recipe
    var editedIngredients: seq<Ingredient>
    var newIngredientName: string
    var newIngredientQuantity: string

    constructor (recipe: Recipe)
      ensures this.recipe == recipe
      ensures editedIngredients == ParseIngredients(recipe.ingredientLines)
      ensures newIngredientName == "" && newIngredientQuantity == ""
    {
      this.recipe := recipe;
      editedIngredients := ParseIngredients(recipe.ingredientLines);
      newIngredientName := "";
      newIngredientQuantity := "";
    }

    /** The quantity field of row `index` changed: its quantity becomes `newQuantity.toIntOrNull()`. */
    method OnQuantityChange(index: nat, newQuantity: string)
      requires index < |editedIngredients|
      modifies this`editedIngredients
      ensures |editedIngredients| == |old(editedIngredients)|
      ensures editedIngredients[index] == Ingredient(old(editedIngredients)[index].name, ToIntOrNull(newQuantity))
      ensures forall j | 0 <= j < |editedIngredients| && j != index :: editedIngredients[j] == old(editedIngredients)[j]
    {
      var ingredient := editedIngredients[index];
      editedIngredients := editedIngredients[index := Ingredient(ingredient.name, ToIntOrNull(newQuantity))];
    }

    /** The name field of row `index` changed. */
    method OnNameChange(index: nat, newName: string)
      requires index < |editedIngredients|
      modifies this`editedIngredients
      ensures |editedIngredients| == |old(editedIngredients)|
      ensures editedIngredients[index] == Ingredient(newName, old(editedIngredients)[index].quantity)
      ensures forall j | 0 <= j < |editedIngredients| && j != index :: editedIngredients[j] == old(editedIngredients)[j]
    {
      var ingredient := editedIngredients[index];
      editedIngredients := editedIngredients[index := Ingredient(newName, ingredient.quantity)];
    }

    /** The delete button of row `index`: `removeAt(index)`. */
    method OnDelete(index: nat)
      requires index < |editedIngredients|
      modifies this`editedIngredients
      ensures |editedIngredients| == |old(editedIngredients)| - 1
      ensures forall j | 0 <= j < index :: editedIngredients[j] == old(editedIngredients)[j]
      ensures forall j | index <= j < |editedIngredients| :: editedIngredients[j] == old(editedIngredients)[j + 1]
    {
      editedIngredients := editedIngredients[..index] + editedIngredients[index + 1..];
    }

    method OnNewQuantityChange(text: string)
      modifies this`newIngredientQuantity
      ensures newIngredientQuantity == text
    {
      newIngredientQuantity := text;
    }

    method OnNewNameChange(text: string)
      modifies this`newIngredientName
      ensures newIngredientName == text
    {
      newIngredientName := text;
    }

    /**
     * The add button: with a name that is not blank and a quantity that reads
     * as an `Int`, append the row and clear both inputs; otherwise nothing.
     */
    method OnAdd()
      modifies this`editedIngredients, this`newIngredientName, this`newIngredientQuantity
      ensures var ok := !IsBlank(old(newIngredientName)) && ToIntOrNull(old(newIngredientQuantity)).Some?;
        && (ok ==>
              && editedIngredients == old(editedIngredients) +
                   [Ingredient(old(newIngredientName), ToIntOrNull(old(newIngredientQuantity)))]
              && newIngredientName == "" && newIngredientQuantity == "")
        && (!ok ==>
              && editedIngredients == old(editedIngredients)
              && newIngredientName == old(newIngredientName)
              && newIngredientQuantity == old(newIngredientQuantity))
    {
      if !IsBlank(newIngredientName) && ToIntOrNull(newIngredientQuantity).Some? {
        editedIngredients := editedIngredients + [Ingredient(newIngredientName, ToIntOrNull(newIngredientQuantity))];
        newIngredientName := "";
        newIngredientQuantity := "";
      }
    }

    /**
     * The save button: a copy of the recipe whose ingredient lines are the
     * printed rows; every other field, the key included, is the recipe's.
     */
    method OnConfirm() returns (updated: Recipe)
      ensures updated == recipe.(ingredientLines := Some(SerializeIngredients(editedIngredients)))
      ensures updated.compositeKey == recipe.compositeKey
      ensures WellKeyed(recipe) ==> WellKeyed(updated)
    {
      updated := recipe.(ingredientLines := Some(SerializeIngredients(editedIngredients)));
    }
  }

  // ---------------------------------------------------------------------------
  // Documents <-> recipes, and the shown list

  /** `x as? String` and friends: the value when the field holds one of that type, else null. */
  function AsString(doc: Document, field: string): Option<string> {
    if field in doc && doc[field].Str? then Some(doc[field].s) else None
  }

  function AsDouble(doc: Document, field: string): Option<Double> {
    if field in doc && doc[field].Num? then Some(doc[field].d) else None
  }

  function AsStringList(doc: Document, field: string): Option<seq<string>> {
    if field in doc && doc[field].StrList? then Some(doc[field].l) else None
  }

  function AsBoolean(doc: Document, field: string): Option<bool> {
    if field in doc && doc[field].Bool? then Some(doc[field].b) else None
  }

  /**
   * A document as a `Recipe`: the key from `recipe_compositeKey` (the cast
   * `as String` throws, here `None`, when it is missing or not a string),
   * the other fields by `as?`, `healthLabels` left at its default.
   */
  function FromDocument(doc: Document): (r: Option<Recipe>)
    ensures r.Some? <==> KEY_FIELD in doc && doc[KEY_FIELD].Str?
    ensures r.Some? ==> r.value.compositeKey == doc[KEY_FIELD].s && r.value.healthLabels.None?
  {
    match AsString(doc, KEY_FIELD)
    case None => None
    case Some(key) =>
      Some(Recipe(AsString(doc, LABEL_FIELD), AsDouble(doc, CALORIES_FIELD), AsDouble(doc, TOTAL_TIME_FIELD),
                  None, AsString(doc, IMAGE_FIELD), AsStringList(doc, INGREDIENTS_FIELD),
                  AsString(doc, URL_FIELD), AsBoolean(doc, FAVORITE_FIELD), key))
  }

  /** Writing a recipe's field map and reading it back gives the recipe, less its health labels. */
  lemma FieldsRoundTrip(r: Recipe)
    ensures FromDocument(RecipeFields(r, r.isFavorite)) == Some(r.(healthLabels := None))
  {
  }

  /** Merging a recipe's field map into a document overrides every field the reading uses. */
  lemma MergedRoundTrip(doc: Document, r: Recipe)
    ensures FromDocument(doc + RecipeFields(r, r.isFavorite)) == Some(r.(healthLabels := None))
  {
    var merged := doc + RecipeFields(r, r.isFavorite);
    assert FromDocument(merged) == FromDocument(RecipeFields(r, r.isFavorite));
  }

  /** `documents.map { ... }`: every document read, in the order the query returned them; one bad key throws. */
  function LoadSaved(snapshot: seq<Document>): (data: Option<seq<Recipe>>)
    ensures data.Some? <==> forall i | 0 <= i < |snapshot| :: FromDocument(snapshot[i]).Some?
    ensures data.Some? ==> |data.value| == |snapshot|
    ensures data.Some? ==> forall i | 0 <= i < |snapshot| :: data.value[i] == FromDocument(snapshot[i]).value
  {
    if snapshot == [] then Some([])
    else
      match (FromDocument(snapshot[0]), LoadSaved(snapshot[1..]))
      case (Some(r), Some(rest)) => Some([r] + rest)
      case _ => None
  }

  /** `data.map { if (it.compositeKey == updated.compositeKey) updated else it }` */
  function Refresh(data: seq<Recipe>, updated: Recipe): (next: seq<Recipe>)
    ensures |next| == |data|
    ensures forall i | 0 <= i < |data| :: next[i] == if data[i].compositeKey == updated.compositeKey then updated else data[i]
  {
    seq(|data|, i requires 0 <= i < |data| => if data[i].compositeKey == updated.compositeKey then updated else data[i])
  }

  /**
   * The refresh keeps every entry's key in place, so the list's key order is
   * unchanged, and refreshing with the same record again changes nothing.
   */
  lemma RefreshKeepsKeys(data: seq<Recipe>, updated: Recipe)
    ensures var next := Refresh(data, updated);
      forall i | 0 <= i < |data| :: next[i].compositeKey == data[i].compositeKey
    ensures Refresh(Refresh(data, updated), updated) == Refresh(data, updated)
  {
    var next := Refresh(data, updated);
    assert forall i | 0 <= i < |data| :: Refresh(next, updated)[i] == next[i];
  }

  /**
   * Saving an edit of a shown recipe: the entries with its key become the
   * edit, which keeps that key; the others are as they were, in place.
   */
  lemma RefreshAfterEdit(data: seq<Recipe>, dialog: Recipe, edited: seq<Ingredient>)
    ensures var updated := dialog.(ingredientLines := Some(SerializeIngredients(edited)));
      var next := Refresh(data, updated);
      && |next| == |data|
      && (forall i | 0 <= i < |data| && data[i].compositeKey == dialog.compositeKey ::
            next[i] == updated && next[i].compositeKey == data[i].compositeKey)
      && (forall i | 0 <= i < |data| && data[i].compositeKey != dialog.compositeKey :: next[i] == data[i])
  {
  }

  class PreferencesScreen {
    var data: seq<Recipe>
    var editingRecipe: Option<Recipe>

    constructor ()
      ensures data == [] && editingRecipe.None?
    {
      data := [];
      editingRecipe := None;
    }

    /** The collection's documents arrived: replace the list, unless reading one of them throws. */
    method OnLoaded(snapshot: seq<Document>)
      modifies this`data
      ensures LoadSaved(snapshot).Some? ==> data == LoadSaved(snapshot).value
      ensures LoadSaved(snapshot).None? ==> data == old(data)
    {
      var loaded := LoadSaved(snapshot);
      if loaded.Some? {
        data := loaded.value;
      }
    }

    method OnEdit(recipe: Recipe)
      modifies this`editingRecipe
      ensures editingRecipe == Some(recipe)
    {
      editingRecipe := Some(recipe);
    }

    method OnDismiss()
      modifies this`editingRecipe
      ensures editingRecipe.None?
    {
      editingRecipe := None;
    }

    /**
     * `onSave`: merge the recipe's field map into the document that
     * `document(key)` names; once the write succeeds, refresh the list and
     * close the dialog. A failed write changes nothing, and neither does a key
     * that `document(...)` refuses, the call throwing before any write.
     */
    method OnSave(updated: Recipe, collection: FavoritesCollection, writeSucceeded: bool)
      requires collection.Valid()
      modifies this`data, this`editingRecipe, collection
      ensures collection.Valid()
      ensures var ref := DocumentRefOf(updated.compositeKey);
        var fields := RecipeFields(updated, updated.isFavorite);
        var written := writeSucceeded && !ref.InvalidPath?;
        && (written && ref.TopLevel? ==>
              && collection.docs == old(collection.docs)[ref.id := MergeAt(old(collection.docs), ref.id, fields)]
              && collection.nested == old(collection.nested))
        && (written && ref.Nested? ==>
              && collection.nested == old(collection.nested)[ref.path := MergeAt(old(collection.nested), ref.path, fields)]
              && collection.docs == old(collection.docs))
        && (written ==> data == Refresh(old(data), updated) && editingRecipe.None?)
        && (!written ==>
              && collection.docs == old(collection.docs) && collection.nested == old(collection.nested)
              && data == old(data) && editingRecipe == old(editingRecipe))
    {
      var fields := RecipeFields(updated, updated.isFavorite);
      if writeSucceeded {
        match DocumentRefOf(updated.compositeKey) {
          case TopLevel(id) =>
            collection.docs := collection.docs[id := MergeAt(collection.docs, id, fields)];
          case Nested(path) =>
            collection.nested := collection.nested[path := MergeAt(collection.nested, path, fields)];
          case InvalidPath =>
        }
        if !DocumentRefOf(updated.compositeKey).InvalidPath? {
          data := Refresh(data, updated);
          editingRecipe := None;
        }
      }
    }
  }
}
