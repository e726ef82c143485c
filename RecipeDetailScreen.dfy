/**
 * The recipe detail screen's favourite button: the flag it computes from
 * the icon map, the field map it writes to the cloud collection `recipes`,
 * and the create / update / delete decision that mirrors the flag there.
 * The recipe's key is handed to `document(...)`, which reads it as a
 * slash-separated path below the collection, so the model keeps that path
 * reading too.
 */
module RecipeDetail {
  import opened Wrappers
  import opened RecipeModel
  import opened RecipeDao
  import opened RecipeViewModel

  /** A field value of a cloud document. */
  datatype Value = Null | Str(s: string) | Num(d: Double) | Bool(b: bool) | StrList(l: seq<string>)

  /** A cloud document: its fields by name. */
  type Document = map<string, Value>

  const KEY_FIELD := "recipe_compositeKey"
  const LABEL_FIELD := "recipe_label"
  const CALORIES_FIELD := "recipe_calories"
  const TOTAL_TIME_FIELD := "recipe_totalTime"
  const IMAGE_FIELD := "recipe_image"
  const INGREDIENTS_FIELD := "recipe_ingredientLines"
  const URL_FIELD := "recipe_url"
  const FAVORITE_FIELD := "isFavorite"

  function OptStr(o: Option<string>): Value {
    if o.Some? then Str(o.value) else Null
  }

  function OptNum(o: Option<Double>): Value {
    if o.Some? then Num(o.value) else Null
  }

  function OptList(o: Option<seq<string>>): Value {
    if o.Some? then StrList(o.value) else Null
  }

  function OptBool(o: Option<bool>): Value {
    if o.Some? then Bool(o.value) else Null
  }

  /**
   * `recipeMap`: the recipe's key, label, calories, total time, image,
   * ingredient lines and url under their `recipe_` names, and the given
   * favourite flag; `healthLabels` is not written.
   */
  function RecipeFields(r: Recipe, isFavorite: Option<bool>): (doc: Document)
    ensures doc.Keys == {KEY_FIELD, LABEL_FIELD, CALORIES_FIELD, TOTAL_TIME_FIELD, IMAGE_FIELD,
                         INGREDIENTS_FIELD, URL_FIELD, FAVORITE_FIELD}
    ensures doc[KEY_FIELD] == Str(r.compositeKey)
  {
    map[KEY_FIELD := Str(r.compositeKey),
        LABEL_FIELD := OptStr(r.title),
        CALORIES_FIELD := OptNum(r.calories),
        TOTAL_TIME_FIELD := OptNum(r.totalTime),
        IMAGE_FIELD := OptStr(r.image),
        INGREDIENTS_FIELD := OptList(r.ingredientLines),
        URL_FIELD := OptStr(r.url),
        FAVORITE_FIELD := OptBool(isFavorite)]
  }

  // ---------------------------------------------------------------------------
  // Document paths

  /**
   * Where `collection("recipes").document(path)` points: a document of the
   * collection itself, a document of a sub-collection further down (the full
   * path below `recipes`), or nowhere, when the call throws.
   */
  datatype DocumentRef = TopLevel(id: string) | Nested(path: seq<string>) | InvalidPath

  /** The index of the first '/' in `p`, or `|p|` when there is none. */
  function SlashIndex(p: string): (n: nat)
    ensures n <= |p| && '/' !in p[..n]
    ensures n < |p| ==> p[n] == '/'
  {
    if p == [] || p[0] == '/' then 0
    else
      var m := SlashIndex(p[1..]);
      assert p[..m + 1] == [p[0]] + p[1..][..m];
      m + 1
  }

  /** The non-empty pieces between slashes: empty ones, at either end, are dropped. */
  function Segments(p: string): (segs: seq<string>)
    ensures forall i | 0 <= i < |segs| :: segs[i] != [] && '/' !in segs[i]
    decreases |p|
  {
    if p == [] then []
    else if p[0] == '/' then Segments(p[1..])
    else
      var n := SlashIndex(p);
      [p[..n]] + Segments(p[n..])
  }

  predicate HasDoubleSlash(p: string) {
    exists i | 0 <= i < |p| - 1 :: p[i] == '/' && p[i + 1] == '/'
  }

  /**
   * `document(path)` below `recipes`: a path holding "//" is refused, and so
   * is one whose segments, with the collection's own, are odd in number; a
   * single segment is the id of a document of the collection, three or more
   * a document in a nested sub-collection.
   */
  function DocumentRefOf(path: string): (ref: DocumentRef)
    ensures ref.TopLevel? ==> ref.id != [] && '/' !in ref.id
    ensures ref.Nested? ==> |ref.path| >= 3
  {
    if HasDoubleSlash(path) then InvalidPath
    else
      var segs := Segments(path);
      if |segs| % 2 == 0 then InvalidPath
      else if |segs| == 1 then TopLevel(segs[0])
      else Nested(segs)
  }

  lemma {:induction false} SlashIndexAt(a: string, tail: string)
    requires '/' !in a && (tail == [] || tail[0] == '/')
    ensures SlashIndex(a + tail) == |a|
  {
    if a == [] {
      assert a + tail == tail;
    } else {
      assert (a + tail)[1..] == a[1..] + tail;
      SlashIndexAt(a[1..], tail);
    }
  }

  lemma SegmentsOfPlain(a: string)
    requires a != [] && '/' !in a
    ensures Segments(a) == [a]
  {
    SlashIndexAt(a, []);
    assert a + [] == a;
    assert a[|a|..] == [];
  }

  lemma SegmentsCons(a: string, rest: string)
    requires a != [] && '/' !in a
    ensures Segments(a + "/" + rest) == [a] + Segments(rest)
  {
    var p := a + "/" + rest;
    assert p == a + ("/" + rest);
    SlashIndexAt(a, "/" + rest);
    assert p[..|a|] == a;
    assert p[|a|..] == "/" + rest;
    assert ("/" + rest)[1..] == rest;
  }

  lemma NoDoubleSlashJoin(a: string, b: string)
    requires a != [] && b != [] && '/' !in a && b[0] != '/' && !HasDoubleSlash(b)
    ensures !HasDoubleSlash(a + "/" + b)
  {
    var p := a + "/" + b;
    forall i | 0 <= i < |p| - 1
      ensures !(p[i] == '/' && p[i + 1] == '/')
    {
      if i < |a| {
        assert p[i] == a[i];
      } else if i == |a| {
        assert p[i + 1] == b[0];
      } else {
        assert p[i] == b[i - |a| - 1] && p[i + 1] == b[i - |a|];
      }
    }
  }

  /** A key without '/' names the document of that id. */
  lemma PlainKeyIsTopLevel(key: string)
    requires key != [] && '/' !in key
    ensures DocumentRefOf(key) == TopLevel(key)
  {
    SegmentsOfPlain(key);
  }

  lemma OneSlashPath(a: string, b: string)
    requires a != [] && b != [] && '/' !in a && '/' !in b
    ensures DocumentRefOf(a + "/" + b) == InvalidPath
  {
    SegmentsCons(a, b);
    SegmentsOfPlain(b);
    NoDoubleSlashJoin(a, b);
  }

  lemma TwoSlashesPath(a: string, b: string, c: string)
    requires a != [] && b != [] && c != [] && '/' !in a && '/' !in b && '/' !in c
    ensures DocumentRefOf(a + "/" + (b + "/" + c)) == Nested([a, b, c])
  {
    TwoSlashesSegments(a, b, c);
    OneSlashClean(b, c);
    NoDoubleSlashJoin(a, b + "/" + c);
  }

  lemma TwoSlashesSegments(a: string, b: string, c: string)
    requires a != [] && b != [] && c != [] && '/' !in a && '/' !in b && '/' !in c
    ensures Segments(a + "/" + (b + "/" + c)) == [a, b, c]
  {
    SegmentsOfPlain(c);
    SegmentsCons(b, c);
    SegmentsCons(a, b + "/" + c);
  }

  lemma OneSlashClean(b: string, c: string)
    requires b != [] && c != [] && '/' !in b && '/' !in c
    ensures var p := b + "/" + c; p[0] != '/' && !HasDoubleSlash(p)
  {
    NoDoubleSlashJoin(b, c);
  }

  /** The hash text that ends every key, after the label's last piece. */
  lemma KeyTail(c: string, url: Option<string>)
    requires '/' !in c
    ensures var tail := c + "_" + UrlHashText(url);
      tail != [] && '/' !in tail
  {
  }

  lemma Associative(x: string, y: string, z: string)
    ensures (x + y) + z == x + (y + z)
  {
  }

  /** A label holding one '/' gives a key that `document(...)` refuses. */
  lemma OneSlashInLabel(a: string, b: string, url: Option<string>)
    requires a != [] && '/' !in a && '/' !in b
    ensures DocumentRefOf(CompositeKey(Some(a + "/" + b), url)) == InvalidPath
  {
    var h := UrlHashText(url);
    KeyTail(b, url);
    Associative(a + "/", b, "_");
    Associative(a + "/", b + "_", h);
    OneSlashPath(a, b + "_" + h);
  }

  /**
   * A label holding two '/' gives a key naming a document two levels below
   * the collection, in a sub-collection of the document named by the text
   * before the first '/'.
   */
  lemma TwoSlashesInLabel(a: string, b: string, c: string, url: Option<string>)
    requires a != [] && b != [] && '/' !in a && '/' !in b && '/' !in c
    ensures DocumentRefOf(CompositeKey(Some(a + "/" + b + "/" + c), url)) ==
            Nested([a, b, c + "_" + UrlHashText(url)])
  {
    var h := UrlHashText(url);
    KeyTail(c, url);
    var t := c + "_" + h;
    Associative(a + "/" + b + "/", c, "_");
    Associative(a + "/" + b + "/", c + "_", h);
    Associative(a + "/" + b, "/", t);
    Associative(a + "/", b, "/" + t);
    Associative(b, "/", t);
    TwoSlashesPath(a, b, c + "_" + h);
  }

  // ---------------------------------------------------------------------------
  // The collection

  /**
   * The collection `recipes`: its own documents by id, and the documents that
   * landed in sub-collections below them, by their full path.
   */
  datatype Mirror = Mirror(docs: map<string, Document>, nested: map<seq<string>, Document>)

  /** Every document sits under the id that `document(...)` makes of its `recipe_compositeKey` field. */
  ghost predicate MirrorKeyed(docs: map<string, Document>) {
    forall id | id in docs ::
      KEY_FIELD in docs[id] && docs[id][KEY_FIELD].Str? && DocumentRefOf(docs[id][KEY_FIELD].s) == TopLevel(id)
  }

  /**
   * `set(fields, SetOptions.merge())` on the document under `k`: the fields
   * it had, each given field written over.
   */
  function MergeAt<K>(m: map<K, Document>, k: K, fields: Document): (doc: Document)
    ensures doc.Keys == (if k in m then m[k].Keys else {}) + fields.Keys
    ensures forall f | f in fields :: doc[f] == fields[f]
    ensures forall f | f in doc && f !in fields :: k in m && doc[f] == m[k][f]
  {
    (if k in m then m[k] else map[]) + fields
  }

  /** The query `whereEqualTo("recipe_compositeKey", key)` on the collection is non-empty. */
  predicate DoesRecipeExist(docs: map<string, Document>, key: string) {
    exists id | id in docs :: KEY_FIELD in docs[id] && docs[id][KEY_FIELD] == Str(key)
  }

  /** The document `document(key)` names is in the collection and carries the key. */
  predicate StoredAt(docs: map<string, Document>, key: string) {
    var ref := DocumentRefOf(key);
    ref.TopLevel? && ref.id in docs && KEY_FIELD in docs[ref.id] && docs[ref.id][KEY_FIELD] == Str(key)
  }

  /**
   * In a keyed collection the query by field finds a document exactly when
   * the key names a document of the collection and that document carries it;
   * a key that `document(...)` refuses or sends below the collection is never
   * found.
   */
  lemma DoesRecipeExistIffStored(docs: map<string, Document>, key: string)
    requires MirrorKeyed(docs)
    ensures DoesRecipeExist(docs, key) <==> StoredAt(docs, key)
  {
    if DoesRecipeExist(docs, key) {
      var id :| id in docs && KEY_FIELD in docs[id] && docs[id][KEY_FIELD] == Str(key);
      assert DocumentRefOf(key) == TopLevel(id);
    }
  }

  /**
   * The flag sent to the collection: the negation of the icon map's entry
   * for the key, false when the key has none. The cached `isFavorite` plays
   * no part.
   */
  function FavoriteFlag(icons: map<string, bool>, key: string): (flag: bool)
    ensures flag <==> key !in icons || !icons[key]
  {
    !(if key in icons then icons[key] else false)
  }

  /** The collection after `handleFirestoreUpdate(recipe, flag)`. */
  function Reconciled(m: Mirror, recipe: Recipe, flag: bool): (r: Mirror)
    ensures m.nested.Keys <= r.nested.Keys
    ensures !flag ==> r.nested == m.nested
  {
    var key := recipe.compositeKey;
    var ref := DocumentRefOf(key);
    var fields := RecipeFields(recipe, Some(flag));
    if StoredAt(m.docs, key) then
      if flag then m.(docs := m.docs[ref.id := m.docs[ref.id] + fields])
      else m.(docs := m.docs - {ref.id})
    else if !flag then m
    else
      match ref
      case TopLevel(id) => m.(docs := m.docs[id := fields])
      case Nested(path) => m.(nested := m.nested[path := fields])
      case InvalidPath => m
  }

  /**
   * After reconciling, the query finds a document for the key exactly when
   * the flag is true and the key names a document of the collection; that
   * document then carries every field of the recipe map (created, or
   * overwritten field by field). A key naming a document further down gets
   * that document written when the flag is true, and a refused key changes
   * nothing. Documents under other ids are untouched.
   */
  lemma ReconciledOutcome(m: Mirror, recipe: Recipe, flag: bool)
    requires MirrorKeyed(m.docs)
    ensures var r := Reconciled(m, recipe, flag);
      var key := recipe.compositeKey;
      var ref := DocumentRefOf(key);
      var fields := RecipeFields(recipe, Some(flag));
      && MirrorKeyed(r.docs)
      && (DoesRecipeExist(r.docs, key) <==> flag && ref.TopLevel?)
      && (flag && ref.TopLevel? ==> ref.id in r.docs && forall f | f in fields ::
                                     f in r.docs[ref.id] && r.docs[ref.id][f] == fields[f])
      && r.nested == (if flag && ref.Nested? then m.nested[ref.path := fields] else m.nested)
      && (forall id | id in m.docs && !(ref.TopLevel? && id == ref.id) :: id in r.docs && r.docs[id] == m.docs[id])
      && (forall id | id in r.docs && !(ref.TopLevel? && id == ref.id) :: id in m.docs)
      && (!flag && !DoesRecipeExist(m.docs, key) ==> r == m)
  {
    ReconciledKeyed(m, recipe, flag);
    ReconciledStored(m, recipe, flag);
    ReconciledOthers(m, recipe, flag);
    DoesRecipeExistIffStored(m.docs, recipe.compositeKey);
    DoesRecipeExistIffStored(Reconciled(m, recipe, flag).docs, recipe.compositeKey);
  }

  lemma ReconciledOthers(m: Mirror, recipe: Recipe, flag: bool)
    ensures var r := Reconciled(m, recipe, flag);
      var ref := DocumentRefOf(recipe.compositeKey);
      && r.nested == (if flag && ref.Nested? then m.nested[ref.path := RecipeFields(recipe, Some(flag))] else m.nested)
      && (forall id | id in m.docs && !(ref.TopLevel? && id == ref.id) :: id in r.docs && r.docs[id] == m.docs[id])
      && (forall id | id in r.docs && !(ref.TopLevel? && id == ref.id) :: id in m.docs)
      && (!flag && !StoredAt(m.docs, recipe.compositeKey) ==> r == m)
  {
  }

  lemma ReconciledKeyed(m: Mirror, recipe: Recipe, flag: bool)
    requires MirrorKeyed(m.docs)
    ensures MirrorKeyed(Reconciled(m, recipe, flag).docs)
  {
    var key := recipe.compositeKey;
    var ref := DocumentRefOf(key);
    var fields := RecipeFields(recipe, Some(flag));
    if StoredAt(m.docs, key) {
      if flag {
        KeyedAfterWrite(m.docs, ref.id, m.docs[ref.id] + fields, key);
      } else {
        KeyedAfterRemove(m.docs, ref.id);
      }
    } else if flag && ref.TopLevel? {
      KeyedAfterWrite(m.docs, ref.id, fields, key);
    }
  }

  lemma KeyedAfterWrite(docs: map<string, Document>, id: string, doc: Document, key: string)
    requires MirrorKeyed(docs) && DocumentRefOf(key) == TopLevel(id)
    requires KEY_FIELD in doc && doc[KEY_FIELD] == Str(key)
    ensures MirrorKeyed(docs[id := doc])
  {
  }

  lemma KeyedAfterRemove(docs: map<string, Document>, id: string)
    requires MirrorKeyed(docs)
    ensures MirrorKeyed(docs - {id})
  {
  }

  lemma ReconciledStored(m: Mirror, recipe: Recipe, flag: bool)
    ensures var r := Reconciled(m, recipe, flag);
      var ref := DocumentRefOf(recipe.compositeKey);
      var fields := RecipeFields(recipe, Some(flag));
      && (StoredAt(r.docs, recipe.compositeKey) <==> flag && ref.TopLevel?)
      && (flag && ref.TopLevel? ==> ref.id in r.docs && forall f | f in fields ::
                                     f in r.docs[ref.id] && r.docs[ref.id][f] == fields[f])
  {
    var key := recipe.compositeKey;
    var ref := DocumentRefOf(key);
    var fields := RecipeFields(recipe, Some(flag));
    var r := Reconciled(m, recipe, flag);
    if flag && ref.TopLevel? {
      var doc := if StoredAt(m.docs, key) then m.docs[ref.id] + fields else fields;
      assert r.docs == m.docs[ref.id := doc];
      forall f | f in fields
        ensures f in doc && doc[f] == fields[f]
      {
      }
    }
  }

  /**
   * Favouriting a recipe whose key names a free id of the collection, or a
   * key that `document(...)` refuses, and then un-favouriting it leaves the
   * collection as it was; un-favouriting and re-favouriting one the query
   * finds leaves a document the query finds.
   */
  lemma ReconcileTwice(m: Mirror, recipe: Recipe)
    requires MirrorKeyed(m.docs)
    ensures var ref := DocumentRefOf(recipe.compositeKey);
      ref.InvalidPath? || (ref.TopLevel? && ref.id !in m.docs) ==>
        Reconciled(Reconciled(m, recipe, true), recipe, false) == m
    ensures DoesRecipeExist(m.docs, recipe.compositeKey) ==>
      DoesRecipeExist(Reconciled(Reconciled(m, recipe, false), recipe, true).docs, recipe.compositeKey)
  {
    var ref := DocumentRefOf(recipe.compositeKey);
    if ref.TopLevel? && ref.id !in m.docs {
      var once := Reconciled(m, recipe, true);
      assert StoredAt(once.docs, recipe.compositeKey);
      assert once.docs - {ref.id} == m.docs;
    }
    ReconciledOutcome(m, recipe, false);
    ReconciledOutcome(Reconciled(m, recipe, false), recipe, true);
    DoesRecipeExistIffStored(m.docs, recipe.compositeKey);
  }

  /**
   * A key naming a document below a sub-collection is never found by the
   * query: favouriting writes that document, and un-favouriting leaves it
   * there, while the collection's own documents do not change.
   */
  lemma NestedFavouriteStays(m: Mirror, recipe: Recipe)
    requires DocumentRefOf(recipe.compositeKey).Nested?
    ensures var twice := Reconciled(Reconciled(m, recipe, true), recipe, false);
      && twice.docs == m.docs
      && twice.nested == m.nested[DocumentRefOf(recipe.compositeKey).path := RecipeFields(recipe, Some(true))]
  {
  }

  /** The cloud collection `recipes`. */
  class FavoritesCollection {
    var docs: map<string, Document>
    /** Documents written below the collection's own documents, by full path. */
    var nested: map<seq<string>, Document>

    ghost predicate Valid()
      reads this
    {
      MirrorKeyed(docs)
    }

    constructor ()
      ensures Valid() && docs == map[] && nested == map[]
    {
      docs := map[];
      nested := map[];
    }

    /** `doesRecipeExist`: the query by key field, read from the current documents. */
    method QueryExists(key: string) returns (found: bool)
      requires Valid()
      ensures found == DoesRecipeExist(docs, key)
      ensures found <==> StoredAt(docs, key)
    {
      DoesRecipeExistIffStored(docs, key);
      found := DoesRecipeExist(docs, key);
    }

    /**
     * `handleFirestoreUpdate`, its launched body taken as one step whose query
     * and writes succeed; `document(key)` throwing on a refused key is caught
     * and only logged.
     */
    method HandleFirestoreUpdate(recipe: Recipe, isIconChanged: bool)
      requires Valid()
      modifies this
      ensures Valid()
      ensures Mirror(docs, nested) == Reconciled(old(Mirror(docs, nested)), recipe, isIconChanged)
    {
      var before := Mirror(docs, nested);
      var recipeMap := RecipeFields(recipe, Some(isIconChanged));
      var found := QueryExists(recipe.compositeKey);
      if !found {
        if isIconChanged {
          match DocumentRefOf(recipe.compositeKey) {
            case TopLevel(id) =>
              docs := docs[id := recipeMap];
            case Nested(path) =>
              nested := nested[path := recipeMap];
            case InvalidPath =>
          }
        }
      } else {
        // the first document the query returned
        var id :| id in docs && KEY_FIELD in docs[id] && docs[id][KEY_FIELD] == Str(recipe.compositeKey);
        assert DocumentRefOf(recipe.compositeKey) == TopLevel(id);
        if isIconChanged {
          docs := docs[id := docs[id] + recipeMap];
        } else {
          docs := docs - {id};
        }
      }
      ReconciledKeyed(before, recipe, isIconChanged);
    }
  }

  /**
   * The favourite button's `onClick`: compute the flag from the icon map,
   * toggle the cached record, then reconcile the collection with a copy of
   * the recipe carrying the flag. The two launched steps are independent: a
   * toggle that throws does not stop the reconciliation. The view model's
   * recipe list, search term and request log are not touched.
   */
  method OnFavoriteClick(vm: RecipeViewModel, dao: RecipeDao, mirror: FavoritesCollection, recipe: Recipe)
    returns (outcome: Toggle)
    requires dao.Valid() && mirror.Valid()
    modifies vm`recipeIconState, dao, mirror
    ensures dao.Valid() && mirror.Valid()
    ensures var flag := FavoriteFlag(old(vm.recipeIconState), recipe.compositeKey);
      Mirror(mirror.docs, mirror.nested) ==
      Reconciled(old(Mirror(mirror.docs, mirror.nested)), recipe.(isFavorite := Some(flag)), flag)
    ensures var expected := ToggleFavorite(old(dao.table), old(vm.recipeIconState), recipe.compositeKey);
      && (outcome.NullPointerException? <==> expected.None?)
      && (expected.None? ==> dao.table == old(dao.table) && vm.recipeIconState == old(vm.recipeIconState))
      && (expected.Some? ==> dao.table == expected.value.0 && vm.recipeIconState == expected.value.1)
  {
    var iconState := FavoriteFlag(vm.recipeIconState, recipe.compositeKey);
    outcome := vm.UpdateRecipeIconState(recipe.compositeKey, dao);
    mirror.HandleFirestoreUpdate(recipe.(isFavorite := Some(iconState)), iconState);
  }

  /**
   * When the icon map agrees with the cache on the key (an absent entry
   * standing for a stored `false`), one click leaves the cache and the icon
   * map agreeing on the new flag, and the query finds a document for the key
   * exactly when the flag is true and the key names a document of the
   * collection.
   */
  lemma ClickKeepsCopiesInStep(table: map<string, Recipe>, icons: map<string, bool>,
                               m: Mirror, recipe: Recipe)
    requires KeyedTable(table) && MirrorKeyed(m.docs)
    requires recipe.compositeKey in table
    requires table[recipe.compositeKey].isFavorite ==
             Some(if recipe.compositeKey in icons then icons[recipe.compositeKey] else false)
    ensures var key := recipe.compositeKey;
      var flag := FavoriteFlag(icons, key);
      var toggled := ToggleFavorite(table, icons, key);
      && toggled.Some?
      && toggled.value.0[key].isFavorite == Some(flag)
      && toggled.value.1[key] == flag
      && (DoesRecipeExist(Reconciled(m, recipe.(isFavorite := Some(flag)), flag).docs, key) <==>
          flag && DocumentRefOf(key).TopLevel?)
  {
    var flag := FavoriteFlag(icons, recipe.compositeKey);
    ReconciledOutcome(m, recipe.(isFavorite := Some(flag)), flag);
  }

  /**
   * The two copies can part: with no icon entry for the key (the map starts
   * empty on every launch) and a stored favourite, the click sends `true` to
   * the collection, which then holds the recipe's document, while the cache
   * flips to `false`.
   */
  lemma ClickDiverges(table: map<string, Recipe>, icons: map<string, bool>, m: Mirror, recipe: Recipe)
    requires KeyedTable(table) && MirrorKeyed(m.docs)
    requires recipe.compositeKey in table && recipe.compositeKey !in icons
    requires table[recipe.compositeKey].isFavorite == Some(true)
    ensures var key := recipe.compositeKey;
      var ref := DocumentRefOf(key);
      var flag := FavoriteFlag(icons, key);
      var toggled := ToggleFavorite(table, icons, key);
      var r := Reconciled(m, recipe.(isFavorite := Some(flag)), flag);
      && flag
      && toggled.Some? && toggled.value.0[key].isFavorite == Some(false)
      && (ref.TopLevel? ==> DoesRecipeExist(r.docs, key))
      && (ref.Nested? ==> ref.path in r.nested)
  {
    ReconciledOutcome(m, recipe.(isFavorite := Some(true)), true);
  }
}
