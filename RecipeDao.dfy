/**
 * The local cache: the Room table `recipes`, primary key `compositeKey`,
 * reached through the DAO's insert-or-replace, point lookup and update.
 */
module RecipeDao {
  import opened Wrappers
  import opened RecipeModel

  /** Every row sits under its own primary key. */
  ghost predicate KeyedTable(t: map<string, Recipe>) {
    forall k | k in t :: t[k].compositeKey == k
  }

  /** The keys a list of recipes carries. */
  function KeysOf(rs: seq<Recipe>): (ks: set<string>)
    ensures forall i | 0 <= i < |rs| :: rs[i].compositeKey in ks
    ensures forall k | k in ks :: exists i | 0 <= i < |rs| :: rs[i].compositeKey == k
  {
    set i | 0 <= i < |rs| :: rs[i].compositeKey
  }

  /** `@Insert(onConflict = REPLACE)` of a list: each record in order, replacing any row with its key. */
  function InsertAll(t: map<string, Recipe>, rs: seq<Recipe>): (r: map<string, Recipe>)
    ensures t.Keys <= r.Keys
    ensures rs != [] ==> rs[|rs| - 1].compositeKey in r && r[rs[|rs| - 1].compositeKey] == rs[|rs| - 1]
  {
    if rs == [] then t
    else InsertAll(t, rs[..|rs| - 1])[rs[|rs| - 1].compositeKey := rs[|rs| - 1]]
  }

  /** `rs[i]` is the last record of the list carrying its key. */
  predicate LastWithKey(rs: seq<Recipe>, i: int) {
    0 <= i < |rs| && forall j | i < j < |rs| :: rs[j].compositeKey != rs[i].compositeKey
  }

  lemma KeysOfSnoc(rs: seq<Recipe>)
    requires rs != []
    ensures KeysOf(rs) == KeysOf(rs[..|rs| - 1]) + {rs[|rs| - 1].compositeKey}
  {
    var p := rs[..|rs| - 1];
    assert forall i | 0 <= i < |p| :: p[i] == rs[i];
  }

  /** After inserting a list, the table holds exactly the old keys and the list's keys. */
  lemma {:induction false} InsertAllKeys(t: map<string, Recipe>, rs: seq<Recipe>)
    ensures InsertAll(t, rs).Keys == t.Keys + KeysOf(rs)
  {
    if rs != [] {
      InsertAllKeys(t, rs[..|rs| - 1]);
      KeysOfSnoc(rs);
    }
  }

  /** Rows whose keys the list does not carry are left as they were. */
  lemma {:induction false} InsertAllKeepsOthers(t: map<string, Recipe>, rs: seq<Recipe>, k: string)
    requires k in t && k !in KeysOf(rs)
    ensures k in InsertAll(t, rs) && InsertAll(t, rs)[k] == t[k]
  {
    if rs != [] {
      KeysOfSnoc(rs);
      InsertAllKeepsOthers(t, rs[..|rs| - 1], k);
    }
  }

  /**
   * Each key of the list ends up holding the last record carrying it, so a
   * record replaces whatever the table or an earlier entry held for its key.
   */
  lemma {:induction false} InsertAllLastWins(t: map<string, Recipe>, rs: seq<Recipe>, i: int)
    requires LastWithKey(rs, i)
    ensures rs[i].compositeKey in InsertAll(t, rs) && InsertAll(t, rs)[rs[i].compositeKey] == rs[i]
  {
    var p := rs[..|rs| - 1];
    if i < |rs| - 1 {
      assert forall j | i < j < |p| :: p[j] == rs[j];
      assert LastWithKey(p, i);
      InsertAllLastWins(t, p, i);
    }
  }

  /** A row for a key the list carries does not depend on what the table held before. */
  lemma {:induction false} InsertAllOverrides(t1: map<string, Recipe>, t2: map<string, Recipe>, rs: seq<Recipe>, k: string)
    requires k in KeysOf(rs)
    ensures k in InsertAll(t1, rs) && k in InsertAll(t2, rs)
    ensures InsertAll(t1, rs)[k] == InsertAll(t2, rs)[k]
  {
    var p := rs[..|rs| - 1];
    if rs[|rs| - 1].compositeKey != k {
      var i :| 0 <= i < |rs| && rs[i].compositeKey == k;
      assert p[i] == rs[i];
      InsertAllOverrides(t1, t2, p, k);
    }
  }

  /** Inserting the same list twice gives the table that inserting it once does. */
  lemma InsertAllIdempotent(t: map<string, Recipe>, rs: seq<Recipe>)
    ensures InsertAll(InsertAll(t, rs), rs) == InsertAll(t, rs)
    ensures |InsertAll(InsertAll(t, rs), rs)| == |InsertAll(t, rs)|
  {
    var once := InsertAll(t, rs);
    var twice := InsertAll(once, rs);
    InsertAllKeys(t, rs);
    InsertAllKeys(once, rs);
    forall k | k in twice
      ensures twice[k] == once[k]
    {
      if k in KeysOf(rs) {
        InsertAllOverrides(once, t, rs, k);
      } else {
        InsertAllKeepsOthers(once, rs, k);
      }
    }
    assert twice == once;
  }

  lemma {:induction false} InsertAllKeyed(t: map<string, Recipe>, rs: seq<Recipe>)
    requires KeyedTable(t)
    ensures KeyedTable(InsertAll(t, rs))
  {
    if rs != [] {
      InsertAllKeyed(t, rs[..|rs| - 1]);
    }
  }

  /** `@Update`: replace the row whose key is the record's, when there is one. */
  function Updated(t: map<string, Recipe>, r: Recipe): (u: map<string, Recipe>)
    ensures u.Keys == t.Keys
    ensures forall k | k in t && k != r.compositeKey :: u[k] == t[k]
    ensures r.compositeKey in t ==> u[r.compositeKey] == r
    ensures r.compositeKey !in t ==> u == t
    ensures KeyedTable(t) ==> KeyedTable(u)
  {
    if r.compositeKey in t then t[r.compositeKey := r] else t
  }

  class RecipeDao {
    var table: map<string, Recipe>

    ghost predicate Valid()
      reads this
    {
      KeyedTable(table)
    }

    constructor ()
      ensures Valid() && table == map[]
    {
      table := map[];
    }

    method InsertAllRecipes(recipes: seq<Recipe>)
      requires Valid()
      modifies this
      ensures Valid()
      ensures table == InsertAll(old(table), recipes)
    {
      var i := 0;
      while i < |recipes|
        invariant 0 <= i <= |recipes|
        invariant table == InsertAll(old(table), recipes[..i])
        invariant Valid()
      {
        assert recipes[..i + 1][..i] == recipes[..i];
        table := table[recipes[i].compositeKey := recipes[i]];
        i := i + 1;
      }
      assert recipes[..|recipes|] == recipes;
    }

    /** The row stored under the key, or `None` (SQL `null`) when there is none. */
    method GetRecipeByCompositeKey(compositeKey: string) returns (r: Option<Recipe>)
      requires Valid()
      ensures r.Some? <==> compositeKey in table
      ensures r.Some? ==> r.value == table[compositeKey] && r.value.compositeKey == compositeKey
    {
      if compositeKey in table {
        r := Some(table[compositeKey]);
      } else {
        r := None;
      }
    }

    method UpdateRecipe(recipe: Recipe)
      requires Valid()
      modifies this
      ensures Valid()
      ensures table == Updated(old(table), recipe)
    {
      if recipe.compositeKey in table {
        table := table[recipe.compositeKey := recipe];
      }
    }
  }
}
