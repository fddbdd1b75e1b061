/**
 * The database as the recipe views change it: saving a recipe
 * (RecipeSerializer.create_or_update in backend/recipes/serializers.py,
 * and the earlier revision's in backend/foodgram/recipes/serializers.py,
 * whose Recipe has no ingredients accessor, so that its save stops after
 * the recipe row is written), the favorite and shopping_cart toggles and the shopping-list download
 * (backend/recipes/views.py), and the cascade when a recipe is deleted
 * (backend/recipes/models.py).
 *
 * Each database write takes effect on its own: a save that fails half
 * way leaves behind what it had already written, and the contracts say
 * exactly what.
 */
module RecipeStore {
  import opened Common
  import opened Schema
  import opened RecipeValidation
  import ShoppingList
  import UserSerializers

  /** Why a save stops. */
  datatype SaveError =
    | KeyMissing(key: string)     // KeyError from validated_data.pop
    | NameTaken                   // IntegrityError: Recipe.name is unique
    | UnknownTags                 // IntegrityError: a tag key with no Tag row
    | IngredientMissing(id: int)  // Http404 from get_object_or_404(Ingredient, pk=...)
    | ContentRepeated(id: int)    // IntegrityError: (recipe, ingredient) is unique
    | NoAttribute(name: string)   // AttributeError: the model has no such accessor

  /** What a favorite or shopping_cart request answers. */
  datatype Reply =
    | Card(card: UserSerializers.PartialRecipe)  // 200 with the recipe card
    | NoContent                                  // 204
    | BadRequest(message: string)                // 400 {'errors': message}
    | NotFound                                   // 404 from get_object_or_404(Recipe, id=pk)

  // ---------------------------------------------------------------------
  // Saving a recipe: the pieces the contract is written in

  /** The tag keys of the request as the set the recipe ends up with. */
  function TagSet(ids: seq<int>): (s: set<int>)
    ensures forall t :: t in s <==> t in ids
  {
    set t | t in ids
  }

  /** The recipe an update writes: every scalar the request carries replaces the stored one; the rest stay. */
  function Updated(r: Recipe, attrs: Attrs): (u: Recipe)
    ensures attrs.name.None? ==> u.name == r.name
    ensures attrs.text.None? ==> u.text == r.text
    ensures attrs.cookingTime.None? ==> u.cookingTime == r.cookingTime
    ensures attrs.image.None? ==> u.image == r.image
    ensures attrs.name.Some? ==> u.name == attrs.name.value
    ensures attrs.text.Some? ==> u.text == attrs.text.value
    ensures attrs.cookingTime.Some? ==> u.cookingTime == attrs.cookingTime.value
    ensures attrs.image.Some? ==> u.image == attrs.image.value
    ensures u.author == r.author && u.tags == r.tags
  {
    r.(name := attrs.name.GetOr(r.name), text := attrs.text.GetOr(r.text),
       cookingTime := attrs.cookingTime.GetOr(r.cookingTime), image := attrs.image.GetOr(r.image))
  }

  /** The recipe a create inserts: the request's scalars, the caller as author, no tags yet. */
  function Created(attrs: Attrs, author: int): (c: Recipe)
    requires attrs.name.Some? && attrs.text.Some? && attrs.cookingTime.Some? && attrs.image.Some?
    ensures c.author == author && c.tags == {}
    ensures c.name == attrs.name.value && c.text == attrs.text.value
    ensures c.cookingTime == attrs.cookingTime.value && c.image == attrs.image.value
  {
    Recipe(attrs.name.value, attrs.text.value, attrs.cookingTime.value, attrs.image.value, author, {})
  }

  /** No recipe other than rid is called name. */
  predicate NameFree(recipes: map<int, Recipe>, name: string, rid: int) {
    forall k :: k in recipes && k != rid ==> recipes[k].name != name
  }

  /** The content rows the request asks for, one per submitted row, in order. */
  function Rows(rid: int, rows: seq<ContentInput>): (cs: seq<Content>)
    ensures |cs| == |rows|
    ensures forall i :: 0 <= i < |rows| ==> cs[i] == Content(rid, rows[i].id, rows[i].amount)
  {
    seq(|rows|, i requires 0 <= i < |rows| => Content(rid, rows[i].id, rows[i].amount))
  }

  /** Row i can be inserted: its ingredient exists and no earlier row names the same ingredient. */
  predicate RowOk(rows: seq<ContentInput>, ingredients: map<int, Ingredient>, i: nat)
    requires i < |rows|
  {
    rows[i].id in ingredients && forall j :: 0 <= j < i ==> rows[j].id != rows[i].id
  }

  /** The first row at or after j that cannot be inserted, or |rows|. */
  function FirstBadRowFrom(rows: seq<ContentInput>, ingredients: map<int, Ingredient>, j: nat): (k: nat)
    requires j <= |rows|
    ensures j <= k <= |rows|
    ensures forall i :: j <= i < k ==> RowOk(rows, ingredients, i)
    ensures k < |rows| ==> !RowOk(rows, ingredients, k)
    decreases |rows| - j
  {
    if j == |rows| then j
    else if !RowOk(rows, ingredients, j) then j
    else FirstBadRowFrom(rows, ingredients, j + 1)
  }

  /** The row the insertion loop stops at, or |rows| when it inserts them all. */
  function FirstBadRow(rows: seq<ContentInput>, ingredients: map<int, Ingredient>): (k: nat)
    ensures k <= |rows|
    ensures forall i :: 0 <= i < k ==> RowOk(rows, ingredients, i)
    ensures k < |rows| ==> !RowOk(rows, ingredients, k)
  {
    FirstBadRowFrom(rows, ingredients, 0)
  }

  /** Why row k cannot be inserted: a missing ingredient is found first, a repeat second. */
  function RowError(rows: seq<ContentInput>, ingredients: map<int, Ingredient>, k: nat): (e: SaveError)
    requires k < |rows|
    ensures e.IngredientMissing? <==> rows[k].id !in ingredients
    ensures e.IngredientMissing? || e.ContentRepeated?
  {
    if rows[k].id !in ingredients then IngredientMissing(rows[k].id) else ContentRepeated(rows[k].id)
  }

  /** Every row goes in exactly when every ingredient exists and no ingredient id repeats. */
  lemma FirstBadRowNoneIff(rows: seq<ContentInput>, ingredients: map<int, Ingredient>)
    ensures FirstBadRow(rows, ingredients) == |rows| <==>
      (forall i :: 0 <= i < |rows| ==> rows[i].id in ingredients) && Distinct(Ids(rows))
  {
    var k := FirstBadRow(rows, ingredients);
    if k == |rows| {
      forall i | 0 <= i < |rows| ensures rows[i].id in ingredients {
        assert RowOk(rows, ingredients, i);
      }
      forall i, j | 0 <= i < j < |rows| ensures Ids(rows)[i] != Ids(rows)[j] {
        assert RowOk(rows, ingredients, j);
      }
    } else {
      assert !RowOk(rows, ingredients, k);
      if rows[k].id in ingredients {
        var j :| 0 <= j < k && rows[j].id == rows[k].id;
        assert Ids(rows)[j] == Ids(rows)[k];
      }
    }
  }

  /**
   * After the later validation (distinct ingredient ids), the insertion
   * loop can only stop at an ingredient that does not exist.
   */
  lemma ValidatedRowsNeverRepeat(rows: seq<ContentInput>, ingredients: map<int, Ingredient>)
    requires Distinct(Ids(rows))
    ensures FirstBadRow(rows, ingredients) < |rows| ==>
      RowError(rows, ingredients, FirstBadRow(rows, ingredients)) == IngredientMissing(rows[FirstBadRow(rows, ingredients)].id)
  {
  }

  /**
   * When every ingredient exists but an id repeats, the insertion loop
   * stops at the second occurrence of the first repeated id, after the
   * rows before it were inserted.
   */
  lemma RepeatedRowsFailTheSave(rows: seq<ContentInput>, ingredients: map<int, Ingredient>)
    requires forall i :: 0 <= i < |rows| ==> rows[i].id in ingredients
    requires !Distinct(Ids(rows))
    ensures FirstBadRow(rows, ingredients) < |rows|
    ensures RowError(rows, ingredients, FirstBadRow(rows, ingredients)).ContentRepeated?
  {
    FirstBadRowNoneIff(rows, ingredients);
  }

  /** Appending one row adds exactly that row's (recipe, ingredient) pair. */
  lemma HasContentAppend(cs: seq<Content>, c: Content, r: int, x: int)
    ensures HasContent(cs + [c], r, x) <==> HasContent(cs, r, x) || (c.recipe == r && c.ingredient == x)
  {
    if HasContent(cs + [c], r, x) && !(c.recipe == r && c.ingredient == x) {
      var i :| 0 <= i < |cs + [c]| && (cs + [c])[i].recipe == r && (cs + [c])[i].ingredient == x;
      assert i < |cs| && cs[i] == (cs + [c])[i];
    }
    if HasContent(cs, r, x) {
      var i :| 0 <= i < |cs| && cs[i].recipe == r && cs[i].ingredient == x;
      assert (cs + [c])[i] == cs[i];
    }
    if c.recipe == r && c.ingredient == x {
      assert (cs + [c])[|cs|] == c;
    }
  }

  // ---------------------------------------------------------------------
  // The favorite and shopping_cart toggles

  /** The rows of a Favorite or ShoppingCart table other than mk, in order. */
  function Without(marks: seq<Mark>, mk: Mark): (o: seq<Mark>)
    ensures forall x :: x in o <==> x in marks && x != mk
    ensures |o| <= |marks|
  {
    if |marks| == 0 then []
    else if marks[0] == mk then Without(marks[1..], mk)
    else [marks[0]] + Without(marks[1..], mk)
  }

  lemma {:induction false} WithoutDistinct(marks: seq<Mark>, mk: Mark)
    requires Distinct(marks)
    ensures Distinct(Without(marks, mk))
  {
    if |marks| > 0 {
      assert Distinct(marks[1..]) by {
        forall i, j | 0 <= i < j < |marks[1..]| ensures marks[1..][i] != marks[1..][j] {
          assert marks[1..][i] == marks[i + 1] && marks[1..][j] == marks[j + 1];
        }
      }
      WithoutDistinct(marks[1..], mk);
      var rest := Without(marks[1..], mk);
      if marks[0] != mk {
        var o := [marks[0]] + rest;
        forall i, j | 0 <= i < j < |o| ensures o[i] != o[j] {
          if i == 0 {
            assert o[j] in rest;
            assert o[j] in marks[1..];
            var q :| 0 <= q < |marks[1..]| && marks[1..][q] == o[j];
            assert marks[q + 1] == o[j];
          } else {
            assert o[i] == rest[i - 1] && o[j] == rest[j - 1];
          }
        }
      }
    }
  }

  lemma {:induction false} WithoutAbsent(marks: seq<Mark>, mk: Mark)
    requires mk !in marks
    ensures Without(marks, mk) == marks
  {
    if |marks| > 0 {
      WithoutAbsent(marks[1..], mk);
    }
  }

  /** The recipe card PartialRecipeSerializer renders. */
  function CardOf(id: int, r: Recipe): UserSerializers.PartialRecipe {
    UserSerializers.PartialRecipe(id, r.name, r.image, r.cookingTime)
  }

  /**
   * One favorite or shopping_cart request for (user, recipe id): GET
   * adds the pair, DELETE removes it; adding a present pair or removing
   * an absent one is refused with the given message; a recipe that does
   * not exist is a 404 before either check.
   */
  function Toggle(marks: seq<Mark>, recipes: map<int, Recipe>, user: int, id: int, m: HttpMethod,
                  already: string, absent: string): (o: (seq<Mark>, Reply))
    requires m == Get || m == Delete
    ensures id !in recipes ==> o == (marks, NotFound)
    ensures id in recipes && m == Get ==>
      if Mark(user, id) in marks then o == (marks, BadRequest(already))
      else o == (marks + [Mark(user, id)], Card(CardOf(id, recipes[id])))
    ensures id in recipes && m == Delete ==>
      if Mark(user, id) in marks then o.1 == NoContent && Mark(user, id) !in o.0
      else o == (marks, BadRequest(absent))
    ensures forall x :: x != Mark(user, id) ==> (x in o.0 <==> x in marks)
    ensures o.1.Card? || o.1.NoContent? || o.1 == NotFound || o.1 == BadRequest(already) || o.1 == BadRequest(absent)
  {
    var mk := Mark(user, id);
    if id !in recipes then (marks, NotFound)
    else if m == Get then
      if mk in marks then (marks, BadRequest(already)) else (marks + [mk], Card(CardOf(id, recipes[id])))
    else
      if mk !in marks then (marks, BadRequest(absent)) else (Without(marks, mk), NoContent)
  }

  /** A toggle keeps the table's unique constraint and its references. */
  lemma ToggleKeepsValid(marks: seq<Mark>, recipes: map<int, Recipe>, user: int, id: int, m: HttpMethod, already: string, absent: string)
    requires m == Get || m == Delete
    requires MarksValid(marks, recipes)
    ensures MarksValid(Toggle(marks, recipes, user, id, m, already, absent).0, recipes)
  {
    var o := Toggle(marks, recipes, user, id, m, already, absent).0;
    if id in recipes && m == Delete && Mark(user, id) in marks {
      WithoutDistinct(marks, Mark(user, id));
      forall i | 0 <= i < |o| ensures o[i].recipe in recipes {
        assert o[i] in marks;
      }
    }
  }

  /** Adding a pair and then removing it gives back the table it started from. */
  lemma AddThenRemove(marks: seq<Mark>, recipes: map<int, Recipe>, user: int, id: int, already: string, absent: string)
    requires id in recipes && Mark(user, id) !in marks
    ensures var added := Toggle(marks, recipes, user, id, Get, already, absent);
      added.1.Card? && Toggle(added.0, recipes, user, id, Delete, already, absent) == (marks, NoContent)
  {
    var mk := Mark(user, id);
    var added := marks + [mk];
    WithoutAbsent(marks, mk);
    assert Without(added, mk) == Without(marks, mk) by {
      WithoutAppend(marks, mk);
    }
  }

  lemma {:induction false} WithoutAppend(marks: seq<Mark>, mk: Mark)
    ensures Without(marks + [mk], mk) == Without(marks, mk)
  {
    if |marks| == 0 {
      assert marks + [mk] == [mk];
      assert [mk][1..] == [];
    } else {
      assert (marks + [mk])[1..] == marks[1..] + [mk];
      WithoutAppend(marks[1..], mk);
    }
  }

  /** Asking twice for the same transition: the second request is refused and changes nothing. */
  lemma SecondRequestRefused(marks: seq<Mark>, recipes: map<int, Recipe>, user: int, id: int, m: HttpMethod, already: string, absent: string)
    requires m == Get || m == Delete
    requires id in recipes
    requires Toggle(marks, recipes, user, id, m, already, absent).1.Card? || Toggle(marks, recipes, user, id, m, already, absent).1.NoContent?
    ensures var once := Toggle(marks, recipes, user, id, m, already, absent).0;
      Toggle(once, recipes, user, id, m, already, absent) == (once, BadRequest(if m == Get then already else absent))
  {
  }

  // ---------------------------------------------------------------------
  // The store

  class Store {
    var tags: map<int, Tag>
    var units: map<int, string>
    var ingredients: map<int, Ingredient>
    var recipes: map<int, Recipe>
    var contents: seq<Content>
    var favorites: seq<Mark>
    var carts: seq<Mark>
    /** The primary key the next created recipe receives. */
    var nextId: int

    /** Every declared constraint holds, and every recipe key is below nextId. */
    ghost predicate Valid()
      reads this
    {
      && CatalogValid(tags, units, ingredients)
      && RecipesValid(recipes, tags)
      && ContentsValid(contents, recipes, ingredients)
      && MarksValid(favorites, recipes) && MarksValid(carts, recipes)
      && forall r :: r in recipes ==> r < nextId
    }

    constructor (tags: map<int, Tag>, units: map<int, string>, ingredients: map<int, Ingredient>)
      requires CatalogValid(tags, units, ingredients)
      ensures Valid()
      ensures this.tags == tags && this.units == units && this.ingredients == ingredients
      ensures recipes == map[] && contents == [] && favorites == [] && carts == []
    {
      this.tags, this.units, this.ingredients := tags, units, ingredients;
      recipes, contents, favorites, carts := map[], [], [], [];
      nextId := 1;
    }

    /**
     * RecipeSerializer.create_or_update, for a create (instance None) or
     * an update of recipe instance. In order: the content rows and the tag
     * keys are taken out of the attributes; a create inserts the recipe
     * with the caller as author (a clash on the unique name stops it), an
     * update only assigns the scalars the request carries; the tag set is
     * replaced; the scalars are saved (a clash on the name stops an update
     * here, after its tags were replaced); all content rows of the recipe
     * are deleted; then one row per submitted entry is inserted, in order,
     * until an ingredient does not exist or repeats.
     */
    method CreateOrUpdate(caller: int, attrs: Attrs, instance: Option<int>) returns (r: Result<int, SaveError>)
      requires Valid()
      requires instance.Some? ==> instance.value in recipes
      requires instance.None? ==> attrs.name.Some? && attrs.text.Some? && attrs.cookingTime.Some? && attrs.image.Some?
      modifies this
      ensures Valid()
      ensures tags == old(tags) && units == old(units) && ingredients == old(ingredients)
      ensures favorites == old(favorites) && carts == old(carts)
      // taking the content rows and the tags out of the attributes
      ensures attrs.content.None? ==>
        r == Err(KeyMissing("recipe_content")) && recipes == old(recipes) && contents == old(contents) && nextId == old(nextId)
      ensures attrs.content.Some? && attrs.tags.None? ==>
        r == Err(KeyMissing("tags")) && recipes == old(recipes) && contents == old(contents) && nextId == old(nextId)
      // a create
      ensures instance.None? && attrs.content.Some? && attrs.tags.Some? ==>
        var rid := old(nextId);
        var made := Created(attrs, caller);
        var newTags := TagSet(attrs.tags.value);
        var rows := attrs.content.value;
        var k := FirstBadRow(rows, ingredients);
        if !NameFree(old(recipes), made.name, rid) then
          r == Err(NameTaken) && recipes == old(recipes) && contents == old(contents) && nextId == old(nextId)
        else if !(newTags <= tags.Keys) then
          r == Err(UnknownTags) && recipes == old(recipes)[rid := made] && contents == old(contents) && nextId == rid + 1
        else
          && recipes == old(recipes)[rid := made.(tags := newTags)] && nextId == rid + 1
          && contents == old(contents) + Rows(rid, rows[..k])
          && r == (if k == |rows| then Ok(rid) else Err(RowError(rows, ingredients, k)))
      // an update
      ensures instance.Some? && attrs.content.Some? && attrs.tags.Some? ==>
        var rid := instance.value;
        var updated := Updated(old(recipes)[rid], attrs);
        var newTags := TagSet(attrs.tags.value);
        var rows := attrs.content.value;
        var k := FirstBadRow(rows, ingredients);
        nextId == old(nextId) &&
        if !(newTags <= tags.Keys) then
          r == Err(UnknownTags) && recipes == old(recipes) && contents == old(contents)
        else if !NameFree(old(recipes), updated.name, rid) then
          r == Err(NameTaken) && recipes == old(recipes)[rid := old(recipes)[rid].(tags := newTags)] && contents == old(contents)
        else
          && recipes == old(recipes)[rid := updated.(tags := newTags)]
          && contents == ContentsWithout(old(contents), rid) + Rows(rid, rows[..k])
          && r == (if k == |rows| then Ok(rid) else Err(RowError(rows, ingredients, k)))
    {
      if instance.None? {
        ContentsWithoutAbsent(contents, nextId);
      }
      var rid, rec := OpenRecipe(caller, attrs, instance);
      if rid.Err? {
        return rid;
      }
      r := SaveTagsAndContent(rid.value, rec, TagSet(attrs.tags.value), attrs.content.value);
    }

    /**
     * create_or_update of the earlier revision: the same steps up to and
     * including instance.save(), on the same tables. Its Recipe model has
     * no ingredients accessor (the content rows hang off recipe_content),
     * so instance.ingredients.clear() raises an AttributeError: no call
     * succeeds, and no content row is deleted or inserted.
     */
    method LegacyCreateOrUpdate(caller: int, attrs: Attrs, instance: Option<int>) returns (r: Result<int, SaveError>)
      requires Valid()
      requires instance.Some? ==> instance.value in recipes
      requires instance.None? ==> attrs.name.Some? && attrs.text.Some? && attrs.cookingTime.Some? && attrs.image.Some?
      modifies this
      ensures Valid()
      ensures r.Err?
      ensures contents == old(contents)
      ensures tags == old(tags) && units == old(units) && ingredients == old(ingredients)
      ensures favorites == old(favorites) && carts == old(carts)
      ensures attrs.content.None? ==>
        r == Err(KeyMissing("recipe_content")) && recipes == old(recipes) && nextId == old(nextId)
      ensures attrs.content.Some? && attrs.tags.None? ==>
        r == Err(KeyMissing("tags")) && recipes == old(recipes) && nextId == old(nextId)
      // a create
      ensures instance.None? && attrs.content.Some? && attrs.tags.Some? ==>
        var rid := old(nextId);
        var made := Created(attrs, caller);
        var newTags := TagSet(attrs.tags.value);
        if !NameFree(old(recipes), made.name, rid) then
          r == Err(NameTaken) && recipes == old(recipes) && nextId == old(nextId)
        else if !(newTags <= tags.Keys) then
          r == Err(UnknownTags) && recipes == old(recipes)[rid := made] && nextId == rid + 1
        else
          r == Err(NoAttribute("ingredients")) && recipes == old(recipes)[rid := made.(tags := newTags)] && nextId == rid + 1
      // an update
      ensures instance.Some? && attrs.content.Some? && attrs.tags.Some? ==>
        var rid := instance.value;
        var updated := Updated(old(recipes)[rid], attrs);
        var newTags := TagSet(attrs.tags.value);
        nextId == old(nextId) &&
        if !(newTags <= tags.Keys) then
          r == Err(UnknownTags) && recipes == old(recipes)
        else if !NameFree(old(recipes), updated.name, rid) then
          r == Err(NameTaken) && recipes == old(recipes)[rid := old(recipes)[rid].(tags := newTags)]
        else
          r == Err(NoAttribute("ingredients")) && recipes == old(recipes)[rid := updated.(tags := newTags)]
    {
      var rid, rec := OpenRecipe(caller, attrs, instance);
      if rid.Err? {
        return rid;
      }
      var err := SaveRecipe(rid.value, rec, TagSet(attrs.tags.value));
      if err.Some? {
        return Err(err.value);
      }
      // instance.ingredients.clear()
      r := Err(NoAttribute("ingredients"));
    }

    /**
     * The head of create_or_update: the content rows and then the tag
     * keys are taken out of the attributes (a KeyError when either is
     * missing); an update assigns the scalars the request carries to the
     * instance in memory only; a create inserts the recipe, with the
     * caller as author and no tags, unless another recipe has its name.
     * rid is the recipe's key and rec the row the rest of the save writes.
     */
    method OpenRecipe(caller: int, attrs: Attrs, instance: Option<int>) returns (rid: Result<int, SaveError>, rec: Recipe)
      requires Valid()
      requires instance.Some? ==> instance.value in recipes
      requires instance.None? ==> attrs.name.Some? && attrs.text.Some? && attrs.cookingTime.Some? && attrs.image.Some?
      modifies this
      ensures Valid()
      ensures rid.Ok? ==> rid.value in recipes && attrs.content.Some? && attrs.tags.Some?
      ensures tags == old(tags) && units == old(units) && ingredients == old(ingredients) && contents == old(contents)
      ensures favorites == old(favorites) && carts == old(carts)
      ensures attrs.content.None? ==>
        rid == Err(KeyMissing("recipe_content")) && recipes == old(recipes) && nextId == old(nextId)
      ensures attrs.content.Some? && attrs.tags.None? ==>
        rid == Err(KeyMissing("tags")) && recipes == old(recipes) && nextId == old(nextId)
      ensures instance.Some? && attrs.content.Some? && attrs.tags.Some? ==>
        && rid == Ok(instance.value) && rec == Updated(old(recipes)[instance.value], attrs)
        && recipes == old(recipes) && nextId == old(nextId)
      ensures instance.None? && attrs.content.Some? && attrs.tags.Some? ==>
        rec == Created(attrs, caller) &&
        if NameFree(old(recipes), rec.name, old(nextId)) then
          rid == Ok(old(nextId)) && recipes == old(recipes)[old(nextId) := rec] && nextId == old(nextId) + 1
        else
          rid == Err(NameTaken) && recipes == old(recipes) && nextId == old(nextId)
    {
      rec := if instance.Some? then Updated(recipes[instance.value], attrs) else Created(attrs, caller);
      if attrs.content.None? {
        return Err(KeyMissing("recipe_content")), rec;
      }
      if attrs.tags.None? {
        return Err(KeyMissing("tags")), rec;
      }
      if instance.Some? {
        return Ok(instance.value), rec;
      }
      rid := Ok(nextId);
      if !NameFree(recipes, rec.name, nextId) {
        return Err(NameTaken), rec;
      }
      nextId := nextId + 1;
      WriteRecipe(rid.value, rec);
    }

    /**
     * instance.tags.set(tags) and then instance.save(): the tag set of
     * recipe rid is replaced (refused when a tag does not exist), then the
     * row is saved with rec's scalars (refused when another recipe has
     * that name, after the tags were replaced).
     */
    method SaveRecipe(rid: int, rec: Recipe, newTags: set<int>) returns (err: Option<SaveError>)
      requires Valid() && rid in recipes
      modifies this
      ensures Valid()
      ensures rid in recipes
      ensures tags == old(tags) && units == old(units) && ingredients == old(ingredients) && contents == old(contents)
      ensures favorites == old(favorites) && carts == old(carts) && nextId == old(nextId)
      ensures if !(newTags <= tags.Keys) then
          err == Some(UnknownTags) && recipes == old(recipes)
        else if !NameFree(old(recipes), rec.name, rid) then
          err == Some(NameTaken) && recipes == old(recipes)[rid := old(recipes)[rid].(tags := newTags)]
        else
          err == None && recipes == old(recipes)[rid := rec.(tags := newTags)]
    {
      // instance.tags.set(tags)
      if !(newTags <= tags.Keys) {
        return Some(UnknownTags);
      }
      WriteRecipe(rid, recipes[rid].(tags := newTags));
      assert forall k :: k in recipes && k != rid ==> k in old(recipes) && recipes[k] == old(recipes)[k];
      // instance.save()
      if !NameFree(recipes, rec.name, rid) {
        return Some(NameTaken);
      }
      WriteRecipe(rid, rec.(tags := newTags));
      return None;
    }

    /**
     * The tail of create_or_update, once the recipe row rid exists: the
     * tag set is replaced (refused when a tag does not exist), the recipe
     * is saved with rec's scalars (refused when another recipe has its
     * name), the old content is cleared and one row is inserted per
     * submitted entry up to the first that fails.
     */
    method SaveTagsAndContent(rid: int, rec: Recipe, newTags: set<int>, rows: seq<ContentInput>) returns (r: Result<int, SaveError>)
      requires Valid() && rid in recipes
      modifies this
      ensures Valid()
      ensures tags == old(tags) && units == old(units) && ingredients == old(ingredients)
      ensures favorites == old(favorites) && carts == old(carts) && nextId == old(nextId)
      ensures var k := FirstBadRow(rows, ingredients);
        if !(newTags <= tags.Keys) then
          r == Err(UnknownTags) && recipes == old(recipes) && contents == old(contents)
        else if !NameFree(old(recipes), rec.name, rid) then
          r == Err(NameTaken) && recipes == old(recipes)[rid := old(recipes)[rid].(tags := newTags)] && contents == old(contents)
        else
          && recipes == old(recipes)[rid := rec.(tags := newTags)]
          && contents == ContentsWithout(old(contents), rid) + Rows(rid, rows[..k])
          && r == (if k == |rows| then Ok(rid) else Err(RowError(rows, ingredients, k)))
    {
      var err := SaveRecipe(rid, rec, newTags);
      if err.Some? {
        return Err(err.value);
      }
      // instance.ingredients.clear()
      ClearContents(rid);
      // one content row per submitted entry
      r := InsertRows(rid, rows);
    }

    /** Writes one Recipe row, whose name is free and whose tags exist. */
    method WriteRecipe(rid: int, rec: Recipe)
      requires Valid() && rid < nextId
      requires NameFree(recipes, rec.name, rid) && rec.tags <= tags.Keys
      modifies this
      ensures Valid()
      ensures recipes == old(recipes)[rid := rec]
      ensures tags == old(tags) && units == old(units) && ingredients == old(ingredients) && contents == old(contents)
      ensures favorites == old(favorites) && carts == old(carts) && nextId == old(nextId)
    {
      recipes := recipes[rid := rec];
    }

    /** instance.ingredients.clear(): every content row of recipe rid goes, every other row stays. */
    method ClearContents(rid: int)
      requires Valid()
      modifies this
      ensures Valid()
      ensures contents == ContentsWithout(old(contents), rid)
      ensures forall x :: !HasContent(contents, rid, x)
      ensures tags == old(tags) && units == old(units) && ingredients == old(ingredients) && recipes == old(recipes)
      ensures favorites == old(favorites) && carts == old(carts) && nextId == old(nextId)
    {
      ContentsWithoutUnique(contents, rid);
      var cleared := ContentsWithout(contents, rid);
      forall q | 0 <= q < |cleared| ensures cleared[q].recipe in recipes && cleared[q].ingredient in ingredients {
        assert cleared[q] in contents;
      }
      forall x ensures !HasContent(cleared, rid, x) {
      }
      contents := cleared;
    }

    /**
     * The insertion loop of create_or_update: one content row per
     * submitted entry, in order, until an ingredient does not exist
     * (404) or a row for the same ingredient is already there
     * (IntegrityError); the rows inserted before the stop remain.
     */
    method InsertRows(rid: int, rows: seq<ContentInput>) returns (r: Result<int, SaveError>)
      requires Valid() && rid in recipes
      requires forall x :: !HasContent(contents, rid, x)
      modifies this
      ensures Valid()
      ensures contents == old(contents) + Rows(rid, rows[..FirstBadRow(rows, ingredients)])
      ensures r == if FirstBadRow(rows, ingredients) == |rows| then Ok(rid)
        else Err(RowError(rows, ingredients, FirstBadRow(rows, ingredients)))
      ensures tags == old(tags) && units == old(units) && ingredients == old(ingredients) && recipes == old(recipes)
      ensures favorites == old(favorites) && carts == old(carts) && nextId == old(nextId)
    {
      var i := 0;
      while i < |rows|
        invariant 0 <= i <= |rows|
        invariant Valid()
        invariant tags == old(tags) && units == old(units) && ingredients == old(ingredients) && recipes == old(recipes)
        invariant favorites == old(favorites) && carts == old(carts) && nextId == old(nextId)
        invariant contents == old(contents) + Rows(rid, rows[..i])
        invariant forall j :: 0 <= j < i ==> RowOk(rows, ingredients, j)
        invariant forall x :: HasContent(contents, rid, x) <==> exists j :: 0 <= j < i && rows[j].id == x
      {
        var row := rows[i];
        if row.id !in ingredients {
          assert FirstBadRow(rows, ingredients) == i by {
            assert !RowOk(rows, ingredients, i);
          }
          return Err(IngredientMissing(row.id));
        }
        if HasContent(contents, rid, row.id) {
          assert FirstBadRow(rows, ingredients) == i by {
            var j :| 0 <= j < i && rows[j].id == row.id;
            assert !RowOk(rows, ingredients, i);
          }
          return Err(ContentRepeated(row.id));
        }
        var c := Content(rid, row.id, row.amount);
        forall x ensures HasContent(contents + [c], rid, x) <==> HasContent(contents, rid, x) || row.id == x {
          HasContentAppend(contents, c, rid, x);
        }
        assert Rows(rid, rows[..i + 1]) == Rows(rid, rows[..i]) + [c];
        ghost var before := contents;
        contents := contents + [c];
        assert ContentsUnique(contents) by {
          forall p, q | 0 <= p < q < |contents|
            ensures contents[p].recipe != contents[q].recipe || contents[p].ingredient != contents[q].ingredient
          {
            if q == |before| {
              assert contents[p] == before[p];
            } else {
              assert contents[p] == before[p] && contents[q] == before[q];
            }
          }
        }
        assert Valid() by {
          forall q | 0 <= q < |contents| ensures contents[q].recipe in recipes && contents[q].ingredient in ingredients {
            if q < |before| {
              assert contents[q] == before[q];
            }
          }
        }
        i := i + 1;
      }
      assert rows[..i] == rows;
      return Ok(rid);
    }

    /** The favorite action: the Favorite table toggles, nothing else changes. */
    method Favorite(user: int, id: int, m: HttpMethod) returns (reply: Reply)
      requires Valid() && (m == Get || m == Delete)
      modifies this
      ensures Valid()
      ensures (favorites, reply) == Toggle(old(favorites), recipes, user, id, m, "Already in favorites", "Not in favorites")
      ensures tags == old(tags) && units == old(units) && ingredients == old(ingredients) && recipes == old(recipes)
      ensures contents == old(contents) && carts == old(carts) && nextId == old(nextId)
    {
      ToggleKeepsValid(favorites, recipes, user, id, m, "Already in favorites", "Not in favorites");
      var o := Toggle(favorites, recipes, user, id, m, "Already in favorites", "Not in favorites");
      favorites := o.0;
      reply := o.1;
    }

    /** The shopping_cart action: the ShoppingCart table toggles, nothing else changes. */
    method ShoppingCart(user: int, id: int, m: HttpMethod) returns (reply: Reply)
      requires Valid() && (m == Get || m == Delete)
      modifies this
      ensures Valid()
      ensures (carts, reply) == Toggle(old(carts), recipes, user, id, m, "Already in shopping cart", "Not in shopping cart")
      ensures tags == old(tags) && units == old(units) && ingredients == old(ingredients) && recipes == old(recipes)
      ensures contents == old(contents) && favorites == old(favorites) && nextId == old(nextId)
    {
      ToggleKeepsValid(carts, recipes, user, id, m, "Already in shopping cart", "Not in shopping cart");
      var o := Toggle(carts, recipes, user, id, m, "Already in shopping cart", "Not in shopping cart");
      carts := o.0;
      reply := o.1;
    }

    /** Deleting a recipe: its content, favorite and cart rows go with it (on_delete=CASCADE). */
    method DeleteRecipe(id: int)
      requires Valid() && id in recipes
      modifies this
      ensures Valid()
      ensures recipes == old(recipes) - {id}
      ensures contents == ContentsWithout(old(contents), id)
      ensures favorites == MarksWithoutRecipe(old(favorites), id) && carts == MarksWithoutRecipe(old(carts), id)
      ensures tags == old(tags) && units == old(units) && ingredients == old(ingredients) && nextId == old(nextId)
    {
      DeleteRecipeCascade(tags, ingredients, recipes, contents, favorites, carts, id);
      recipes := recipes - {id};
      contents := ContentsWithout(contents, id);
      favorites := MarksWithoutRecipe(favorites, id);
      carts := MarksWithoutRecipe(carts, id);
    }

    /**
     * download_shopping_cart: the attachment's file name, its content
     * type and its text, the header followed by one line per (name, unit)
     * group of the user's cart.
     */
    method DownloadShoppingCart(user: int) returns (filename: string, contentType: string, text: string)
      requires Valid()
      ensures filename == "shopping_list.txt" && contentType == "application/txt"
      ensures text == ShoppingList.Header + ShoppingList.Lines(
        ShoppingList.GroupItems(ShoppingList.CartItems(carts, user, contents, ingredients, units)))
      ensures var groups := ShoppingList.GroupItems(ShoppingList.CartItems(carts, user, contents, ingredients, units));
        forall i :: 0 <= i < |groups| ==>
          groups[i].total == ShoppingList.ContentSum(contents, ShoppingList.CartRecipes(carts, user), groups[i].key, ingredients, units)
    {
      ShoppingList.CartTotals(carts, user, contents, ingredients, units);
      var items := ShoppingList.CartItems(carts, user, contents, ingredients, units);
      text := ShoppingList.Render(ShoppingList.GroupItems(items));
      filename, contentType := "shopping_list.txt", "application/txt";
    }
  }
}
