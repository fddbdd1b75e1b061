/**
 * The relational schema of the recipes application: one value type per
 * table row and one predicate per declared constraint (uniqueness and
 * references), plus the cascade performed when a recipe is deleted.
 * Primary keys are the keys of the maps; link tables whose rows the
 * views create and delete one at a time are sequences of rows.
 */
module Schema {
  import opened Common

  /** A Tag row: name and slug are each unique over the table. */
  datatype Tag = Tag(name: string, color: string, slug: string)

  /** An Ingredient row; unit is the primary key of a MeasureUnit row. */
  datatype Ingredient = Ingredient(name: string, unit: int)

  /**
   * A Recipe row together with its many-to-many tag set; image is an
   * opaque reference to the stored picture.
   */
  datatype Recipe = Recipe(name: string, text: string, cookingTime: int, image: string, author: int, tags: set<int>)

  /** A RecipeContent row: the amount of one ingredient in one recipe. */
  datatype Content = Content(recipe: int, ingredient: int, amount: int)

  /** A Favorite or ShoppingCart row: a (user, recipe) pair. */
  datatype Mark = Mark(user: int, recipe: int)

  // ---------------------------------------------------------------------
  // Catalog constraints

  /** Tag.name and Tag.slug are each unique. */
  predicate TagsUnique(tags: map<int, Tag>) {
    forall a, b :: a in tags && b in tags && a != b ==>
      tags[a].name != tags[b].name && tags[a].slug != tags[b].slug
  }

  /** MeasureUnit.unit is unique. */
  predicate UnitsUnique(units: map<int, string>) {
    forall a, b :: a in units && b in units && a != b ==> units[a] != units[b]
  }

  /** The (name, measurement_unit) pair of an Ingredient is unique; every unit reference resolves. */
  predicate IngredientsValid(ingredients: map<int, Ingredient>, units: map<int, string>) {
    && (forall i :: i in ingredients ==> ingredients[i].unit in units)
    && (forall a, b :: a in ingredients && b in ingredients && a != b ==> ingredients[a] != ingredients[b])
  }

  predicate CatalogValid(tags: map<int, Tag>, units: map<int, string>, ingredients: map<int, Ingredient>) {
    TagsUnique(tags) && UnitsUnique(units) && IngredientsValid(ingredients, units)
  }

  // ---------------------------------------------------------------------
  // Recipe constraints

  /** Recipe.name is unique, and every tag of a recipe exists. No lower bound on cooking_time. */
  predicate RecipesValid(recipes: map<int, Recipe>, tags: map<int, Tag>) {
    && (forall a, b :: a in recipes && b in recipes && a != b ==> recipes[a].name != recipes[b].name)
    && (forall r :: r in recipes ==> recipes[r].tags <= tags.Keys)
  }

  /** A content row for (recipe, ingredient) already exists. */
  predicate HasContent(contents: seq<Content>, recipe: int, ingredient: int) {
    exists i :: 0 <= i < |contents| && contents[i].recipe == recipe && contents[i].ingredient == ingredient
  }

  /** (recipe, ingredient) occurs at most once. */
  predicate ContentsUnique(contents: seq<Content>) {
    forall i, j :: 0 <= i < j < |contents| ==>
      contents[i].recipe != contents[j].recipe || contents[i].ingredient != contents[j].ingredient
  }

  /** Content rows are unique per (recipe, ingredient) and both references resolve. No lower bound on amount. */
  predicate ContentsValid(contents: seq<Content>, recipes: map<int, Recipe>, ingredients: map<int, Ingredient>) {
    && ContentsUnique(contents)
    && (forall i :: 0 <= i < |contents| ==> contents[i].recipe in recipes && contents[i].ingredient in ingredients)
  }

  /** (user, recipe) occurs at most once in Favorite (resp. ShoppingCart); the recipe exists. */
  predicate MarksValid(marks: seq<Mark>, recipes: map<int, Recipe>) {
    Distinct(marks) && forall i :: 0 <= i < |marks| ==> marks[i].recipe in recipes
  }

  // ---------------------------------------------------------------------
  // Deleting a recipe

  /** The rows of a content table that do not belong to recipe r, in their order. */
  function ContentsWithout(contents: seq<Content>, r: int): (o: seq<Content>)
    ensures forall c :: c in o <==> c in contents && c.recipe != r
    ensures |o| <= |contents|
  {
    if |contents| == 0 then []
    else if contents[0].recipe == r then ContentsWithout(contents[1..], r)
    else [contents[0]] + ContentsWithout(contents[1..], r)
  }

  /** Dropping the rows of a recipe that has none changes nothing. */
  lemma {:induction false} ContentsWithoutAbsent(contents: seq<Content>, r: int)
    requires forall i :: 0 <= i < |contents| ==> contents[i].recipe != r
    ensures ContentsWithout(contents, r) == contents
  {
    if |contents| > 0 {
      ContentsWithoutAbsent(contents[1..], r);
    }
  }

  /** The rows of a Favorite or ShoppingCart table that do not name recipe r. */
  function MarksWithoutRecipe(marks: seq<Mark>, r: int): (o: seq<Mark>)
    ensures forall m :: m in o <==> m in marks && m.recipe != r
  {
    if |marks| == 0 then []
    else if marks[0].recipe == r then MarksWithoutRecipe(marks[1..], r)
    else [marks[0]] + MarksWithoutRecipe(marks[1..], r)
  }

  /** Dropping rows keeps the rows that remain pairwise distinct. */
  lemma {:induction false} MarksWithoutRecipeDistinct(marks: seq<Mark>, r: int)
    requires Distinct(marks)
    ensures Distinct(MarksWithoutRecipe(marks, r))
  {
    if |marks| > 0 {
      MarksWithoutRecipeDistinct(marks[1..], r);
    }
  }

  /** Dropping rows keeps the (recipe, ingredient) pairs that remain unique. */
  lemma {:induction false} ContentsWithoutUnique(contents: seq<Content>, r: int)
    requires ContentsUnique(contents)
    ensures ContentsUnique(ContentsWithout(contents, r))
  {
    if |contents| > 0 {
      ContentsWithoutUnique(contents[1..], r);
      var rest := ContentsWithout(contents[1..], r);
      if contents[0].recipe != r {
        var o := [contents[0]] + rest;
        forall i, j | 0 <= i < j < |o|
          ensures o[i].recipe != o[j].recipe || o[i].ingredient != o[j].ingredient
        {
          if i == 0 {
            assert o[j] in contents[1..];
            var k :| 0 <= k < |contents[1..]| && contents[1..][k] == o[j];
            assert contents[k + 1] == o[j];
          } else {
            assert o[i] == rest[i - 1] && o[j] == rest[j - 1];
          }
        }
      }
    }
  }

  /**
   * Deleting recipe r with on_delete=CASCADE: the recipe, its content
   * rows, and every Favorite and ShoppingCart row naming it disappear;
   * every other row stays, and the constraints still hold afterwards.
   */
  lemma DeleteRecipeCascade(
    tags: map<int, Tag>, ingredients: map<int, Ingredient>,
    recipes: map<int, Recipe>, contents: seq<Content>, favorites: seq<Mark>, carts: seq<Mark>, r: int)
    requires RecipesValid(recipes, tags) && ContentsValid(contents, recipes, ingredients)
    requires MarksValid(favorites, recipes) && MarksValid(carts, recipes)
    ensures RecipesValid(recipes - {r}, tags)
    ensures ContentsValid(ContentsWithout(contents, r), recipes - {r}, ingredients)
    ensures MarksValid(MarksWithoutRecipe(favorites, r), recipes - {r})
    ensures MarksValid(MarksWithoutRecipe(carts, r), recipes - {r})
  {
    ContentsWithoutUnique(contents, r);
    MarksWithoutRecipeDistinct(favorites, r);
    MarksWithoutRecipeDistinct(carts, r);
    var o := ContentsWithout(contents, r);
    forall i | 0 <= i < |o| ensures o[i].recipe in recipes - {r} && o[i].ingredient in ingredients {
      assert o[i] in o;
    }
    var f := MarksWithoutRecipe(favorites, r);
    forall i | 0 <= i < |f| ensures f[i].recipe in recipes - {r} {
      assert f[i] in f;
    }
    var c := MarksWithoutRecipe(carts, r);
    forall i | 0 <= i < |c| ensures c[i].recipe in recipes - {r} {
      assert c[i] in c;
    }
  }

  // ---------------------------------------------------------------------
  // What the unique constraints buy the shopping list

  /** The text pair an ingredient is listed under: its name and its unit's text. */
  function KeyOf(ing: Ingredient, units: map<int, string>): (string, string)
    requires ing.unit in units
  {
    (ing.name, units[ing.unit])
  }

  /**
   * Because both (name, measurement_unit) and MeasureUnit.unit are
   * unique, two different ingredients never share their (name, unit
   * text) pair.
   */
  lemma KeyOfInjective(ingredients: map<int, Ingredient>, units: map<int, string>, a: int, b: int)
    requires IngredientsValid(ingredients, units) && UnitsUnique(units)
    requires a in ingredients && b in ingredients && a != b
    ensures KeyOf(ingredients[a], units) != KeyOf(ingredients[b], units)
  {
  }

  /** Without MeasureUnit.unit being unique, two ingredients could share a (name, unit text) pair. */
  lemma KeyOfNeedsUnitUniqueness()
    ensures var units := map[1 := "g", 2 := "g"];
      var ings := map[10 := Ingredient("flour", 1), 11 := Ingredient("flour", 2)];
      IngredientsValid(ings, units) && !UnitsUnique(units)
      && KeyOf(ings[10], units) == KeyOf(ings[11], units)
  {
    var units := map[1 := "g", 2 := "g"];
    assert units[1] == units[2];
  }
}
