/**
 * The recipe tables of the earlier revision
 * (backend/foodgram/recipes/models.py), where they differ from the later
 * ones: an ingredient's name alone is unique, cooking_time carries a
 * minimum of 1, amount is a non-negative small integer defaulting to 0,
 * and Favorite and ShoppingCart rows may repeat a (user, recipe) pair.
 */
module LegacySchema {
  import opened Common
  import opened Schema
  import opened RecipeValidation
  import opened LegacyRecipeValidation

  /** A Favorite or ShoppingCart row with its own primary key. */
  datatype LegacyMark = LegacyMark(pk: int, user: int, recipe: int)

  /** Ingredient.name is unique on its own, whatever the unit. */
  predicate LegacyIngredientsValid(ingredients: map<int, Ingredient>, units: map<int, string>) {
    && (forall i :: i in ingredients ==> ingredients[i].unit in units)
    && (forall a, b :: a in ingredients && b in ingredients && a != b ==> ingredients[a].name != ingredients[b].name)
  }

  /** A unique name makes the (name, unit) pair unique as well, so the later constraint is weaker. */
  lemma LegacyNameUniqueIsStronger(ingredients: map<int, Ingredient>, units: map<int, string>)
    requires LegacyIngredientsValid(ingredients, units)
    ensures IngredientsValid(ingredients, units)
  {
  }

  /** Two ingredients sharing a name under different units: allowed later, refused earlier. */
  lemma SameNameTwoUnits()
    ensures var units := map[1 := "g", 2 := "kg"];
      var ings := map[10 := Ingredient("flour", 1), 11 := Ingredient("flour", 2)];
      IngredientsValid(ings, units) && !LegacyIngredientsValid(ings, units)
  {
    var ings := map[10 := Ingredient("flour", 1), 11 := Ingredient("flour", 2)];
    assert ings[10].name == ings[11].name;
  }

  /** The MinValueValidator(1) on cooking_time. */
  const CookingTimeMin: int := 1

  /**
   * The cooking_time check of RecipeSerializer.validate agrees with the
   * column's minimum on a create and is skipped on an update. The field's
   * own min_value check, which the serializer copies from this validator,
   * refuses a smaller value on every method before validate runs; it is
   * not part of this model.
   */
  lemma CookingTimeBelowMinOnlyRefusedByValidateOnCreate(attrs: Attrs)
    requires attrs.cookingTime.Some? && attrs.cookingTime.value < CookingTimeMin
    ensures LegacyValidate(Post, attrs) == Err(LegacyCookingTimeTooSmall)
    ensures LegacyValidate(Put, attrs) == Ok(attrs) && LegacyValidate(Patch, attrs) == Ok(attrs)
  {
  }

  /** PositiveSmallIntegerField: 0 to 32767; its default is LegacyRecipeValidation.AmountDefault. */
  const AmountMax: int := 32767

  predicate AmountInRange(a: int) {
    0 <= a <= AmountMax
  }

  /** Rows refer to existing recipes; nothing keeps a (user, recipe) pair from repeating. */
  predicate LegacyMarksValid(marks: seq<LegacyMark>, recipes: map<int, Recipe>) {
    && (forall i, j :: 0 <= i < j < |marks| ==> marks[i].pk != marks[j].pk)
    && forall i :: 0 <= i < |marks| ==> marks[i].recipe in recipes
  }

  /** The same pair twice is a valid table here, which the later unique constraint refuses. */
  lemma LegacyAllowsRepeatedMarks(recipes: map<int, Recipe>, user: int, recipe: int)
    requires recipe in recipes
    ensures LegacyMarksValid([LegacyMark(1, user, recipe), LegacyMark(2, user, recipe)], recipes)
    ensures !MarksValid([Mark(user, recipe), Mark(user, recipe)], recipes)
  {
    var two := [Mark(user, recipe), Mark(user, recipe)];
    assert two[0] == two[1];
  }

  /**
   * An amount of 0, the column's default, passes the row check of an
   * update but not of a create; the column accepts it either way. A row
   * sent without an amount is given it on an update and raises a
   * KeyError on a create.
   */
  lemma ZeroAmountOnlyOnUpdate(id: int)
    ensures AmountInRange(AmountDefault)
    ensures LegacyValidateContentRow(Put, LegacyContentInput(id, Some(AmountDefault))).Ok?
    ensures LegacyValidateContentRow(Post, LegacyContentInput(id, Some(AmountDefault))) == Err(LegacyAmountTooSmall)
    ensures LegacyValidateContentRow(Put, LegacyContentInput(id, None)) == Ok(ContentInput(id, AmountDefault))
    ensures LegacyValidateContentRow(Post, LegacyContentInput(id, None)) == Err(LegacyMissingKey("amount"))
  {
  }
}
