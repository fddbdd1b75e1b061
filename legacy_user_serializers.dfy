/**
 * The earlier revision of the subscription serializer
 * (backend/foodgram/users/serializers.py).
 */
module LegacyUserSerializers {
  import opened Common
  import opened UserSerializers

  /**
   * is_subscribed is a plain field defaulting to False: it shows the
   * value the queryset annotated on the user, if any, and never looks up
   * a Subscribe row itself.
   */
  function LegacyIsSubscribed(annotated: Option<bool>): (b: bool)
    ensures annotated.None? ==> !b
    ensures annotated.Some? ==> b == annotated.value
  {
    annotated.GetOr(false)
  }

  /**
   * SubscribeSerializer.get_recipes: a missing recipes_limit falls back to
   * 10 (the lookup error is swallowed), but a value that is not an integer
   * still fails, because the conversion is outside the try block.
   */
  function LegacyRecipesPreview(recipes: seq<PartialRecipe>, limit: Option<string>): (r: Result<seq<PartialRecipe>, PreviewError>)
    ensures limit.None? ==> r == Ok(recipes[..Min(10, |recipes|)])
    ensures limit.Some? && ParseInt(limit.value).None? ==> r == Err(NotAnInteger)
    ensures r.Ok? ==> r.value <= recipes
  {
    Preview(recipes, limit, 10)
  }

  /** The output fields of the earlier SubscribeSerializer: the same as the later one without id. */
  const LegacySubscribeFields: seq<string> :=
    ["username", "email", "first_name", "last_name", "is_subscribed", "recipes", "recipes_count"]

  lemma LegacySubscribeFieldsLackId()
    ensures "id" !in LegacySubscribeFields && "id" in SubscribeFields
    ensures LegacySubscribeFields == SubscribeFields[1..]
  {
  }

  /** Without the parameter the two revisions differ once the author has more than three recipes. */
  lemma DefaultLimitsDiffer(recipes: seq<PartialRecipe>)
    requires |recipes| > 3
    ensures RecipesPreview(recipes, None) != LegacyRecipesPreview(recipes, None)
  {
    assert |RecipesPreview(recipes, None).value| == 3;
  }
}
