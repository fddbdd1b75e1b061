/**
 * The subscription view of an author (backend/users/serializers.py):
 * whether the caller follows the author, a preview of the author's first
 * recipes and the author's recipe count. The earlier revision of the
 * same serializer (backend/foodgram/users/serializers.py) differs only in
 * the default preview length, in how is_subscribed is filled and in
 * leaving id out of its output.
 */
module UserSerializers {
  import opened Common

  /** PartialRecipeSerializer: a recipe card carries exactly these four fields. */
  datatype PartialRecipe = PartialRecipe(id: int, name: string, image: string, cookingTime: int)

  /** A Subscribe row: subscriber follows author. */
  datatype Subscription = Subscription(subscriber: int, author: int)

  /**
   * UserSerializer.get_is_subscribed. caller is the requesting user's
   * primary key, None for an anonymous user; a false-y key (None or 0)
   * never counts as subscribed.
   */
  function IsSubscribed(caller: Option<int>, author: int, subs: seq<Subscription>): (b: bool)
    ensures caller.None? || caller == Some(0) ==> !b
    ensures caller.Some? && caller.value != 0 ==> (b <==> exists i :: 0 <= i < |subs| && subs[i] == Subscription(caller.value, author))
  {
    caller.Some? && caller.value != 0 && Subscription(caller.value, author) in subs
  }

  function Min(a: int, b: int): int {
    if a <= b then a else b
  }

  datatype PreviewError =
    | NotAnInteger   // ValueError from int()
    | NegativeLimit  // a queryset slice with a negative bound is refused

  /**
   * The first `limit` recipes of the author; limit is the recipes_limit
   * query parameter, or dflt when the request does not carry it.
   */
  function Preview(recipes: seq<PartialRecipe>, limit: Option<string>, dflt: nat): (r: Result<seq<PartialRecipe>, PreviewError>)
    ensures limit.None? ==> r.Ok? && |r.value| == Min(dflt, |recipes|)
    ensures limit.Some? ==> (r == Err(NotAnInteger) <==> ParseInt(limit.value).None?)
    ensures limit.Some? && ParseInt(limit.value).Some? ==>
      (r == Err(NegativeLimit) <==> ParseInt(limit.value).value < 0)
    ensures limit.Some? && ParseInt(limit.value).Some? && ParseInt(limit.value).value >= 0 ==>
      r.Ok? && |r.value| == Min(ParseInt(limit.value).value, |recipes|)
    ensures r.Ok? ==> r.value <= recipes
  {
    var n := if limit.None? then Some(dflt as int) else ParseInt(limit.value);
    if n.None? then Err(NotAnInteger)
    else if n.value < 0 then Err(NegativeLimit)
    else Ok(recipes[..Min(n.value, |recipes|)])
  }

  /** SubscribeSerializer.get_recipes: the default limit is 3. */
  function RecipesPreview(recipes: seq<PartialRecipe>, limit: Option<string>): (r: Result<seq<PartialRecipe>, PreviewError>)
    ensures limit.None? ==> r == Ok(recipes[..Min(3, |recipes|)])
    ensures r.Ok? ==> r.value <= recipes
  {
    Preview(recipes, limit, 3)
  }

  /** SubscribeSerializer.get_recipes_count: every recipe of the author, whatever the limit. */
  function RecipesCount(recipes: seq<PartialRecipe>): nat {
    |recipes|
  }

  /**
   * A limit written as a decimal number selects exactly that many
   * recipes (or all of them when the author has fewer), and never more
   * than the count reports.
   */
  lemma PreviewOfDecimal(recipes: seq<PartialRecipe>, n: nat, dflt: nat)
    ensures Preview(recipes, Some(IntToString(n)), dflt) == Ok(recipes[..Min(n, |recipes|)])
    ensures |Preview(recipes, Some(IntToString(n)), dflt).value| <= RecipesCount(recipes)
  {
    IntToStringRoundTrip(n);
  }

  /** Whatever the limit, the preview never lists more recipes than the count reports. */
  lemma PreviewWithinCount(recipes: seq<PartialRecipe>, limit: Option<string>, dflt: nat)
    ensures Preview(recipes, limit, dflt).Ok? ==> |Preview(recipes, limit, dflt).value| <= RecipesCount(recipes)
  {
  }

  /** A negative limit is refused rather than counted from the end. */
  lemma PreviewRefusesNegative(recipes: seq<PartialRecipe>, n: int, dflt: nat)
    requires n < 0
    ensures Preview(recipes, Some(IntToString(n)), dflt) == Err(NegativeLimit)
  {
    IntToStringRoundTrip(n);
  }

  /** The output fields of SubscribeSerializer, in declaration order. */
  const SubscribeFields: seq<string> :=
    ["id", "username", "email", "first_name", "last_name", "is_subscribed", "recipes", "recipes_count"]
}
