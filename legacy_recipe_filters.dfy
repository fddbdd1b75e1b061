/**
 * The recipe filter of the earlier revision
 * (backend/foodgram/recipes/filters.py). It maps the flag parameters
 * '0' and '1' to the annotation values 'false' and 'true' through a
 * dictionary, and it returns the join without removing repeats. Its
 * CustomSearch is the same as the later one (RecipeFilters.Search).
 */
module LegacyRecipeFilters {
  import opened Common
  import opened Schema
  import opened RecipeQueries
  import opened RecipeFilters

  datatype LegacyFilterError =
    | KeyError(key: Option<string>) // a lookup in flag_params that misses; None is Python's None
    | ValueError                    // int(author) fails

  /** flag_params: '0' is 'false', '1' is 'true', nothing else is a key. */
  function FlagParam(v: string): (r: Option<string>)
    ensures r.Some? <==> v == "0" || v == "1"
    ensures r.Some? ==> (r.value == "true" <==> v == "1")
    ensures r.Some? ==> (r.value == "true" || r.value == "false")
  {
    if v == "0" then Some("false") else if v == "1" then Some("true") else None
  }

  /** flag_params[key] with a key that may be None. */
  function Lookup(key: Option<string>): (r: Result<string, LegacyFilterError>)
    ensures r.Ok? <==> key.Some? && FlagParam(key.value).Some?
    ensures r.Err? ==> r.error == KeyError(key)
  {
    if key.None? || FlagParam(key.value).None? then Err(KeyError(key)) else Ok(FlagParam(key.value).value)
  }

  /**
   * The conditions as written: a truthy is_favorited is looked up in
   * flag_params; a truthy is_in_shopping_cart is ALSO compared with
   * flag_params[is_favorited]; then int(author).
   */
  function LegacyConditions(p: Params): (r: Result<Conditions, LegacyFilterError>)
    ensures Truthy(p.isFavorited) && FlagParam(p.isFavorited.value).None? ==> r == Err(KeyError(p.isFavorited))
    ensures !Truthy(p.isFavorited) && Truthy(p.isInShoppingCart) ==> r == Err(KeyError(p.isFavorited))
    ensures r.Ok? && r.value.inCart.Some? ==> r.value.inCart == r.value.favorited
    ensures r == Err(ValueError) <==>
      && (Truthy(p.isFavorited) ==> FlagParam(p.isFavorited.value).Some?)
      && (Truthy(p.isInShoppingCart) ==> Truthy(p.isFavorited))
      && Truthy(p.author) && ParseInt(p.author.value).None?
    ensures r.Ok? <==>
      && (Truthy(p.isFavorited) ==> FlagParam(p.isFavorited.value).Some?)
      && (Truthy(p.isInShoppingCart) ==> Truthy(p.isFavorited))
      && (Truthy(p.author) ==> ParseInt(p.author.value).Some?)
    ensures r.Ok? ==>
      && (r.value.favorited.Some? <==> Truthy(p.isFavorited))
      && (r.value.favorited.Some? ==> r.value.favorited == FlagParam(p.isFavorited.value))
      && (r.value.inCart.Some? <==> Truthy(p.isInShoppingCart))
      && (r.value.inCart.Some? ==> r.value.inCart == FlagParam(p.isFavorited.value))
      && (r.value.author.Some? <==> Truthy(p.author))
      && (r.value.author.Some? ==> r.value.author == ParseInt(p.author.value))
      && r.value.slugs == p.tags
  {
    var fav := if Truthy(p.isFavorited) then Lookup(p.isFavorited) else Ok("");
    if fav.Err? then Err(fav.error)
    else
      var cart := if Truthy(p.isInShoppingCart) then Lookup(p.isFavorited) else Ok("");
      if cart.Err? then Err(cart.error)
      else if Truthy(p.author) && ParseInt(p.author.value).None? then Err(ValueError)
      else
        Ok(Conditions(
          if Truthy(p.isFavorited) then Some(fav.value) else None,
          if Truthy(p.isInShoppingCart) then Some(cart.value) else None,
          if Truthy(p.author) then ParseInt(p.author.value) else None,
          p.tags))
  }

  /**
   * The conditions as evidently intended: is_in_shopping_cart is looked
   * up with its own value.
   */
  function IntendedConditions(p: Params): (r: Result<Conditions, LegacyFilterError>)
    ensures r.Ok? <==>
      && (Truthy(p.isFavorited) ==> FlagParam(p.isFavorited.value).Some?)
      && (Truthy(p.isInShoppingCart) ==> FlagParam(p.isInShoppingCart.value).Some?)
      && (Truthy(p.author) ==> ParseInt(p.author.value).Some?)
    ensures r.Ok? ==>
      && (r.value.favorited.Some? <==> Truthy(p.isFavorited))
      && (r.value.favorited.Some? ==> r.value.favorited == FlagParam(p.isFavorited.value))
      && (r.value.inCart.Some? <==> Truthy(p.isInShoppingCart))
      && (r.value.inCart.Some? ==> r.value.inCart == FlagParam(p.isInShoppingCart.value))
      && (r.value.author.Some? <==> Truthy(p.author))
      && (r.value.author.Some? ==> r.value.author == ParseInt(p.author.value))
      && r.value.slugs == p.tags
  {
    var fav := if Truthy(p.isFavorited) then Lookup(p.isFavorited) else Ok("");
    if fav.Err? then Err(fav.error)
    else
      var cart := if Truthy(p.isInShoppingCart) then Lookup(p.isInShoppingCart) else Ok("");
      if cart.Err? then Err(cart.error)
      else if Truthy(p.author) && ParseInt(p.author.value).None? then Err(ValueError)
      else
        Ok(Conditions(
          if Truthy(p.isFavorited) then Some(fav.value) else None,
          if Truthy(p.isInShoppingCart) then Some(cart.value) else None,
          if Truthy(p.author) then ParseInt(p.author.value) else None,
          p.tags))
  }

  /** The earlier filter: the filtered join, repeats included. */
  function LegacyFilterRecipes(qs: seq<Annotated>, p: Params, tags: map<int, Tag>): (r: Result<seq<Annotated>, LegacyFilterError>)
    ensures r.Err? <==> LegacyConditions(p).Err?
    ensures r.Ok? ==> forall x :: x in r.value <==> x in qs && Keep(x, LegacyConditions(p).value, tags)
  {
    match LegacyConditions(p)
    case Err(e) => Err(e)
    case Ok(c) => Ok(Joined(qs, c, tags))
  }

  /**
   * The earlier filter as evidently intended: each flag parameter looked
   * up with its own value, and every row listed once.
   */
  function IntendedFilterRecipes(qs: seq<Annotated>, p: Params, tags: map<int, Tag>): (r: Result<seq<Annotated>, LegacyFilterError>)
    ensures r.Err? <==> IntendedConditions(p).Err?
    ensures r.Ok? ==> forall x :: x in r.value <==> x in qs && Keep(x, IntendedConditions(p).value, tags)
    ensures r.Ok? ==> Distinct(r.value)
  {
    match IntendedConditions(p)
    case Err(e) => Err(e)
    case Ok(c) => Ok(Dedup(Joined(qs, c, tags)))
  }

  /**
   * Without distinct, a recipe row comes out once per requested tag it
   * carries: a recipe with two of the requested tags is listed twice by
   * the earlier filter and once by the later one.
   */
  lemma LegacyFilterRepeatsRows(qs: seq<Annotated>, p: Params, tags: map<int, Tag>, x: Annotated)
    requires Distinct(qs) && x in qs
    requires LegacyConditions(p).Ok? && ScalarsHold(x, LegacyConditions(p).value)
    requires IntendedConditions(p).Ok? && ScalarsHold(x, IntendedConditions(p).value)
    requires p.tags != [] && |MatchingTags(x.recipe, tags, p.tags)| == 2
    ensures multiset(LegacyFilterRecipes(qs, p, tags).value)[x] == 2
    ensures multiset(IntendedFilterRecipes(qs, p, tags).value)[x] == 1
  {
    var c := LegacyConditions(p).value;
    JoinedMultiplicity(qs, c, tags, x);
    DistinctOnce(IntendedFilterRecipes(qs, p, tags).value, x);
  }

  /** In a sequence without repeats each member occurs exactly once. */
  lemma {:induction false} DistinctOnce(s: seq<Annotated>, x: Annotated)
    requires Distinct(s) && x in s
    ensures multiset(s)[x] == 1
  {
    if s[0] == x {
      DistinctRest(s);
      assert s == [s[0]] + s[1..];
    } else {
      DistinctRest(s);
      assert s == [s[0]] + s[1..];
      DistinctOnce(s[1..], x);
    }
  }

  /**
   * A request asking only for recipes in the shopping cart fails, because
   * the cart condition looks up the absent is_favorited parameter.
   */
  lemma CartOnlyRequestFails(qs: seq<Annotated>, tags: map<int, Tag>)
    ensures LegacyFilterRecipes(qs, Params(None, Some("1"), None, []), tags) == Err(KeyError(None))
  {
  }

  /**
   * Favorites wanted but cart recipes NOT wanted: the cart condition
   * reads is_favorited=1 and keeps the cart recipes instead.
   */
  lemma CartConditionReadsFavoriteFlag()
    ensures LegacyConditions(Params(Some("1"), Some("0"), None, [])) == Ok(Conditions(Some("true"), Some("true"), None, []))
    ensures IntendedConditions(Params(Some("1"), Some("0"), None, [])) == Ok(Conditions(Some("true"), Some("false"), None, []))
  {
  }

  /**
   * With the intended lookup, is_in_shopping_cart=1 alone keeps exactly
   * the rows annotated as in the caller's shopping cart.
   */
  lemma IntendedCartFilter(qs: seq<Annotated>, tags: map<int, Tag>)
    ensures var r := IntendedConditions(Params(None, Some("1"), None, []));
      r.Ok? && forall x :: x in Joined(qs, r.value, tags) <==> x in qs && x.isInShoppingCart == "true"
  {
  }
}
