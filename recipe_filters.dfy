/**
 * The two filter backends of backend/recipes/filters.py: the recipe
 * filter (query parameters is_favorited, is_in_shopping_cart, author and
 * tags, combined with AND) and the ingredient search by name.
 *
 * The tags condition joins each recipe with its tags, so a recipe that
 * matches k of the requested slugs comes out k times; the later revision
 * then removes the repeats (distinct), the earlier one does not.
 */
module RecipeFilters {
  import opened Common
  import opened Schema
  import opened RecipeQueries

  /** The query parameters; None is a parameter the request does not carry. */
  datatype Params = Params(isFavorited: Option<string>, isInShoppingCart: Option<string>, author: Option<string>, tags: seq<string>)

  /** The conditions a filter applies; None imposes nothing, an empty slug list imposes nothing. */
  datatype Conditions = Conditions(favorited: Option<string>, inCart: Option<string>, author: Option<int>, slugs: seq<string>)

  datatype FilterError = AuthorNotInteger  // ValueError from int(author)

  // ---------------------------------------------------------------------
  // The join and its conditions

  /** The tags of recipe r whose slug is among the requested ones. */
  function MatchingTags(r: Recipe, tags: map<int, Tag>, slugs: seq<string>): set<int> {
    set t | t in r.tags && t in tags && tags[t].slug in slugs
  }

  /** The conditions other than tags. */
  predicate ScalarsHold(row: Annotated, c: Conditions) {
    && (c.favorited.Some? ==> row.isFavorited == c.favorited.value)
    && (c.inCart.Some? ==> row.isInShoppingCart == c.inCart.value)
    && (c.author.Some? ==> row.recipe.author == c.author.value)
  }

  /** A row satisfies every condition: a supplied tag list needs at least one matching tag. */
  predicate Keep(row: Annotated, c: Conditions, tags: map<int, Tag>) {
    ScalarsHold(row, c) && (|c.slugs| > 0 ==> MatchingTags(row.recipe, tags, c.slugs) != {})
  }

  /** How many rows the filtered join yields for one recipe row. */
  function Copies(row: Annotated, c: Conditions, tags: map<int, Tag>): (n: nat)
    ensures n > 0 <==> Keep(row, c, tags)
  {
    if !ScalarsHold(row, c) then 0
    else if |c.slugs| == 0 then 1
    else |MatchingTags(row.recipe, tags, c.slugs)|
  }

  function Repeat(row: Annotated, n: nat): (s: seq<Annotated>)
    ensures |s| == n && forall i :: 0 <= i < n ==> s[i] == row
  {
    if n == 0 then [] else [row] + Repeat(row, n - 1)
  }

  /** The filtered join: each recipe row as many times as Copies says, in queryset order. */
  function Joined(qs: seq<Annotated>, c: Conditions, tags: map<int, Tag>): (s: seq<Annotated>)
    ensures forall x :: x in s <==> x in qs && Keep(x, c, tags)
  {
    if |qs| == 0 then []
    else
      var head := Repeat(qs[0], Copies(qs[0], c, tags));
      assert forall x :: x in head <==> x == qs[0] && Copies(qs[0], c, tags) > 0;
      head + Joined(qs[1..], c, tags)
  }

  /** Each recipe row of a queryset without repeats comes out of the join exactly Copies times. */
  lemma {:induction false} JoinedMultiplicity(qs: seq<Annotated>, c: Conditions, tags: map<int, Tag>, x: Annotated)
    requires Distinct(qs)
    ensures multiset(Joined(qs, c, tags))[x] == if x in qs then Copies(x, c, tags) else 0
  {
    if |qs| > 0 {
      var rest := qs[1..];
      DistinctRest(qs);
      JoinedMultiplicity(rest, c, tags, x);
      var head := Repeat(qs[0], Copies(qs[0], c, tags));
      var tail := Joined(rest, c, tags);
      RepeatMultiplicity(qs[0], Copies(qs[0], c, tags), x);
      assert Joined(qs, c, tags) == head + tail;
      assert multiset(head + tail)[x] == multiset(head)[x] + multiset(tail)[x];
      assert x in qs <==> x == qs[0] || x in rest by {
        assert qs == [qs[0]] + rest;
      }
    }
  }

  /** Dropping the first row keeps a sequence free of repeats, and the first row does not recur. */
  lemma DistinctRest(qs: seq<Annotated>)
    requires Distinct(qs) && |qs| > 0
    ensures Distinct(qs[1..]) && qs[0] !in qs[1..]
  {
    forall i, j | 0 <= i < j < |qs[1..]| ensures qs[1..][i] != qs[1..][j] {
      assert qs[1..][i] == qs[i + 1] && qs[1..][j] == qs[j + 1];
    }
    forall j | 0 <= j < |qs[1..]| ensures qs[1..][j] != qs[0] {
      assert qs[1..][j] == qs[j + 1];
    }
  }

  lemma {:induction false} RepeatMultiplicity(row: Annotated, n: nat, x: Annotated)
    ensures multiset(Repeat(row, n))[x] == if x == row then n else 0
  {
    if n > 0 {
      RepeatMultiplicity(row, n - 1, x);
      assert multiset(Repeat(row, n)) == multiset{row} + multiset(Repeat(row, n - 1));
    }
  }

  /** The rows of s without repeats, each at its first occurrence. */
  function Dedup(s: seq<Annotated>): (o: seq<Annotated>)
    ensures forall x :: x in o <==> x in s
    ensures Distinct(o)
  {
    if |s| == 0 then []
    else
      var init := Dedup(s[..|s| - 1]);
      var last := s[|s| - 1];
      assert forall x :: x in s <==> x in s[..|s| - 1] || x == last by {
        assert s == s[..|s| - 1] + [last];
      }
      if last in init then init
      else
        var o := init + [last];
        assert forall i :: 0 <= i < |init| ==> o[i] == init[i];
        o
  }

  // ---------------------------------------------------------------------
  // CustomFilterBackend.filter_queryset

  /**
   * The conditions the later filter applies: a truthy is_favorited or
   * is_in_shopping_cart is compared as the raw parameter text; a truthy
   * author is converted with int(), which fails on anything but a
   * decimal integer; a non-empty tags list is matched against slugs.
   */
  function ConditionsOf(p: Params): (r: Result<Conditions, FilterError>)
    ensures r.Err? <==> Truthy(p.author) && ParseInt(p.author.value).None?
    ensures r.Ok? ==>
      && (r.value.favorited.Some? <==> Truthy(p.isFavorited))
      && (r.value.favorited.Some? ==> r.value.favorited == p.isFavorited)
      && (r.value.inCart.Some? <==> Truthy(p.isInShoppingCart))
      && (r.value.inCart.Some? ==> r.value.inCart == p.isInShoppingCart)
      && (r.value.author.Some? <==> Truthy(p.author))
      && (r.value.author.Some? ==> r.value.author == ParseInt(p.author.value))
      && r.value.slugs == p.tags
  {
    var fav := if Truthy(p.isFavorited) then p.isFavorited else None;
    var cart := if Truthy(p.isInShoppingCart) then p.isInShoppingCart else None;
    if Truthy(p.author) && ParseInt(p.author.value).None? then Err(AuthorNotInteger)
    else
      var author := if Truthy(p.author) then ParseInt(p.author.value) else None;
      Ok(Conditions(fav, cart, author, p.tags))
  }

  /**
   * The later recipe filter: the rows satisfying every supplied
   * condition, each once.
   */
  function FilterRecipes(qs: seq<Annotated>, p: Params, tags: map<int, Tag>): (r: Result<seq<Annotated>, FilterError>)
    ensures r.Err? <==> Truthy(p.author) && ParseInt(p.author.value).None?
    ensures r.Ok? ==> forall x :: x in r.value <==> x in qs && Keep(x, ConditionsOf(p).value, tags)
    ensures r.Ok? ==> Distinct(r.value)
  {
    match ConditionsOf(p)
    case Err(e) => Err(e)
    case Ok(c) => Ok(Dedup(Joined(qs, c, tags)))
  }

  /** With no parameter the filter keeps every row (each once). */
  lemma NoParamsKeepsAll(qs: seq<Annotated>, tags: map<int, Tag>)
    ensures var r := FilterRecipes(qs, Params(None, None, None, []), tags);
      r.Ok? && forall x :: x in r.value <==> x in qs
  {
  }

  /**
   * The flag parameters are compared as text with annotations that are
   * only ever 'true' or 'false': any other value keeps nothing.
   */
  lemma OnlyTrueOrFalseMatch(qs: seq<Annotated>, p: Params, tags: map<int, Tag>)
    requires FlagsWellFormed(qs)
    requires Truthy(p.isFavorited) && p.isFavorited.value != "true" && p.isFavorited.value != "false"
    requires FilterRecipes(qs, p, tags).Ok?
    ensures FilterRecipes(qs, p, tags).value == []
  {
    var c := ConditionsOf(p).value;
    forall x | x in qs ensures !Keep(x, c, tags) {
      var i :| 0 <= i < |qs| && qs[i] == x;
    }
    NoMemberIsEmpty(FilterRecipes(qs, p, tags).value);
  }

  lemma NoMemberIsEmpty(s: seq<Annotated>)
    ensures (forall x :: x !in s) ==> s == []
  {
    if |s| > 0 {
      assert s[0] in s;
    }
  }

  /** The author filter keeps exactly the recipes of the author written in the parameter. */
  lemma AuthorFilter(qs: seq<Annotated>, tags: map<int, Tag>, a: int)
    ensures var r := FilterRecipes(qs, Params(None, None, Some(IntToString(a)), []), tags);
      r.Ok? && forall x :: x in r.value <==> x in qs && x.recipe.author == a
  {
    IntToStringRoundTrip(a);
  }

  // ---------------------------------------------------------------------
  // CustomSearch.filter_queryset

  /** An Ingredient row of the queryset. */
  datatype IngredientRow = IngredientRow(id: int, name: string, unit: int)

  /** 0 for a name that starts with the term (case-sensitively), 1 otherwise. */
  function Rank(row: IngredientRow, term: string): int {
    if term <= row.name then 0 else 1
  }

  /** order_by('flag', 'name'). */
  predicate Before(a: IngredientRow, b: IngredientRow, term: string) {
    Rank(a, term) < Rank(b, term) || (Rank(a, term) == Rank(b, term) && StrLe(a.name, b.name))
  }

  predicate SortedBy(s: seq<IngredientRow>, term: string) {
    forall i, j :: 0 <= i < j < |s| ==> Before(s[i], s[j], term)
  }

  lemma BeforeTotal(a: IngredientRow, b: IngredientRow, term: string)
    ensures Before(a, b, term) || Before(b, a, term)
  {
    StrLeTotal(a.name, b.name);
  }

  lemma BeforeTrans(a: IngredientRow, b: IngredientRow, c: IngredientRow, term: string)
    requires Before(a, b, term) && Before(b, c, term)
    ensures Before(a, c, term)
  {
    if Rank(a, term) == Rank(b, term) && Rank(b, term) == Rank(c, term) {
      StrLeTrans(a.name, b.name, c.name);
    }
  }

  /** The rows whose name contains the term case-insensitively (name__icontains), in order. */
  function Matching(qs: seq<IngredientRow>, term: string): (o: seq<IngredientRow>)
    ensures forall x :: x in o <==> x in qs && IContains(x.name, term)
    ensures multiset(o) <= multiset(qs)
  {
    if |qs| == 0 then []
    else
      var rest := Matching(qs[1..], term);
      assert qs == [qs[0]] + qs[1..];
      if IContains(qs[0].name, term) then [qs[0]] + rest else rest
  }

  /** Places x into a sorted sequence. */
  function Insert(x: IngredientRow, s: seq<IngredientRow>, term: string): (o: seq<IngredientRow>)
    requires SortedBy(s, term)
    ensures SortedBy(o, term)
    ensures multiset(o) == multiset(s) + multiset{x}
  {
    if |s| == 0 then [x]
    else if Before(x, s[0], term) then
      var o := [x] + s;
      forall j | 0 < j < |o| ensures Before(x, o[j], term) {
        if j > 1 {
          BeforeTrans(x, s[0], o[j], term);
        }
      }
      o
    else
      BeforeTotal(x, s[0], term);
      var rest := Insert(x, s[1..], term);
      var o := [s[0]] + rest;
      assert s == [s[0]] + s[1..];
      forall j | 0 < j < |o| ensures Before(s[0], o[j], term) {
        assert o[j] in multiset(rest);
        if o[j] != x {
          assert o[j] in multiset(s[1..]);
          var q :| 0 <= q < |s[1..]| && s[1..][q] == o[j];
          assert s[q + 1] == o[j];
        }
      }
      o
  }

  /** Sorts by rank, then by name. */
  function Sort(s: seq<IngredientRow>, term: string): (o: seq<IngredientRow>)
    ensures SortedBy(o, term)
    ensures multiset(o) == multiset(s)
  {
    if |s| == 0 then []
    else
      assert s == [s[0]] + s[1..];
      Insert(s[0], Sort(s[1..], term), term)
  }

  /**
   * The ingredient search. Without configured search fields or without a
   * truthy name parameter the queryset comes back unchanged; otherwise
   * the rows whose name contains the term, ignoring case, ordered with
   * the names that start with the term first and by name within each
   * part.
   */
  function Search(qs: seq<IngredientRow>, term: Option<string>, configured: bool): (r: seq<IngredientRow>)
    ensures !configured || !Truthy(term) ==> r == qs
    ensures configured && Truthy(term) ==>
      && multiset(r) == multiset(Matching(qs, term.value))
      && SortedBy(r, term.value)
  {
    if !configured || !Truthy(term) then qs else Sort(Matching(qs, term.value), term.value)
  }

  /**
   * The search keeps exactly the rows whose name contains the term,
   * ignoring case, and every name starting with the term comes before
   * every name that only contains it.
   */
  lemma SearchRanksPrefixesFirst(qs: seq<IngredientRow>, term: string)
    requires term != ""
    ensures forall x :: x in Search(qs, Some(term), true) <==> x in qs && IContains(x.name, term)
    ensures var r := Search(qs, Some(term), true);
      forall i, j :: 0 <= i < j < |r| && term <= r[j].name ==> term <= r[i].name
  {
    var r := Search(qs, Some(term), true);
    forall x ensures x in r <==> x in qs && IContains(x.name, term) {
      assert x in r <==> x in multiset(r);
      assert x in Matching(qs, term) <==> x in multiset(Matching(qs, term));
    }
  }

  /** A name that starts with the term is always found. */
  lemma PrefixIsFound(qs: seq<IngredientRow>, term: string, x: IngredientRow)
    requires term != "" && x in qs && term <= x.name
    ensures x in Search(qs, Some(term), true)
  {
    PrefixImpliesIContains(term, x.name);
    SearchRanksPrefixesFirst(qs, term);
  }
}
