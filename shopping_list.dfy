/**
 * The shopping list behind download_shopping_cart
 * (backend/recipes/views.py): the content rows of every recipe in the
 * user's cart, grouped by (ingredient name, unit text) with their amounts
 * summed, rendered as a header followed by one line per group.
 *
 * The database returns the groups in no particular order; the model
 * lists them in order of first appearance and states every property on
 * the keys and totals, which do not depend on that order.
 */
module ShoppingList {
  import opened Common
  import opened Schema

  /** The text pair a group is listed under: ingredient name and unit text. */
  type Key = (string, string)

  /** One joined row: a content row of a recipe in the cart, with the key of its ingredient. */
  datatype Item = Item(ingredient: int, key: Key, amount: int)

  /** One line of the list: a key and the sum of the amounts listed under it. */
  datatype Group = Group(key: Key, total: int)

  // ---------------------------------------------------------------------
  // The joined rows

  /** The item a content row yields: its ingredient, that ingredient's key and the row's amount. */
  function ItemOf(c: Content, ingredients: map<int, Ingredient>, units: map<int, string>): Item
    requires c.ingredient in ingredients && ingredients[c.ingredient].unit in units
  {
    Item(c.ingredient, KeyOf(ingredients[c.ingredient], units), c.amount)
  }

  /**
   * Every content row of recipe r, with the key of its ingredient, in
   * table order: each row of r yields an item, and each item comes from
   * a row of r.
   */
  function RecipeItems(contents: seq<Content>, r: int, ingredients: map<int, Ingredient>, units: map<int, string>): (items: seq<Item>)
    requires forall i :: 0 <= i < |contents| ==> contents[i].ingredient in ingredients
    requires forall i :: i in ingredients ==> ingredients[i].unit in units
    ensures forall t :: 0 <= t < |items| ==>
      && items[t].ingredient in ingredients
      && items[t].key == KeyOf(ingredients[items[t].ingredient], units)
    ensures forall i :: 0 <= i < |contents| && contents[i].recipe == r ==>
      ItemOf(contents[i], ingredients, units) in items
  {
    if |contents| == 0 then []
    else
      var rest := RecipeItems(contents[1..], r, ingredients, units);
      var c := contents[0];
      assert forall i :: 1 <= i < |contents| ==> contents[1..][i - 1] == contents[i];
      if c.recipe == r then [ItemOf(c, ingredients, units)] + rest else rest
  }

  /**
   * The content rows of every recipe in user u's cart, one cart row after
   * the other: each row of a recipe u has in the cart yields an item, and
   * each item comes from such a row.
   */
  function CartItems(carts: seq<Mark>, u: int, contents: seq<Content>, ingredients: map<int, Ingredient>, units: map<int, string>): (items: seq<Item>)
    requires forall i :: 0 <= i < |contents| ==> contents[i].ingredient in ingredients
    requires forall i :: i in ingredients ==> ingredients[i].unit in units
    ensures forall t :: 0 <= t < |items| ==>
      && items[t].ingredient in ingredients
      && items[t].key == KeyOf(ingredients[items[t].ingredient], units)
    ensures forall j, i :: 0 <= j < |carts| && carts[j].user == u && 0 <= i < |contents| && contents[i].recipe == carts[j].recipe ==>
      ItemOf(contents[i], ingredients, units) in items
  {
    if |carts| == 0 then []
    else
      var rest := CartItems(carts[1..], u, contents, ingredients, units);
      assert forall j :: 1 <= j < |carts| ==> carts[1..][j - 1] == carts[j];
      if carts[0].user == u then RecipeItems(contents, carts[0].recipe, ingredients, units) + rest else rest
  }

  /** Every item of recipe r comes from one of r's content rows. */
  lemma {:induction false} RecipeItemsSound(contents: seq<Content>, r: int, ingredients: map<int, Ingredient>, units: map<int, string>, x: Item)
    requires forall i :: 0 <= i < |contents| ==> contents[i].ingredient in ingredients
    requires forall i :: i in ingredients ==> ingredients[i].unit in units
    requires x in RecipeItems(contents, r, ingredients, units)
    ensures exists i :: 0 <= i < |contents| && contents[i].recipe == r && x == ItemOf(contents[i], ingredients, units)
  {
    var c := contents[0];
    if c.recipe == r && x == ItemOf(c, ingredients, units) {
      assert contents[0] == c;
    } else {
      RecipeItemsSound(contents[1..], r, ingredients, units, x);
      var i :| 0 <= i < |contents[1..]| && contents[1..][i].recipe == r && x == ItemOf(contents[1..][i], ingredients, units);
      assert contents[i + 1] == contents[1..][i];
    }
  }

  /** Every item of the cart comes from a content row of a recipe u has in the cart. */
  lemma {:induction false} CartItemsSound(carts: seq<Mark>, u: int, contents: seq<Content>, ingredients: map<int, Ingredient>, units: map<int, string>, x: Item)
    requires forall i :: 0 <= i < |contents| ==> contents[i].ingredient in ingredients
    requires forall i :: i in ingredients ==> ingredients[i].unit in units
    requires x in CartItems(carts, u, contents, ingredients, units)
    ensures exists j, i :: && 0 <= j < |carts| && carts[j].user == u
                           && 0 <= i < |contents| && contents[i].recipe == carts[j].recipe
                           && x == ItemOf(contents[i], ingredients, units)
  {
    var rest := CartItems(carts[1..], u, contents, ingredients, units);
    if carts[0].user == u && x in RecipeItems(contents, carts[0].recipe, ingredients, units) {
      RecipeItemsSound(contents, carts[0].recipe, ingredients, units, x);
      var i :| 0 <= i < |contents| && contents[i].recipe == carts[0].recipe && x == ItemOf(contents[i], ingredients, units);
      assert carts[0].user == u;
    } else {
      assert x in rest;
      CartItemsSound(carts[1..], u, contents, ingredients, units, x);
      var j, i :| && 0 <= j < |carts[1..]| && carts[1..][j].user == u
                  && 0 <= i < |contents| && contents[i].recipe == carts[1..][j].recipe
                  && x == ItemOf(contents[i], ingredients, units);
      assert carts[j + 1] == carts[1..][j];
    }
  }

  // ---------------------------------------------------------------------
  // Sums

  /** The sum of the amounts of the items listed under key k. */
  function SumFor(items: seq<Item>, k: Key): int {
    if |items| == 0 then 0
    else SumFor(items[..|items| - 1], k) + (if items[|items| - 1].key == k then items[|items| - 1].amount else 0)
  }

  /** The sum of the amounts of the items of ingredient id. */
  function SumById(items: seq<Item>, id: int): int {
    if |items| == 0 then 0
    else SumById(items[..|items| - 1], id) + (if items[|items| - 1].ingredient == id then items[|items| - 1].amount else 0)
  }

  /** Summing over a concatenation sums over each part. */
  lemma {:induction false} SumForAppend(a: seq<Item>, b: seq<Item>, k: Key)
    ensures SumFor(a + b, k) == SumFor(a, k) + SumFor(b, k)
    decreases |b|
  {
    if |b| == 0 {
      assert a + b == a;
    } else {
      var init := b[..|b| - 1];
      assert (a + b)[..|a + b| - 1] == a + init;
      assert (a + b)[|a + b| - 1] == b[|b| - 1];
      SumForAppend(a, init, k);
    }
  }

  /** The recipes user u has in the shopping cart. */
  function CartRecipes(carts: seq<Mark>, u: int): (rs: set<int>)
    ensures forall r :: r in rs <==> Mark(u, r) in carts
  {
    if |carts| == 0 then {}
    else
      assert carts == [carts[0]] + carts[1..];
      (if carts[0].user == u then {carts[0].recipe} else {}) + CartRecipes(carts[1..], u)
  }

  /**
   * The sum of the amounts of the content rows that belong to a recipe
   * in rs and whose ingredient is listed under key k, read straight off
   * the content table.
   */
  function ContentSum(contents: seq<Content>, rs: set<int>, k: Key, ingredients: map<int, Ingredient>, units: map<int, string>): int
    requires forall i :: 0 <= i < |contents| ==> contents[i].ingredient in ingredients
    requires forall i :: i in ingredients ==> ingredients[i].unit in units
  {
    if |contents| == 0 then 0
    else
      var c := contents[0];
      (if c.recipe in rs && KeyOf(ingredients[c.ingredient], units) == k then c.amount else 0)
        + ContentSum(contents[1..], rs, k, ingredients, units)
  }

  lemma {:induction false} ContentSumNone(contents: seq<Content>, k: Key, ingredients: map<int, Ingredient>, units: map<int, string>)
    requires forall i :: 0 <= i < |contents| ==> contents[i].ingredient in ingredients
    requires forall i :: i in ingredients ==> ingredients[i].unit in units
    ensures ContentSum(contents, {}, k, ingredients, units) == 0
  {
    if |contents| > 0 {
      ContentSumNone(contents[1..], k, ingredients, units);
    }
  }

  /** The sum over two disjoint sets of recipes is the sum of the two sums. */
  lemma {:induction false} ContentSumUnion(contents: seq<Content>, a: set<int>, b: set<int>, k: Key, ingredients: map<int, Ingredient>, units: map<int, string>)
    requires forall i :: 0 <= i < |contents| ==> contents[i].ingredient in ingredients
    requires forall i :: i in ingredients ==> ingredients[i].unit in units
    requires a !! b
    ensures ContentSum(contents, a + b, k, ingredients, units)
      == ContentSum(contents, a, k, ingredients, units) + ContentSum(contents, b, k, ingredients, units)
  {
    if |contents| > 0 {
      ContentSumUnion(contents[1..], a, b, k, ingredients, units);
    }
  }

  /**
   * Each content row of recipe r counts once: the sum under key k of the
   * recipe's items is the sum of the amounts of its rows under k.
   */
  lemma {:induction false} RecipeItemsSum(contents: seq<Content>, r: int, k: Key, ingredients: map<int, Ingredient>, units: map<int, string>)
    requires forall i :: 0 <= i < |contents| ==> contents[i].ingredient in ingredients
    requires forall i :: i in ingredients ==> ingredients[i].unit in units
    ensures SumFor(RecipeItems(contents, r, ingredients, units), k) == ContentSum(contents, {r}, k, ingredients, units)
  {
    if |contents| > 0 {
      var c := contents[0];
      var rest := RecipeItems(contents[1..], r, ingredients, units);
      RecipeItemsSum(contents[1..], r, k, ingredients, units);
      if c.recipe == r {
        var x := ItemOf(c, ingredients, units);
        SumForAppend([x], rest, k);
        assert [x][..0] == [];
      }
    }
  }

  /**
   * With every (user, recipe) cart row unique, the cart's sum under key
   * k is the sum of the amounts of the content rows of the recipes in the
   * cart whose ingredient is listed under k: each row counts exactly once.
   */
  lemma {:induction false} CartItemsSum(carts: seq<Mark>, u: int, contents: seq<Content>, k: Key, ingredients: map<int, Ingredient>, units: map<int, string>)
    requires forall i :: 0 <= i < |contents| ==> contents[i].ingredient in ingredients
    requires forall i :: i in ingredients ==> ingredients[i].unit in units
    requires Distinct(carts)
    ensures SumFor(CartItems(carts, u, contents, ingredients, units), k)
      == ContentSum(contents, CartRecipes(carts, u), k, ingredients, units)
  {
    if |carts| == 0 {
      ContentSumNone(contents, k, ingredients, units);
    } else {
      var tail := carts[1..];
      forall i, j | 0 <= i < j < |tail| ensures tail[i] != tail[j] {
        assert tail[i] == carts[i + 1] && tail[j] == carts[j + 1];
      }
      CartItemsSum(tail, u, contents, k, ingredients, units);
      var rest := CartItems(tail, u, contents, ingredients, units);
      if carts[0].user == u {
        var r0 := carts[0].recipe;
        forall j | 0 <= j < |tail| ensures tail[j] != Mark(u, r0) {
          assert tail[j] == carts[j + 1];
        }
        assert r0 !in CartRecipes(tail, u);
        SumForAppend(RecipeItems(contents, r0, ingredients, units), rest, k);
        RecipeItemsSum(contents, r0, k, ingredients, units);
        ContentSumUnion(contents, {r0}, CartRecipes(tail, u), k, ingredients, units);
      } else {
        assert CartRecipes(carts, u) == CartRecipes(tail, u);
      }
    }
  }

  // ---------------------------------------------------------------------
  // Grouping

  /** The keys the groups are listed under. */
  function GroupKeys(groups: seq<Group>): set<Key> {
    set g | g in groups :: g.key
  }

  /** The keys of the items. */
  function ItemKeys(items: seq<Item>): set<Key> {
    set it | it in items :: it.key
  }

  /** No key is listed twice. */
  predicate KeysDistinct(groups: seq<Group>) {
    forall i, j :: 0 <= i < j < |groups| ==> groups[i].key != groups[j].key
  }

  /** The total listed under key k, 0 when k is not listed. */
  function TotalOf(groups: seq<Group>, k: Key): int {
    if |groups| == 0 then 0
    else if groups[0].key == k then groups[0].total
    else TotalOf(groups[1..], k)
  }

  lemma GroupKeysCons(groups: seq<Group>)
    requires |groups| > 0
    ensures GroupKeys(groups) == {groups[0].key} + GroupKeys(groups[1..])
  {
    assert groups == [groups[0]] + groups[1..];
    forall k | k in GroupKeys(groups) ensures k == groups[0].key || k in GroupKeys(groups[1..]) {
      var g :| g in groups && g.key == k;
      if g != groups[0] {
        assert g in groups[1..];
      }
    }
    forall k | k in GroupKeys(groups[1..]) ensures k in GroupKeys(groups) {
      var g :| g in groups[1..] && g.key == k;
      assert g in groups;
    }
    assert groups[0] in groups;
  }

  /** Adds one item: to the group of its key when there is one, otherwise as a new last group. */
  function AddItem(groups: seq<Group>, it: Item): (o: seq<Group>)
    ensures GroupKeys(o) == GroupKeys(groups) + {it.key}
    ensures KeysDistinct(groups) ==> KeysDistinct(o)
    ensures KeysDistinct(groups) ==> forall k :: TotalOf(o, k) == TotalOf(groups, k) + (if k == it.key then it.amount else 0)
  {
    if |groups| == 0 then [Group(it.key, it.amount)]
    else if groups[0].key == it.key then
      var o := [Group(it.key, groups[0].total + it.amount)] + groups[1..];
      assert GroupKeys(o) == GroupKeys(groups) by {
        assert forall g :: g in groups[1..] ==> g in o && g in groups;
        assert forall g :: g in o ==> g == o[0] || g in groups[1..];
        assert forall g :: g in groups ==> g == groups[0] || g in groups[1..];
      }
      assert KeysDistinct(groups) ==> forall k :: k != it.key ==> TotalOf(o, k) == TotalOf(groups[1..], k);
      o
    else
      var rest := AddItem(groups[1..], it);
      var o := [groups[0]] + rest;
      assert GroupKeys(o) == GroupKeys(groups) + {it.key} by {
        GroupKeysCons(o);
        assert o[1..] == rest;
        GroupKeysCons(groups);
      }
      assert KeysDistinct(groups) ==> KeysDistinct(o) by {
        if KeysDistinct(groups) {
          assert KeysDistinct(groups[1..]);
          assert groups[0].key !in GroupKeys(groups[1..]);
          forall j | 0 < j < |o| ensures o[0].key != o[j].key {
            assert o[j] in rest;
            assert o[j].key in GroupKeys(rest);
          }
        }
      }
      o
  }

  /** The groups of a list of items, in order of first appearance. */
  function GroupItems(items: seq<Item>): (o: seq<Group>)
    ensures KeysDistinct(o)
    ensures GroupKeys(o) == ItemKeys(items)
    ensures forall k :: TotalOf(o, k) == SumFor(items, k)
  {
    if |items| == 0 then []
    else
      var init := items[..|items| - 1];
      var o := AddItem(GroupItems(init), items[|items| - 1]);
      assert ItemKeys(items) == ItemKeys(init) + {items[|items| - 1].key} by {
        assert items == init + [items[|items| - 1]];
      }
      o
  }

  /** When no key is listed twice, each group's total is the total listed under its key. */
  lemma {:induction false} TotalOfListed(groups: seq<Group>, i: nat)
    requires KeysDistinct(groups) && i < |groups|
    ensures TotalOf(groups, groups[i].key) == groups[i].total
  {
    if i > 0 {
      assert groups[0].key != groups[i].key;
      assert groups[1..][i - 1] == groups[i];
      TotalOfListed(groups[1..], i - 1);
    }
  }

  /** Every group of the list carries the sum of the amounts of the items under its key. */
  lemma GroupTotals(items: seq<Item>)
    ensures forall i :: 0 <= i < |GroupItems(items)| ==> GroupItems(items)[i].total == SumFor(items, GroupItems(items)[i].key)
  {
    var o := GroupItems(items);
    forall i | 0 <= i < |o| ensures o[i].total == SumFor(items, o[i].key) {
      TotalOfListed(o, i);
    }
  }

  /**
   * Each line of the downloaded list totals, under its (name, unit text),
   * the amounts of the content rows of the recipes in the user's cart.
   */
  lemma CartTotals(carts: seq<Mark>, u: int, contents: seq<Content>, ingredients: map<int, Ingredient>, units: map<int, string>)
    requires forall i :: 0 <= i < |contents| ==> contents[i].ingredient in ingredients
    requires forall i :: i in ingredients ==> ingredients[i].unit in units
    requires Distinct(carts)
    ensures var groups := GroupItems(CartItems(carts, u, contents, ingredients, units));
      forall i :: 0 <= i < |groups| ==>
        groups[i].total == ContentSum(contents, CartRecipes(carts, u), groups[i].key, ingredients, units)
  {
    var items := CartItems(carts, u, contents, ingredients, units);
    var groups := GroupItems(items);
    GroupTotals(items);
    forall i | 0 <= i < |groups|
      ensures groups[i].total == ContentSum(contents, CartRecipes(carts, u), groups[i].key, ingredients, units)
    {
      CartItemsSum(carts, u, contents, groups[i].key, ingredients, units);
    }
  }

  // ---------------------------------------------------------------------
  // Grouping by (name, unit) is grouping by ingredient

  /**
   * When each item's key is its ingredient's (name, unit text) pair, the
   * unique constraints make the sum under an ingredient's key the sum of
   * that ingredient's amounts.
   */
  lemma {:induction false} SumsCoincide(items: seq<Item>, ingredients: map<int, Ingredient>, units: map<int, string>, id: int)
    requires IngredientsValid(ingredients, units) && UnitsUnique(units)
    requires forall t :: 0 <= t < |items| ==>
      items[t].ingredient in ingredients && items[t].key == KeyOf(ingredients[items[t].ingredient], units)
    requires id in ingredients
    ensures SumFor(items, KeyOf(ingredients[id], units)) == SumById(items, id)
  {
    if |items| > 0 {
      var last := items[|items| - 1];
      SumsCoincide(items[..|items| - 1], ingredients, units, id);
      if last.ingredient != id {
        KeyOfInjective(ingredients, units, last.ingredient, id);
      }
    }
  }

  /** The premise shared by the lemmas below: each item is keyed by its ingredient's (name, unit text). */
  predicate KeyedByIngredient(items: seq<Item>, ingredients: map<int, Ingredient>, units: map<int, string>)
    requires forall i :: i in ingredients ==> ingredients[i].unit in units
  {
    forall t :: 0 <= t < |items| ==>
      items[t].ingredient in ingredients && items[t].key == KeyOf(ingredients[items[t].ingredient], units)
  }

  /** A line of the list carries the sum of the amounts of one ingredient that shares its key. */
  lemma GroupIsIngredient(items: seq<Item>, groups: seq<Group>, ingredients: map<int, Ingredient>, units: map<int, string>, i: nat)
    requires IngredientsValid(ingredients, units) && UnitsUnique(units)
    requires KeyedByIngredient(items, ingredients, units)
    requires groups == GroupItems(items) && i < |groups|
    ensures exists id :: id in ingredients && KeyOf(ingredients[id], units) == groups[i].key && groups[i].total == SumById(items, id)
  {
    TotalOfListed(groups, i);
    assert groups[i].key in GroupKeys(groups);
    var it :| it in items && it.key == groups[i].key;
    var t :| 0 <= t < |items| && items[t] == it;
    SumsCoincide(items, ingredients, units, it.ingredient);
  }

  /**
   * Each line of the list stands for exactly one ingredient, its total
   * is the sum of that ingredient's amounts over the cart, and every
   * ingredient in the cart has its line.
   */
  lemma GroupsAreIngredients(items: seq<Item>, groups: seq<Group>, ingredients: map<int, Ingredient>, units: map<int, string>)
    requires IngredientsValid(ingredients, units) && UnitsUnique(units)
    requires KeyedByIngredient(items, ingredients, units)
    requires groups == GroupItems(items)
    ensures forall i :: 0 <= i < |groups| ==>
      exists id :: id in ingredients && KeyOf(ingredients[id], units) == groups[i].key && groups[i].total == SumById(items, id)
    ensures forall i, a, b :: (0 <= i < |groups| && a in ingredients && b in ingredients
      && KeyOf(ingredients[a], units) == groups[i].key && KeyOf(ingredients[b], units) == groups[i].key) ==> a == b
    ensures forall t :: 0 <= t < |items| ==> exists i :: 0 <= i < |groups| && groups[i].key == items[t].key
  {
    forall i | 0 <= i < |groups|
      ensures exists id :: id in ingredients && KeyOf(ingredients[id], units) == groups[i].key && groups[i].total == SumById(items, id)
    {
      GroupIsIngredient(items, groups, ingredients, units, i);
    }
    forall i, a, b | 0 <= i < |groups| && a in ingredients && b in ingredients
      && KeyOf(ingredients[a], units) == groups[i].key && KeyOf(ingredients[b], units) == groups[i].key
      ensures a == b
    {
      if a != b {
        KeyOfInjective(ingredients, units, a, b);
      }
    }
    forall t | 0 <= t < |items| ensures exists i :: 0 <= i < |groups| && groups[i].key == items[t].key {
      assert items[t].key in ItemKeys(items);
      var g :| g in groups && g.key == items[t].key;
    }
  }

  // ---------------------------------------------------------------------
  // Rendering

  const Title: string := "СПИСОК ПОКУПОК:"

  /** The first line of every list. */
  const Header: string := Title + "\n"

  /** One line: name, ": ", the total, ", ", the unit, then a newline. */
  function Line(g: Group): string {
    g.key.0 + ": " + IntToString(g.total) + ", " + g.key.1 + "\n"
  }

  /** The lines of the groups, in order. */
  function Lines(groups: seq<Group>): string {
    if |groups| == 0 then "" else Lines(groups[..|groups| - 1]) + Line(groups[|groups| - 1])
  }

  /** One more group adds its line at the end. */
  lemma LinesStep(groups: seq<Group>, i: nat)
    requires i < |groups|
    ensures Lines(groups[..i + 1]) == Lines(groups[..i]) + Line(groups[i])
  {
    var next := groups[..i + 1];
    assert next[..i] == groups[..i];
    assert next[i] == groups[i];
  }

  /** The text of the download: the header, then one line per group. */
  method Render(groups: seq<Group>) returns (text: string)
    ensures text == Header + Lines(groups)
  {
    text := Header;
    var i := 0;
    while i < |groups|
      invariant 0 <= i <= |groups|
      invariant text == Header + Lines(groups[..i])
    {
      LinesStep(groups, i);
      AppendAssoc(Header, Lines(groups[..i]), Line(groups[i]));
      text := text + Line(groups[i]);
      i := i + 1;
    }
    assert groups[..i] == groups;
  }

  lemma AppendAssoc(a: string, b: string, c: string)
    ensures a + (b + c) == a + b + c
  {
  }

  /** The number of newline characters in s. */
  function NewlineCount(s: string): nat {
    multiset(s)['\n']
  }

  predicate NoNewline(s: string) {
    forall i :: 0 <= i < |s| ==> s[i] != '\n'
  }

  lemma NoNewlineCount(s: string)
    requires NoNewline(s)
    ensures NewlineCount(s) == 0
  {
    assert '\n' !in s;
  }

  /** The line breaks of a concatenation are those of its parts. */
  lemma NewlineCountAppend(a: string, b: string)
    ensures NewlineCount(a + b) == NewlineCount(a) + NewlineCount(b)
  {
    assert multiset(a + b) == multiset(a) + multiset(b);
  }

  /** A rendered number holds no line break. */
  lemma NumberHasNoNewline(k: int)
    ensures NoNewline(IntToString(k))
  {
    if k >= 0 {
      assert AllDigits(IntToString(k));
    } else {
      assert IntToString(k) == "-" + NatToString(-k);
      assert AllDigits(NatToString(-k));
    }
  }

  /** A line holds exactly one newline when neither the name nor the unit holds one. */
  lemma LineHasOneNewline(g: Group)
    requires NoNewline(g.key.0) && NoNewline(g.key.1)
    ensures NewlineCount(Line(g)) == 1
  {
    var n := IntToString(g.total);
    NumberHasNoNewline(g.total);
    NoNewlineCount(g.key.0);
    NoNewlineCount(n);
    NoNewlineCount(g.key.1);
    assert NewlineCount(": ") == 0 && NewlineCount(", ") == 0 && NewlineCount("\n") == 1;
    NewlineCountAppend(g.key.0, ": ");
    NewlineCountAppend(g.key.0 + ": ", n);
    NewlineCountAppend(g.key.0 + ": " + n, ", ");
    NewlineCountAppend(g.key.0 + ": " + n + ", ", g.key.1);
    NewlineCountAppend(g.key.0 + ": " + n + ", " + g.key.1, "\n");
  }

  /** The header is one line. */
  lemma HeaderIsOneLine()
    ensures NewlineCount(Header) == 1
  {
    assert '\n' !in Title;
    EndsWithOnlyNewline(Title);
  }

  /** A text without a line break, followed by one, is one line. */
  lemma EndsWithOnlyNewline(t: string)
    requires '\n' !in t
    ensures NewlineCount(t + "\n") == 1
  {
    assert multiset(t + "\n") == multiset(t) + multiset{'\n'};
  }

  /** The lines of the groups hold one newline each. */
  lemma {:induction false} LinesCount(groups: seq<Group>)
    requires forall i :: 0 <= i < |groups| ==> NoNewline(groups[i].key.0) && NoNewline(groups[i].key.1)
    ensures NewlineCount(Lines(groups)) == |groups|
  {
    if |groups| > 0 {
      var init, last := groups[..|groups| - 1], groups[|groups| - 1];
      assert forall i :: 0 <= i < |init| ==> init[i] == groups[i];
      LinesCount(init);
      LineHasOneNewline(last);
    }
  }

  /**
   * The text holds one line for the header and one per group, and no
   * more: an empty cart yields the header alone.
   */
  lemma RenderedLineCount(groups: seq<Group>)
    requires forall i :: 0 <= i < |groups| ==> NoNewline(groups[i].key.0) && NoNewline(groups[i].key.1)
    ensures NewlineCount(Header + Lines(groups)) == |groups| + 1
    ensures groups == [] ==> Header + Lines(groups) == Header
  {
    HeaderIsOneLine();
    LinesCount(groups);
    NewlineCountAppend(Header, Lines(groups));
  }
}
