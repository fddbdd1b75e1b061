/**
 * The recipe queryset of RecipesViewSet.get_queryset
 * (backend/recipes/views.py): every recipe, annotated with the strings
 * 'true' or 'false' for whether the caller has it among their favorites
 * and in their shopping cart.
 */
module RecipeQueries {
  import opened Common
  import opened Schema

  /** A row of the underlying queryset: a recipe and its primary key. */
  datatype Row = Row(id: int, recipe: Recipe)

  /** A row with the two annotations the view adds. */
  datatype Annotated = Annotated(id: int, recipe: Recipe, isFavorited: string, isInShoppingCart: string)

  /** The text value of a CharField annotation: 'true' or 'false'. */
  function Flag(b: bool): (s: string)
    ensures s == "true" || s == "false"
    ensures s == "true" <==> b
  {
    if b then "true" else "false"
  }

  /**
   * The recipe ids of the caller's rows. The anonymous caller has no
   * primary key, and filtering on a null user matches no row.
   */
  function RecipeIdsOf(marks: seq<Mark>, caller: Option<int>): (ids: set<int>)
    ensures forall id :: id in ids <==> caller.Some? && Mark(caller.value, id) in marks
  {
    set mk | mk in marks && caller == Some(mk.user) :: mk.recipe
  }

  /** One row, annotated. */
  function AnnotateRow(row: Row, fav: set<int>, shop: set<int>): Annotated {
    Annotated(row.id, row.recipe, Flag(row.id in fav), Flag(row.id in shop))
  }

  /**
   * get_queryset: each recipe in order, none added or dropped, with
   * is_favorited 'true' exactly when the caller has a Favorite row for
   * it and is_in_shopping_cart 'true' exactly when they have a
   * ShoppingCart row for it.
   */
  function Annotate(qs: seq<Row>, favorites: seq<Mark>, carts: seq<Mark>, caller: Option<int>): (r: seq<Annotated>)
    ensures |r| == |qs|
    ensures forall i :: 0 <= i < |qs| ==> r[i].id == qs[i].id && r[i].recipe == qs[i].recipe
    ensures forall i :: 0 <= i < |qs| ==>
      (r[i].isFavorited == "true" <==> caller.Some? && Mark(caller.value, qs[i].id) in favorites)
    ensures forall i :: 0 <= i < |qs| ==>
      (r[i].isInShoppingCart == "true" <==> caller.Some? && Mark(caller.value, qs[i].id) in carts)
    ensures FlagsWellFormed(r)
  {
    var fav, shop := RecipeIdsOf(favorites, caller), RecipeIdsOf(carts, caller);
    seq(|qs|, i requires 0 <= i < |qs| => AnnotateRow(qs[i], fav, shop))
  }

  /** Every annotation is 'true' or 'false'. */
  predicate FlagsWellFormed(rows: seq<Annotated>) {
    forall i :: 0 <= i < |rows| ==>
      (rows[i].isFavorited == "true" || rows[i].isFavorited == "false")
      && (rows[i].isInShoppingCart == "true" || rows[i].isInShoppingCart == "false")
  }

  /** An anonymous caller sees every recipe as neither a favorite nor in the cart. */
  lemma AnonymousSeesNothingMarked(qs: seq<Row>, favorites: seq<Mark>, carts: seq<Mark>)
    ensures forall i :: 0 <= i < |qs| ==>
      Annotate(qs, favorites, carts, None)[i].isFavorited == "false"
      && Annotate(qs, favorites, carts, None)[i].isInShoppingCart == "false"
  {
  }
}
