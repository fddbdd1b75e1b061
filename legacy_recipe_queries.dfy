/**
 * The recipe queryset of the earlier RecipesViewSet.get_queryset
 * (backend/foodgram/recipes/views.py). Its subqueries select whole
 * Favorite and ShoppingCart rows, so `id__in` compares each recipe's id
 * with the primary keys of the caller's rows rather than with the recipes
 * they name.
 */
module LegacyRecipeQueries {
  import opened Common
  import opened Schema
  import opened RecipeQueries
  import opened LegacySchema

  /** The primary keys of the caller's rows. */
  function RowKeysOf(marks: seq<LegacyMark>, caller: Option<int>): (pks: set<int>)
    ensures forall pk :: pk in pks <==> exists i :: 0 <= i < |marks| && caller == Some(marks[i].user) && marks[i].pk == pk
  {
    set i | 0 <= i < |marks| && caller == Some(marks[i].user) :: marks[i].pk
  }

  /**
   * get_queryset as written: is_favorited is 'true' exactly when the
   * recipe's id equals the primary key of one of the caller's Favorite
   * rows, and likewise for the shopping cart; no recipe is added or
   * dropped.
   */
  function LegacyAnnotate(qs: seq<Row>, favorites: seq<LegacyMark>, carts: seq<LegacyMark>, caller: Option<int>): (r: seq<Annotated>)
    ensures |r| == |qs|
    ensures forall i :: 0 <= i < |qs| ==> r[i].id == qs[i].id && r[i].recipe == qs[i].recipe
    ensures forall i :: 0 <= i < |qs| ==>
      (r[i].isFavorited == "true" <==> qs[i].id in RowKeysOf(favorites, caller))
    ensures forall i :: 0 <= i < |qs| ==>
      (r[i].isInShoppingCart == "true" <==> qs[i].id in RowKeysOf(carts, caller))
    ensures FlagsWellFormed(r)
  {
    var fav, shop := RowKeysOf(favorites, caller), RowKeysOf(carts, caller);
    seq(|qs|, i requires 0 <= i < |qs| => AnnotateRow(qs[i], fav, shop))
  }

  /** The (user, recipe) pairs of the rows, as the later annotation reads them. */
  function Pairs(marks: seq<LegacyMark>): (ps: seq<Mark>)
    ensures |ps| == |marks| && forall i :: 0 <= i < |marks| ==> ps[i] == Mark(marks[i].user, marks[i].recipe)
  {
    seq(|marks|, i requires 0 <= i < |marks| => Mark(marks[i].user, marks[i].recipe))
  }

  /**
   * A caller whose only Favorite row has primary key 1 and names recipe
   * 7: the earlier annotation marks recipe 1 and not recipe 7; the later
   * annotation, which compares against the recipe the row names, marks
   * recipe 7 and not recipe 1.
   */
  lemma PrimaryKeyMistakenForRecipe(r1: Recipe, r7: Recipe)
    ensures var qs := [Row(1, r1), Row(7, r7)];
      var favs := [LegacyMark(1, 5, 7)];
      var asWritten := LegacyAnnotate(qs, favs, [], Some(5));
      var intended := Annotate(qs, Pairs(favs), [], Some(5));
      && asWritten[0].isFavorited == "true" && asWritten[1].isFavorited == "false"
      && intended[0].isFavorited == "false" && intended[1].isFavorited == "true"
  {
    var favs := [LegacyMark(1, 5, 7)];
    assert Pairs(favs) == [Mark(5, 7)];
    assert favs[0].pk == 1;
  }
}
