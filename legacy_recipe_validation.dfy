/**
 * Write-time validation in the earlier revision of the recipe serializer
 * (backend/foodgram/recipes/serializers.py). Its TagSerializer is the
 * same as the later one (RecipeValidation.TagFieldValue). The
 * ingredient-row check raises a ValidationError, which the framework
 * collects together with the tag errors instead of aborting, except for a
 * row sent without its (optional) amount, whose KeyError escapes; both
 * checks of RecipeContentSerializer and RecipeSerializer run on POST
 * only, and nothing looks for repeated ingredient ids.
 */
module LegacyRecipeValidation {
  import opened Common
  import opened RecipeValidation

  /**
   * One submitted ingredient row. The amount column has a default, so the
   * model serializer makes the field optional: None is a row without it.
   */
  datatype LegacyContentInput = LegacyContentInput(id: int, amount: Option<int>)

  /** The request body of the earlier revision; None is a key the request does not carry. */
  datatype LegacyRecipeInput = LegacyRecipeInput(
    name: Option<string>, text: Option<string>, cookingTime: Option<int>, image: Option<string>,
    tags: Option<seq<Json>>, ingredients: Option<seq<LegacyContentInput>>)

  datatype LegacyFailure =
    | FieldErrors(tagErrors: seq<TagError>, amountRows: seq<nat>) // collected: rejected tag values, rows with amount < 1
    | LegacyAmountTooSmall                                       // 'Amount must be greater then 1', for one row
    | LegacyCookingTimeTooSmall                                  // 'Cooking time must be greater then 1'
    | LegacyNoTags                                               // 'Please provide tags'
    | LegacyNoIngredients(attrs: Attrs)                          // 'Please provide ingredients' followed by str(attrs)
    | LegacyMissingKey(key: string)                              // KeyError

  /** RecipeContent.amount's default, which a row sent without an amount is given. */
  const AmountDefault: int := 0

  /**
   * RecipeContentSerializer.validate: only a POST looks at the amount. A
   * row without one raises a KeyError there, which is not a validation
   * error; an amount below 1 is rejected.
   */
  function LegacyValidateContentRow(m: HttpMethod, row: LegacyContentInput): (r: Result<ContentInput, LegacyFailure>)
    ensures r.Ok? <==> m != Post || (row.amount.Some? && row.amount.value >= 1)
    ensures r.Ok? ==> r.value.id == row.id
    ensures r.Ok? && row.amount.Some? ==> r.value.amount == row.amount.value
    ensures r.Ok? && row.amount.None? ==> r.value.amount == AmountDefault
    ensures m == Post && row.amount.None? ==> r == Err(LegacyMissingKey("amount"))
    ensures m == Post && row.amount.Some? && row.amount.value < 1 ==> r == Err(LegacyAmountTooSmall)
  {
    if m == Post && row.amount.None? then Err(LegacyMissingKey("amount"))
    else if m == Post && row.amount.value < 1 then Err(LegacyAmountTooSmall)
    else Ok(ContentInput(row.id, if row.amount.Some? then row.amount.value else AmountDefault))
  }

  /** Whether some row of a POST has no amount, so that its row check raises a KeyError. */
  predicate MissingAmount(m: HttpMethod, rows: seq<LegacyContentInput>) {
    m == Post && exists i :: 0 <= i < |rows| && rows[i].amount.None?
  }

  /** Positions of the rows the row check rejects, in order. */
  function RejectedRows(m: HttpMethod, rows: seq<LegacyContentInput>): (ks: seq<nat>)
    ensures forall t :: 0 <= t < |ks| ==> (ks[t] < |rows| && LegacyValidateContentRow(m, rows[ks[t]]).Err?)
    ensures forall i :: 0 <= i < |rows| && LegacyValidateContentRow(m, rows[i]).Err? ==> i in ks
    ensures ks == [] <==> forall i :: 0 <= i < |rows| ==> LegacyValidateContentRow(m, rows[i]).Ok?
  {
    if |rows| == 0 then []
    else
      var n := |rows| - 1;
      var init := RejectedRows(m, rows[..n]);
      assert forall i :: 0 <= i < n ==> rows[..n][i] == rows[i];
      if LegacyValidateContentRow(m, rows[n]).Err? then init + [n] else init
  }

  /** The rows as the row check returns them, once every one of them has passed. */
  function CheckedRows(m: HttpMethod, rows: seq<LegacyContentInput>): (cs: seq<ContentInput>)
    requires forall i :: 0 <= i < |rows| ==> LegacyValidateContentRow(m, rows[i]).Ok?
    ensures |cs| == |rows|
    ensures forall i :: 0 <= i < |rows| ==> cs[i] == LegacyValidateContentRow(m, rows[i]).value
  {
    seq(|rows|, i requires 0 <= i < |rows| => LegacyValidateContentRow(m, rows[i]).value)
  }

  /**
   * The field stage. A row of a POST without an amount raises a KeyError,
   * which escapes at once whatever the other fields hold; otherwise
   * rejected tag values and rejected ingredient rows are collected and
   * reported together, and the converted attributes go on to
   * RecipeSerializer.validate.
   */
  function LegacyFieldStage(m: HttpMethod, input: LegacyRecipeInput): (r: Result<Attrs, LegacyFailure>)
    ensures r.Ok? ==> r.value.content.Some? == input.ingredients.Some? && r.value.tags.Some? == input.tags.Some?
    ensures r.Ok? && input.ingredients.Some? ==>
      && |r.value.content.value| == |input.ingredients.value|
      && forall i :: 0 <= i < |input.ingredients.value| ==>
        && r.value.content.value[i].id == input.ingredients.value[i].id
        && (input.ingredients.value[i].amount.Some? ==> r.value.content.value[i].amount == input.ingredients.value[i].amount.value)
        && (input.ingredients.value[i].amount.None? ==> r.value.content.value[i].amount == AmountDefault)
    ensures r.Ok? && m == Post && input.ingredients.Some? ==>
      forall i :: 0 <= i < |r.value.content.value| ==> r.value.content.value[i].amount >= 1
    ensures r.Ok? ==>
      r.value.name == input.name && r.value.text == input.text && r.value.cookingTime == input.cookingTime && r.value.image == input.image
    ensures (input.ingredients.Some? && MissingAmount(m, input.ingredients.value)) <==> r == Err(LegacyMissingKey("amount"))
    ensures r.Err? ==> r.error.FieldErrors? || r.error == LegacyMissingKey("amount")
    ensures m != Post && r.Err? ==> r.error.FieldErrors? && r.error.amountRows == []
    ensures r.Err? && r.error.FieldErrors? && input.tags.Some? ==> r.error.tagErrors == RejectedTags(input.tags.value)
    ensures r.Err? && r.error.FieldErrors? ==>
      r.error.amountRows == (if input.ingredients.Some? then RejectedRows(m, input.ingredients.value) else [])
    ensures r.Ok? <==>
      && (input.tags.Some? ==> RejectedTags(input.tags.value) == [])
      && (input.ingredients.Some? ==> RejectedRows(m, input.ingredients.value) == [])
  {
    if input.ingredients.Some? && MissingAmount(m, input.ingredients.value) then
      var rows := input.ingredients.value;
      var i :| 0 <= i < |rows| && rows[i].amount.None?;
      assert LegacyValidateContentRow(m, rows[i]).Err?;
      Err(LegacyMissingKey("amount"))
    else
      var tagErrors := if input.tags.Some? then RejectedTags(input.tags.value) else [];
      var rowErrors := if input.ingredients.Some? then RejectedRows(m, input.ingredients.value) else [];
      if tagErrors != [] || rowErrors != [] then
        Err(FieldErrors(tagErrors, rowErrors))
      else
        var tags := if input.tags.Some? then Some(TagKeys(input.tags.value)) else None;
        var content := if input.ingredients.Some? then Some(CheckedRows(m, input.ingredients.value)) else None;
        Ok(Attrs(input.name, input.text, input.cookingTime, input.image, tags, content))
  }

  /** RecipeSerializer.validate: on POST only, cooking_time, then tags, then ingredients. */
  function LegacyValidate(m: HttpMethod, attrs: Attrs): (r: Result<Attrs, LegacyFailure>)
    ensures r.Ok? ==> r.value == attrs
    ensures r.Ok? <==> (m != Post || (
      && attrs.cookingTime.Some? && attrs.cookingTime.value >= 1
      && attrs.tags.Some? && attrs.tags.value != []
      && attrs.content.Some? && attrs.content.value != []))
    ensures m == Post && attrs.cookingTime.Some? && attrs.cookingTime.value < 1 ==> r == Err(LegacyCookingTimeTooSmall)
    ensures m == Post && attrs.cookingTime.None? ==> r == Err(LegacyMissingKey("cooking_time"))
    ensures m == Post && attrs.cookingTime.Some? && attrs.cookingTime.value >= 1 && attrs.tags.None? ==>
      r == Err(LegacyMissingKey("tags"))
    ensures m == Post && attrs.cookingTime.Some? && attrs.cookingTime.value >= 1 && attrs.tags == Some([]) ==>
      r == Err(LegacyNoTags)
    ensures (m == Post && attrs.cookingTime.Some? && attrs.cookingTime.value >= 1 && attrs.tags.Some? && attrs.tags.value != []
      && (attrs.content.None? || attrs.content.value == [])) ==> r == Err(LegacyNoIngredients(attrs))
  {
    if m != Post then Ok(attrs)
    else if attrs.cookingTime.None? then Err(LegacyMissingKey("cooking_time"))
    else if attrs.cookingTime.value < 1 then Err(LegacyCookingTimeTooSmall)
    else if attrs.tags.None? then Err(LegacyMissingKey("tags"))
    else if attrs.tags.value == [] then Err(LegacyNoTags)
    else if attrs.content.None? || attrs.content.value == [] then Err(LegacyNoIngredients(attrs))
    else Ok(attrs)
  }

  /** Both stages in the order the framework runs them. */
  function LegacyRunValidation(m: HttpMethod, input: LegacyRecipeInput): (r: Result<Attrs, LegacyFailure>)
    ensures r.Ok? && m == Post ==>
      && r.value.cookingTime.Some? && r.value.cookingTime.value >= 1
      && r.value.tags.Some? && r.value.tags.value != []
      && r.value.content.Some? && r.value.content.value != []
      && forall i :: 0 <= i < |r.value.content.value| ==> r.value.content.value[i].amount >= 1
    ensures LegacyFieldStage(m, input).Err? ==> r == Err(LegacyFieldStage(m, input).error)
    ensures LegacyFieldStage(m, input).Ok? ==> (r.Ok? <==> (m != Post || (
      var attrs := LegacyFieldStage(m, input).value;
      && attrs.cookingTime.Some? && attrs.cookingTime.value >= 1
      && attrs.tags.Some? && attrs.tags.value != []
      && attrs.content.Some? && attrs.content.value != [])))
    ensures r.Ok? ==> r == LegacyFieldStage(m, input)
  {
    match LegacyFieldStage(m, input)
    case Err(e) => Err(e)
    case Ok(attrs) => LegacyValidate(m, attrs)
  }

  /**
   * The earlier revision never looks for repeated ingredient ids: a POST
   * whose other checks pass is accepted even when an id repeats, while
   * the later RecipeSerializer.validate rejects the same attributes.
   */
  lemma LegacyAcceptsRepeatedIngredients(attrs: Attrs)
    requires attrs.cookingTime.Some? && attrs.cookingTime.value >= 1
    requires attrs.tags.Some? && attrs.tags.value != []
    requires attrs.content.Some? && attrs.content.value != []
    requires !Distinct(Ids(attrs.content.value))
    ensures LegacyValidate(Post, attrs) == Ok(attrs)
    ensures !WriteChecksPass(attrs)
  {
  }

  /**
   * On PUT and PATCH the serializer's own checks are skipped: the row
   * check and RecipeSerializer.validate let any amount, cooking_time and
   * empty list through. The framework's field validators (the minimum on
   * cooking_time, the non-negative amount column) still apply; they are
   * not part of this model.
   */
  lemma {:induction false} LegacyUpdateSkipsChecks(m: HttpMethod, input: LegacyRecipeInput)
    requires m != Post
    requires input.tags.Some? ==> RejectedTags(input.tags.value) == []
    ensures LegacyRunValidation(m, input).Ok?
  {
    if input.ingredients.Some? {
      var rows := input.ingredients.value;
      assert forall i :: 0 <= i < |rows| ==> LegacyValidateContentRow(m, rows[i]).Ok?;
    }
  }
}
