/**
 * Write-time validation of a recipe request (backend/recipes/serializers.py).
 *
 * The framework runs the checks in two stages: first each field is
 * converted (every tag value through TagSerializer.to_internal_value,
 * every ingredient row through RecipeContentSerializer.validate), then
 * RecipeSerializer.validate sees the converted attributes. Tag errors are
 * ValidationErrors, which the framework collects; an ingredient-row error
 * is a ParseError, which escapes at once, so the first bad row wins over
 * any tag error.
 */
module RecipeValidation {
  import opened Common

  datatype HttpMethod = Get | Post | Put | Patch | Delete | Head | Options

  /** The request methods the serializer treats as writes. */
  predicate IsWrite(m: HttpMethod) {
    m == Post || m == Put || m == Patch
  }

  /** A decoded JSON value as Python sees it; floats carry no payload, their value is never used. */
  datatype Json = JInt(n: int) | JBool(b: bool) | JFloat | JString(s: string) | JNull | JList | JDict

  /** type(data).__name__ */
  function TypeName(v: Json): string {
    match v
    case JInt(_) => "int"
    case JBool(_) => "bool"
    case JFloat => "float"
    case JString(_) => "str"
    case JNull => "NoneType"
    case JList => "list"
    case JDict => "dict"
  }

  /** One submitted ingredient row: the ingredient's id and its amount. */
  datatype ContentInput = ContentInput(id: int, amount: int)

  /** The request body; None is a key the request does not carry. */
  datatype RecipeInput = RecipeInput(
    name: Option<string>, text: Option<string>, cookingTime: Option<int>, image: Option<string>,
    tags: Option<seq<Json>>, ingredients: Option<seq<ContentInput>>)

  /** The converted attributes; content is the source attribute of the ingredients field. */
  datatype Attrs = Attrs(
    name: Option<string>, text: Option<string>, cookingTime: Option<int>, image: Option<string>,
    tags: Option<seq<int>>, content: Option<seq<ContentInput>>)

  datatype Failure =
    | TagErrors(errors: seq<TagError>)        // ValidationError under 'tags', one message per rejected value
    | AmountTooSmall(ingredient: string)      // ParseError under 'amount', naming the ingredient
    | DuplicateIngredient(ingredient: string) // ParseError under 'ingredients', naming the ingredient
    | CookingTimeTooSmall                     // ValidationError 'Время приготовления должно быть больше 0'
    | NoTags                                  // ValidationError 'Укажите тэги, пожалуйста.'
    | NoIngredients                           // ValidationError 'Добавьте хотя бы 1 ингредиент'
    | IngredientNotFound(id: int)             // Http404 from get_object_or_404
    | MissingKey(key: string)                 // KeyError

  // ---------------------------------------------------------------------
  // Field stage

  /**
   * TagSerializer.to_internal_value: an int passes unchanged, anything
   * else is rejected naming its type. Python's bool is a subclass of
   * int, so true and false pass and act as the keys 1 and 0.
   */
  function TagToInternalValue(v: Json): (r: Result<int, string>)
    ensures r.Ok? <==> v.JInt? || v.JBool?
    ensures v.JInt? ==> r == Ok(v.n)
    ensures v.JBool? ==> r == Ok(if v.b then 1 else 0)
    ensures r.Err? ==> r.error == TypeName(v) && r.error != "int" && r.error != "bool"
  {
    match v
    case JInt(n) => Ok(n)
    case JBool(b) => Ok(if b then 1 else 0)
    case _ => Err(TypeName(v))
  }

  /** Why one tag value was rejected. */
  datatype TagError =
    | Null                    // 'This field may not be null.', from the framework's empty-value check
    | WrongType(name: string) // the 'invalid' message of TagSerializer, naming the value's type

  /**
   * One tag value through Serializer.run_validation: the framework refuses
   * a null before to_internal_value is called (the field does not allow
   * null); every other value goes to TagSerializer.to_internal_value.
   */
  function TagFieldValue(v: Json): (r: Result<int, TagError>)
    ensures r.Ok? <==> v.JInt? || v.JBool?
    ensures r.Ok? ==> TagToInternalValue(v) == Ok(r.value)
    ensures r == Err(Null) <==> v.JNull?
    ensures r.Err? && !v.JNull? ==> r.error == WrongType(TypeName(v)) && TagToInternalValue(v) == Err(TypeName(v))
  {
    if v.JNull? then Err(Null)
    else match TagToInternalValue(v)
      case Ok(n) => Ok(n)
      case Err(name) => Err(WrongType(name))
  }

  /** The errors of the rejected tag values, one per value, in submission order. */
  function RejectedTags(tags: seq<Json>): (errs: seq<TagError>)
    ensures errs == [] <==> forall i :: 0 <= i < |tags| ==> TagFieldValue(tags[i]).Ok?
    ensures |errs| <= |tags|
    ensures |errs| == |tags| <==> forall i :: 0 <= i < |tags| ==> TagFieldValue(tags[i]).Err?
  {
    if |tags| == 0 then []
    else match TagFieldValue(tags[0])
      case Ok(_) => RejectedTags(tags[1..])
      case Err(e) => [e] + RejectedTags(tags[1..])
  }

  /** The keys the accepted tag values stand for. */
  function TagKeys(tags: seq<Json>): (ids: seq<int>)
    requires forall i :: 0 <= i < |tags| ==> TagFieldValue(tags[i]).Ok?
    ensures |ids| == |tags|
    ensures forall i :: 0 <= i < |tags| ==> TagFieldValue(tags[i]) == Ok(ids[i])
  {
    if |tags| == 0 then [] else [TagFieldValue(tags[0]).value] + TagKeys(tags[1..])
  }

  /**
   * RecipeContentSerializer.validate: on POST, PUT and PATCH an amount
   * below 1 is rejected naming the ingredient, looked up by id (404 when
   * it does not exist); otherwise the row passes unchanged.
   */
  function ValidateContentRow(m: HttpMethod, row: ContentInput, names: map<int, string>): (r: Result<ContentInput, Failure>)
    ensures r.Ok? <==> !IsWrite(m) || row.amount >= 1
    ensures r.Ok? ==> r.value == row
    ensures r.Err? && row.id in names ==> r.error == AmountTooSmall(names[row.id])
    ensures r.Err? && row.id !in names ==> r.error == IngredientNotFound(row.id)
  {
    if IsWrite(m) && row.amount < 1 then
      if row.id in names then Err(AmountTooSmall(names[row.id])) else Err(IngredientNotFound(row.id))
    else
      Ok(row)
  }

  /** Index of the first row whose amount is below 1, or |rows| when there is none. */
  function FirstBelowOne(rows: seq<ContentInput>): (k: nat)
    ensures k <= |rows|
    ensures forall i :: 0 <= i < k ==> rows[i].amount >= 1
    ensures k < |rows| ==> rows[k].amount < 1
  {
    if |rows| == 0 then 0
    else if rows[0].amount < 1 then 0
    else 1 + FirstBelowOne(rows[1..])
  }

  /**
   * The field stage: the first ingredient row that fails its check
   * aborts the request; otherwise every rejected tag value is reported;
   * otherwise the converted attributes go on to RecipeSerializer.validate.
   */
  function FieldStage(m: HttpMethod, input: RecipeInput, names: map<int, string>): (r: Result<Attrs, Failure>)
    ensures r.Ok? ==> r.value.content == input.ingredients
    ensures r.Ok? && IsWrite(m) && input.ingredients.Some? ==>
      forall i :: 0 <= i < |input.ingredients.value| ==> input.ingredients.value[i].amount >= 1
    ensures r.Ok? ==> r.value.tags.Some? == input.tags.Some?
    ensures r.Ok? && input.tags.Some? ==> |r.value.tags.value| == |input.tags.value|
    ensures r.Ok? && input.tags.Some? ==>
      forall i :: 0 <= i < |input.tags.value| ==> TagFieldValue(input.tags.value[i]) == Ok(r.value.tags.value[i])
    ensures r.Err? && r.error.TagErrors? ==> input.tags.Some? && r.error.errors == RejectedTags(input.tags.value)
    ensures IsWrite(m) && input.ingredients.Some? && FirstBelowOne(input.ingredients.value) < |input.ingredients.value| ==>
      var row := input.ingredients.value[FirstBelowOne(input.ingredients.value)];
      r == Err(if row.id in names then AmountTooSmall(names[row.id]) else IngredientNotFound(row.id))
    ensures r.Err? && !IsWrite(m) ==> r.error.TagErrors?
    ensures r.Ok? <==>
      && (IsWrite(m) && input.ingredients.Some? ==> FirstBelowOne(input.ingredients.value) == |input.ingredients.value|)
      && (input.tags.Some? ==> RejectedTags(input.tags.value) == [])
    ensures ((!IsWrite(m) || input.ingredients.None? || FirstBelowOne(input.ingredients.value) == |input.ingredients.value|)
      && input.tags.Some? && RejectedTags(input.tags.value) != []) ==>
      r == Err(TagErrors(RejectedTags(input.tags.value)))
    ensures r.Ok? ==>
      r.value.name == input.name && r.value.text == input.text && r.value.cookingTime == input.cookingTime && r.value.image == input.image
  {
    var rows := input.ingredients.GetOr([]);
    var k := if IsWrite(m) then FirstBelowOne(rows) else |rows|;
    if k < |rows| then
      Err(ValidateContentRow(m, rows[k], names).error)
    else if input.tags.Some? && RejectedTags(input.tags.value) != [] then
      Err(TagErrors(RejectedTags(input.tags.value)))
    else
      var tags := if input.tags.Some? then Some(TagKeys(input.tags.value)) else None;
      Ok(Attrs(input.name, input.text, input.cookingTime, input.image, tags, input.ingredients))
  }

  // ---------------------------------------------------------------------
  // RecipeSerializer.validate

  /** The ingredient ids of the submitted rows, in submission order. */
  function Ids(rows: seq<ContentInput>): (ids: seq<int>)
    ensures |ids| == |rows| && forall i :: 0 <= i < |rows| ==> ids[i] == rows[i].id
  {
    seq(|rows|, i requires 0 <= i < |rows| => rows[i].id)
  }

  /** The first index at or after j whose id occurs more than once in ids, or |ids|. */
  function FirstRepeatedFrom(ids: seq<int>, j: nat): (k: nat)
    requires j <= |ids|
    ensures j <= k <= |ids|
    ensures forall t :: j <= t < k ==> multiset(ids)[ids[t]] == 1
    ensures k < |ids| ==> multiset(ids)[ids[k]] > 1
    decreases |ids| - j
  {
    if j == |ids| then j
    else if multiset(ids)[ids[j]] > 1 then j
    else FirstRepeatedFrom(ids, j + 1)
  }

  /** The position of the first id, in submission order, that is repeated somewhere in the list. */
  function FirstRepeated(ids: seq<int>): nat {
    FirstRepeatedFrom(ids, 0)
  }

  /** An id occurs more than once exactly when two positions hold it. */
  lemma {:induction false} CountAboveOne(ids: seq<int>, x: int)
    ensures multiset(ids)[x] > 1 <==> exists i, j :: 0 <= i < j < |ids| && ids[i] == x && ids[j] == x
  {
    if |ids| > 0 {
      var last := ids[|ids| - 1];
      var init := ids[..|ids| - 1];
      assert ids == init + [last];
      CountAboveOne(init, x);
      if multiset(ids)[x] > 1 && last == x && multiset(init)[x] == 1 {
        var i :| 0 <= i < |init| && init[i] == x by {
          assert x in multiset(init);
        }
        assert ids[i] == x && ids[|ids| - 1] == x;
      }
      if (exists i, j :: 0 <= i < j < |ids| && ids[i] == x && ids[j] == x) {
        var i, j :| 0 <= i < j < |ids| && ids[i] == x && ids[j] == x;
        if j < |ids| - 1 {
          assert init[i] == x && init[j] == x;
        } else {
          assert init[i] == x;
          assert x in multiset(init);
        }
      }
    }
  }

  /** The scan finds nothing exactly when the ids are pairwise distinct. */
  lemma FirstRepeatedNoneIffDistinct(ids: seq<int>)
    ensures FirstRepeated(ids) == |ids| <==> Distinct(ids)
  {
    if FirstRepeated(ids) < |ids| {
      var k := FirstRepeated(ids);
      CountAboveOne(ids, ids[k]);
    } else {
      forall i, j | 0 <= i < j < |ids| ensures ids[i] != ids[j] {
        CountAboveOne(ids, ids[i]);
      }
    }
  }

  /** Everything RecipeSerializer.validate demands of a write. */
  predicate WriteChecksPass(attrs: Attrs) {
    && attrs.cookingTime.Some? && attrs.cookingTime.value >= 1
    && attrs.tags.Some? && attrs.tags.value != []
    && attrs.content.Some? && attrs.content.value != []
    && Distinct(Ids(attrs.content.value))
    && forall i :: 0 <= i < |attrs.content.value| ==> attrs.content.value[i].amount >= 1
  }

  /**
   * RecipeSerializer.validate. On a write the checks run in a fixed
   * order and the first failure is reported: cooking_time below 1, no
   * tags, no ingredients, then the first id in submission order that is
   * repeated. The closing loop over the rows reads a key the attributes
   * never carry; it raises only for a row with an amount below 1.
   */
  method Validate(m: HttpMethod, attrs: Attrs, names: map<int, string>) returns (r: Result<Attrs, Failure>)
    ensures r.Ok? ==> r.value == attrs
    ensures !IsWrite(m) ==> r == Ok(attrs)
    ensures IsWrite(m) ==> (r.Ok? <==> WriteChecksPass(attrs))
    ensures IsWrite(m) && attrs.cookingTime.None? ==> r == Err(MissingKey("cooking_time"))
    ensures IsWrite(m) && attrs.cookingTime.Some? && attrs.cookingTime.value < 1 ==> r == Err(CookingTimeTooSmall)
    ensures IsWrite(m) && attrs.cookingTime.Some? && attrs.cookingTime.value >= 1 ==>
      && (attrs.tags.None? ==> r == Err(MissingKey("tags")))
      && (attrs.tags == Some([]) ==> r == Err(NoTags))
      && (attrs.tags.Some? && attrs.tags.value != [] && (attrs.content.None? || attrs.content == Some([])) ==>
            r == Err(NoIngredients))
    ensures IsWrite(m) && r.Err? && r.error.DuplicateIngredient? ==>
      var ids := Ids(attrs.content.value);
      var k := FirstRepeated(ids);
      k < |ids| && ids[k] in names && r.error.ingredient == names[ids[k]]
    ensures r == Err(MissingKey("ingredient")) ==>
      attrs.content.Some? && exists q :: 0 <= q < |attrs.content.value| && attrs.content.value[q].amount < 1
    ensures (IsWrite(m) && attrs.cookingTime.Some? && attrs.cookingTime.value >= 1
      && attrs.tags.Some? && attrs.tags.value != [] && attrs.content.Some? && attrs.content.value != []) ==>
      var ids := Ids(attrs.content.value);
      var k := FirstRepeated(ids);
      && (k < |ids| && ids[k] in names ==> r == Err(DuplicateIngredient(names[ids[k]])))
      && (k < |ids| && ids[k] !in names ==> r == Err(IngredientNotFound(ids[k])))
      && (k == |ids| && !WriteChecksPass(attrs) ==> r == Err(MissingKey("ingredient")))
  {
    if !IsWrite(m) {
      return Ok(attrs);
    }
    if attrs.cookingTime.None? {
      return Err(MissingKey("cooking_time"));
    }
    if attrs.cookingTime.value < 1 {
      return Err(CookingTimeTooSmall);
    }
    if attrs.tags.None? {
      return Err(MissingKey("tags"));
    }
    if attrs.tags.value == [] {
      return Err(NoTags);
    }
    if attrs.content.None? || attrs.content.value == [] {
      return Err(NoIngredients);
    }
    var content := attrs.content.value;
    // ing_list: the ids, appended one row at a time
    var ingList: seq<int> := [];
    var i := 0;
    while i < |content|
      invariant 0 <= i <= |content|
      invariant ingList == Ids(content[..i])
    {
      ingList := ingList + [content[i].id];
      i := i + 1;
    }
    assert content[..i] == content;
    FirstRepeatedNoneIffDistinct(ingList);
    // the first id whose count exceeds 1
    var j := 0;
    while j < |ingList|
      invariant 0 <= j <= FirstRepeated(ingList)
      invariant FirstRepeatedFrom(ingList, j) == FirstRepeated(ingList)
    {
      if multiset(ingList)[ingList[j]] > 1 {
        if ingList[j] in names {
          return Err(DuplicateIngredient(names[ingList[j]]));
        }
        return Err(IngredientNotFound(ingList[j]));
      }
      j := j + 1;
    }
    // the loop that looks up attrs['ingredient'], which is never a key
    var t := 0;
    while t < |content|
      invariant 0 <= t <= |content|
      invariant forall q :: 0 <= q < t ==> content[q].amount >= 1
    {
      if content[t].amount < 1 {
        return Err(MissingKey("ingredient"));
      }
      t := t + 1;
    }
    return Ok(attrs);
  }

  /**
   * The whole check of a request, in the order the framework runs it.
   * On a write that passes, every amount is at least 1, cooking_time is
   * at least 1, tags and ingredients are non-empty and no ingredient id
   * repeats; the closing loop of RecipeSerializer.validate can never
   * raise, because the row check has already rejected every amount
   * below 1.
   */
  method RunValidation(m: HttpMethod, input: RecipeInput, names: map<int, string>) returns (r: Result<Attrs, Failure>)
    ensures FieldStage(m, input, names).Err? ==> r == Err(FieldStage(m, input, names).error)
    ensures r.Ok? ==> r == FieldStage(m, input, names)
    ensures r.Ok? && IsWrite(m) ==> WriteChecksPass(r.value)
    ensures r != Err(MissingKey("ingredient"))
    ensures FieldStage(m, input, names).Ok? ==>
      (r.Ok? <==> !IsWrite(m) || WriteChecksPass(FieldStage(m, input, names).value))
  {
    var fields := FieldStage(m, input, names);
    if fields.Err? {
      return Err(fields.error);
    }
    r := Validate(m, fields.value, names);
  }
}
