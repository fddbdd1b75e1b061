# Foodgram recipe core, modelled in Dafny

Foodgram is a recipe-sharing backend. Users publish recipes made of
tagged ingredients in given amounts. They mark recipes as favorites or
put them in a shopping cart, download the summed shopping list, and
follow other authors. This project models the parts of it that have exact
behaviour. Each part is modelled in two revisions: the later tree
(`backend/recipes`, `backend/users`) and the earlier tree
(`backend/foodgram/...`), whose modules carry the prefix `Legacy`.

The database is modelled as abstract relations:
- maps from primary key to row for Tag, MeasureUnit, Ingredient and Recipe;
- sequences of rows for RecipeContent, Favorite, ShoppingCart and Subscribe.

The modules are:

- `Common`: Python-side helpers that the other modules rely on:
  - truthiness of an optional query parameter;
  - `int()` on a decimal string, and its inverse (round-trip lemma);
  - ASCII and Cyrillic case folding for `icontains`;
  - the string order and its totality and transitivity;
  - a predicate for "no repeats".
- `Schema` (`backend/recipes/models.py`):
  - one datatype per row;
  - one predicate per declared uniqueness or reference constraint;
  - the recipe-delete cascade and the lemma that it keeps every constraint;
  - why a (name, unit text) pair identifies an ingredient.
- `RecipeValidation` (`backend/recipes/serializers.py`): write-time validation in the order the framework runs it:
  - tag values, whose errors are collected; the framework refuses a null tag before the serializer sees it;
  - the per-row amount check, whose ParseError aborts the request at the first bad row and so wins over collected tag errors;
  - `RecipeSerializer.validate`, a method with the source's loops, proved against `WriteChecksPass`.
- `RecipeStore`:
  - class `Store`, holding the tables that the views change in place;
  - `create_or_update`, including the partial state a failed save leaves behind;
  - the favorite and shopping_cart toggles;
  - the cascade delete;
  - the shopping-list download.
- `ShoppingList` (`backend/recipes/views.py:128-151`):
  - grouping the cart's content rows by (ingredient name, unit text) and summing them;
  - the proof that this grouping coincides with grouping by ingredient;
  - `Render`, the loop that builds the text, and a count of its lines.
- `RecipeQueries` (`backend/recipes/views.py:40-62`): the `'true'`/`'false'` annotations of the recipe list.
- `RecipeFilters` (`backend/recipes/filters.py`):
  - the recipe filter, modelled as the filtered tag join followed by `distinct`;
  - the ingredient search, modelled as the case-insensitive match sorted by (prefix rank, name).
- `UserSerializers` (`backend/users/serializers.py`): `is_subscribed`, the recipe preview of an author and the recipe count.
- `LegacyRecipeValidation`, `LegacySchema`, `LegacyRecipeQueries`, `LegacyRecipeFilters`, `LegacyUsers` and `LegacyUserSerializers`: the earlier revision, stated next to the later one where they differ.

Its `create_or_update` (`backend/foodgram/recipes/serializers.py:104-133`) reads like the later one, but the earlier `Recipe` (`backend/foodgram/recipes/models.py:43-59`) has no `ingredients` accessor: its content rows hang off `recipe_content`. `instance.ingredients.clear()` at line 121 therefore raises an AttributeError on every save, after the recipe row was created or its tags and scalars saved. `RecipeStore.Store.LegacyCreateOrUpdate` models this. It shares the head of the save (`OpenRecipe`) and the tag and scalar writes (`SaveRecipe`) with `RecipeStore.Store.CreateOrUpdate`, and it runs against the same `Store`, since it touches only recipe and tag rows.

Two parts of the earlier tree have no separate model:
- Its `TagSerializer.to_internal_value`, and the framework's null check in front of it, are modelled by `RecipeValidation.TagToInternalValue` and `RecipeValidation.TagFieldValue`.
- Its `CustomSearch` (`backend/foodgram/recipes/filters.py:26-42`) is the same code as the later one, so `RecipeFilters.Search` models both. The earlier `IngredientsViewSet` configures no search fields, which corresponds to `configured == false`: the queryset comes back unchanged. The earlier `RecipesViewSet` installs neither filter backend.

A save is not atomic. No transaction wraps `create_or_update`, and the settings do not enable per-request transactions. A save that stops half way therefore keeps everything it had already written, as follows:
- on a create, the new recipe row stays, with or without its tags;
- on an update, the replaced tag set stays;
- the content rows are cleared;
- the rows inserted before the failing one stay.

The contract of `RecipeStore.Store.CreateOrUpdate` states each of these states exactly, following the code.

## Model

| member | source | states |
|---|---|---|
| Schema.ContentsWithout | backend/recipes/models.py:120-125 | after a recipe's content rows go, exactly the rows of the other recipes remain |
| Schema.ContentsWithoutAbsent | backend/recipes/serializers.py:147 | clearing the content of a recipe that has none (a fresh create) changes nothing |
| Schema.ContentsWithoutUnique | backend/recipes/models.py:144-149 | removing a recipe's rows keeps every (recipe, ingredient) pair unique |
| Schema.MarksWithoutRecipe | backend/recipes/models.py:162-167 | after a recipe's Favorite or ShoppingCart rows go, exactly the rows naming other recipes remain |
| Schema.MarksWithoutRecipeDistinct | backend/recipes/models.py:172-177 | removing a recipe's rows keeps every (user, recipe) pair unique |
| Schema.DeleteRecipeCascade | backend/recipes/models.py:120-195 | deleting a recipe and cascading to its content, favorite and cart rows keeps every uniqueness and reference constraint |
| Schema.KeyOfInjective | backend/recipes/models.py:61-66 | with (name, unit) unique and unit text unique, two different ingredients never share a (name, unit text) pair |
| Schema.KeyOfNeedsUnitUniqueness | backend/recipes/models.py:36 | without MeasureUnit.unit being unique, two ingredients could share a (name, unit text) pair |
| RecipeValidation.TagToInternalValue | backend/recipes/serializers.py:16-24 | an int (or a bool, which Python counts as an int) passes unchanged; any other value it is given is rejected with its type name |
| RecipeValidation.TagFieldValue | backend/recipes/serializers.py:59 | a null tag is refused as null before to_internal_value runs; every other value gets to_internal_value's verdict, a rejection naming its type |
| RecipeValidation.RejectedTags | backend/recipes/serializers.py:16-24 | one error per rejected tag value: none exactly when every value passes, one per value exactly when every value fails |
| RecipeValidation.TagKeys | backend/recipes/serializers.py:16-24 | the converted tag list keeps every position and value |
| RecipeValidation.ValidateContentRow | backend/recipes/serializers.py:46-54 | on POST, PUT and PATCH an amount below 1 is rejected and names the ingredient (404 when it does not exist); other methods and valid rows pass unchanged |
| RecipeValidation.FirstBelowOne | backend/recipes/serializers.py:46-54 | the first row with an amount below 1, every earlier row being valid |
| RecipeValidation.FieldStage | backend/recipes/serializers.py:16-61 | on a write the first row with an amount below 1 aborts with its ParseError (or 404), before any collected tag error is reported; when no row aborts and some tag value is rejected, exactly the rejected tag values are reported; accepted exactly when every row passes and every tag value is accepted, the attributes then carrying the submitted name, text, cooking_time, image and rows and the converted tags |
| RecipeValidation.Ids | backend/recipes/serializers.py:103-105 | the ingredient id of each submitted row, in order |
| RecipeValidation.FirstRepeatedFrom | backend/recipes/serializers.py:107-108 | the first position whose id occurs more than once, every earlier id occurring once |
| RecipeValidation.CountAboveOne | backend/recipes/serializers.py:107-108 | `count(x) > 1` holds exactly when x sits at two different positions |
| RecipeValidation.FirstRepeatedNoneIffDistinct | backend/recipes/serializers.py:103-115 | the repeat scan finds nothing exactly when the ids are pairwise distinct |
| RecipeValidation.Validate | backend/recipes/serializers.py:89-128 | on a write, cooking_time < 1, then empty tags, then no ingredients, then the first repeated id are reported in that order; the attributes pass unchanged exactly when every check passes; non-writes pass unchanged |
| RecipeValidation.RunValidation | backend/recipes/serializers.py:46-128 | field errors stop the pipeline; once the field stage passes, a write is accepted exactly when every check of `RecipeSerializer.validate` holds, and any other method is accepted; the unreachable amount loop never fires |
| LegacyRecipeValidation.LegacyValidateContentRow | backend/foodgram/recipes/serializers.py:36-53 | only a POST looks at the amount: a row without one raises a KeyError, one below 1 is rejected; any other row passes with its id and amount, a missing amount taking the column default 0 |
| LegacyRecipeValidation.CheckedRows | backend/foodgram/recipes/serializers.py:36-53 | the rows as the row check returns them, one per submitted row, in order |
| LegacyRecipeValidation.RejectedRows | backend/foodgram/recipes/serializers.py:47-53 | exactly the positions of the rows the row check rejects; none exactly when every row passes |
| LegacyRecipeValidation.LegacyFieldStage | backend/foodgram/recipes/serializers.py:17-60 | a POST row without an amount makes the stage fail with KeyError('amount') whatever else the request holds; otherwise tag errors and row errors are collected together, the error carrying every rejected tag value and every rejected row position; accepted exactly when both lists are empty; accepted rows keep their ids and amounts, and on POST all have amount at least 1; the scalars pass unchanged |
| LegacyRecipeValidation.LegacyValidate | backend/foodgram/recipes/serializers.py:88-102 | on POST only, in order: a missing cooking_time is a KeyError, one below 1 an error; missing tags a KeyError, empty tags an error; absent or empty ingredients an error carrying the attributes; accepted exactly when none applies; other methods pass unchanged |
| LegacyRecipeValidation.LegacyRunValidation | backend/foodgram/recipes/serializers.py:47-102 | field errors stop the pipeline; once the field stage passes, a POST is accepted exactly when cooking_time is at least 1 and tags and ingredients are non-empty, and PUT or PATCH always; an accepted POST has every amount at least 1 |
| LegacyRecipeValidation.LegacyAcceptsRepeatedIngredients | backend/foodgram/recipes/serializers.py:88-102 | a POST with a repeated ingredient id passes the earlier check while failing the later one |
| LegacyRecipeValidation.LegacyUpdateSkipsChecks | backend/foodgram/recipes/serializers.py:47-102 | on PUT and PATCH the serializer's own checks are skipped: an input whose tag values are accepted passes whatever its amounts, cooking_time or emptiness (the framework's field validators, not modelled, still apply) |
| RecipeStore.TagSet | backend/recipes/serializers.py:145 | the recipe's tag set holds exactly the submitted tag keys |
| RecipeStore.Updated | backend/recipes/serializers.py:134-141 | each of name, text, cooking_time and image takes the submitted value when present and keeps the old value when absent; author and tags are untouched |
| RecipeStore.Created | backend/recipes/serializers.py:142-144 | a created recipe carries the submitted scalars, the caller as author and no tags yet |
| RecipeStore.Rows | backend/recipes/serializers.py:148-158 | one content row per submitted entry, in order, with its ingredient and amount |
| RecipeStore.FirstBadRowFrom | backend/recipes/serializers.py:148-158 | the first row from a position on whose ingredient is missing or already inserted |
| RecipeStore.FirstBadRow | backend/recipes/serializers.py:148-158 | the row the insertion loop stops at; every earlier row can be inserted |
| RecipeStore.RowError | backend/recipes/serializers.py:152-157 | a missing ingredient (404) is detected before a repeated one (unique constraint) |
| RecipeStore.FirstBadRowNoneIff | backend/recipes/serializers.py:148-158 | every row is inserted exactly when all ingredients exist and no id repeats |
| RecipeStore.ValidatedRowsNeverRepeat | backend/recipes/serializers.py:103-158 | after the later validation the save can only stop at a missing ingredient |
| RecipeStore.RepeatedRowsFailTheSave | backend/recipes/serializers.py:147-158 | with all ingredients present and an id repeated, the insertion loop stops on the unique constraint at a repeated id |
| RecipeStore.Without | backend/recipes/views.py:89 | deleting a pair leaves exactly the other rows |
| RecipeStore.WithoutDistinct | backend/recipes/models.py:172-177 | deleting a pair keeps the (user, recipe) pairs unique |
| RecipeStore.Toggle | backend/recipes/views.py:68-90 | 404 for an unknown recipe; GET adds an absent pair and returns the recipe card, or refuses a present one with the 'already' message; DELETE removes a present pair with 204, or refuses an absent one with the 'not in' message; no other pair changes |
| RecipeStore.ToggleKeepsValid | backend/recipes/views.py:70-90 | a toggle keeps the (user, recipe) uniqueness and the recipe references |
| RecipeStore.AddThenRemove | backend/recipes/views.py:74-90 | adding a pair and then removing it restores the table |
| RecipeStore.SecondRequestRefused | backend/recipes/views.py:74-90 | repeating a successful add or remove is refused and changes nothing |
| RecipeStore.Store.CreateOrUpdate | backend/recipes/serializers.py:130-159 | missing keys, then on create a name clash, unknown tags (recipe kept, no tags) or the insertion loop; on update unknown tags (nothing changed), a name clash (tags replaced) or the full replace: tags replaced, omitted scalars kept, old content gone, one row per submitted entry up to the first failing row; other tables unchanged; every constraint kept |
| RecipeStore.Store.SaveTagsAndContent | backend/recipes/serializers.py:145-158 | unknown tags change nothing; a name clash leaves only the tag set replaced; otherwise the recipe is saved with the new tags and scalars, the old content is gone and one row per submitted entry is inserted up to the first failing row; other tables unchanged; every constraint kept |
| RecipeStore.Store.OpenRecipe | backend/recipes/serializers.py:130-144 | a missing recipe_content, then missing tags, is a KeyError with nothing changed; an update changes nothing and hands on the instance with the request's scalars assigned; a create inserts the recipe with the caller as author and no tags under the next key, or stops on a name clash with nothing changed |
| RecipeStore.Store.SaveRecipe | backend/recipes/serializers.py:145-146 | unknown tags change nothing; a name clash leaves only the tag set replaced; otherwise the row is saved with the new tags and scalars; other tables unchanged |
| RecipeStore.Store.LegacyCreateOrUpdate | backend/foodgram/recipes/serializers.py:104-121 | never succeeds and never touches a content row: the same missing-key, create, name-clash and unknown-tag outcomes as the later save, and once the tags and scalars are saved an AttributeError for `ingredients` |
| RecipeStore.Store.WriteRecipe | backend/recipes/serializers.py:144-146 | one Recipe row written, every other table unchanged, constraints kept |
| RecipeStore.Store.ClearContents | backend/recipes/serializers.py:147 | every content row of the recipe goes, every other row stays |
| RecipeStore.Store.InsertRows | backend/recipes/serializers.py:148-158 | the rows before the first failing one are appended in order, with the 404 or unique-constraint error of that row |
| RecipeStore.Store.Favorite | backend/recipes/views.py:68-90 | the Favorite table makes the Toggle transition with 'Already in favorites' / 'Not in favorites'; nothing else changes |
| RecipeStore.Store.ShoppingCart | backend/recipes/views.py:96-121 | the ShoppingCart table makes the Toggle transition with 'Already in shopping cart' / 'Not in shopping cart'; nothing else changes |
| RecipeStore.Store.DeleteRecipe | backend/recipes/models.py:120-195 | the recipe and its content, favorite and cart rows go; constraints kept |
| RecipeStore.Store.DownloadShoppingCart | backend/recipes/views.py:128-151 | file shopping_list.txt of type application/txt whose text is the header followed by one line per (name, unit) group of the user's cart; each group's total is the sum of the amounts of the content rows of the cart's recipes under that (name, unit) |
| ShoppingList.RecipeItems | backend/recipes/views.py:129-139 | every content row of the recipe yields an item with its ingredient, amount and the ingredient's (name, unit text); `ShoppingList.RecipeItemsSum` fixes how often |
| ShoppingList.RecipeItemsSound | backend/recipes/views.py:129-139 | every item of a recipe comes from one of that recipe's content rows |
| ShoppingList.CartItems | backend/recipes/views.py:129-139 | every content row of every recipe in the user's cart yields an item, keyed by its ingredient's (name, unit text); `ShoppingList.CartItemsSum` fixes how often |
| ShoppingList.CartItemsSound | backend/recipes/views.py:129-139 | every item of the cart comes from a content row of a recipe the user has in the cart |
| ShoppingList.CartRecipes | backend/recipes/views.py:129-130 | a recipe is in the user's cart exactly when a ShoppingCart(user, recipe) row exists |
| ShoppingList.ContentSumUnion | backend/recipes/views.py:129-134 | summing the content rows over two disjoint sets of recipes adds the two sums |
| ShoppingList.RecipeItemsSum | backend/recipes/views.py:129-134 | the sum under a key of a recipe's items is the sum of the amounts of that recipe's content rows under the key: each row counts once |
| ShoppingList.CartItemsSum | backend/recipes/views.py:129-134 | with unique cart rows, the cart's sum under a key is the sum of the amounts of the content rows of the cart's recipes under that key: each row counts once |
| ShoppingList.AddItem | backend/recipes/views.py:131-134 | adding an item adds its key, keeps keys distinct and raises only that key's total by its amount |
| ShoppingList.GroupItems | backend/recipes/views.py:131-134 | one group per distinct key among the items, whose total is the sum of that key's amounts |
| ShoppingList.TotalOfListed | backend/recipes/views.py:131-134 | the total looked up for a listed group's key is that group's total |
| ShoppingList.GroupTotals | backend/recipes/views.py:131-134 | each listed total equals the sum of the amounts under its key |
| ShoppingList.CartTotals | backend/recipes/views.py:129-146 | every line of the list totals, under its (name, unit text), the amounts of the content rows of the recipes in the user's cart |
| ShoppingList.SumsCoincide | backend/recipes/models.py:61-66 | summing by (name, unit text) equals summing by ingredient id |
| ShoppingList.GroupIsIngredient | backend/recipes/views.py:129-139 | each group is one ingredient, and its total is the sum of that ingredient's amounts |
| ShoppingList.GroupsAreIngredients | backend/recipes/views.py:129-139 | every group is exactly one ingredient with that ingredient's total, and every item appears in some group |
| ShoppingList.Render | backend/recipes/views.py:140-146 | the loop builds the header followed by one 'name: total, unit' line per group |
| ShoppingList.NoNewlineCount | backend/recipes/views.py:144-146 | a text without a line break contributes no line |
| ShoppingList.LineHasOneNewline | backend/recipes/views.py:145-146 | each group line ends the only line break it holds |
| ShoppingList.HeaderIsOneLine | backend/recipes/views.py:140 | the header is one line |
| ShoppingList.LinesCount | backend/recipes/views.py:144-146 | the group lines hold one line break per group |
| ShoppingList.RenderedLineCount | backend/recipes/views.py:140-146 | the text has one line per group plus the header; an empty cart yields exactly the header |
| RecipeQueries.Flag | backend/recipes/views.py:50-60 | the annotation is 'true' exactly when the condition holds, else 'false' |
| RecipeQueries.RecipeIdsOf | backend/recipes/views.py:42-47 | the recipe ids of the caller's rows; an anonymous caller has none |
| RecipeQueries.Annotate | backend/recipes/views.py:40-62 | same recipes in the same order; is_favorited / is_in_shopping_cart are 'true' exactly when the caller has a Favorite / ShoppingCart row for that recipe |
| RecipeQueries.AnonymousSeesNothingMarked | backend/recipes/views.py:41-47 | for an anonymous caller every recipe is annotated 'false' twice |
| RecipeFilters.Copies | backend/recipes/filters.py:13-22 | a row joins at least once exactly when it satisfies every supplied condition |
| RecipeFilters.Repeat | backend/recipes/filters.py:21-22 | a recipe row repeated once per matching tag |
| RecipeFilters.Joined | backend/recipes/filters.py:13-22 | the join holds exactly the input rows that satisfy every supplied condition |
| RecipeFilters.JoinedMultiplicity | backend/recipes/filters.py:21-22 | in the join, each input row appears once per matching tag (once without a tag condition) |
| RecipeFilters.Dedup | backend/recipes/filters.py:24 | distinct keeps every row and repeats none |
| RecipeFilters.ConditionsOf | backend/recipes/filters.py:9-22 | each truthy flag is compared as raw text; a truthy author must be a decimal integer (else ValueError); tags are matched by slug |
| RecipeFilters.FilterRecipes | backend/recipes/filters.py:8-24 | the rows kept are exactly the input rows satisfying every supplied condition, with no repeats; a non-integer author fails |
| RecipeFilters.NoParamsKeepsAll | backend/recipes/filters.py:13-24 | with no parameter every row is kept |
| RecipeFilters.OnlyTrueOrFalseMatch | backend/recipes/filters.py:13-14 | an is_favorited other than 'true' or 'false' keeps nothing |
| RecipeFilters.AuthorFilter | backend/recipes/filters.py:19-20 | author=n keeps exactly the recipes whose author is n |
| RecipeFilters.BeforeTotal | backend/recipes/filters.py:39-44 | any two rows are ordered one way or the other by (flag, name) |
| RecipeFilters.BeforeTrans | backend/recipes/filters.py:39-44 | the (flag, name) order is transitive |
| RecipeFilters.Matching | backend/recipes/filters.py:37-38 | exactly the rows whose name contains the term ignoring case |
| RecipeFilters.Insert | backend/recipes/filters.py:44 | inserting into a sorted list keeps it sorted and adds exactly that row |
| RecipeFilters.Sort | backend/recipes/filters.py:44 | a sorted permutation of its input |
| RecipeFilters.Search | backend/recipes/filters.py:30-44 | no search fields or an empty term returns the input; otherwise a permutation of the matching rows sorted by (flag, name) |
| RecipeFilters.SearchRanksPrefixesFirst | backend/recipes/filters.py:37-44 | the search keeps exactly the names containing the term ignoring case, and every name starting with the term comes before every other |
| RecipeFilters.PrefixIsFound | backend/recipes/filters.py:37-40 | a name that starts with the term is always in the result |
| LegacyRecipeFilters.FlagParam | backend/foodgram/recipes/filters.py:9 | '0' maps to 'false', '1' to 'true', nothing else is a key |
| LegacyRecipeFilters.Lookup | backend/foodgram/recipes/filters.py:15 | the dictionary lookup succeeds exactly for '0' and '1' and otherwise raises KeyError with the key |
| LegacyRecipeFilters.LegacyConditions | backend/foodgram/recipes/filters.py:8-21 | accepted exactly when a truthy is_favorited is '0' or '1', a truthy is_in_shopping_cart comes with a truthy is_favorited, and a truthy author is an integer; an invalid is_favorited raises KeyError with it, a cart condition without is_favorited raises KeyError(None), a non-integer author otherwise raises ValueError; on success each condition is present exactly when its parameter is truthy, the favorite and cart conditions are both the lookup of is_favorited, and author is int(author) |
| LegacyRecipeFilters.IntendedConditions | backend/foodgram/recipes/filters.py:8-21 | each flag is looked up with its own value; accepted exactly when each supplied flag is '0' or '1' and a supplied author is an integer |
| LegacyRecipeFilters.LegacyFilterRecipes | backend/foodgram/recipes/filters.py:8-23 | the rows returned are exactly those satisfying every condition, repeats included |
| LegacyRecipeFilters.IntendedFilterRecipes | backend/foodgram/recipes/filters.py:8-23 | as intended: the rows satisfying every condition, each once |
| LegacyRecipeFilters.LegacyFilterRepeatsRows | backend/foodgram/recipes/filters.py:20-23 | a recipe matching two requested tags is returned twice as written and once as intended |
| LegacyRecipeFilters.CartOnlyRequestFails | backend/foodgram/recipes/filters.py:16-17 | is_in_shopping_cart=1 alone raises KeyError(None) |
| LegacyRecipeFilters.CartConditionReadsFavoriteFlag | backend/foodgram/recipes/filters.py:14-17 | is_favorited=1 with is_in_shopping_cart=0 filters the cart on 'true' as written and on 'false' as intended |
| LegacyRecipeFilters.IntendedCartFilter | backend/foodgram/recipes/filters.py:16-17 | as intended, is_in_shopping_cart=1 keeps exactly the rows in the caller's cart |
| LegacyRecipeQueries.RowKeysOf | backend/foodgram/recipes/views.py:31-32 | the primary keys of the caller's rows |
| LegacyRecipeQueries.LegacyAnnotate | backend/foodgram/recipes/views.py:29-45 | same recipes in the same order; each flag is 'true' exactly when the recipe id equals a primary key of the caller's rows |
| LegacyRecipeQueries.Pairs | backend/foodgram/recipes/models.py:78-91 | the (user, recipe) pair of each row |
| LegacyRecipeQueries.PrimaryKeyMistakenForRecipe | backend/foodgram/recipes/views.py:31-38 | a Favorite row with primary key 1 for recipe 7 marks recipe 1 as written, recipe 7 as intended |
| LegacySchema.LegacyNameUniqueIsStronger | backend/foodgram/recipes/models.py:35 | a unique ingredient name implies the later unique (name, unit) pair |
| LegacySchema.SameNameTwoUnits | backend/foodgram/recipes/models.py:35 | one name under two units is allowed later and refused earlier |
| LegacySchema.LegacyAllowsRepeatedMarks | backend/foodgram/recipes/models.py:78-91 | a repeated (user, recipe) pair is allowed earlier and refused later |
| LegacySchema.CookingTimeBelowMinOnlyRefusedByValidateOnCreate | backend/foodgram/recipes/serializers.py:88-93 | a cooking_time below the column's minimum of 1 is refused by `validate()` on POST only; on PUT and PATCH `validate()` lets it through |
| LegacySchema.ZeroAmountOnlyOnUpdate | backend/foodgram/recipes/models.py:68 | the default amount 0 is in range and passes on update but not on POST; a row without an amount gets it on update and raises a KeyError on POST |
| LegacyUsers.SubscriptionsWithout | backend/foodgram/users/models.py:49-61 | deleting a user leaves exactly the Subscribe rows naming neither side of it |
| LegacyUsers.SubscriptionsWithoutDistinct | backend/foodgram/users/models.py:66-70 | the cascade keeps (subscriber, author) unique |
| LegacyUsers.DeleteUserCascade | backend/foodgram/users/models.py:12-70 | deleting a user with the cascade keeps every user and subscription constraint |
| LegacyUsers.SelfSubscriptionIsValid | backend/foodgram/users/models.py:45-70 | no constraint forbids a user from subscribing to themselves |
| LegacyUsers.RepeatedSubscriptionIsInvalid | backend/foodgram/users/models.py:66-70 | the same (subscriber, author) pair cannot occur twice |
| UserSerializers.IsSubscribed | backend/users/serializers.py:23-29 | false for a caller without a primary key; otherwise true exactly when a Subscribe(caller, author) row exists |
| UserSerializers.Preview | backend/users/serializers.py:60-62 | the first min(limit, count) recipes; a non-integer limit fails at int(), a negative one at the slice |
| UserSerializers.RecipesPreview | backend/users/serializers.py:60-64 | without recipes_limit, the first min(3, count) recipes; always a prefix |
| UserSerializers.PreviewOfDecimal | backend/users/serializers.py:60-67 | a decimal limit n selects exactly the first min(n, count) recipes, never more than the count |
| UserSerializers.PreviewWithinCount | backend/users/serializers.py:60-67 | whatever the limit, the preview never lists more recipes than recipes_count reports |
| UserSerializers.PreviewRefusesNegative | backend/users/serializers.py:61-62 | a negative limit is refused |
| LegacyUserSerializers.LegacyIsSubscribed | backend/foodgram/users/serializers.py:12 | false unless the object itself carries a value |
| LegacyUserSerializers.LegacyRecipesPreview | backend/foodgram/users/serializers.py:49-59 | without recipes_limit, the first min(10, count) recipes; a non-integer limit still fails |
| LegacyUserSerializers.LegacySubscribeFieldsLackId | backend/foodgram/users/serializers.py:39-43 | the earlier subscription output is the later one without id |
| LegacyUserSerializers.DefaultLimitsDiffer | backend/foodgram/users/serializers.py:50-57 | for an author with more than three recipes, the two revisions' default previews differ |

## Left out

- Framework-derived validation is not modelled, since it lives in the framework rather than in this code. This covers:
  - the required-field checks;
  - the UniqueValidator that a ModelSerializer copies from unique model fields;
  - `max_length`;
  - integer ranges;
  - the earlier model's MinValueValidator on cooking_time, which the serializer would enforce.
  The uniqueness these enforce appears instead as the database constraint a save can violate.
  The one framework check that is modelled is the refusal of a null tag value (`RecipeValidation.TagFieldValue`), because it decides which error a tag gets.
- LegacySchema.CookingTimeBelowMinOnlyRefusedByValidateOnCreate: speaks of `validate()` only. The field's own min_value check, copied from the column's MinValueValidator (backend/foodgram/recipes/models.py:51-55), refuses a cooking_time below 1 on every method and is not modelled.
- LegacyRecipeValidation.LegacyFieldStage: an accepted row sent without an amount (PUT or PATCH) is carried with the column default 0, where the validated data lacks the key. No later step of the earlier save reads it, because that save stops at `backend/foodgram/recipes/serializers.py:121`.
- RecipeStore.Store.LegacyCreateOrUpdate: runs against the later tables. It reads and writes only recipe and tag rows, where the two revisions agree (a unique name, a set of tags).
- RecipeStore.Store.CreateOrUpdate: requires every scalar on a create. The framework's required-field check guarantees them before `create_or_update` runs.
- SQL join semantics are left out:
  - A cart recipe that has no content rows would make the shopping-list query produce a row with null name and total. The model emits no line for it.
  - The query is assumed to reuse one join for the ingredient and its amount, so each total is summed over that ingredient's own rows.
- ShoppingList.GroupItems: groups appear in order of first appearance. The query has no ORDER BY, so the contracts speak of keys and totals, not of positions.
- Database collation is not modelled. Names are ordered by code point, and case-insensitive matching folds ASCII and Cyrillic letters only.
- `int()` accepts surrounding whitespace and underscores; the model accepts an optional sign followed by decimal digits only.
- The text is encoded to UTF-8 bytes, the Content-Disposition header is set and a renderer is involved. These are left out: the download is its filename, content type and text.
- Transactions and concurrent requests racing on unique constraints are not modelled; each request runs alone.
- Authentication and permission classes are left out; the caller is a parameter.
- Pagination is left out.
- Images are opaque strings; base64 decoding is left out.
- A non-numeric recipe key in the URL is not modelled; recipe keys are integers.
- backend/users/models.py is not part of this model. The later Subscribe rows are taken to be (subscriber, author) pairs.
- The subscribe and unsubscribe view of the later tree is not part of this model. No subscribe or self-subscription rules are invented.
- The earlier `obj.recipes` accessor: the earlier `Recipe.author` declares no related name. The author's recipe list is taken as given.
- In the earlier `Subscribe`, both foreign keys declare the related name "subscriptions". That clash is a framework configuration error and is not modelled.
- The earlier users view annotates is_subscribed with the same kind of query as the recipe annotation. It is not modelled separately.
- UserSerializers.RecipesCount carries no contract of its own. It is the length of the author's recipe list, and `UserSerializers.PreviewWithinCount` and `UserSerializers.PreviewOfDecimal` state its relation to the preview.
- LegacyRecipeFilters.LegacyFilterRepeatsRows: requires a non-empty tag list in addition to two matching tags. A matching tag already implies a non-empty list.

## Findings

| source | as written | input that shows it | evidently intended | confidence | as-written member | corrected member |
|---|---|---|---|---|---|---|
| backend/foodgram/recipes/views.py:31-43 | `id__in` compares each recipe id with the primary keys of the caller's Favorite and ShoppingCart rows | a caller whose only Favorite row has primary key 1 and names recipe 7: recipe 1 is marked favorited, recipe 7 is not | compare with the recipes the rows name, as the later `get_queryset` does | high; not executed | LegacyRecipeQueries.PrimaryKeyMistakenForRecipe | RecipeQueries.Annotate |
| backend/foodgram/recipes/filters.py:16-17 | the shopping-cart condition looks up `flag_params[is_favorited]` | `?is_in_shopping_cart=1` alone raises KeyError(None); `?is_favorited=1&is_in_shopping_cart=0` keeps cart recipes (the earlier `RecipesViewSet` installs no filter backend, so no endpoint of that tree reaches this filter) | look up `flag_params[is_in_shopping_cart]` | high; not executed | LegacyRecipeFilters.CartConditionReadsFavoriteFlag | LegacyRecipeFilters.IntendedConditions |
| backend/foodgram/recipes/filters.py:20-23 | the tag join is returned without `distinct()` | a recipe carrying two tags, both requested, is listed twice | each recipe listed once, as the later filter does | medium; not executed | LegacyRecipeFilters.LegacyFilterRepeatsRows | LegacyRecipeFilters.IntendedFilterRecipes |
| backend/foodgram/recipes/serializers.py:88-102 | repeated ingredient ids pass validation; the save then replaces the tags and then raises AttributeError at :121; no content row is written | a POST whose ingredients are `[{id: 5, amount: 1}, {id: 5, amount: 2}]` | reject repeated ids during validation, as the later serializer does | medium; not executed | LegacyRecipeValidation.LegacyAcceptsRepeatedIngredients | RecipeValidation.Validate |
| backend/foodgram/recipes/serializers.py:121 | `instance.ingredients.clear()` names an accessor the earlier `Recipe` does not have (its content rows hang off `recipe_content`), so every save raises AttributeError after the recipe row is written | any POST that passes validation, e.g. one with name, text, cooking_time 10, image, tags `[1]` and ingredients `[{id: 5, amount: 1}]`: the recipe is created with tag 1 and has no content rows | clear the recipe's content rows and insert the submitted ones, as the later save does | high; not executed | RecipeStore.Store.LegacyCreateOrUpdate | RecipeStore.Store.CreateOrUpdate |
