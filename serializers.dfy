/** The write-side and read-side serializers of the recipe API: how a recipe
    payload is validated and saved, how favourites, cart entries and
    subscriptions are validated, and what the read serializers compute. */
module Serializers {
  import opened Wrappers
  import opened Text
  import opened UserModels
  import opened RecipesModels
  import opened Permissions
  import opened Store

  // ---------------------------------------------------------------------
  // The recipe payload and its errors

  /** One element of the `ingredients` list: an ingredient primary key and an amount. */
  datatype IngredientAmount = IngredientAmount(id: IngredientId, amount: int)

  /** A recipe write payload. A key the client left out is `None`. */
  datatype RecipePayload = RecipePayload(
    tags: Option<seq<TagId>>,
    ingredients: Option<seq<IngredientAmount>>,
    name: Option<string>,
    image: Option<string>,
    text: Option<string>,
    cookingTime: Option<int>)

  /** The writable fields, in the order the serializer declares them. */
  datatype PayloadField = TagsField | IngredientsField | NameField | ImageField | TextField | CookingTimeField

  datatype RecipeError =
    | FieldRequired(field: PayloadField)        // a required field is absent
    | FieldBlank(field: PayloadField)           // a text field is empty once stripped
    | TagDoesNotExist(tag: TagId)               // primary key lookup of a tag failed
    | NoTags                                    // validate_tags: empty list
    | DuplicateTags                             // validate_tags: a tag repeats
    | IngredientDoesNotExist(ingredient: IngredientId)
    | AmountOutOfRange(amount: int)             // the amount validators
    | CookingTimeOutOfRange(cookingTime: int)   // the cooking-time validators
    | RecipeAlreadyExists                       // unique together on (name, text)
    | IngredientsKeyMissing                     // validate: no `ingredients`
    | TagsKeyMissing                            // validate: no `tags`
    | NoIngredients                             // validate: empty `ingredients`
    | IngredientNotFound(ingredient: IngredientId)
    | DuplicateIngredient                       // validate: an ingredient repeats

  predicate Distinct<T(==)>(s: seq<T>) {
    forall i, j :: 0 <= i < j < |s| ==> s[i] != s[j]
  }

  /** Python's `set(value)`. */
  function ElementSet<T>(s: seq<T>): set<T> {
    set x | x in s
  }

  lemma DistinctCons<T>(s: seq<T>)
    requires s != []
    ensures Distinct(s) <==> Distinct(s[1..]) && s[0] !in s[1..]
  {
    if Distinct(s) {
      forall i, j | 0 <= i < j < |s[1..]| ensures s[1..][i] != s[1..][j] {
        assert s[1..][i] == s[i + 1] && s[1..][j] == s[j + 1];
      }
    }
    if Distinct(s[1..]) && s[0] !in s[1..] {
      forall i, j | 0 <= i < j < |s| ensures s[i] != s[j] {
        if i == 0 {
          assert s[j] == s[1..][j - 1];
        } else {
          assert s[i] == s[1..][i - 1] && s[j] == s[1..][j - 1];
        }
      }
    }
  }

  /** A list has as many distinct elements as entries exactly when nothing repeats. */
  lemma {:induction false} DistinctIffSetSize<T>(s: seq<T>)
    ensures |ElementSet(s)| <= |s|
    ensures |ElementSet(s)| == |s| <==> Distinct(s)
  {
    if s != [] {
      DistinctIffSetSize(s[1..]);
      DistinctCons(s);
      assert s == [s[0]] + s[1..];
      assert ElementSet(s) == ElementSet(s[1..]) + {s[0]};
      if s[0] in s[1..] {
        assert ElementSet(s) == ElementSet(s[1..]);
      } else {
        assert s[0] !in ElementSet(s[1..]);
      }
    }
  }

  /** `validate_tags`: an empty list and a list with a repeated tag are refused,
      in that order; anything else passes unchanged. */
  function ValidateTags(value: seq<TagId>): (r: Result<seq<TagId>, RecipeError>)
    ensures r == Failure(NoTags) <==> |value| == 0
    ensures r == Failure(DuplicateTags) <==> |value| > 0 && !Distinct(value)
    ensures r.Success? <==> |value| > 0 && Distinct(value)
    ensures r.Success? ==> r.value == value
  {
    DistinctIffSetSize(value);
    if |value| == 0 then Failure(NoTags)
    else if |ElementSet(value)| != |value| then Failure(DuplicateTags)
    else Success(value)
  }

  /** The primary-key lookup of a list of tags: the first id with no tag. */
  function FirstUnknownTag(tags: seq<TagId>, known: set<TagId>): (r: Option<TagId>)
    ensures r.None? <==> forall t :: t in tags ==> t in known
    ensures r.Some? ==> r.value in tags && r.value !in known
  {
    if tags == [] then None
    else
      assert tags == [tags[0]] + tags[1..];
      if tags[0] !in known then Some(tags[0]) else FirstUnknownTag(tags[1..], known)
  }

  /** One nested ingredient item: its primary key must exist, then its amount
      must lie in the model's range. */
  function ItemError(item: IngredientAmount, known: set<IngredientId>): (r: Option<RecipeError>)
    ensures r.None? <==> item.id in known && InAmountRange(item.amount)
  {
    if item.id !in known then Some(IngredientDoesNotExist(item.id))
    else if !InAmountRange(item.amount) then Some(AmountOutOfRange(item.amount))
    else None
  }

  /** The first failing nested item. */
  function FirstItemError(items: seq<IngredientAmount>, known: set<IngredientId>): (r: Option<RecipeError>)
    ensures r.None? <==> forall it :: it in items ==> it.id in known && InAmountRange(it.amount)
  {
    if items == [] then None
    else
      assert items == [items[0]] + items[1..];
      match ItemError(items[0], known)
      case Some(e) => Some(e)
      case None => FirstItemError(items[1..], known)
  }

  /** Field-level errors of `tags`: required unless the update is partial; then
      the primary keys, then `validate_tags`. */
  function TagsFieldErrors(tags: Option<seq<TagId>>, known: set<TagId>, partial: bool): (r: seq<RecipeError>)
    ensures |r| <= 1
    ensures r == [] <==>
      (if tags.None? then partial
       else (forall t :: t in tags.value ==> t in known) && |tags.value| > 0 && Distinct(tags.value))
  {
    match tags
    case None => if partial then [] else [FieldRequired(TagsField)]
    case Some(ts) =>
      match FirstUnknownTag(ts, known)
      case Some(t) => [TagDoesNotExist(t)]
      case None =>
        match ValidateTags(ts)
        case Failure(e) => [e]
        case Success(_) => []
  }

  /** Field-level errors of `ingredients`: required unless partial; then each item. */
  function IngredientsFieldErrors(items: Option<seq<IngredientAmount>>, known: set<IngredientId>, partial: bool)
    : (r: seq<RecipeError>)
    ensures |r| <= 1
    ensures r == [] <==>
      (if items.None? then partial
       else forall it :: it in items.value ==> it.id in known && InAmountRange(it.amount))
  {
    match items
    case None => if partial then [] else [FieldRequired(IngredientsField)]
    case Some(xs) =>
      match FirstItemError(xs, known)
      case Some(e) => [e]
      case None => []
  }

  /** A `CharField` derived from a model text column (`allow_blank=False`,
      `trim_whitespace=True`): required unless partial, and refused as blank
      when nothing but white space was sent. */
  function TextFieldErrors(field: PayloadField, value: Option<string>, partial: bool): (r: seq<RecipeError>)
    ensures |r| <= 1
    ensures r == [] <==> (if value.None? then partial else Strip(value.value) != [])
    ensures r == [] || r == [FieldRequired(field)] || r == [FieldBlank(field)]
  {
    match value
    case None => if partial then [] else [FieldRequired(field)]
    case Some(s) => if Strip(s) == [] then [FieldBlank(field)] else []
  }

  /** The image field: required unless partial. */
  function ImageFieldErrors(value: Option<string>, partial: bool): (r: seq<RecipeError>)
    ensures |r| <= 1
    ensures r == [] <==> value.Some? || partial
  {
    if value.None? && !partial then [FieldRequired(ImageField)] else []
  }

  /** `cooking_time`: required unless partial, then the model's validators. */
  function CookingTimeErrors(value: Option<int>, partial: bool): (r: seq<RecipeError>)
    ensures |r| <= 1
    ensures r == [] <==> (if value.None? then partial else InAmountRange(value.value))
  {
    match value
    case None => if partial then [] else [FieldRequired(CookingTimeField)]
    case Some(n) => if InAmountRange(n) then [] else [CookingTimeOutOfRange(n)]
  }

  /** What each field demands of its value, field by field. */
  predicate FieldsValid(p: RecipePayload, tagIds: set<TagId>, ingredientIds: set<IngredientId>, partial: bool) {
    && (if p.tags.None? then partial
        else (forall t :: t in p.tags.value ==> t in tagIds) && |p.tags.value| > 0 && Distinct(p.tags.value))
    && (if p.ingredients.None? then partial
        else forall it :: it in p.ingredients.value ==> it.id in ingredientIds && InAmountRange(it.amount))
    && (if p.name.None? then partial else Strip(p.name.value) != [])
    && (p.image.Some? || partial)
    && (if p.text.None? then partial else Strip(p.text.value) != [])
    && (if p.cookingTime.None? then partial else InAmountRange(p.cookingTime.value))
  }

  /** Every field's errors, collected in the declared field order; there are
      none exactly when every field's demands are met. */
  function FieldErrors(p: RecipePayload, tagIds: set<TagId>, ingredientIds: set<IngredientId>, partial: bool)
    : (r: seq<RecipeError>)
    ensures r == [] <==> FieldsValid(p, tagIds, ingredientIds, partial)
    ensures |r| <= 6
  {
    var tags := TagsFieldErrors(p.tags, tagIds, partial);
    var ingredients := IngredientsFieldErrors(p.ingredients, ingredientIds, partial);
    var name := TextFieldErrors(NameField, p.name, partial);
    var image := ImageFieldErrors(p.image, partial);
    var text := TextFieldErrors(TextField, p.text, partial);
    var cookingTime := CookingTimeErrors(p.cookingTime, partial);
    var r := tags + ingredients + name + image + text + cookingTime;
    assert |r| == |tags| + |ingredients| + |name| + |image| + |text| + |cookingTime|;
    r
  }

  /** The validated data: the text fields as the `CharField`s return them,
      stripped; everything else as sent. */
  function Cleaned(p: RecipePayload): RecipePayload {
    p.(name := if p.name.Some? then Some(Strip(p.name.value)) else None,
       text := if p.text.Some? then Some(Strip(p.text.value)) else None)
  }

  /** Cleaning validated data again changes nothing. */
  lemma CleanedIdempotent(p: RecipePayload)
    ensures Cleaned(Cleaned(p)) == Cleaned(p)
  {
    if p.name.Some? { StripIdempotent(p.name.value); }
    if p.text.Some? { StripIdempotent(p.text.value); }
  }

  /** The unique-together rule on (name, text): another recipe has both. An
      update excludes the instance being updated. */
  predicate DuplicateRecipe(recipes: seq<Recipe>, name: string, text: string, instance: Option<RecipeId>) {
    exists r :: r in recipes && r.name == name && r.text == text && (instance.None? || r.id != instance.value)
  }

  /** The (name, text) pair the unique-together validator looks up: the
      validated value where there is one, the instance's otherwise; none when
      a value is missing and there is no instance to take it from. */
  function UniqueKey(data: RecipePayload, recipes: seq<Recipe>, instance: Option<RecipeId>): (r: Option<(string, string)>)
    ensures r.None? <==> (data.name.None? || data.text.None?) && (instance.None? || instance.value !in RecipeIds(recipes))
    ensures r.Some? && data.name.Some? ==> r.value.0 == data.name.value
    ensures r.Some? && data.text.Some? ==> r.value.1 == data.text.value
  {
    var current := if instance.Some? && instance.value in RecipeIds(recipes)
                   then Some(recipes[IndexOfRecipe(recipes, instance.value)]) else None;
    if (data.name.None? || data.text.None?) && current.None? then None
    else Some((if data.name.Some? then data.name.value else current.value.name,
               if data.text.Some? then data.text.value else current.value.text))
  }

  /** `UniqueTogetherValidator`: without an instance a missing value is
      required; otherwise another recipe with the same pair is refused.
      The instance itself is excluded, as the validator excludes it from its
      query; an update that keeps the instance's own pair therefore passes,
      since `RecipesValid` forbids any other recipe with that pair. */
  function UniqueTogetherErrors(data: RecipePayload, recipes: seq<Recipe>, instance: Option<RecipeId>): (r: seq<RecipeError>)
    ensures r == [] <==>
      && UniqueKey(data, recipes, instance).Some?
      && !DuplicateRecipe(recipes, UniqueKey(data, recipes, instance).value.0, UniqueKey(data, recipes, instance).value.1, instance)
  {
    match UniqueKey(data, recipes, instance)
    case None =>
      (if data.name.None? then [FieldRequired(NameField)] else [])
        + (if data.text.None? then [FieldRequired(TextField)] else [])
    case Some(key) => if DuplicateRecipe(recipes, key.0, key.1, instance) then [RecipeAlreadyExists] else []
  }

  // ---------------------------------------------------------------------
  // The object-level `validate`

  /** The ingredient loop of `validate`, as a recursion over the items with the
      set of ids already met: the first item naming an unknown ingredient or
      one met before decides the error. */
  function CheckIngredients(items: seq<IngredientAmount>, known: set<IngredientId>, seen: set<IngredientId>)
    : Option<RecipeError>
  {
    if items == [] then None
    else if items[0].id !in known then Some(IngredientNotFound(items[0].id))
    else if items[0].id in seen then Some(DuplicateIngredient)
    else CheckIngredients(items[1..], known, seen + {items[0].id})
  }

  /** No item's id repeats. */
  predicate IdsDistinct(items: seq<IngredientAmount>) {
    forall i, j :: 0 <= i < j < |items| ==> items[i].id != items[j].id
  }

  /** Every id known and not among `seen`, and no id repeated. */
  predicate Clean(items: seq<IngredientAmount>, known: set<IngredientId>, seen: set<IngredientId>) {
    && (forall it :: it in items ==> it.id in known && it.id !in seen)
    && IdsDistinct(items)
  }

  lemma IdsDistinctCons(items: seq<IngredientAmount>)
    requires items != []
    ensures IdsDistinct(items) <==>
      IdsDistinct(items[1..]) && forall it :: it in items[1..] ==> it.id != items[0].id
  {
    if IdsDistinct(items) {
      forall i, j | 0 <= i < j < |items[1..]| ensures items[1..][i].id != items[1..][j].id {
        assert items[1..][i] == items[i + 1] && items[1..][j] == items[j + 1];
      }
      forall it | it in items[1..] ensures it.id != items[0].id {
        var k :| 0 <= k < |items[1..]| && items[1..][k] == it;
        assert items[k + 1] == it;
      }
    }
    if IdsDistinct(items[1..]) && forall it :: it in items[1..] ==> it.id != items[0].id {
      forall i, j | 0 <= i < j < |items| ensures items[i].id != items[j].id {
        assert items[j] == items[1..][j - 1];
        if i > 0 {
          assert items[i] == items[1..][i - 1];
        }
      }
    }
  }

  /** The loop passes exactly when every ingredient is known, none was met
      before, and none repeats. */
  lemma {:induction false} CheckIngredientsPassesIffClean(items: seq<IngredientAmount>, known: set<IngredientId>, seen: set<IngredientId>)
    ensures CheckIngredients(items, known, seen).None? <==> Clean(items, known, seen)
  {
    if items != [] {
      assert items == [items[0]] + items[1..];
      assert forall it :: it in items[1..] ==> it in items;
      IdsDistinctCons(items);
      if items[0].id in known && items[0].id !in seen {
        CheckIngredientsPassesIffClean(items[1..], known, seen + {items[0].id});
      }
    }
  }

  /** Item `k` is where the loop stops with `e`: an unknown ingredient, or one
      already in `seen` or earlier in the list. */
  predicate FailsAt(items: seq<IngredientAmount>, k: nat, known: set<IngredientId>, seen: set<IngredientId>,
                    e: RecipeError)
    requires k < |items|
  {
    if items[k].id !in known then e == IngredientNotFound(items[k].id)
    else e == DuplicateIngredient && (items[k].id in seen || exists i :: 0 <= i < k && items[i].id == items[k].id)
  }

  /** Where the loop fails, it fails at the first offending item: every item
      before it is clean, and the loop's error is the one that item gives. */
  lemma {:induction false} CheckIngredientsFirstFailure(items: seq<IngredientAmount>, known: set<IngredientId>, seen: set<IngredientId>)
    requires CheckIngredients(items, known, seen).Some?
    ensures exists k ::
              && 0 <= k < |items|
              && Clean(items[..k], known, seen)
              && FailsAt(items, k, known, seen, CheckIngredients(items, known, seen).value)
  {
    if items[0].id !in known || items[0].id in seen {
      assert items[..0] == [];
      assert FailsAt(items, 0, known, seen, CheckIngredients(items, known, seen).value);
    } else {
      var seen' := seen + {items[0].id};
      var rest := items[1..];
      var e := CheckIngredients(items, known, seen).value;
      assert e == CheckIngredients(rest, known, seen').value;
      CheckIngredientsFirstFailure(rest, known, seen');
      var k' :| 0 <= k' < |rest| && Clean(rest[..k'], known, seen') && FailsAt(rest, k', known, seen', e);
      var k := k' + 1;
      assert items[k] == rest[k'];
      var prefix := items[..k];
      assert prefix[1..] == rest[..k'] && prefix[0] == items[0];
      CheckIngredientsPassesIffClean(rest[..k'], known, seen');
      CheckIngredientsPassesIffClean(prefix, known, seen);
      if rest[k'].id in known {
        if rest[k'].id == items[0].id {
          assert items[0].id == items[k].id;
        } else if rest[k'].id !in seen {
          var i' :| 0 <= i' < k' && rest[i'].id == rest[k'].id;
          assert items[i' + 1] == rest[i'];
        }
      }
      assert FailsAt(items, k, known, seen, e);
    }
  }

  /** `validate`, as a specification. */
  function ValidateSpec(data: RecipePayload, known: set<IngredientId>): (r: Result<RecipePayload, RecipeError>)
    ensures r.Success? ==> r.value == data
  {
    if data.ingredients.None? then Failure(IngredientsKeyMissing)
    else if data.tags.None? then Failure(TagsKeyMissing)
    else if |data.ingredients.value| == 0 then Failure(NoIngredients)
    else match CheckIngredients(data.ingredients.value, known, {})
      case Some(e) => Failure(e)
      case None => Success(data)
  }

  /** `validate` with its loop: the keys, then emptiness, then each item in turn
      against the ingredient table and the set of ids already seen. */
  method Validate(data: RecipePayload, known: set<IngredientId>) returns (r: Result<RecipePayload, RecipeError>)
    ensures r == ValidateSpec(data, known)
  {
    if data.ingredients.None? {
      return Failure(IngredientsKeyMissing);
    }
    if data.tags.None? {
      return Failure(TagsKeyMissing);
    }
    var items := data.ingredients.value;
    if |items| == 0 {
      return Failure(NoIngredients);
    }
    var seen: set<IngredientId> := {};
    var i := 0;
    while i < |items|
      invariant 0 <= i <= |items|
      invariant CheckIngredients(items, known, {}) == CheckIngredients(items[i..], known, seen)
    {
      var ingredient := items[i].id;
      if ingredient !in known {
        return Failure(IngredientNotFound(ingredient));
      }
      if ingredient in seen {
        return Failure(DuplicateIngredient);
      }
      seen := seen + {ingredient};
      assert items[i..][1..] == items[i + 1..];
      i := i + 1;
    }
    return Success(data);
  }

  /** `validate` accepts exactly a payload with both keys, at least one
      ingredient, every ingredient known and none repeated, and returns it
      unchanged. */
  lemma ValidateSpecAccepts(data: RecipePayload, known: set<IngredientId>)
    ensures ValidateSpec(data, known).Success? <==>
      && data.ingredients.Some? && data.tags.Some?
      && |data.ingredients.value| > 0
      && (forall it :: it in data.ingredients.value ==> it.id in known)
      && IdsDistinct(data.ingredients.value)
    ensures ValidateSpec(data, known).Success? ==> ValidateSpec(data, known).value == data
  {
    if data.ingredients.Some? {
      CheckIngredientsPassesIffClean(data.ingredients.value, known, {});
    }
  }

  /** The whole of `is_valid()` for a recipe payload: field errors first (all of
      them), then the unique-together rule, then `validate`. */
  function RunValidation(p: RecipePayload, tagIds: set<TagId>, ingredientIds: set<IngredientId>,
                         recipes: seq<Recipe>, partial: bool, instance: Option<RecipeId>)
    : (r: Result<RecipePayload, seq<RecipeError>>)
    ensures r.Failure? ==> |r.error| > 0
    ensures r.Success? ==> r.value == Cleaned(p)
  {
    var fieldErrors := FieldErrors(p, tagIds, ingredientIds, partial);
    var data := Cleaned(p);
    if fieldErrors != [] then Failure(fieldErrors)
    else
      var uniqueErrors := UniqueTogetherErrors(data, recipes, instance);
      if uniqueErrors != [] then Failure(uniqueErrors)
      else match ValidateSpec(data, ingredientIds)
        case Failure(e) => Failure([e])
        case Success(d) => Success(d)
  }

  /** Which error `validate` reports: a missing `ingredients` key before a
      missing `tags` key, then an empty ingredient list, then the first item
      that names an unknown ingredient or repeats an earlier one. */
  lemma ValidateSpecErrorOrder(data: RecipePayload, known: set<IngredientId>)
    ensures data.ingredients.None? ==> ValidateSpec(data, known) == Failure(IngredientsKeyMissing)
    ensures data.ingredients.Some? && data.tags.None? ==> ValidateSpec(data, known) == Failure(TagsKeyMissing)
    ensures data.ingredients.Some? && data.tags.Some? && data.ingredients.value == [] ==>
      ValidateSpec(data, known) == Failure(NoIngredients)
    ensures data.ingredients.Some? && data.tags.Some? && data.ingredients.value != [] &&
            ValidateSpec(data, known).Failure? ==>
      exists k ::
        && 0 <= k < |data.ingredients.value|
        && Clean(data.ingredients.value[..k], known, {})
        && FailsAt(data.ingredients.value, k, known, {}, ValidateSpec(data, known).error)
  {
    if data.ingredients.Some? && data.tags.Some? && data.ingredients.value != [] &&
       ValidateSpec(data, known).Failure? {
      CheckIngredientsFirstFailure(data.ingredients.value, known, {});
    }
  }

  /** Once the fields and the unique-together rule have passed, a payload
      without `ingredients` gets `validate`'s ingredients message alone, whether
      or not `tags` is present. */
  lemma RunValidationReportsIngredientsFirst(p: RecipePayload, tagIds: set<TagId>, ingredientIds: set<IngredientId>,
                                             recipes: seq<Recipe>, partial: bool, instance: Option<RecipeId>)
    requires FieldErrors(p, tagIds, ingredientIds, partial) == []
    requires UniqueTogetherErrors(Cleaned(p), recipes, instance) == []
    requires p.ingredients.None?
    ensures RunValidation(p, tagIds, ingredientIds, recipes, partial, instance) == Failure([IngredientsKeyMissing])
  {
    ValidateSpecErrorOrder(Cleaned(p), ingredientIds);
  }

  /** The whole validator as an if-and-only-if: a payload is accepted exactly
      when every field meets its demands, the unique-together rule finds its
      pair and no other recipe with it, and `validate` finds both keys, at
      least one ingredient and no repeated ingredient. */
  lemma RunValidationAcceptsIff(p: RecipePayload, tagIds: set<TagId>, ingredientIds: set<IngredientId>,
                                recipes: seq<Recipe>, partial: bool, instance: Option<RecipeId>)
    ensures RunValidation(p, tagIds, ingredientIds, recipes, partial, instance).Success? <==>
      && FieldsValid(p, tagIds, ingredientIds, partial)
      && UniqueKey(Cleaned(p), recipes, instance).Some?
      && !DuplicateRecipe(recipes, UniqueKey(Cleaned(p), recipes, instance).value.0,
                          UniqueKey(Cleaned(p), recipes, instance).value.1, instance)
      && p.ingredients.Some? && p.tags.Some?
      && |p.ingredients.value| > 0
      && IdsDistinct(p.ingredients.value)
  {
    ValidateSpecAccepts(Cleaned(p), ingredientIds);
  }

  /** What an accepted payload guarantees: both lists present, tags non-empty,
      known and distinct, ingredients non-empty, known, distinct and in range,
      cooking time in range, and no other recipe with the same name and text.
      This holds for a partial update too, because `validate` demands both keys. */
  lemma ValidatedPayload(p: RecipePayload, tagIds: set<TagId>, ingredientIds: set<IngredientId>,
                         recipes: seq<Recipe>, partial: bool, instance: Option<RecipeId>)
    requires RunValidation(p, tagIds, ingredientIds, recipes, partial, instance).Success?
    ensures p.tags.Some? && p.ingredients.Some?
    ensures |p.tags.value| > 0 && Distinct(p.tags.value)
    ensures forall t :: t in p.tags.value ==> t in tagIds
    ensures |p.ingredients.value| > 0 && IdsDistinct(p.ingredients.value)
    ensures forall it :: it in p.ingredients.value ==> it.id in ingredientIds && InAmountRange(it.amount)
    ensures !partial ==> p.name.Some? && p.image.Some? && p.text.Some? && p.cookingTime.Some?
    ensures p.name.Some? ==> Strip(p.name.value) != []
    ensures p.text.Some? ==> Strip(p.text.value) != []
    ensures p.cookingTime.Some? ==> InAmountRange(p.cookingTime.value)
    ensures UniqueKey(Cleaned(p), recipes, instance).Some?
    ensures !DuplicateRecipe(recipes, UniqueKey(Cleaned(p), recipes, instance).value.0,
                             UniqueKey(Cleaned(p), recipes, instance).value.1, instance)
  {
    RunValidationAcceptsIff(p, tagIds, ingredientIds, recipes, partial, instance);
  }

  /** Once the ingredient field has passed, the existence check inside
      `validate` can no longer fail: the primary-key field already refused an
      unknown ingredient. */
  lemma NotFoundUnreachable(p: RecipePayload, tagIds: set<TagId>, ingredientIds: set<IngredientId>, partial: bool)
    requires FieldErrors(p, tagIds, ingredientIds, partial) == []
    ensures forall id :: ValidateSpec(p, ingredientIds) != Failure(IngredientNotFound(id))
  {
    if p.ingredients.Some? && p.tags.Some? && |p.ingredients.value| > 0 {
      var items := p.ingredients.value;
      if CheckIngredients(items, ingredientIds, {}).Some? {
        CheckIngredientsFirstFailure(items, ingredientIds, {});
      }
    }
  }

  // ---------------------------------------------------------------------
  // Favourite, shopping-cart and subscription serializers

  datatype RelationError =
    | UserDoesNotExist(user: UserId)
    | RecipeDoesNotExist(recipe: RecipeId)
    | AuthorDoesNotExist(author: UserId)
    | AlreadyAdded(kind: RelationKind)    // unique together on (user, recipe)
    | SelfSubscription                    // validate_author
    | AlreadySubscribed                   // unique together on (author, user)

  /** Field-level errors of {user, recipe}: each primary key must exist. */
  function RelationFieldErrors(userIds: set<UserId>, recipeIds: set<RecipeId>, user: UserId, recipe: RecipeId)
    : seq<RelationError>
  {
    (if user in userIds then [] else [UserDoesNotExist(user)])
      + (if recipe in recipeIds then [] else [RecipeDoesNotExist(recipe)])
  }

  /** FavoriteSerializer / ShoppingCartSerializer: both keys must exist; then
      the pair must not be in the table yet. */
  function ValidateRecipeRelation(kind: RelationKind, rows: seq<RecipeRelation>, userIds: set<UserId>,
                                  recipeIds: set<RecipeId>, user: UserId, recipe: RecipeId)
    : (r: Result<RecipeRelation, seq<RelationError>>)
    ensures r.Success? <==> user in userIds && recipe in recipeIds && RecipeRelation(user, recipe) !in rows
    ensures r.Success? ==> r.value == RecipeRelation(user, recipe)
    ensures recipe !in recipeIds ==> r.Failure? && RecipeDoesNotExist(recipe) in r.error
    ensures user in userIds && recipe in recipeIds && RecipeRelation(user, recipe) in rows ==>
      r == Failure([AlreadyAdded(kind)])
  {
    var fieldErrors := RelationFieldErrors(userIds, recipeIds, user, recipe);
    if fieldErrors != [] then Failure(fieldErrors)
    else if RecipeRelation(user, recipe) in rows then Failure([AlreadyAdded(kind)])
    else Success(RecipeRelation(user, recipe))
  }

  /** Saving what the relation serializer accepted keeps the table valid, and
      the same request made again is refused as a duplicate. */
  lemma AcceptedRelationKeepsTableValid(kind: RelationKind, rows: seq<RecipeRelation>, userIds: set<UserId>,
                                        recipeIds: set<RecipeId>, user: UserId, recipe: RecipeId)
    requires RelationValid(rows, userIds, recipeIds)
    requires ValidateRecipeRelation(kind, rows, userIds, recipeIds, user, recipe).Success?
    ensures RelationValid(rows + [RecipeRelation(user, recipe)], userIds, recipeIds)
    ensures ValidateRecipeRelation(kind, rows + [RecipeRelation(user, recipe)], userIds, recipeIds, user, recipe)
      == Failure([AlreadyAdded(kind)])
  {
    var x := RecipeRelation(user, recipe);
    var rows' := rows + [x];
    assert multiset(rows') == multiset(rows) + multiset{x};
    assert x in rows';
    forall y | y in rows' ensures y.user in userIds && y.recipe in recipeIds && multiset(rows')[y] == 1 {
      if y != x {
        assert y in multiset(rows');
        assert y in multiset(rows);
      }
    }
  }

  /** `validate_author`: nobody may subscribe to themselves. */
  function ValidateAuthor(author: UserId, user: UserId): (r: Result<UserId, RelationError>)
    ensures r.Failure? <==> author == user
    ensures r.Failure? ==> r.error == SelfSubscription
    ensures r.Success? ==> r.value == author
  {
    if author == user then Failure(SelfSubscription) else Success(author)
  }

  /** SubscriptionCreateSerializer on {author, user}: the author must exist and
      must not be the user, the user must exist; then the pair must be new. */
  function ValidateSubscription(follows: seq<Follow>, userIds: set<UserId>, user: UserId, author: UserId)
    : (r: Result<Follow, seq<RelationError>>)
    ensures r.Success? <==> author in userIds && user in userIds && author != user && Follow(user, author) !in follows
    ensures r.Success? ==> r.value == Follow(user, author)
    ensures author in userIds && author == user ==> r.Failure? && SelfSubscription in r.error
    ensures author in userIds && user in userIds && author != user && Follow(user, author) in follows ==>
      r == Failure([AlreadySubscribed])
  {
    var authorErrors :=
      if author !in userIds then [AuthorDoesNotExist(author)]
      else match ValidateAuthor(author, user)
        case Failure(e) => [e]
        case Success(_) => [];
    var userErrors := if user in userIds then [] else [UserDoesNotExist(user)];
    if authorErrors + userErrors != [] then Failure(authorErrors + userErrors)
    else if Follow(user, author) in follows then Failure([AlreadySubscribed])
    else Success(Follow(user, author))
  }

  /** Saving an accepted subscription keeps the follow table valid: no
      self-follow and no repeated pair. */
  lemma AcceptedSubscriptionKeepsTableValid(follows: seq<Follow>, userIds: set<UserId>, user: UserId, author: UserId)
    requires FollowsValid(follows, userIds)
    requires ValidateSubscription(follows, userIds, user, author).Success?
    ensures FollowsValid(follows + [Follow(user, author)], userIds)
  {
    var x := Follow(user, author);
    var follows' := follows + [x];
    assert multiset(follows') == multiset(follows) + multiset{x};
    forall y | y in follows' ensures multiset(follows')[y] == 1 {
      if y != x {
        assert y in multiset(follows');
        assert y in multiset(follows);
      }
    }
  }

  // ---------------------------------------------------------------------
  // Read-side getters

  /** `get_is_favorited` / `get_is_in_shopping_cart` over that table: a
      signed-in viewer with a row for the recipe. */
  predicate IsMarked(viewer: RequestUser, rows: seq<RecipeRelation>, recipe: RecipeId) {
    IsAuthenticated(viewer) && exists x :: x in rows && x.user == viewer.id && x.recipe == recipe
  }

  /** `get_is_subscribed`: a signed-in viewer following the author. */
  predicate IsSubscribed(viewer: RequestUser, follows: seq<Follow>, author: UserId) {
    IsAuthenticated(viewer) && exists f :: f in follows && f.user == viewer.id && f.author == author
  }

  /** An anonymous viewer sees no marks and no subscriptions; a signed-in one
      sees exactly the rows that name them. */
  lemma GettersReadTheViewersRows(viewer: RequestUser, rows: seq<RecipeRelation>, follows: seq<Follow>,
                                  recipe: RecipeId, author: UserId)
    ensures viewer.Anonymous? ==> !IsMarked(viewer, rows, recipe) && !IsSubscribed(viewer, follows, author)
    ensures viewer.SignedIn? ==>
      && (IsMarked(viewer, rows, recipe) <==> RecipeRelation(viewer.id, recipe) in rows)
      && (IsSubscribed(viewer, follows, author) <==> Follow(viewer.id, author) in follows)
  {
    if viewer.SignedIn? && RecipeRelation(viewer.id, recipe) in rows {
      assert RecipeRelation(viewer.id, recipe).user == viewer.id;
    }
    if viewer.SignedIn? && Follow(viewer.id, author) in follows {
      assert Follow(viewer.id, author).user == viewer.id;
    }
  }

  /** `obj.recipes.all()`: the author's recipes, in table order. */
  function AuthoredBy(recipes: seq<Recipe>, author: UserId): (r: seq<Recipe>)
    ensures forall x :: x in r <==> x in recipes && x.author == author
    ensures |r| <= |recipes|
  {
    if recipes == [] then []
    else
      assert recipes == [recipes[0]] + recipes[1..];
      (if recipes[0].author == author then [recipes[0]] else []) + AuthoredBy(recipes[1..], author)
  }

  datatype LimitError =
    | NotAnInteger      // `int()` raises
    | NegativeLimit     // a query set refuses a negative slice bound

  /** The `recipes_limit` query parameter: absent or empty means no limit;
      otherwise it must parse as an integer. */
  function ParseLimit(limit: Option<string>): (r: Result<Option<int>, LimitError>)
    ensures limit.None? || limit == Some("") ==> r == Success(None)
    ensures limit.Some? && limit.value != "" ==>
      (r.Success? <==> IsIntLiteral(limit.value)) && (r.Success? ==> r.value == Some(ParseInt(limit.value)))
  {
    if limit.None? || limit.value == "" then Success(None)
    else if IsIntLiteral(limit.value) then Success(Some(ParseInt(limit.value)))
    else Failure(NotAnInteger)
  }

  /** `get_recipes`: the author's recipes newest first, optionally cut to the
      first `recipes_limit` of them. */
  function GetRecipes(recipes: seq<Recipe>, author: UserId, limit: Option<string>)
    : (r: Result<seq<Recipe>, LimitError>)
    ensures r.Success? ==> IsNewestFirst(r.value)
    ensures r.Success? ==> forall x :: x in r.value ==> x in recipes && x.author == author
    ensures r.Success? ==> |r.value| <= |AuthoredBy(recipes, author)|
    ensures r.Success? ==> r.value == NewestFirst(AuthoredBy(recipes, author))[..|r.value|]
    ensures limit.None? || limit == Some("") ==> r == Success(NewestFirst(AuthoredBy(recipes, author)))
  {
    var all := NewestFirst(AuthoredBy(recipes, author));
    assert forall x :: x in all ==> x in AuthoredBy(recipes, author) by {
      forall x | x in all ensures x in AuthoredBy(recipes, author) {
        assert x in multiset(all);
      }
    }
    match ParseLimit(limit)
    case Failure(e) => Failure(e)
    case Success(None) => Success(all)
    case Success(Some(n)) =>
      if n < 0 then Failure(NegativeLimit)
      else if n >= |all| then Success(all)
      else Success(all[..n])
  }

  /** With `recipes_limit` set to the decimal form of `n`: a negative `n` is
      refused, otherwise the list holds `min(n, count)` recipes. */
  lemma GetRecipesLimited(recipes: seq<Recipe>, author: UserId, n: int)
    ensures var r := GetRecipes(recipes, author, Some(IntToString(n)));
      && (r.Success? <==> n >= 0)
      && (r == Failure(NegativeLimit) <==> n < 0)
      && (r.Success? ==> |r.value| == if n < |AuthoredBy(recipes, author)| then n else |AuthoredBy(recipes, author)|)
  {
    IntToStringRoundTrip(n);
  }

  /** `get_recipes_count`: how many recipes the author has. */
  function GetRecipesCount(recipes: seq<Recipe>, author: UserId): nat {
    if recipes == [] then 0
    else (if recipes[0].author == author then 1 else 0) + GetRecipesCount(recipes[1..], author)
  }

  /** The count agrees with the unlimited recipe list. */
  lemma {:induction false} RecipesCountIsListLength(recipes: seq<Recipe>, author: UserId)
    ensures GetRecipesCount(recipes, author) == |AuthoredBy(recipes, author)|
    ensures GetRecipesCount(recipes, author) == |GetRecipes(recipes, author, None).value|
  {
    if recipes != [] {
      RecipesCountIsListLength(recipes[1..], author);
    }
  }

  // ---------------------------------------------------------------------
  // Saving a recipe

  /** The links `create_ingredients` builds: one per payload item, in order. */
  function LinksFor(recipe: RecipeId, items: seq<IngredientAmount>): (r: seq<IngredientLink>)
    ensures |r| == |items|
    ensures forall i :: 0 <= i < |items| ==> r[i] == IngredientLink(recipe, items[i].id, items[i].amount)
  {
    if items == [] then [] else [IngredientLink(recipe, items[0].id, items[0].amount)] + LinksFor(recipe, items[1..])
  }

  /** `create_ingredients`: collect one link per item, then insert them all. */
  method CreateIngredients(db: Database, recipe: RecipeId, items: seq<IngredientAmount>)
    modifies db`links
    ensures db.links == old(db.links) + LinksFor(recipe, items)
  {
    var toCreate: seq<IngredientLink> := [];
    for i := 0 to |items|
      invariant |toCreate| == i
      invariant forall k :: 0 <= k < i ==> toCreate[k] == IngredientLink(recipe, items[k].id, items[k].amount)
    {
      toCreate := toCreate + [IngredientLink(recipe, items[i].id, items[i].amount)];
    }
    db.links := db.links + toCreate;
  }

  /** `recipe.tags.set(tags)`. */
  method SetTags(db: Database, recipe: RecipeId, tags: seq<TagId>)
    modifies db`recipeTags
    ensures db.recipeTags == TagsWithout(old(db.recipeTags), recipe) + TagLinks(recipe, tags)
    ensures TagsOf(db.recipeTags, recipe) == ElementSet(tags)
    ensures forall other :: other != recipe ==> TagsOf(db.recipeTags, other) == TagsOf(old(db.recipeTags), other)
  {
    TagsOfAfterSet(db.recipeTags, recipe, tags);
    db.recipeTags := TagsWithout(db.recipeTags, recipe) + TagLinks(recipe, tags);
  }

  /** After `tags.set`, the recipe's tags are exactly the given ones and every
      other recipe keeps its tags. */
  lemma TagsOfAfterSet(recipeTags: set<RecipeTag>, recipe: RecipeId, tags: seq<TagId>)
    ensures TagsOf(TagsWithout(recipeTags, recipe) + TagLinks(recipe, tags), recipe) == ElementSet(tags)
    ensures forall other :: other != recipe ==>
      TagsOf(TagsWithout(recipeTags, recipe) + TagLinks(recipe, tags), other) == TagsOf(recipeTags, other)
  {
    assert forall t :: t in tags ==> RecipeTag(recipe, t) in TagLinks(recipe, tags);
  }

  /** The links of one validated payload: each names the recipe, a known
      ingredient and an amount in range, and no pair repeats. */
  lemma LinksForValid(recipe: RecipeId, items: seq<IngredientAmount>, recipeIds: set<RecipeId>,
                      ingredientIds: set<IngredientId>)
    requires recipe in recipeIds && IdsDistinct(items)
    requires forall it :: it in items ==> it.id in ingredientIds && InAmountRange(it.amount)
    ensures LinksValid(LinksFor(recipe, items), recipeIds, ingredientIds)
    ensures LinksOf(LinksFor(recipe, items), recipe) == LinksFor(recipe, items)
    ensures forall other :: other != recipe ==> LinksOf(LinksFor(recipe, items), other) == []
  {
    var ls := LinksFor(recipe, items);
    forall l | l in ls ensures l.recipe == recipe && l.ingredient in ingredientIds && InAmountRange(l.amount) {
      var i :| 0 <= i < |ls| && ls[i] == l;
      assert items[i] in items;
    }
    LinksOfAll(ls, recipe);
    forall other | other != recipe ensures LinksOf(ls, other) == [] {
      LinksOfNone(ls, other);
    }
  }

  /** Appending freshly built links for a recipe with no links yet keeps the
      table valid, and leaves the recipe with exactly those links. */
  lemma AppendLinksKeepsValid(base: seq<IngredientLink>, recipe: RecipeId, items: seq<IngredientAmount>,
                              recipeIds: set<RecipeId>, ingredientIds: set<IngredientId>)
    requires LinksValid(base, recipeIds, ingredientIds)
    requires forall l :: l in base ==> l.recipe != recipe
    requires recipe in recipeIds && IdsDistinct(items)
    requires forall it :: it in items ==> it.id in ingredientIds && InAmountRange(it.amount)
    ensures LinksValid(base + LinksFor(recipe, items), recipeIds, ingredientIds)
    ensures LinksOf(base + LinksFor(recipe, items), recipe) == LinksFor(recipe, items)
    ensures forall other :: other != recipe ==> LinksOf(base + LinksFor(recipe, items), other) == LinksOf(base, other)
  {
    var added := LinksFor(recipe, items);
    LinksForValid(recipe, items, recipeIds, ingredientIds);
    var all := base + added;
    forall i, j | 0 <= i < j < |all| ensures all[i].recipe != all[j].recipe || all[i].ingredient != all[j].ingredient {
      if j < |base| {
        assert all[i] == base[i] && all[j] == base[j];
      } else if i >= |base| {
        assert all[i] == added[i - |base|] && all[j] == added[j - |base|];
      } else {
        assert all[i] == base[i] && base[i] in base;
        assert all[j] == added[j - |base|];
      }
    }
    LinksOfAppend(base, added, recipe);
    LinksOfNone(base, recipe);
    forall other | other != recipe ensures LinksOf(all, other) == LinksOf(base, other) {
      LinksOfAppend(base, added, other);
      assert LinksOf(all, other) == LinksOf(base, other) + [];
    }
  }

  /** A recipe appended with the next id, an existing author, a cooking time in
      range and no (name, text) twin keeps the recipe table valid. */
  lemma AppendRecipeKeepsValid(recipes: seq<Recipe>, nextId: nat, userIds: set<UserId>, r: Recipe)
    requires RecipesValid(recipes, nextId, userIds)
    requires r.id == nextId && r.author in userIds && InAmountRange(r.cookingTime)
    requires !DuplicateRecipe(recipes, r.name, r.text, None)
    ensures RecipesValid(recipes + [r], nextId + 1, userIds)
    ensures RecipeIds(recipes + [r]) == RecipeIds(recipes) + {r.id}
    ensures r.id !in RecipeIds(recipes)
  {
    var rs := recipes + [r];
    forall i, j | 0 <= i < j < |rs|
      ensures rs[i].id != rs[j].id && (rs[i].name != rs[j].name || rs[i].text != rs[j].text)
    {
      assert rs[i] == recipes[i] && recipes[i] in recipes;
      if j < |recipes| {
        assert rs[j] == recipes[j];
      }
    }
    assert forall x :: x in rs <==> x in recipes || x == r;
  }

  /** `super().update`: each plain field present in the validated data
      overwrites the instance's, an absent one keeps it, and the id, author
      and creation time never change. */
  function Edited(r: Recipe, data: RecipePayload): (e: Recipe)
    ensures e.id == r.id && e.author == r.author && e.createdAt == r.createdAt
    ensures e.name == data.name.GetOr(r.name) && e.image == data.image.GetOr(r.image)
    ensures e.text == data.text.GetOr(r.text) && e.cookingTime == data.cookingTime.GetOr(r.cookingTime)
  {
    r.(name := if data.name.Some? then data.name.value else r.name,
       image := if data.image.Some? then data.image.value else r.image,
       text := if data.text.Some? then data.text.value else r.text,
       cookingTime := if data.cookingTime.Some? then data.cookingTime.value else r.cookingTime)
  }

  /** Editing one recipe with values that passed validation keeps the table
      valid and keeps its set of ids. */
  lemma EditRecipeKeepsValid(recipes: seq<Recipe>, nextId: nat, userIds: set<UserId>, k: nat, data: RecipePayload)
    requires RecipesValid(recipes, nextId, userIds) && k < |recipes|
    requires data.cookingTime.Some? ==> InAmountRange(data.cookingTime.value)
    requires !DuplicateRecipe(recipes, Edited(recipes[k], data).name, Edited(recipes[k], data).text, Some(recipes[k].id))
    ensures RecipesValid(recipes[k := Edited(recipes[k], data)], nextId, userIds)
    ensures RecipeIds(recipes[k := Edited(recipes[k], data)]) == RecipeIds(recipes)
  {
    var rs := recipes[k := Edited(recipes[k], data)];
    assert recipes[k] in recipes;
    forall x | x in rs ensures x.id < nextId && x.author in userIds && InAmountRange(x.cookingTime) {
      var i :| 0 <= i < |rs| && rs[i] == x;
      assert recipes[i] in recipes;
    }
    forall i, j | 0 <= i < j < |rs|
      ensures rs[i].id != rs[j].id && (rs[i].name != rs[j].name || rs[i].text != rs[j].text)
    {
      assert recipes[i] in recipes && recipes[j] in recipes;
    }
    forall x | x in RecipeIds(recipes) ensures x in RecipeIds(rs) {
      var r :| r in recipes && r.id == x;
      var i :| 0 <= i < |recipes| && recipes[i] == r;
      assert rs[i].id == x;
    }
  }

  /** What the stored rows demand of validated data: the nested lists (an
      absent one read as empty) name existing rows with no ingredient twice,
      and a cooking time that is given lies in range. */
  predicate Storable(data: RecipePayload, tagIds: set<TagId>, ingredientIds: set<IngredientId>) {
    && (forall t :: t in data.tags.GetOr([]) ==> t in tagIds)
    && IdsDistinct(data.ingredients.GetOr([]))
    && (forall it :: it in data.ingredients.GetOr([]) ==> it.id in ingredientIds && InAmountRange(it.amount))
    && (data.cookingTime.Some? ==> InAmountRange(data.cookingTime.value))
  }

  /** The data an accepted payload validates to is what `create` and `update`
      receive: it can be stored, it has both nested lists (and every field
      when the request is not partial), and the unique-together rule holds
      for it. */
  lemma AcceptedIsStorable(p: RecipePayload, tagIds: set<TagId>, ingredientIds: set<IngredientId>,
                           recipes: seq<Recipe>, partial: bool, instance: Option<RecipeId>)
    requires RunValidation(p, tagIds, ingredientIds, recipes, partial, instance).Success?
    ensures Storable(Cleaned(p), tagIds, ingredientIds)
    ensures Cleaned(p).tags.Some? && Cleaned(p).ingredients.Some?
    ensures !partial ==> Cleaned(p).name.Some? && Cleaned(p).image.Some? && Cleaned(p).text.Some?
                         && Cleaned(p).cookingTime.Some?
    ensures UniqueTogetherErrors(Cleaned(p), recipes, instance) == []
  {
    ValidatedPayload(p, tagIds, ingredientIds, recipes, partial, instance);
  }

  /** Inserting a recipe built from storable data that the unique-together
      rule accepts, with its links and its tags, keeps every table valid. */
  lemma CreateKeepsTablesValid(users: map<UserId, User>, tags: map<TagId, Tag>,
                               ingredients: map<IngredientId, Ingredient>, recipes: seq<Recipe>, nextId: nat,
                               links: seq<IngredientLink>, recipeTags: set<RecipeTag>,
                               favorites: seq<RecipeRelation>, carts: seq<RecipeRelation>, follows: seq<Follow>,
                               data: RecipePayload, recipe: Recipe)
    requires TablesValid(users, tags, ingredients, recipes, nextId, links, recipeTags, favorites, carts, follows)
    requires Storable(data, tags.Keys, ingredients.Keys) && data.tags.Some? && data.ingredients.Some?
    requires UniqueTogetherErrors(data, recipes, None) == []
    requires recipe.id == nextId && recipe.author in users
    requires data.name == Some(recipe.name) && data.text == Some(recipe.text)
    requires data.cookingTime == Some(recipe.cookingTime)
    ensures recipe.id !in RecipeIds(recipes)
    ensures TagsWithout(recipeTags, recipe.id) == recipeTags
    ensures forall l :: l in links ==> l.recipe != recipe.id
    ensures TablesValid(users, tags, ingredients, recipes + [recipe], nextId + 1,
                        links + LinksFor(recipe.id, data.ingredients.value), recipeTags + TagLinks(recipe.id, data.tags.value),
                        favorites, carts, follows)
  {
    AppendRecipeKeepsValid(recipes, nextId, users.Keys, recipe);
    var ids := RecipeIds(recipes + [recipe]);
    AppendLinksKeepsValid(links, recipe.id, data.ingredients.value, ids, ingredients.Keys);
  }

  /** Rewriting one recipe, its links and its tags with values that keep the
      recipe table valid and that name existing ingredients and tags keeps
      every table valid. */
  lemma RewriteKeepsTablesValid(users: map<UserId, User>, tags: map<TagId, Tag>,
                               ingredients: map<IngredientId, Ingredient>, recipes: seq<Recipe>, nextId: nat,
                               links: seq<IngredientLink>, recipeTags: set<RecipeTag>,
                               favorites: seq<RecipeRelation>, carts: seq<RecipeRelation>, follows: seq<Follow>,
                               k: nat, edited: Recipe, items: seq<IngredientAmount>, tagList: seq<TagId>)
    requires TablesValid(users, tags, ingredients, recipes, nextId, links, recipeTags, favorites, carts, follows)
    requires k < |recipes| && recipes[k].id == edited.id
    requires RecipesValid(recipes[k := edited], nextId, users.Keys)
    requires RecipeIds(recipes[k := edited]) == RecipeIds(recipes)
    requires IdsDistinct(items) && forall it :: it in items ==> it.id in ingredients.Keys && InAmountRange(it.amount)
    requires forall t :: t in tagList ==> t in tags.Keys
    ensures TablesValid(users, tags, ingredients, recipes[k := edited], nextId,
                        LinksWithout(links, edited.id) + LinksFor(edited.id, items),
                        TagsWithout(recipeTags, edited.id) + TagLinks(edited.id, tagList),
                        favorites, carts, follows)
  {
    assert recipes[k] in recipes;
    AppendLinksKeepsValid(LinksWithout(links, edited.id), edited.id, items, RecipeIds(recipes), ingredients.Keys);
  }

  /** Rewriting one recipe, its links and its tags from storable data that
      the unique-together rule accepts for that recipe keeps every table
      valid. */
  lemma UpdateKeepsTablesValid(users: map<UserId, User>, tags: map<TagId, Tag>,
                               ingredients: map<IngredientId, Ingredient>, recipes: seq<Recipe>, nextId: nat,
                               links: seq<IngredientLink>, recipeTags: set<RecipeTag>,
                               favorites: seq<RecipeRelation>, carts: seq<RecipeRelation>, follows: seq<Follow>,
                               data: RecipePayload, k: nat)
    requires TablesValid(users, tags, ingredients, recipes, nextId, links, recipeTags, favorites, carts, follows)
    requires k < |recipes|
    requires Storable(data, tags.Keys, ingredients.Keys)
    requires UniqueTogetherErrors(data, recipes, Some(recipes[k].id)) == []
    ensures TablesValid(users, tags, ingredients, recipes[k := Edited(recipes[k], data)], nextId,
                        LinksWithout(links, recipes[k].id) + LinksFor(recipes[k].id, data.ingredients.GetOr([])),
                        TagsWithout(recipeTags, recipes[k].id) + TagLinks(recipes[k].id, data.tags.GetOr([])),
                        favorites, carts, follows)
  {
    RecipeIdsDistinct(recipes, nextId, users.Keys, k);
    assert IndexOfRecipe(recipes, recipes[k].id) == k;
    EditRecipeKeepsValid(recipes, nextId, users.Keys, k, data);
    RewriteKeepsTablesValid(users, tags, ingredients, recipes, nextId, links, recipeTags, favorites, carts, follows,
                            k, Edited(recipes[k], data), data.ingredients.GetOr([]), data.tags.GetOr([]));
  }

  /** `create` inside its transaction, on the validated data: insert the
      recipe with the requesting user as author, then its links, then its
      tags. */
  method Create(db: Database, data: RecipePayload, author: UserId, now: int) returns (recipe: Recipe)
    requires db.Valid() && author in db.users
    requires Storable(data, db.tags.Keys, db.ingredients.Keys)
    requires data.tags.Some? && data.ingredients.Some?
    requires data.name.Some? && data.image.Some? && data.text.Some? && data.cookingTime.Some?
    requires UniqueTogetherErrors(data, db.recipes, None) == []
    modifies db`recipes, db`nextRecipeId, db`links, db`recipeTags
    ensures db.Valid()
    ensures recipe == Recipe(old(db.nextRecipeId), now, data.name.value, author, data.image.value,
                             data.text.value, data.cookingTime.value)
    ensures recipe.id !in RecipeIds(old(db.recipes))
    ensures db.recipes == old(db.recipes) + [recipe]
    ensures db.nextRecipeId == old(db.nextRecipeId) + 1
    ensures db.links == old(db.links) + LinksFor(recipe.id, data.ingredients.value)
    ensures db.recipeTags == old(db.recipeTags) + TagLinks(recipe.id, data.tags.value)
    ensures TagsOf(db.recipeTags, recipe.id) == ElementSet(data.tags.value)
    ensures forall other :: other != recipe.id ==> TagsOf(db.recipeTags, other) == TagsOf(old(db.recipeTags), other)
  {
    recipe := Recipe(db.nextRecipeId, now, data.name.value, author, data.image.value,
                     data.text.value, data.cookingTime.value);
    CreateKeepsTablesValid(db.users, db.tags, db.ingredients, db.recipes, db.nextRecipeId, db.links, db.recipeTags,
                           db.favorites, db.carts, db.follows, data, recipe);
    Insert(db, recipe, data.ingredients.value, data.tags.value);
    TagsOfAfterSet(old(db.recipeTags), recipe.id, data.tags.value);
  }

  /** The three writes of `create`, in order, for a recipe taking the next id:
      the tables they leave behind are valid when those values are. */
  method Insert(db: Database, recipe: Recipe, items: seq<IngredientAmount>, tags: seq<TagId>)
    requires TagsWithout(db.recipeTags, recipe.id) == db.recipeTags
    modifies db`recipes, db`nextRecipeId, db`links, db`recipeTags
    ensures db.recipes == old(db.recipes) + [recipe]
    ensures db.nextRecipeId == old(db.nextRecipeId) + 1
    ensures db.links == old(db.links) + LinksFor(recipe.id, items)
    ensures db.recipeTags == old(db.recipeTags) + TagLinks(recipe.id, tags)
  {
    db.recipes := db.recipes + [recipe];
    db.nextRecipeId := db.nextRecipeId + 1;
    CreateIngredients(db, recipe.id, items);
    SetTags(db, recipe.id, tags);
  }

  /** After `create`, the new recipe's links are exactly the payload's items
      and every other recipe keeps its links. */
  lemma AddedLinksOf(links: seq<IngredientLink>, id: RecipeId, items: seq<IngredientAmount>)
    requires forall l :: l in links ==> l.recipe != id
    ensures var after := links + LinksFor(id, items);
      && LinksOf(after, id) == LinksFor(id, items)
      && forall other :: other != id ==> LinksOf(after, other) == LinksOf(links, other)
  {
    LinksOfAppend(links, LinksFor(id, items), id);
    LinksOfNone(links, id);
    LinksForAllOf(id, items);
    forall other | other != id ensures LinksOf(links + LinksFor(id, items), other) == LinksOf(links, other) {
      LinksOfAppend(links, LinksFor(id, items), other);
      LinksForNoneOf(id, items, other);
      assert LinksOf(links + LinksFor(id, items), other) == LinksOf(links, other) + [];
    }
  }

  /** `update` inside its transaction, on the validated data: drop the
      recipe's links, insert the data's (an absent key counts as empty), reset
      its tags, then copy the plain fields the data holds. */
  method Update(db: Database, id: RecipeId, data: RecipePayload)
    requires db.Valid() && id in RecipeIds(db.recipes)
    requires Storable(data, db.tags.Keys, db.ingredients.Keys)
    requires UniqueTogetherErrors(data, db.recipes, Some(id)) == []
    modifies db`recipes, db`links, db`recipeTags
    ensures db.Valid()
    ensures |db.recipes| == |old(db.recipes)|
    ensures forall i :: 0 <= i < |db.recipes| ==>
      db.recipes[i] == if old(db.recipes[i]).id == id then Edited(old(db.recipes[i]), data) else old(db.recipes[i])
    ensures db.links == LinksWithout(old(db.links), id) + LinksFor(id, data.ingredients.GetOr([]))
    ensures db.recipeTags == TagsWithout(old(db.recipeTags), id) + TagLinks(id, data.tags.GetOr([]))
    ensures TagsOf(db.recipeTags, id) == ElementSet(data.tags.GetOr([]))
    ensures forall other :: other != id ==> TagsOf(db.recipeTags, other) == TagsOf(old(db.recipeTags), other)
  {
    var k := IndexOfRecipe(db.recipes, id);
    UpdateKeepsTablesValid(db.users, db.tags, db.ingredients, db.recipes, db.nextRecipeId, db.links, db.recipeTags,
                           db.favorites, db.carts, db.follows, data, k);
    RecipeIdsDistinct(db.recipes, db.nextRecipeId, db.users.Keys, k);
    Rewrite(db, k, Edited(db.recipes[k], data), data.ingredients.GetOr([]), data.tags.GetOr([]));
    TagsOfAfterSet(old(db.recipeTags), id, data.tags.GetOr([]));
  }

  /** The four writes of `update`, in order, for the recipe at `k`: the
      tables they leave behind are valid when those values are. */
  method Rewrite(db: Database, k: nat, edited: Recipe, items: seq<IngredientAmount>, tags: seq<TagId>)
    requires k < |db.recipes|
    modifies db`recipes, db`links, db`recipeTags
    ensures db.recipes == old(db.recipes)[k := edited]
    ensures db.links == LinksWithout(old(db.links), edited.id) + LinksFor(edited.id, items)
    ensures db.recipeTags == TagsWithout(old(db.recipeTags), edited.id) + TagLinks(edited.id, tags)
  {
    db.links := LinksWithout(db.links, edited.id);
    CreateIngredients(db, edited.id, items);
    SetTags(db, edited.id, tags);
    db.recipes := db.recipes[k := edited];
  }

  /** Where the recipe with `id` sits in the table (`get_object` by primary key). */
  function IndexOfRecipe(recipes: seq<Recipe>, id: RecipeId): (k: nat)
    requires id in RecipeIds(recipes)
    ensures k < |recipes| && recipes[k].id == id
  {
    if recipes[0].id == id then 0
    else
      assert id in RecipeIds(recipes[1..]) by {
        var r :| r in recipes && r.id == id;
        var i :| 0 <= i < |recipes| && recipes[i] == r;
        assert i != 0 && recipes[1..][i - 1] == r;
      }
      1 + IndexOfRecipe(recipes[1..], id)
  }

  /** Only the recipe at `k` carries its id. */
  lemma RecipeIdsDistinct(recipes: seq<Recipe>, nextId: nat, userIds: set<UserId>, k: nat)
    requires RecipesValid(recipes, nextId, userIds) && k < |recipes|
    ensures forall i :: 0 <= i < |recipes| ==> (recipes[i].id == recipes[k].id <==> i == k)
  {
  }

  /** After `update`, the recipe's links are exactly the payload's items (none
      of the old ones survive) and every other recipe keeps its links. */
  lemma UpdateLinksOf(links: seq<IngredientLink>, id: RecipeId, data: RecipePayload)
    ensures var after := LinksWithout(links, id) + LinksFor(id, data.ingredients.GetOr([]));
      && LinksOf(after, id) == LinksFor(id, data.ingredients.GetOr([]))
      && forall other :: other != id ==> LinksOf(after, other) == LinksOf(links, other)
  {
    var items := data.ingredients.GetOr([]);
    var cleared := LinksWithout(links, id);
    LinksOfAppend(cleared, LinksFor(id, items), id);
    LinksOfNone(cleared, id);
    LinksForAllOf(id, items);
    forall other | other != id ensures LinksOf(cleared + LinksFor(id, items), other) == LinksOf(links, other) {
      LinksOfAppend(cleared, LinksFor(id, items), other);
      LinksOfWithout(links, id, other);
      LinksForNoneOf(id, items, other);
    }
  }

  lemma LinksForAllOf(recipe: RecipeId, items: seq<IngredientAmount>)
    ensures LinksOf(LinksFor(recipe, items), recipe) == LinksFor(recipe, items)
  {
    var ls := LinksFor(recipe, items);
    assert forall l :: l in ls ==> l.recipe == recipe;
    LinksOfAll(ls, recipe);
  }

  lemma LinksForNoneOf(recipe: RecipeId, items: seq<IngredientAmount>, other: RecipeId)
    requires other != recipe
    ensures LinksOf(LinksFor(recipe, items), other) == []
  {
    var ls := LinksFor(recipe, items);
    assert forall l :: l in ls ==> l.recipe == recipe;
    LinksOfNone(ls, other);
  }

  /** Dropping one recipe's links leaves every other recipe's links as they were. */
  lemma {:induction false} LinksOfWithout(links: seq<IngredientLink>, recipe: RecipeId, other: RecipeId)
    requires other != recipe
    ensures LinksOf(LinksWithout(links, recipe), other) == LinksOf(links, other)
  {
    if links != [] {
      LinksOfWithout(links[1..], recipe, other);
      if links[0].recipe != recipe {
        var rest := LinksWithout(links[1..], recipe);
        assert ([links[0]] + rest)[0] == links[0] && ([links[0]] + rest)[1..] == rest;
      }
    }
  }
}
