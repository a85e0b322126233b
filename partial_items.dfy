/** The nested `ingredients` items of a recipe payload as the framework hands
    them over. On a partial update a missing `id` or `amount` inside an item is
    skipped rather than required: the empty-value check of every field consults
    the `partial` flag of the root serializer, and the root of a nested item is
    the recipe serializer. The rest of the model uses items that always carry
    both keys (`Serializers.IngredientAmount`); this module shows what the
    service does otherwise, and that requiring both keys makes the two agree. */
module PartialItems {
  import opened Wrappers
  import opened RecipesModels
  import opened Serializers

  /** One item as sent; a key the client left out is `None`. */
  datatype RawItem = RawItem(id: Option<IngredientId>, amount: Option<int>)

  datatype ItemKey = IdKey | AmountKey

  datatype ItemError =
    | ItemKeyRequired(key: ItemKey)              // a required key of the item is absent
    | ItemIngredientDoesNotExist(ingredient: IngredientId)
    | ItemAmountOutOfRange(amount: int)
    | NoneNotFound                               // validate: `value.get('id')` is None
    | ItemDuplicate                              // validate: an ingredient repeats

  /** Field-level errors of one item: each key required unless partial; the
      primary key must exist and the amount lie in range. Every failing key is
      reported, `id` before `amount`. */
  function RawItemErrors(item: RawItem, known: set<IngredientId>, partial: bool): (r: seq<ItemError>)
    ensures |r| <= 2
    ensures r == [] <==>
      && (if item.id.None? then partial else item.id.value in known)
      && (if item.amount.None? then partial else InAmountRange(item.amount.value))
  {
    var idErrors :=
      match item.id
      case None => if partial then [] else [ItemKeyRequired(IdKey)]
      case Some(i) => if i in known then [] else [ItemIngredientDoesNotExist(i)];
    var amountErrors :=
      match item.amount
      case None => if partial then [] else [ItemKeyRequired(AmountKey)]
      case Some(a) => if InAmountRange(a) then [] else [ItemAmountOutOfRange(a)];
    idErrors + amountErrors
  }

  /** Every item passes its field-level checks. */
  predicate ItemsPass(items: seq<RawItem>, known: set<IngredientId>, partial: bool) {
    forall i :: 0 <= i < |items| ==> RawItemErrors(items[i], known, partial) == []
  }

  /** The loop of `validate` over raw items: `value.get('id')` is None for an
      item without `id`, and None is no ingredient. */
  function RawCheckIngredients(items: seq<RawItem>, known: set<IngredientId>, seen: set<IngredientId>)
    : Option<ItemError>
  {
    if items == [] then None
    else match items[0].id
      case None => Some(NoneNotFound)
      case Some(i) =>
        if i !in known then Some(ItemIngredientDoesNotExist(i))
        else if i in seen then Some(ItemDuplicate)
        else RawCheckIngredients(items[1..], known, seen + {i})
  }

  /** Both keys are present in every item. */
  predicate Complete(items: seq<RawItem>) {
    forall i :: 0 <= i < |items| ==> items[i].id.Some? && items[i].amount.Some?
  }

  /** The items of a complete list with their keys read out. */
  function Completed(items: seq<RawItem>): (r: seq<IngredientAmount>)
    requires Complete(items)
    ensures |r| == |items|
    ensures forall i :: 0 <= i < |items| ==> r[i] == IngredientAmount(items[i].id.value, items[i].amount.value)
  {
    if items == [] then [] else [IngredientAmount(items[0].id.value, items[0].amount.value)] + Completed(items[1..])
  }

  /** `create_ingredients` on raw items: `ingredient_data['id']` and
      `ingredient_data['amount']` raise `KeyError` (`None` here) for an item
      without that key; otherwise one link per item, in order. */
  function RawLinksFor(recipe: RecipeId, items: seq<RawItem>): (r: Option<seq<IngredientLink>>)
    ensures r.Some? <==> Complete(items)
    ensures r.Some? ==> r.value == LinksFor(recipe, Completed(items))
  {
    if items == [] then Some([])
    else if items[0].id.None? || items[0].amount.None? then None
    else match RawLinksFor(recipe, items[1..])
      case None => None
      case Some(rest) => Some([IngredientLink(recipe, items[0].id.value, items[0].amount.value)] + rest)
  }

  // ---------------------------------------------------------------------
  // As written: a partial update skips the keys of an item

  /** A partial update whose item names a known ingredient but no amount passes
      the field-level checks and `validate`, and `create_ingredients` then
      raises `KeyError` on `ingredient_data['amount']`. */
  lemma PartialItemWithoutAmountReachesKeyError(id: IngredientId, known: set<IngredientId>, recipe: RecipeId)
    requires id in known
    ensures ItemsPass([RawItem(Some(id), None)], known, true)
    ensures RawCheckIngredients([RawItem(Some(id), None)], known, {}) == None
    ensures RawLinksFor(recipe, [RawItem(Some(id), None)]) == None
  {
    assert [RawItem(Some(id), None)][1..] == [];
  }

  /** A partial update whose item has an amount but no `id` passes the
      field-level checks, and `validate` then refuses it as the ingredient
      "None"; with the key required it is refused as a missing `id`. */
  lemma PartialItemWithoutIdReportsNone(amount: int, known: set<IngredientId>)
    requires InAmountRange(amount)
    ensures ItemsPass([RawItem(None, Some(amount))], known, true)
    ensures RawCheckIngredients([RawItem(None, Some(amount))], known, {}) == Some(NoneNotFound)
    ensures RawItemErrors(RawItem(None, Some(amount)), known, false) == [ItemKeyRequired(IdKey)]
  {
  }

  // ---------------------------------------------------------------------
  // Corrected: both keys of an item are always required

  /** With both keys required, items that pass their field-level checks are
      complete, meet the demands that `Serializers.IngredientsFieldErrors`
      makes of `Serializers.IngredientAmount` items (partial or not),
      `validate` treats them as `Serializers.CheckIngredients` does, and
      `create_ingredients` stores exactly `Serializers.LinksFor` of them. */
  lemma {:induction false} CorrectedItemsAgree(items: seq<RawItem>, known: set<IngredientId>, seen: set<IngredientId>,
                                               partial: bool, recipe: RecipeId)
    requires ItemsPass(items, known, false)
    ensures Complete(items)
    ensures IngredientsFieldErrors(Some(Completed(items)), known, partial) == []
    ensures RawCheckIngredients(items, known, seen).None? <==> CheckIngredients(Completed(items), known, seen).None?
    ensures RawCheckIngredients(items, known, seen) == Some(ItemDuplicate) <==>
            CheckIngredients(Completed(items), known, seen) == Some(DuplicateIngredient)
    ensures RawCheckIngredients(items, known, seen) != Some(NoneNotFound)
    ensures RawLinksFor(recipe, items) == Some(LinksFor(recipe, Completed(items)))
    decreases |items|
  {
    assert forall i :: 0 <= i < |items| ==> RawItemErrors(items[i], known, false) == [];
    if items != [] {
      var c := Completed(items);
      var i := items[0].id.value;
      assert c[0] == IngredientAmount(i, items[0].amount.value);
      if i !in seen {
        assert ItemsPass(items[1..], known, false) by {
          forall k | 0 <= k < |items[1..]| ensures RawItemErrors(items[1..][k], known, false) == [] {
            assert items[1..][k] == items[k + 1];
          }
        }
        CorrectedItemsAgree(items[1..], known, seen + {i}, partial, recipe);
        assert c[1..] == Completed(items[1..]);
      }
    }
  }
}
