/** The shopping-list query of the recipe view set: the ingredient links of the
    recipes in a user's cart, grouped by (ingredient name, measurement unit),
    summed, and ordered by name, then unit. */
module Aggregation {
  import opened RecipesModels
  import Text

  /** One result row: `ingredient__name`, `ingredient__measurement_unit`,
      `total_amount`. */
  datatype CartRow = CartRow(name: string, unit: string, total: int)

  /** One joined link: the name and unit of its ingredient, and its amount. */
  datatype Entry = Entry(name: string, unit: string, amount: int)

  /** The grouping key (name, unit). */
  type Key = (string, string)

  function RowKey(r: CartRow): Key { (r.name, r.unit) }

  function EntryKey(e: Entry): Key { (e.name, e.unit) }

  function IngredientKey(i: Ingredient): Key { (i.name, i.measurementUnit) }

  /** `order_by('ingredient__name', 'ingredient__measurement_unit')`. */
  predicate KeyLess(a: Key, b: Key) {
    Text.StrLess(a.0, b.0) || (a.0 == b.0 && Text.StrLess(a.1, b.1))
  }

  lemma KeyLessIrreflexive(a: Key)
    ensures !KeyLess(a, a)
  {
    Text.StrLessIrreflexive(a.0);
    Text.StrLessIrreflexive(a.1);
  }

  lemma KeyLessTransitive(a: Key, b: Key, c: Key)
    requires KeyLess(a, b) && KeyLess(b, c)
    ensures KeyLess(a, c)
  {
    if Text.StrLess(a.0, b.0) && Text.StrLess(b.0, c.0) {
      Text.StrLessTransitive(a.0, b.0, c.0);
    } else if a.0 == b.0 && b.0 == c.0 {
      Text.StrLessTransitive(a.1, b.1, c.1);
    }
  }

  lemma KeyLessTotal(a: Key, b: Key)
    requires a != b
    ensures KeyLess(a, b) || KeyLess(b, a)
  {
    if a.0 != b.0 {
      Text.StrLessTotal(a.0, b.0);
    } else {
      Text.StrLessTotal(a.1, b.1);
    }
  }

  /** Ascending and without repeated keys. */
  predicate StrictlySorted(rows: seq<CartRow>) {
    forall i, j :: 0 <= i < j < |rows| ==> KeyLess(RowKey(rows[i]), RowKey(rows[j]))
  }

  predicate Below(k: Key, rows: seq<CartRow>) {
    forall r :: r in rows ==> KeyLess(k, RowKey(r))
  }

  function Keys(rows: seq<CartRow>): set<Key> {
    set r | r in rows :: RowKey(r)
  }

  /** The total of key `k` over `rows`. */
  function RowTotal(rows: seq<CartRow>, k: Key): int {
    if rows == [] then 0
    else (if RowKey(rows[0]) == k then rows[0].total else 0) + RowTotal(rows[1..], k)
  }

  /** The amounts of key `k` summed over `entries`. */
  function SumFor(entries: seq<Entry>, k: Key): int {
    if entries == [] then 0
    else (if EntryKey(entries[0]) == k then entries[0].amount else 0) + SumFor(entries[1..], k)
  }

  function EntryKeys(entries: seq<Entry>): set<Key> {
    set e | e in entries :: EntryKey(e)
  }

  /** Adds one entry to sorted rows: to the row of its key, or as a new row in
      its place. */
  function AddEntry(rows: seq<CartRow>, e: Entry): seq<CartRow> {
    if rows == [] then [CartRow(e.name, e.unit, e.amount)]
    else if RowKey(rows[0]) == EntryKey(e) then [rows[0].(total := rows[0].total + e.amount)] + rows[1..]
    else if KeyLess(EntryKey(e), RowKey(rows[0])) then [CartRow(e.name, e.unit, e.amount)] + rows
    else [rows[0]] + AddEntry(rows[1..], e)
  }

  /** Group, sum and sort (`values` / `annotate(Sum)` / `order_by`). */
  function Aggregate(entries: seq<Entry>): seq<CartRow> {
    if entries == [] then [] else AddEntry(Aggregate(entries[1..]), entries[0])
  }

  /** Whether link `l` belongs to the shopping list of `cart` under key `k`. */
  predicate Contributes(l: IngredientLink, ingredients: map<IngredientId, Ingredient>, cart: set<RecipeId>, k: Key) {
    l.recipe in cart && l.ingredient in ingredients && IngredientKey(ingredients[l.ingredient]) == k
  }

  /** `filter(recipe__shopping_cart__user=user)` joined with the ingredient
      table, in table order. */
  function CartEntries(links: seq<IngredientLink>, ingredients: map<IngredientId, Ingredient>, cart: set<RecipeId>): seq<Entry> {
    if links == [] then []
    else
      var l := links[0];
      (if l.recipe in cart && l.ingredient in ingredients
       then [Entry(ingredients[l.ingredient].name, ingredients[l.ingredient].measurementUnit, l.amount)]
       else [])
      + CartEntries(links[1..], ingredients, cart)
  }

  /** Reference total: the amounts of every link of the cart whose ingredient
      has key `k`. */
  function CartSum(links: seq<IngredientLink>, ingredients: map<IngredientId, Ingredient>, cart: set<RecipeId>, k: Key): int {
    if links == [] then 0
    else (if Contributes(links[0], ingredients, cart, k) then links[0].amount else 0)
         + CartSum(links[1..], ingredients, cart, k)
  }

  /** The rows `download_shopping_cart` hands to the PDF generator. */
  function ShoppingList(links: seq<IngredientLink>, ingredients: map<IngredientId, Ingredient>, cart: set<RecipeId>): seq<CartRow> {
    Aggregate(CartEntries(links, ingredients, cart))
  }

  lemma ConsSorted(x: CartRow, rest: seq<CartRow>)
    requires StrictlySorted(rest) && Below(RowKey(x), rest)
    ensures StrictlySorted([x] + rest)
  {
    var s := [x] + rest;
    forall i, j | 0 <= i < j < |s| ensures KeyLess(RowKey(s[i]), RowKey(s[j])) {
      if i == 0 {
        assert s[j] in rest;
      } else {
        assert s[i] == rest[i - 1] && s[j] == rest[j - 1];
      }
    }
  }

  lemma SortedTail(rows: seq<CartRow>)
    requires StrictlySorted(rows) && rows != []
    ensures StrictlySorted(rows[1..]) && Below(RowKey(rows[0]), rows[1..])
  {
    forall r | r in rows[1..] ensures KeyLess(RowKey(rows[0]), RowKey(r)) {
      var j :| 0 <= j < |rows[1..]| && rows[1..][j] == r;
      assert rows[j + 1] == r;
    }
  }

  lemma KeysCons(x: CartRow, rest: seq<CartRow>)
    ensures Keys([x] + rest) == {RowKey(x)} + Keys(rest)
  {
    var s := [x] + rest;
    forall k | k in Keys(s) ensures k in {RowKey(x)} + Keys(rest) {
      var r :| r in s && RowKey(r) == k;
      if r != x { assert r in rest; }
    }
    forall k | k in Keys(rest) ensures k in Keys(s) {
      var r :| r in rest && RowKey(r) == k;
      assert r in s;
    }
  }

  /** Adding an entry adds its key and nothing else. */
  lemma {:induction false} AddEntryKeys(rows: seq<CartRow>, e: Entry)
    ensures Keys(AddEntry(rows, e)) == Keys(rows) + {EntryKey(e)}
  {
    var out := AddEntry(rows, e);
    var single := CartRow(e.name, e.unit, e.amount);
    if rows == [] {
      KeysCons(single, []);
    } else {
      var r0 := rows[0];
      assert rows == [r0] + rows[1..];
      KeysCons(r0, rows[1..]);
      if RowKey(r0) == EntryKey(e) {
        KeysCons(out[0], rows[1..]);
      } else if KeyLess(EntryKey(e), RowKey(r0)) {
        KeysCons(single, rows);
      } else {
        AddEntryKeys(rows[1..], e);
        KeysCons(r0, AddEntry(rows[1..], e));
      }
    }
  }

  /** Adding an entry raises the total of its key by its amount, and only that. */
  lemma {:induction false} AddEntryTotals(rows: seq<CartRow>, e: Entry, k: Key)
    ensures RowTotal(AddEntry(rows, e), k) == RowTotal(rows, k) + (if k == EntryKey(e) then e.amount else 0)
  {
    var out := AddEntry(rows, e);
    if rows == [] {
      assert out[1..] == [];
    } else if RowKey(rows[0]) == EntryKey(e) {
      assert out[1..] == rows[1..];
    } else if KeyLess(EntryKey(e), RowKey(rows[0])) {
      assert out[1..] == rows;
    } else {
      AddEntryTotals(rows[1..], e, k);
      assert out[1..] == AddEntry(rows[1..], e);
    }
  }

  /** Adding an entry to an ascending list keeps it ascending. */
  lemma {:induction false} AddEntrySorted(rows: seq<CartRow>, e: Entry)
    requires StrictlySorted(rows)
    ensures StrictlySorted(AddEntry(rows, e))
  {
    var out := AddEntry(rows, e);
    if rows != [] {
      SortedTail(rows);
      var r0 := rows[0];
      if RowKey(r0) == EntryKey(e) {
        assert out == [out[0]] + rows[1..];
        ConsSorted(out[0], rows[1..]);
      } else if KeyLess(EntryKey(e), RowKey(r0)) {
        assert out == [out[0]] + rows;
        forall r | r in rows ensures KeyLess(EntryKey(e), RowKey(r)) {
          if r != r0 { KeyLessTransitive(EntryKey(e), RowKey(r0), RowKey(r)); }
        }
        ConsSorted(out[0], rows);
      } else {
        KeyLessTotal(EntryKey(e), RowKey(r0));
        var rest := AddEntry(rows[1..], e);
        AddEntrySorted(rows[1..], e);
        AddEntryKeys(rows[1..], e);
        assert out == [r0] + rest;
        forall r | r in rest ensures KeyLess(RowKey(r0), RowKey(r)) {
          assert RowKey(r) in Keys(rest);
        }
        ConsSorted(r0, rest);
      }
    }
  }

  /** The aggregate is ascending by (name, unit), has one row per key that
      occurs, and each row's total is the sum of that key's amounts. */
  lemma {:induction false} AggregateCorrect(entries: seq<Entry>)
    ensures StrictlySorted(Aggregate(entries))
    ensures Keys(Aggregate(entries)) == EntryKeys(entries)
    ensures forall k :: RowTotal(Aggregate(entries), k) == SumFor(entries, k)
  {
    if entries != [] {
      var rest := Aggregate(entries[1..]);
      AggregateCorrect(entries[1..]);
      AddEntrySorted(rest, entries[0]);
      AddEntryKeys(rest, entries[0]);
      forall k ensures RowTotal(Aggregate(entries), k) == SumFor(entries, k) {
        AddEntryTotals(rest, entries[0], k);
      }
      assert entries == [entries[0]] + entries[1..];
    }
  }

  lemma {:induction false} RowTotalAbsent(rows: seq<CartRow>, k: Key)
    requires k !in Keys(rows)
    ensures RowTotal(rows, k) == 0
  {
    if rows != [] {
      assert Keys(rows[1..]) <= Keys(rows);
      RowTotalAbsent(rows[1..], k);
    }
  }

  lemma {:induction false} RowTotalAt(rows: seq<CartRow>, i: nat)
    requires StrictlySorted(rows) && i < |rows|
    ensures RowTotal(rows, RowKey(rows[i])) == rows[i].total
  {
    SortedTail(rows);
    if i == 0 {
      KeyLessIrreflexive(RowKey(rows[0]));
      RowTotalAbsent(rows[1..], RowKey(rows[0]));
    } else {
      assert rows[i] == rows[1..][i - 1];
      KeyLessIrreflexive(RowKey(rows[0]));
      RowTotalAt(rows[1..], i - 1);
    }
  }

  lemma {:induction false} CartEntriesSum(links: seq<IngredientLink>, ingredients: map<IngredientId, Ingredient>, cart: set<RecipeId>, k: Key)
    ensures SumFor(CartEntries(links, ingredients, cart), k) == CartSum(links, ingredients, cart, k)
  {
    if links != [] {
      CartEntriesSum(links[1..], ingredients, cart, k);
      var es := CartEntries(links, ingredients, cart);
      var rest := CartEntries(links[1..], ingredients, cart);
      var l := links[0];
      if l.recipe in cart && l.ingredient in ingredients {
        assert es[1..] == rest;
      } else {
        assert es == rest;
      }
    }
  }

  lemma {:induction false} CartEntriesKeys(links: seq<IngredientLink>, ingredients: map<IngredientId, Ingredient>, cart: set<RecipeId>, k: Key)
    ensures k in EntryKeys(CartEntries(links, ingredients, cart)) <==> exists l :: l in links && Contributes(l, ingredients, cart, k)
  {
    if links != [] {
      CartEntriesKeys(links[1..], ingredients, cart, k);
      var es := CartEntries(links, ingredients, cart);
      var rest := CartEntries(links[1..], ingredients, cart);
      var l := links[0];
      assert links == [l] + links[1..];
      if l.recipe in cart && l.ingredient in ingredients {
        assert es == [es[0]] + rest;
        assert EntryKeys(es) == {EntryKey(es[0])} + EntryKeys(rest);
        assert EntryKey(es[0]) == IngredientKey(ingredients[l.ingredient]);
        if k == EntryKey(es[0]) {
          assert Contributes(l, ingredients, cart, k);
        } else if exists l' :: l' in links && Contributes(l', ingredients, cart, k) {
          var l' :| l' in links && Contributes(l', ingredients, cart, k);
          assert l' in links[1..];
        }
      } else {
        assert es == rest;
      }
    }
  }

  lemma {:induction false} CartSumPositive(links: seq<IngredientLink>, ingredients: map<IngredientId, Ingredient>, cart: set<RecipeId>, k: Key)
    requires forall l :: l in links ==> l.amount >= MIN_AMOUNT
    ensures CartSum(links, ingredients, cart, k) >= 0
    ensures (exists l :: l in links && Contributes(l, ingredients, cart, k)) ==> CartSum(links, ingredients, cart, k) >= MIN_AMOUNT
  {
    if links != [] {
      assert links == [links[0]] + links[1..];
      CartSumPositive(links[1..], ingredients, cart, k);
    }
  }

  /** The query's promises: rows ascending by name then unit, one row per
      (name, unit) that occurs in the cart and no other, and each row's total
      the sum of the amounts of the cart's links with that name and unit. */
  lemma ShoppingListCorrect(links: seq<IngredientLink>, ingredients: map<IngredientId, Ingredient>, cart: set<RecipeId>)
    ensures var rows := ShoppingList(links, ingredients, cart);
      && StrictlySorted(rows)
      && (forall i, j :: 0 <= i < |rows| && 0 <= j < |rows| && i != j ==> RowKey(rows[i]) != RowKey(rows[j]))
      && (forall i :: 0 <= i < |rows| ==> rows[i].total == CartSum(links, ingredients, cart, RowKey(rows[i])))
      && (forall k :: k in Keys(rows) <==> exists l :: l in links && Contributes(l, ingredients, cart, k))
  {
    var es := CartEntries(links, ingredients, cart);
    var rows := Aggregate(es);
    AggregateCorrect(es);
    forall i, j | 0 <= i < |rows| && 0 <= j < |rows| && i != j ensures RowKey(rows[i]) != RowKey(rows[j]) {
      if i < j { KeyLessIrreflexive(RowKey(rows[i])); } else { KeyLessIrreflexive(RowKey(rows[j])); }
    }
    forall i | 0 <= i < |rows| ensures rows[i].total == CartSum(links, ingredients, cart, RowKey(rows[i])) {
      RowTotalAt(rows, i);
      CartEntriesSum(links, ingredients, cart, RowKey(rows[i]));
    }
    forall k ensures k in Keys(rows) <==> exists l :: l in links && Contributes(l, ingredients, cart, k) {
      CartEntriesKeys(links, ingredients, cart, k);
    }
  }

  /** When every link has a positive amount, so does every total. */
  lemma ShoppingListTotalsPositive(links: seq<IngredientLink>, ingredients: map<IngredientId, Ingredient>, cart: set<RecipeId>)
    requires forall l :: l in links ==> InAmountRange(l.amount)
    ensures forall r :: r in ShoppingList(links, ingredients, cart) ==> r.total >= MIN_AMOUNT
  {
    var rows := ShoppingList(links, ingredients, cart);
    ShoppingListCorrect(links, ingredients, cart);
    forall r | r in rows ensures r.total >= MIN_AMOUNT {
      var i :| 0 <= i < |rows| && rows[i] == r;
      assert RowKey(r) in Keys(rows);
      CartSumPositive(links, ingredients, cart, RowKey(r));
    }
  }

  /** An empty cart gives an empty list. */
  lemma {:induction false} EmptyCartEmptyList(links: seq<IngredientLink>, ingredients: map<IngredientId, Ingredient>)
    ensures ShoppingList(links, ingredients, {}) == []
  {
    if links != [] {
      EmptyCartEmptyList(links[1..], ingredients);
    }
  }
}
