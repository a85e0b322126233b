# Foodgram recipe backend: a Dafny model

This project models the core of the foodgram recipe service, a Django and Django REST Framework backend. Users publish recipes, mark them as favourites, put them in a shopping cart, subscribe to authors, and download their cart as a PDF shopping list. The model covers these parts:

- **Tables.** The data model: users, tags, ingredients, recipes, the recipe–ingredient join table, favourites, shopping carts and subscriptions. Each comes with its field bounds and uniqueness constraints (`RecipesModels`, `UserModels`). A `Store.Database` class holds every table as a field the operations update in place. Its `Valid()` invariant is every model constraint, plus the uniqueness rules the serializers keep.
- **Usernames.** The username validator (`UserValidators`).
- **Permissions.** The two permission classes (`Permissions`).
- **Recipe writes.** The write serializer (`Serializers`):
  - field-level validation of every writable field: tags, ingredient items, name, image, text and cooking time, with name and text stripped of surrounding white space and refused when blank;
  - the unique-together rule on (name, text);
  - `validate_tags`;
  - the object-level `validate` loop, as a method proved against a recursive specification;
  - `create_ingredients` as a loop;
  - `create` and `update` as methods on the database that keep `Valid()`.
- **Nested items on a partial update.** `PartialItems` models the ingredient items as the framework hands them over. On a partial update, a missing `id` or `amount` is skipped rather than required. The module shows the two consequences this has in the service. It also proves that requiring both keys, which the rest of the model does, agrees with `Serializers`.
- **Relations.** The favourite, shopping-cart and subscription serializers, and the `is_favorited`, `is_in_shopping_cart` and `is_subscribed` getters.
- **Subscription lists.** `get_recipes` (newest first, optionally cut to `recipes_limit`) and `get_recipes_count`.
- **Views.** The view handlers (`Views`): `get_serializer_class`, adding and removing favourites and cart entries, `subscribe`, and `download_shopping_cart`.
- **Shopping list.** The aggregation behind the download (`Aggregation`): filter the join table by the user's cart, group by (ingredient name, unit), sum the amounts, and order by name then unit.
- **PDF layout.** The PDF generator as a method producing a list of draw commands on a buffer that is rewound at the end (`PdfGenerator`).

Where the pieces of the source are not value-level, the model gives them an explicit form:

- The database is the `Database` object.
- Clocks become parameters: `Create` receives `now` for `created_at`.
- `Create` and `Update` receive the validated data, as `create` and `update` do. `Serializers.AcceptedIsStorable` shows that the data of an accepted payload meets their preconditions.
- `SHOPPING_CART_NAME` comes from a constants module that is not part of this model. `DownloadShoppingCart` therefore receives it as `cartName`.
- Message constants are constructors of `Views.Message` and of the error datatypes.
- `MIN_AMOUNT` = 1 and `MAX_AMOUNT` = 32767 come from the initial migration.
- `MAX_LEN_TITLE` = 30 comes from the settings.

Where the intent and the code differ, the code wins:

- Adding a favourite or cart entry for a recipe that does not exist answers 400, not 404. The primary-key field of the serializer refuses the id during validation. Only removal looks the recipe up with `get_object_or_404` first.
- `update` pops `tags` and `ingredients` with a default of `[]`, and `Update` models that default. `Serializers.ValidatedPayload` shows that the default cannot take effect: `validate` rejects a payload without either key, even on a partial update.
- `views.py` holds an unresolved merge conflict at lines 43-49. The model follows the branch whose parameter, `serializer_class`, the body uses.

## Model

| member | source | states |
|---|---|---|
| Text.Capitalize | backend/api/pdf_generator.py:29 | first character upper-cased, every later one lower-cased, length kept |
| Text.CapitalizeIdempotent | backend/api/pdf_generator.py:29 | capitalising twice is capitalising once |
| Text.IntToStringRoundTrip | backend/api/pdf_generator.py:30-32 | the decimal text of the total parses back to the total |
| Text.StrLessIrreflexive | backend/api/views.py:76 | the string order used by the ordering is irreflexive |
| Text.StrLessTransitive | backend/api/views.py:76 | the string order is transitive |
| Text.StrLessTotal | backend/api/views.py:76 | any two different strings are ordered one way or the other |
| Text.IntToString | backend/api/pdf_generator.py:30-32 | the text of a total is an integer literal, with a leading minus sign exactly when the total is negative |
| Text.ParseInt | backend/api/serializers.py:252-254 | the value of an integer literal is negative only when it has a minus sign, and never negative without one |
| Text.IsSpace | backend/api/serializers.py:90-93 | defines the white space `str.strip` removes from the `name` and `text` fields: the characters Python's `str.isspace` accepts |
| Text.TrimStart | backend/api/serializers.py:90-93 | the result is a suffix of the input; every character dropped is white space and the result does not start with white space |
| Text.TrimEnd | backend/api/serializers.py:90-93 | the result is a prefix of the input; every character dropped is white space and the result does not end with white space |
| Text.StripCharacterization | backend/api/serializers.py:90-93 | `strip` keeps one slice of the input with only white space around it and none at its own ends; it gives the empty string exactly when the input is all white space |
| Text.Strip | backend/api/serializers.py:90-93 | defines `str.strip`, as the derived `CharField`'s `trim_whitespace` applies it: white space removed from both ends |
| Text.StripIdempotent | backend/api/serializers.py:90-93 | stripping a stripped value changes nothing |
| UserValidators.StripAllowed | backend/user/validators.py:9 | the substitution leaves only disallowed characters and never lengthens the value |
| UserValidators.StripAllowedCounts | backend/user/validators.py:9 | each disallowed character survives as often as it occurred; allowed ones vanish |
| UserValidators.StripAllowedAppend | backend/user/validators.py:9 | the substitution of a concatenation is the concatenation of the substitutions, so what survives keeps its order |
| UserValidators.StripAllowedSingle | backend/user/validators.py:9 | a single character is removed exactly when it is allowed and kept otherwise |
| UserValidators.MatchesUsernamePattern | backend/user/validators.py:7 | defines the pattern: one or more allowed characters, then the very end of the string |
| UserValidators.ValidateUsernameAsWritten | backend/user/validators.py:6-11 | accepts (returning true) exactly the values the pattern matches; rejects with the stripped text passed in the code position |
| UserValidators.ValidateUsername | backend/user/validators.py:6-11 | accepts exactly the pattern's values; the rejection message carries the disallowed characters |
| UserValidators.PatternCharacterization | backend/user/validators.py:7 | the pattern matches exactly a non-empty value made only of word characters and `.` `@` `+` `-` |
| UserValidators.AcceptedIffNothingStripped | backend/user/validators.py:7-9 | a value is accepted exactly when it is non-empty and the substitution removes everything |
| UserValidators.EmptyUsernameRejected | backend/user/validators.py:7 | the empty string is rejected |
| UserValidators.TrailingNewlineRejected | backend/user/validators.py:7 | any value followed by a newline is rejected (the pattern ends in `\Z`, not `$`) |
| UserValidators.RejectionNamesCharacters | backend/user/validators.py:8-10 | a rejected value's message ends with exactly its disallowed characters, none of them allowed |
| UserValidators.AsWrittenHidesCharacters | backend/user/validators.py:8-10 | for "a!b" the code as written shows only the fixed text, without the `!`; the corrected message shows it |
| UserModels.RoleFromValue | backend/user/models.py:8-13 | only "user" and "admin" are roles, and each maps back to its stored value |
| UserModels.RoleValue | backend/user/models.py:8-13 | defines the stored value of each `USER_ROLE` choice: "user" and "admin" |
| UserModels.UsersValid | backend/user/models.py:17-27 | defines the user table's constraints: each username unique and accepted by the username validator, each e-mail unique |
| UserModels.FollowsValid | backend/user/models.py:60-90 | defines the follow table's constraints: both ends exist, no self-follow (the check constraint), each (user, author) pair at most once (the unique constraint) |
| UserModels.UserStr | backend/user/models.py:56-57 | defines `__str__`: the username |
| UserModels.RoleRoundTrip | backend/user/models.py:36-41 | every role's stored value reads back as that role |
| UserModels.UserIdentifiedByStrOrEmail | backend/user/models.py:17-27 | in a valid user table the `__str__` (username) and the e-mail address each identify a user; every username passes the validator |
| UserModels.FollowConstraints | backend/user/models.py:82-90 | in a valid follow table no row has user equal to author, and no pair occurs twice |
| RecipesModels.Title | backend/recipes/models.py:43-44 | `__str__` is the name's prefix of length min(length, 30) |
| RecipesModels.TagsValid | backend/recipes/models.py:14-37 | defines the tag table's constraints: name, color and slug each unique |
| RecipesModels.IngredientsValid | backend/recipes/models.py:59-67 | defines the ingredient table's constraint: (name, measurement_unit) unique |
| RecipesModels.LinksUnique | backend/recipes/models.py:104-111 | defines the `unique_ingredient_for_recipe` constraint: each (recipe, ingredient) pair at most once |
| RecipesModels.LinksValid | backend/recipes/models.py:73-111 | defines the `IngredientRecipe` table's constraints: both foreign keys exist, amount in [1, 32767], and pairs unique |
| RecipesModels.RecipesValid | backend/recipes/models.py:117-163 | defines the recipe table's constraints: ids distinct, authors exist, cooking time in [1, 32767], and no two recipes share name and text (the write serializer's unique-together rule, backend/api/serializers.py:94-100) |
| RecipesModels.RecipeTagsValid | backend/recipes/models.py:128-132 | defines the `tags` many-to-many table's constraint: both ends exist |
| RecipesModels.RelationValid | backend/recipes/models.py:174-220 | defines a Favorite or ShoppingCart table's constraints: both foreign keys exist, and each (user, recipe) pair at most once, which the models do not declare and the serializers' unique-together rule keeps |
| RecipesModels.TitleProperties | backend/recipes/models.py:69-70 | a name is its own title exactly when it has at most 30 characters; truncating twice is truncating once |
| RecipesModels.TagIdentifiedByEachField | backend/recipes/models.py:16-37 | in a valid tag table the name, the colour and the slug each identify a tag |
| RecipesModels.IngredientIdentifiedByNameAndUnit | backend/recipes/models.py:62-67 | in a valid ingredient table (name, measurement unit) identifies an ingredient |
| RecipesModels.NewestFirst | backend/recipes/models.py:168 | the default ordering is a permutation of the table with `created_at` non-increasing |
| RecipesModels.InsertNewestSorted | backend/recipes/models.py:168 | inserting into a newest-first list keeps it newest first |
| Store.Database.constructor | backend/recipes/models.py:73-220 | a database with only users, tags and ingredients satisfies every table constraint |
| Store.Database.Valid | backend/recipes/models.py:14-220 | defines database validity: every table constraint above holds at once, over the users, tags, ingredients, recipes, links, recipe tags, favorites, carts and follows |
| Store.Without | backend/api/views.py:61 | deleting a pair's rows removes every occurrence and keeps every other row as often as before |
| Store.DeletedCount | backend/api/views.py:61-62 | the deleted count is zero exactly when the pair was absent, and then nothing changes |
| Store.LinksWithout | backend/api/serializers.py:183 | `ingredients.clear()` keeps exactly the other recipes' links and keeps them unique |
| Serializers.DistinctIffSetSize | backend/api/serializers.py:116-117 | the set of a list has the list's length exactly when no element repeats |
| Serializers.ValidateTags | backend/api/serializers.py:111-121 | an empty list fails with NoTags, a list with a repeat fails with DuplicateTags, anything else is returned unchanged |
| Serializers.FirstUnknownTag | backend/api/serializers.py:76-79 | the tag primary-key lookup fails exactly when some tag does not exist, naming one |
| Serializers.ItemError | backend/api/serializers.py:66-67 | an item passes exactly when its ingredient exists and its amount is in [1, 32767] |
| Serializers.FirstItemError | backend/api/serializers.py:84-86 | the nested items pass exactly when every item does |
| Serializers.TagsFieldErrors | backend/api/serializers.py:76-79 | the tags field passes exactly when present (or the update is partial) and all tags exist, with at least one and no repeat |
| Serializers.IngredientsFieldErrors | backend/api/serializers.py:84-86 | for items that carry both keys (the corrected rule of `PartialItems`): the ingredients field passes exactly when present (or partial) and every item exists with an amount in range |
| Serializers.TextFieldErrors | backend/api/serializers.py:90-93 | a `name` or `text` field passes exactly when present (or partial) and not blank once stripped; it reports at most one error, naming that field |
| Serializers.ImageFieldErrors | backend/api/serializers.py:80-83 | the image passes exactly when present or the update is partial |
| Serializers.CookingTimeErrors | backend/recipes/models.py:150-163 | cooking time passes exactly when present (or partial) and in [1, 32767] |
| Serializers.FieldsValid | backend/api/serializers.py:76-93 | defines what each writable field demands of its value |
| Serializers.FieldErrors | backend/api/serializers.py:76-93 | the field-level errors, in declared field order, are none exactly when every field meets its demands; at most one per field |
| Serializers.Cleaned | backend/api/serializers.py:90-93 | defines the validated data: name and text stripped, every other field as sent |
| Serializers.CleanedIdempotent | backend/api/serializers.py:90-93 | cleaning validated data again changes nothing |
| Serializers.DuplicateRecipe | backend/api/serializers.py:94-100 | defines the unique-together clash: another recipe (not the instance) with the same name and text |
| Serializers.UniqueKey | backend/api/serializers.py:94-100 | the (name, text) pair looked up takes each value from the data where given and from the instance otherwise; there is none exactly when a value is missing and there is no instance |
| Serializers.UniqueTogetherErrors | backend/api/serializers.py:94-100 | the unique-together rule passes exactly when its pair is found and no other recipe has it |
| Serializers.CheckIngredients | backend/api/serializers.py:138-150 | defines the loop as a recursion over the items with the set of ids met so far |
| Serializers.CheckIngredientsPassesIffClean | backend/api/serializers.py:138-151 | the loop passes exactly when every ingredient exists and no id repeats |
| Serializers.CheckIngredientsFirstFailure | backend/api/serializers.py:139-150 | a failing loop fails at the first bad item, checking existence before repetition |
| Serializers.Validate | backend/api/serializers.py:123-151 | the loop with its running set of seen ids returns what the recursive specification does |
| Serializers.ValidateSpec | backend/api/serializers.py:123-151 | when `validate` succeeds it returns the data unchanged; which error it reports otherwise is stated by `ValidateSpecErrorOrder` |
| Serializers.ValidateSpecAccepts | backend/api/serializers.py:123-151 | `validate` accepts exactly both keys present, at least one ingredient, all existing, none repeated, and returns the data unchanged |
| Serializers.ValidateSpecErrorOrder | backend/api/serializers.py:124-137 | a missing `ingredients` key is reported before a missing `tags` key, then an empty ingredient list, then the first item whose ingredient is unknown or repeats an earlier one |
| Serializers.RunValidationReportsIngredientsFirst | backend/api/serializers.py:124-127 | once the fields and the unique-together rule have passed, a payload without `ingredients` fails with that message alone, even on a partial update with neither key |
| Serializers.RunValidation | backend/api/serializers.py:76-151 | field validation, then the unique-together rule, then `validate`: a failure carries at least one error; a success returns the cleaned payload |
| Serializers.RunValidationAcceptsIff | backend/api/serializers.py:76-151 | a payload is accepted exactly when every field meets its demands, the unique-together pair is found with no twin, and both lists are present with at least one ingredient and none repeated |
| Serializers.ValidatedPayload | backend/api/serializers.py:76-151 | for items that carry both keys: an accepted payload has both lists, tags non-empty, existing and distinct, ingredients non-empty, existing, distinct and in range; every field unless partial; name and text not blank; cooking time in range where given; and its unique-together pair with no twin |
| Serializers.NotFoundUnreachable | backend/api/serializers.py:141-145 | for items that carry both keys: once the fields have passed, `validate`'s ingredient existence error cannot occur |
| Serializers.ValidateRecipeRelation | backend/api/serializers.py:269-303 | accepted exactly when user and recipe exist and the pair is new; an unknown recipe is an error; an existing pair fails with AlreadyAdded only |
| Serializers.RelationFieldErrors | backend/api/serializers.py:269-303 | defines the primary-key lookups of `user` and `recipe`: one error for each key that does not exist, user first |
| Serializers.AcceptedRelationKeepsTableValid | backend/api/serializers.py:274-280 | saving an accepted pair keeps the table free of repeats, and the same request again is then refused |
| Serializers.ValidateAuthor | backend/api/serializers.py:327-334 | fails exactly when the author is the requesting user |
| Serializers.ValidateSubscription | backend/api/serializers.py:315-334 | accepted exactly when both users exist, differ and are not yet subscribed; self-subscription is always reported; an existing pair fails with AlreadySubscribed only |
| Serializers.AcceptedSubscriptionKeepsTableValid | backend/api/serializers.py:319-325 | saving an accepted subscription keeps no self-follow and no repeated pair |
| Serializers.IsMarked | backend/api/serializers.py:212-223 | defines `is_favorited` and `is_in_shopping_cart`: a signed-in viewer with a row for the recipe |
| Serializers.IsSubscribed | backend/api/serializers.py:25-30 | defines `is_subscribed`: a signed-in viewer with a follow row for the author |
| Serializers.GettersReadTheViewersRows | backend/api/serializers.py:25-30 | an anonymous viewer is never subscribed or marked; a signed-in viewer is exactly when their own row exists |
| Serializers.AuthoredBy | backend/api/serializers.py:255-256 | the author's recipes are exactly the table's recipes with that author |
| Serializers.ParseLimit | backend/api/serializers.py:252-253 | an absent or empty limit means none; otherwise it must be an integer literal and is its value |
| Serializers.GetRecipes | backend/api/serializers.py:250-260 | the result is newest first, only the author's recipes, a prefix of all of them, and all of them without a limit |
| Serializers.GetRecipesLimited | backend/api/serializers.py:252-254 | a limit n is refused when negative and otherwise gives min(n, count) recipes |
| Serializers.GetRecipesCount | backend/api/serializers.py:262-266 | defines the count of the author's recipes |
| Serializers.RecipesCountIsListLength | backend/api/serializers.py:262-266 | the count equals the length of the unlimited recipe list |
| Serializers.LinksFor | backend/api/serializers.py:154-165 | one link per payload item, in order, with that item's ingredient and amount |
| Serializers.CreateIngredients | backend/api/serializers.py:154-166 | after the loop and insert the table gains exactly the payload's links, in order |
| Serializers.SetTags | backend/api/serializers.py:176 | the recipe's tags become exactly the given ones; other recipes' tags are unchanged |
| Serializers.LinksForValid | backend/recipes/models.py:89-111 | a validated payload's links exist, are in range and repeat no (recipe, ingredient) pair |
| Serializers.AppendLinksKeepsValid | backend/recipes/models.py:107-111 | adding a recipe's links, when it had none, keeps the join table valid |
| Serializers.AppendRecipeKeepsValid | backend/api/serializers.py:172-173 | a new recipe with the next id, an existing author and no (name, text) twin keeps the recipe table valid |
| Serializers.Edited | backend/api/serializers.py:186 | `super().update` overwrites each plain field the data holds, keeps the others, and never changes id, author or creation time |
| Serializers.EditRecipeKeepsValid | backend/api/serializers.py:186 | copying validated fields into a recipe keeps the table valid and its ids |
| Serializers.Storable | backend/recipes/models.py:89-163 | defines what the stored rows demand of the data: existing tags and ingredients, no ingredient twice, amounts and cooking time in range |
| Serializers.AcceptedIsStorable | backend/api/serializers.py:168-186 | for items that carry both keys: the data an accepted payload validates to is storable, has both lists (and every field when not partial) and passes the unique-together rule: it meets what `Create` and `Update` require |
| Serializers.CreateKeepsTablesValid | backend/api/serializers.py:168-177 | inserting a recipe built from storable data that passes the unique-together rule, with its links and tags, keeps every table valid |
| Serializers.RewriteKeepsTablesValid | backend/api/serializers.py:183-186 | rewriting one recipe, its links and its tags with values that keep the recipe table valid and name existing rows keeps every table valid |
| Serializers.UpdateKeepsTablesValid | backend/api/serializers.py:179-186 | rewriting a recipe, its links and tags from storable data that passes the unique-together rule for it keeps every table valid |
| Serializers.Create | backend/api/serializers.py:168-177 | keeps `Valid()`; the new recipe holds the data's name, image, text and cooking time, the requesting user as author and a fresh id; the links gained are the data's; its tag set is the data's |
| Serializers.Insert | backend/api/serializers.py:174-176 | the recipe insert, `create_ingredients` and `tags.set` in that order: one recipe appended, the next id advanced, its links and tag rows appended, and no other table touched (`Create` derives validity from `CreateKeepsTablesValid`) |
| Serializers.AddedLinksOf | backend/api/serializers.py:172-175 | after create the recipe's links equal the payload items and other recipes' links are unchanged |
| Serializers.Update | backend/api/serializers.py:179-186 | keeps `Valid()`; old links of the recipe dropped, the data's links (default `[]`) added, tags reset (default `[]`), only that recipe changed, and only in the fields the data holds |
| Serializers.Rewrite | backend/api/serializers.py:183-186 | the clear, `create_ingredients`, `tags.set` and field copy in that order: the recipe at one index replaced, its links and tag rows replaced, and no other table touched (`Update` derives validity from `UpdateKeepsTablesValid`) |
| Serializers.TagsOfAfterSet | backend/api/serializers.py:176 | after replacing one recipe's tag rows by the given list, that recipe's tags are exactly the list's elements and every other recipe's tags are unchanged |
| Serializers.UpdateLinksOf | backend/api/serializers.py:181-184 | after update the recipe's links are exactly the payload items, none of the old ones; other recipes keep theirs |
| Serializers.IndexOfRecipe | backend/api/serializers.py:180 | the instance being updated is located by its id |
| Serializers.LinksOfWithout | backend/api/serializers.py:183 | clearing one recipe's links leaves every other recipe's links as they were |
| PartialItems.RawItemErrors | backend/api/serializers.py:66-71 | a raw item passes exactly when each key is present (or skipped on a partial update) and a present id exists and a present amount is in range; every failing key is reported |
| PartialItems.ItemsPass | backend/api/serializers.py:84-86 | defines the nested list passing: every raw item passes its field-level checks |
| PartialItems.RawCheckIngredients | backend/api/serializers.py:139-150 | defines `validate`'s loop over raw items: an item without `id` is the unknown ingredient "None", then existence, then repetition |
| PartialItems.Complete | backend/api/serializers.py:156-158 | defines what `create_ingredients` reads: every item has both keys |
| PartialItems.Completed | backend/api/serializers.py:156-158 | the keys of a complete list read out, item by item and in order |
| PartialItems.RawLinksFor | backend/api/serializers.py:154-166 | `create_ingredients` on raw items succeeds exactly when every item has both keys, and then stores the links of `LinksFor` |
| PartialItems.PartialItemWithoutAmountReachesKeyError | backend/api/serializers.py:154-158 | a partial-update item with a known id and no amount passes the fields and `validate`, and `create_ingredients` then fails on the missing amount |
| PartialItems.PartialItemWithoutIdReportsNone | backend/api/serializers.py:140-145 | a partial-update item with an amount and no id passes the fields, and `validate` reports the ingredient "None"; with the key required it is refused as a missing id |
| PartialItems.CorrectedItemsAgree | backend/api/serializers.py:66-71 | with both keys required, raw items that pass are complete, meet `IngredientsFieldErrors`, are judged by `validate` as `CheckIngredients` judges them, and are stored as `LinksFor` of them |
| Aggregation.CartEntries | backend/api/views.py:72-74 | defines the join: one entry per cart link with a known ingredient, in table order, carrying its name, unit and amount |
| Aggregation.Aggregate | backend/api/views.py:74-76 | defines the grouping: entries added one at a time into rows sorted by (name, unit) |
| Aggregation.ShoppingList | backend/api/views.py:72-76 | defines the rows handed to the PDF generator: the cart's entries, grouped, summed and sorted |
| Aggregation.KeyLessIrreflexive | backend/api/views.py:76 | no key is ordered before itself |
| Aggregation.AddEntrySorted | backend/api/views.py:76 | adding one joined row to a list ascending by (name, unit) keeps it ascending, with no repeated key |
| Aggregation.AddEntry | backend/api/views.py:74-75 | defines one grouping step: the entry's amount is added to the row of its (name, unit) key, or a new row is placed in key order |
| Aggregation.AddEntryKeys | backend/api/views.py:74-75 | adding one joined row adds its (name, unit) group and no other |
| Aggregation.AddEntryTotals | backend/api/views.py:75 | adding one joined row raises its group's total by its amount and leaves every other total alone |
| Aggregation.AggregateCorrect | backend/api/views.py:74-76 | grouping yields sorted unique keys, each total the sum of its group |
| Aggregation.ShoppingListCorrect | backend/api/views.py:72-76 | rows ordered by (name, unit), unique by (name, unit), each total the sum of cart links for that key, and a key appears exactly when some cart link contributes |
| Aggregation.ShoppingListTotalsPositive | backend/api/views.py:72-76 | with amounts in range every total is positive |
| Aggregation.EmptyCartEmptyList | backend/api/views.py:72-76 | an empty cart gives an empty list |
| Aggregation.KeyLessTransitive | backend/api/views.py:76 | the (name, unit) order is transitive |
| Aggregation.KeyLessTotal | backend/api/views.py:76 | any two keys are ordered or equal |
| Aggregation.CartEntriesSum | backend/api/views.py:72-75 | the joined rows' amounts for a key sum to the cart's links for it |
| PdfGenerator.EntryLine | backend/api/pdf_generator.py:29-32 | defines an entry's text: capitalised name, " - ", total, " (", unit, ");" |
| PdfGenerator.LineY | backend/api/pdf_generator.py:36 | defines the height of entry i: 635 − 30·i |
| PdfGenerator.DrawNextEntry | backend/api/pdf_generator.py:28-36 | one pass of the loop appends entry i at (20, LineY(i)) and keeps the earlier lines and the line count |
| PdfGenerator.DownloadPdfShoppingCart | backend/api/pdf_generator.py:16-45 | font set first, saved last, rewound to 0; a non-empty list gives the title at (315, 700) and entry i at (20, 635 − 30·i) in order, one line per row; an empty list gives only the empty title at (315, 425) and one page break |
| PdfGenerator.LinesBelowPage | backend/api/pdf_generator.py:36 | entry i is drawn below the page bottom exactly from i = 22 on (no page break is ever made) |
| Views.GetSerializerClass | backend/api/views.py:38-41 | the read serializer exactly for GET, the write serializer for every other method |
| Views.OtherSafeMethodsGetWriteSerializer | backend/api/views.py:38-41 | HEAD and OPTIONS pass the permission as reads yet get the write serializer |
| Views.SetRelation | backend/api/views.py:54 | replaces one relation table and leaves the other alone |
| Views.CreateFavoriteOrCart | backend/api/views.py:44-55 | on a valid pair inserts exactly (user, pk) and answers 201, after which the recipe is marked; otherwise answers 400 with the errors and changes nothing; an unknown recipe gets 400 |
| Views.WithoutKeepsRelationValid | backend/api/views.py:60-61 | deleting rows keeps a relation table valid |
| Views.DeleteFavoriteOrCart | backend/api/views.py:57-68 | unknown recipe: 404 and nothing deleted; absent pair: 400 RecipeNotAdd and table unchanged; present pair: 204, the pair gone, every other row kept |
| Views.WithoutKeepsFollowsValid | backend/api/views.py:168 | deleting subscriptions keeps the follow table valid |
| Views.Subscribe | backend/api/views.py:147-174 | a method other than POST or DELETE: 405 before anything else; unknown author: 404 next; POST: 201 and the pair added when valid, else 400 and nothing changed; DELETE: 204 and the pair removed, or 400 NoExistSub when absent |
| Views.Filename | backend/api/views.py:79 | the filename is the username, then "'s-", then the cart name |
| Views.FilenameDeterminesUser | backend/api/views.py:79 | no two users of a valid table get the same filename |
| Views.FilenameDeterminesUsername | backend/api/views.py:79 | two valid usernames with the same filename are equal |
| Views.DownloadShoppingCart | backend/api/views.py:70-84 | the file is named after the user and holds the PDF of the aggregated cart; anonymous requests fail |
| Permissions.OwnerOrReadOnlyHasPermission | backend/api/permissions.py:6-7 | defines the check: a safe method, or a signed-in user |
| Permissions.OwnerOrReadOnlyHasObjectPermission | backend/api/permissions.py:9-10 | defines the check: a safe method, or the user is the object's author |
| Permissions.UserAuthenticatedHasPermission | backend/api/permissions.py:14-15 | defines the check: a signed-in user |
| Permissions.UserAuthenticatedHasObjectPermission | backend/api/permissions.py:17-18 | defines the check: the user is the object |
| Permissions.SafeMethodsPassOwnerChecks | backend/api/permissions.py:6-10 | safe methods pass both owner checks for anyone, anonymous included |
| Permissions.OwnerChecksOnWrites | backend/api/permissions.py:6-10 | on a write, access needs authentication, and the object check needs authorship |
| Permissions.UserAuthenticatedIgnoresMethod | backend/api/permissions.py:13-18 | the authenticated-user class ignores the method, and its object check holds exactly for the user themself |

## Left out

- I/O: reading the font file and writing PDF bytes are not modelled. Registering the font fails fatally when the file is missing. The buffer is a list of draw commands plus a read position.
- reportlab page geometry is not modelled beyond the coordinates the generator emits. One consequence is stated in `PdfGenerator.LinesBelowPage`: from the 23rd row on, lines fall below the page, and no page break is made.
- HTTP dispatch, routing, token authentication, pagination, response rendering and the `to_representation` methods are left out. A response is a status and a small body naming what would be rendered.
- Base64 image decoding and image URLs are left out. An image is an opaque string, and any image that is present passes.
- The `CharField` validators that refuse null characters and surrogate code points in `name` and `text` are not modelled.
- Text order: the database collation used by `order_by` is modelled as code-point order (`Text.StrLess`).
- Unicode: `\w` covers ASCII letters, digits, `_` and the Russian alphabet. `str.capitalize` covers ASCII and Russian letters only. Other scripts are not modelled.
- Concurrency and transactions are not modelled: the check-then-act race between two identical add requests, and the rollback of a failed `create` or `update`. Each call runs alone and whole.
- `Serializers.DuplicateRecipe` treats the unique-together rule on (name, text) as plain equality. Recipe name length limits (`max_length`, from a constants module that is not part of this model) are not checked.
- `Serializers.RunValidation` reports at most one error per field, from the first failing item of a list. The framework reports one error entry per failing item, naming every failing key. The model names only the first key. `PartialItems.RawItemErrors` reports every failing key of one item.
- `Serializers.ParseLimit` accepts only an optional minus sign followed by ASCII digits. Python's `int` also accepts surrounding spaces, a plus sign and underscores.
- A negative limit and a non-integer limit are modelled as failures (`LimitError`). In the service they surface as server errors.
- Ties in `created_at` are not modelled: `RecipesModels.NewestFirst` fixes one order among equal timestamps, and the database may return another.
- `Aggregation.ShoppingList` joins each cart recipe once. A recipe repeated in one user's cart would be counted once per row by the SQL join, but the serializers prevent such rows (the `Valid()` invariant).
- These operations of the service are not part of this model: recipe deletion and its cascades, the tag and ingredient read views, the recipe filters, the subscription list view, and the CSV import.
- The `__str__` methods of Favorite, ShoppingCart and Follow are left out, because they only build display text; the first two return nothing.
- Serializers.IngredientsFieldErrors: items are `IngredientAmount`, which always carries both `id` and `amount`. That is the corrected rule: on a partial update the service skips a missing key of an item, and the as-written behaviour is modelled only in `PartialItems` (see Findings).
- Serializers.NotFoundUnreachable: holds for items that carry both keys. For a partial-update item without `id`, the service's `validate` raises the not-exists error for "None" (`PartialItems.PartialItemWithoutIdReportsNone`).
- Serializers.AcceptedIsStorable: holds for items that carry both keys. For a partial-update item without `amount`, the service accepts the payload and `update` fails with a server error (`PartialItems.PartialItemWithoutAmountReachesKeyError`).
- Serializers.ValidatedPayload: holds for items that carry both keys. On a partial update the service also accepts items without `amount`, which `IngredientAmount` cannot express.
- `Views.DownloadShoppingCart` returns `None` for an anonymous viewer. In the service, filtering by the anonymous user raises a server error.
- `Views.Subscribe` answers 405 for a method other than POST or DELETE, before the author lookup. The action's method list refuses such requests before the handler runs, which is dispatch and not modelled further.

## Findings

| source | as written | input that shows it | evidently intended | confidence | as-written member | corrected member |
|---|---|---|---|---|---|---|
| backend/user/validators.py:8-10 | `ValidationError('Недопустимые символы :', stripped)` passes the stripped characters as the second positional argument, which Django takes as the error `code`; the displayed message is only the fixed text | username "a!b": the message shown is "Недопустимые символы :" without the `!` | the message names the offending characters, e.g. "Недопустимые символы :!" | not executed | UserValidators.AsWrittenHidesCharacters | UserValidators.ValidateUsername |
| backend/api/serializers.py:154-158 | on a partial update the nested item's keys are skipped when missing, so an item `{"id": 5}` is accepted, and `ingredient_data['amount']` then raises `KeyError` in `update` | PATCH with `{"tags": [1], "ingredients": [{"id": 5}]}`, ingredient 5 existing: a server error instead of a 400 | each item's `id` and `amount` are required even on a partial update, so the payload is refused | not executed; the skipping is read from the framework's field code | PartialItems.PartialItemWithoutAmountReachesKeyError | PartialItems.CorrectedItemsAgree |
| backend/api/serializers.py:140-145 | an item without `id` passes the partial update's field checks, and `validate` reports `Ингредиент "None" не существует.` | PATCH with `{"tags": [1], "ingredients": [{"amount": 3}]}` | the item is refused for its missing `id` | not executed; the skipping is read from the framework's field code | PartialItems.PartialItemWithoutIdReportsNone | PartialItems.CorrectedItemsAgree |
