/** The recipe application's models: tags, ingredients, the ingredient links of
    a recipe, recipes and the (user, recipe) relations, with their field bounds
    and uniqueness constraints. */
module RecipesModels {
  import opened UserModels

  type TagId = nat
  type IngredientId = nat
  type RecipeId = nat

  /** Bounds of an ingredient amount and of a cooking time. */
  const MIN_AMOUNT: int := 1
  const MAX_AMOUNT: int := 32767

  /** Length to which `__str__` truncates a name. */
  const MAX_LEN_TITLE: nat := 30

  predicate InAmountRange(n: int) {
    MIN_AMOUNT <= n <= MAX_AMOUNT
  }

  datatype Tag = Tag(id: TagId, name: string, color: string, slug: string)

  datatype Ingredient = Ingredient(id: IngredientId, name: string, measurementUnit: string)

  /** An `IngredientRecipe` row: `amount` of `ingredient` in `recipe`. */
  datatype IngredientLink = IngredientLink(recipe: RecipeId, ingredient: IngredientId, amount: int)

  datatype Recipe = Recipe(id: RecipeId, createdAt: int, name: string, author: UserId,
                           image: string, text: string, cookingTime: int)

  /** The shape shared by Favorite and ShoppingCart (`BaseRecipeRelation`). */
  datatype RecipeRelation = RecipeRelation(user: UserId, recipe: RecipeId)

  /** The two tables with that shape. */
  datatype RelationKind = FavoriteKind | ShoppingCartKind

  /** A row of the recipe-to-tag many-to-many table. */
  datatype RecipeTag = RecipeTag(recipe: RecipeId, tag: TagId)

  /** `__str__` of Tag, Ingredient and Recipe: `name[:MAX_LEN_TITLE]`. */
  function Title(name: string): (r: string)
    ensures |r| == if |name| < MAX_LEN_TITLE then |name| else MAX_LEN_TITLE
    ensures r == name[..|r|]
  {
    if |name| <= MAX_LEN_TITLE then name else name[..MAX_LEN_TITLE]
  }

  /** A name is shown whole exactly when it fits, and a shown title does not
      change when shown again. */
  lemma TitleProperties(name: string)
    ensures Title(name) == name <==> |name| <= MAX_LEN_TITLE
    ensures Title(Title(name)) == Title(name)
  {
  }

  /** Tag names, colors and slugs are each unique. */
  predicate TagsValid(tags: map<TagId, Tag>) {
    && (forall t :: t in tags ==> tags[t].id == t)
    && (forall a, b :: a in tags && b in tags && a != b ==>
          tags[a].name != tags[b].name && tags[a].color != tags[b].color && tags[a].slug != tags[b].slug)
  }

  lemma TagIdentifiedByEachField(tags: map<TagId, Tag>, a: TagId, b: TagId)
    requires TagsValid(tags) && a in tags && b in tags
    ensures tags[a].name == tags[b].name ==> a == b
    ensures tags[a].color == tags[b].color ==> a == b
    ensures tags[a].slug == tags[b].slug ==> a == b
  {
  }

  /** Ingredient (name, measurement_unit) pairs are unique. */
  predicate IngredientsValid(ingredients: map<IngredientId, Ingredient>) {
    && (forall i :: i in ingredients ==> ingredients[i].id == i)
    && (forall a, b :: a in ingredients && b in ingredients && a != b ==>
          ingredients[a].name != ingredients[b].name
          || ingredients[a].measurementUnit != ingredients[b].measurementUnit)
  }

  lemma IngredientIdentifiedByNameAndUnit(ingredients: map<IngredientId, Ingredient>, a: IngredientId, b: IngredientId)
    requires IngredientsValid(ingredients) && a in ingredients && b in ingredients
    requires ingredients[a].name == ingredients[b].name
    requires ingredients[a].measurementUnit == ingredients[b].measurementUnit
    ensures a == b
  {
  }

  function RecipeIds(recipes: seq<Recipe>): set<RecipeId> {
    set r | r in recipes :: r.id
  }

  /** At most one link per (recipe, ingredient) pair. */
  predicate LinksUnique(links: seq<IngredientLink>) {
    forall i, j :: 0 <= i < j < |links| ==>
      links[i].recipe != links[j].recipe || links[i].ingredient != links[j].ingredient
  }

  /** The ingredient-link table: both ends exist, every amount lies in
      [MIN_AMOUNT, MAX_AMOUNT], and no pair repeats. */
  predicate LinksValid(links: seq<IngredientLink>, recipeIds: set<RecipeId>, ingredientIds: set<IngredientId>) {
    && (forall l :: l in links ==> l.recipe in recipeIds && l.ingredient in ingredientIds && InAmountRange(l.amount))
    && LinksUnique(links)
  }

  /** The recipe table: ids distinct and below the next id to assign, authors
      exist, cooking times in [MIN_AMOUNT, MAX_AMOUNT], and no two recipes share
      both name and text (the write serializer's unique-together rule). */
  predicate RecipesValid(recipes: seq<Recipe>, nextId: nat, userIds: set<UserId>) {
    && (forall r :: r in recipes ==> r.id < nextId && r.author in userIds && InAmountRange(r.cookingTime))
    && (forall i, j :: 0 <= i < j < |recipes| ==>
          recipes[i].id != recipes[j].id
          && (recipes[i].name != recipes[j].name || recipes[i].text != recipes[j].text))
  }

  predicate RecipeTagsValid(recipeTags: set<RecipeTag>, recipeIds: set<RecipeId>, tagIds: set<TagId>) {
    forall x :: x in recipeTags ==> x.recipe in recipeIds && x.tag in tagIds
  }

  /** A Favorite or ShoppingCart table. The model declares no uniqueness
      constraint for either; the serializers keep each (user, recipe) pair at
      most once, which is the second conjunct. */
  predicate RelationValid(rows: seq<RecipeRelation>, userIds: set<UserId>, recipeIds: set<RecipeId>) {
    && (forall x :: x in rows ==> x.user in userIds && x.recipe in recipeIds)
    && (forall x :: x in rows ==> multiset(rows)[x] == 1)
  }

  /** Recipes in descending `created_at` order, the models' default ordering. */
  predicate IsNewestFirst(rs: seq<Recipe>) {
    forall i, j :: 0 <= i < j < |rs| ==> rs[i].createdAt >= rs[j].createdAt
  }

  function InsertNewest(r: Recipe, rs: seq<Recipe>): (out: seq<Recipe>)
    ensures multiset(out) == multiset(rs) + multiset{r}
  {
    if rs == [] then [r]
    else if r.createdAt >= rs[0].createdAt then [r] + rs
    else
      assert rs == [rs[0]] + rs[1..];
      [rs[0]] + InsertNewest(r, rs[1..])
  }

  lemma {:induction false} InsertNewestSorted(r: Recipe, rs: seq<Recipe>)
    requires IsNewestFirst(rs)
    ensures IsNewestFirst(InsertNewest(r, rs))
  {
    if rs != [] && r.createdAt < rs[0].createdAt {
      var rest := InsertNewest(r, rs[1..]);
      InsertNewestSorted(r, rs[1..]);
      forall x | x in rest ensures rs[0].createdAt >= x.createdAt {
        assert x in multiset(rest);
        assert x in rs[1..] || x == r;
      }
    }
  }

  /** `Recipe.objects.all()` under `ordering = ('-created_at',)`: a
      permutation of the table, newest first. */
  function NewestFirst(rs: seq<Recipe>): (out: seq<Recipe>)
    ensures multiset(out) == multiset(rs)
    ensures |out| == |rs|
    ensures IsNewestFirst(out)
  {
    if rs == [] then []
    else
      assert rs == [rs[0]] + rs[1..];
      InsertNewestSorted(rs[0], NewestFirst(rs[1..]));
      InsertNewest(rs[0], NewestFirst(rs[1..]))
  }
}
