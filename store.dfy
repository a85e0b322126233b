/** The persistent state the views and serializers work on: one object holding
    every table, and the queries over it that they use. */
module Store {
  import opened UserModels
  import opened RecipesModels

  class Database {
    var users: map<UserId, User>
    var tags: map<TagId, Tag>
    var ingredients: map<IngredientId, Ingredient>
    var recipes: seq<Recipe>
    var nextRecipeId: nat
    var links: seq<IngredientLink>
    var recipeTags: set<RecipeTag>
    var favorites: seq<RecipeRelation>
    var carts: seq<RecipeRelation>
    var follows: seq<Follow>

    /** Every model constraint and every serializer-kept uniqueness rule. */
    ghost predicate Valid()
      reads this
    {
      TablesValid(users, tags, ingredients, recipes, nextRecipeId, links, recipeTags, favorites, carts, follows)
    }

    /** The Favorite or the ShoppingCart table. */
    function Relation(kind: RelationKind): seq<RecipeRelation>
      reads this
    {
      match kind
      case FavoriteKind => favorites
      case ShoppingCartKind => carts
    }

    /** A database with the given users, tags and ingredients and nothing else. */
    constructor (users: map<UserId, User>, tags: map<TagId, Tag>, ingredients: map<IngredientId, Ingredient>)
      requires UsersValid(users) && TagsValid(tags) && IngredientsValid(ingredients)
      ensures Valid()
      ensures this.users == users && this.tags == tags && this.ingredients == ingredients
      ensures recipes == [] && nextRecipeId == 0 && links == [] && recipeTags == {}
      ensures favorites == [] && carts == [] && follows == []
    {
      this.users := users;
      this.tags := tags;
      this.ingredients := ingredients;
      recipes := [];
      nextRecipeId := 0;
      links := [];
      recipeTags := {};
      favorites := [];
      carts := [];
      follows := [];
    }
  }

  /** The constraints on the tables, as values. */
  ghost predicate TablesValid(users: map<UserId, User>, tags: map<TagId, Tag>,
                              ingredients: map<IngredientId, Ingredient>, recipes: seq<Recipe>, nextRecipeId: nat,
                              links: seq<IngredientLink>, recipeTags: set<RecipeTag>,
                              favorites: seq<RecipeRelation>, carts: seq<RecipeRelation>, follows: seq<Follow>)
  {
    && UsersValid(users)
    && TagsValid(tags)
    && IngredientsValid(ingredients)
    && RecipesValid(recipes, nextRecipeId, users.Keys)
    && LinksValid(links, RecipeIds(recipes), ingredients.Keys)
    && RecipeTagsValid(recipeTags, RecipeIds(recipes), tags.Keys)
    && RelationValid(favorites, users.Keys, RecipeIds(recipes))
    && RelationValid(carts, users.Keys, RecipeIds(recipes))
    && FollowsValid(follows, users.Keys)
  }

  /** `queryset.delete()` on the rows equal to `x`: every occurrence of `x` goes,
      every other row stays, as often as it was there. */
  function Without<T(==)>(rows: seq<T>, x: T): (r: seq<T>)
    ensures multiset(r) == multiset(rows)[x := 0]
    ensures |r| == |rows| - multiset(rows)[x]
  {
    if rows == [] then []
    else
      assert rows == [rows[0]] + rows[1..];
      if rows[0] == x then Without(rows[1..], x) else [rows[0]] + Without(rows[1..], x)
  }

  /** The number of rows `delete()` reports: zero exactly when `x` is absent. */
  lemma DeletedCount<T>(rows: seq<T>, x: T)
    ensures |rows| - |Without(rows, x)| == 0 <==> x !in rows
    ensures x !in rows ==> Without(rows, x) == rows
    ensures x !in Without(rows, x)
  {
    if x !in rows {
      WithoutAbsent(rows, x);
    }
    assert x !in multiset(Without(rows, x));
  }

  lemma {:induction false} WithoutAbsent<T>(rows: seq<T>, x: T)
    requires x !in rows
    ensures Without(rows, x) == rows
  {
    if rows != [] {
      assert rows[0] in rows;
      assert forall y :: y in rows[1..] ==> y in rows;
      WithoutAbsent(rows[1..], x);
    }
  }

  /** `instance.ingredients.clear()`: the links of every other recipe, in order. */
  function LinksWithout(links: seq<IngredientLink>, recipe: RecipeId): (r: seq<IngredientLink>)
    ensures forall l :: l in r <==> l in links && l.recipe != recipe
    ensures LinksUnique(links) ==> LinksUnique(r)
  {
    if links == [] then []
    else
      var rest := LinksWithout(links[1..], recipe);
      assert links == [links[0]] + links[1..];
      if links[0].recipe == recipe then
        assert LinksUnique(links) ==> LinksUnique(links[1..]) by {
          if LinksUnique(links) {
            forall i, j | 0 <= i < j < |links[1..]|
              ensures links[1..][i].recipe != links[1..][j].recipe || links[1..][i].ingredient != links[1..][j].ingredient
            {
              assert links[1..][i] == links[i + 1] && links[1..][j] == links[j + 1];
            }
          }
        }
        rest
      else
        LinksUniqueCons(links, rest);
        [links[0]] + rest
  }

  lemma LinksUniqueCons(links: seq<IngredientLink>, rest: seq<IngredientLink>)
    requires links != []
    requires forall l :: l in rest ==> l in links[1..]
    requires LinksUnique(links[1..]) ==> LinksUnique(rest)
    ensures LinksUnique(links) ==> LinksUnique([links[0]] + rest)
  {
    if LinksUnique(links) {
      forall i, j | 0 <= i < j < |links[1..]|
        ensures links[1..][i].recipe != links[1..][j].recipe || links[1..][i].ingredient != links[1..][j].ingredient
      {
        assert links[1..][i] == links[i + 1] && links[1..][j] == links[j + 1];
      }
      var s := [links[0]] + rest;
      forall i, j | 0 <= i < j < |s| ensures s[i].recipe != s[j].recipe || s[i].ingredient != s[j].ingredient {
        if i == 0 {
          assert s[j] in links[1..];
          var k :| 0 <= k < |links[1..]| && links[1..][k] == s[j];
          assert links[k + 1] == s[j];
        } else {
          assert s[i] == rest[i - 1] && s[j] == rest[j - 1];
        }
      }
    }
  }

  /** The links of one recipe, in order (`recipe.ingredients` through the join table). */
  function LinksOf(links: seq<IngredientLink>, recipe: RecipeId): (r: seq<IngredientLink>)
    ensures forall l :: l in r <==> l in links && l.recipe == recipe
  {
    if links == [] then []
    else
      assert links == [links[0]] + links[1..];
      (if links[0].recipe == recipe then [links[0]] else []) + LinksOf(links[1..], recipe)
  }

  lemma {:induction false} LinksOfAppend(a: seq<IngredientLink>, b: seq<IngredientLink>, recipe: RecipeId)
    ensures LinksOf(a + b, recipe) == LinksOf(a, recipe) + LinksOf(b, recipe)
  {
    if a == [] {
      assert a + b == b;
    } else {
      assert (a + b)[0] == a[0] && (a + b)[1..] == a[1..] + b;
      LinksOfAppend(a[1..], b, recipe);
    }
  }

  lemma {:induction false} LinksOfNone(links: seq<IngredientLink>, recipe: RecipeId)
    requires forall l :: l in links ==> l.recipe != recipe
    ensures LinksOf(links, recipe) == []
  {
    if links != [] {
      assert links[0] in links;
      assert forall l :: l in links[1..] ==> l in links;
      LinksOfNone(links[1..], recipe);
    }
  }

  lemma {:induction false} LinksOfAll(links: seq<IngredientLink>, recipe: RecipeId)
    requires forall l :: l in links ==> l.recipe == recipe
    ensures LinksOf(links, recipe) == links
  {
    if links != [] {
      assert links[0] in links;
      assert forall l :: l in links[1..] ==> l in links;
      LinksOfAll(links[1..], recipe);
      assert links == [links[0]] + links[1..];
    }
  }

  /** The tag rows of every other recipe. */
  function TagsWithout(recipeTags: set<RecipeTag>, recipe: RecipeId): set<RecipeTag> {
    set x | x in recipeTags && x.recipe != recipe
  }

  /** The tag rows `recipe.tags.set(tags)` leaves for the recipe. */
  function TagLinks(recipe: RecipeId, tags: seq<TagId>): set<RecipeTag> {
    set t | t in tags :: RecipeTag(recipe, t)
  }

  /** The tags of one recipe. */
  function TagsOf(recipeTags: set<RecipeTag>, recipe: RecipeId): set<TagId> {
    set x | x in recipeTags && x.recipe == recipe :: x.tag
  }

  /** The recipes in `user`'s shopping cart. */
  function CartRecipes(carts: seq<RecipeRelation>, user: UserId): set<RecipeId> {
    set x | x in carts && x.user == user :: x.recipe
  }
}
