/** The recipe and user view sets: which serializer a request gets, the
    favourite and shopping-cart toggles, subscribing, and the shopping-list
    download. */
module Views {
  import opened Wrappers
  import UserValidators
  import opened UserModels
  import opened RecipesModels
  import opened Permissions
  import opened Store
  import opened Serializers
  import opened Aggregation
  import opened PdfGenerator

  const HTTP_201_CREATED: int := 201
  const HTTP_204_NO_CONTENT: int := 204
  const HTTP_400_BAD_REQUEST: int := 400
  const HTTP_404_NOT_FOUND: int := 404
  const HTTP_405_METHOD_NOT_ALLOWED: int := 405

  /** The message constants the views answer with. */
  datatype Message = RecipeNotAdd | NoExistSub

  datatype Body =
    | NoBody
    | Errors(errors: seq<RelationError>)
    | Detail(message: Message)
    | ShortRecipe(recipe: RecipeId)       // the created relation, shown as its recipe
    | Subscription(author: UserId)        // the author, shown with their recipes

  datatype Response = Response(status: int, body: Body)

  datatype SerializerClass = RecipeReadSerializer | RecipeWriteSerializer

  /** `get_serializer_class`: only GET reads. */
  function GetSerializerClass(httpMethod: string): (r: SerializerClass)
    ensures r == RecipeReadSerializer <==> httpMethod == "GET"
    ensures r == RecipeWriteSerializer <==> httpMethod != "GET"
  {
    if httpMethod == "GET" then RecipeReadSerializer else RecipeWriteSerializer
  }

  /** The other safe methods are served by the write serializer, even though
      the permission class lets them through as reads. */
  lemma OtherSafeMethodsGetWriteSerializer(httpMethod: string, user: RequestUser)
    requires IsSafeMethod(httpMethod) && httpMethod != "GET"
    ensures GetSerializerClass(httpMethod) == RecipeWriteSerializer
    ensures httpMethod == "HEAD" || httpMethod == "OPTIONS"
    ensures OwnerOrReadOnlyHasPermission(httpMethod, user)
  {
  }

  /** Replaces the Favorite or ShoppingCart table. */
  method SetRelation(db: Database, kind: RelationKind, rows: seq<RecipeRelation>)
    modifies db`favorites, db`carts
    ensures db.Relation(kind) == rows
    ensures kind == FavoriteKind ==> db.carts == old(db.carts)
    ensures kind == ShoppingCartKind ==> db.favorites == old(db.favorites)
  {
    match kind
    case FavoriteKind => db.favorites := rows;
    case ShoppingCartKind => db.carts := rows;
  }

  /** `create_favorite_or_cart`: validate {user, pk} with the table's
      serializer; on success save the pair and answer 201, otherwise answer
      400 with the errors and change nothing. */
  method CreateFavoriteOrCart(db: Database, kind: RelationKind, user: UserId, pk: RecipeId) returns (resp: Response)
    requires db.Valid()
    modifies db`favorites, db`carts
    ensures db.Valid()
    ensures kind == FavoriteKind ==> db.carts == old(db.carts)
    ensures kind == ShoppingCartKind ==> db.favorites == old(db.favorites)
    ensures var v := ValidateRecipeRelation(kind, old(db.Relation(kind)), db.users.Keys, RecipeIds(db.recipes), user, pk);
      && (v.Success? ==>
            resp == Response(HTTP_201_CREATED, ShortRecipe(pk))
            && db.Relation(kind) == old(db.Relation(kind)) + [RecipeRelation(user, pk)])
      && (v.Failure? ==> resp == Response(HTTP_400_BAD_REQUEST, Errors(v.error)) && db.Relation(kind) == old(db.Relation(kind)))
    ensures pk !in RecipeIds(db.recipes) ==> resp.status == HTTP_400_BAD_REQUEST
    ensures resp.status == HTTP_201_CREATED ==> IsMarked(SignedIn(user), db.Relation(kind), pk)
    ensures resp.status == HTTP_201_CREATED <==>
      RecipeRelation(user, pk) !in old(db.Relation(kind)) && user in db.users && pk in RecipeIds(db.recipes)
  {
    var rows := db.Relation(kind);
    var v := ValidateRecipeRelation(kind, rows, db.users.Keys, RecipeIds(db.recipes), user, pk);
    match v
    case Failure(errors) =>
      resp := Response(HTTP_400_BAD_REQUEST, Errors(errors));
    case Success(x) =>
      AcceptedRelationKeepsTableValid(kind, rows, db.users.Keys, RecipeIds(db.recipes), user, pk);
      SetRelation(db, kind, rows + [x]);
      GettersReadTheViewersRows(SignedIn(user), db.Relation(kind), db.follows, pk, user);
      resp := Response(HTTP_201_CREATED, ShortRecipe(pk));
  }

  /** Removing rows keeps a relation table valid. */
  lemma WithoutKeepsRelationValid(rows: seq<RecipeRelation>, userIds: set<UserId>, recipeIds: set<RecipeId>,
                                  x: RecipeRelation)
    requires RelationValid(rows, userIds, recipeIds)
    ensures RelationValid(Without(rows, x), userIds, recipeIds)
  {
    var r := Without(rows, x);
    forall y | y in r ensures y.user in userIds && y.recipe in recipeIds && multiset(r)[y] == 1 {
      assert y in multiset(r);
      assert y in multiset(rows);
    }
  }

  /** `delete_favorite_or_cart`: 404 for an unknown recipe before anything is
      deleted; otherwise delete the pair's rows, answering 400 when there were
      none and 204 when there were. */
  method DeleteFavoriteOrCart(db: Database, kind: RelationKind, user: UserId, pk: RecipeId) returns (resp: Response)
    requires db.Valid()
    modifies db`favorites, db`carts
    ensures db.Valid()
    ensures kind == FavoriteKind ==> db.carts == old(db.carts)
    ensures kind == ShoppingCartKind ==> db.favorites == old(db.favorites)
    ensures pk !in RecipeIds(db.recipes) ==>
      resp == Response(HTTP_404_NOT_FOUND, NoBody) && db.Relation(kind) == old(db.Relation(kind))
    ensures pk in RecipeIds(db.recipes) && RecipeRelation(user, pk) !in old(db.Relation(kind)) ==>
      resp == Response(HTTP_400_BAD_REQUEST, Detail(RecipeNotAdd)) && db.Relation(kind) == old(db.Relation(kind))
    ensures pk in RecipeIds(db.recipes) && RecipeRelation(user, pk) in old(db.Relation(kind)) ==>
      && resp == Response(HTTP_204_NO_CONTENT, NoBody)
      && multiset(db.Relation(kind)) == multiset(old(db.Relation(kind)))[RecipeRelation(user, pk) := 0]
      && !IsMarked(SignedIn(user), db.Relation(kind), pk)
  {
    if pk !in RecipeIds(db.recipes) {
      return Response(HTTP_404_NOT_FOUND, NoBody);
    }
    var x := RecipeRelation(user, pk);
    var rows := db.Relation(kind);
    var remaining := Without(rows, x);
    var deletedCount := |rows| - |remaining|;
    DeletedCount(rows, x);
    WithoutKeepsRelationValid(rows, db.users.Keys, RecipeIds(db.recipes), x);
    SetRelation(db, kind, remaining);
    GettersReadTheViewersRows(SignedIn(user), remaining, db.follows, pk, user);
    if deletedCount == 0 {
      return Response(HTTP_400_BAD_REQUEST, Detail(RecipeNotAdd));
    }
    return Response(HTTP_204_NO_CONTENT, NoBody);
  }

  /** Removing rows keeps the follow table valid. */
  lemma WithoutKeepsFollowsValid(follows: seq<Follow>, userIds: set<UserId>, x: Follow)
    requires FollowsValid(follows, userIds)
    ensures FollowsValid(Without(follows, x), userIds)
  {
    var r := Without(follows, x);
    forall y | y in r ensures y.user in userIds && y.author in userIds && y.user != y.author && multiset(r)[y] == 1 {
      assert y in multiset(r);
      assert y in multiset(follows);
    }
  }

  /** `subscribe`: 404 for an unknown author first; POST validates and saves
      the subscription (201), DELETE removes it (204) or reports that there was
      none (400). Any other method is refused by the action's method list. */
  method Subscribe(db: Database, httpMethod: string, user: UserId, author: UserId) returns (resp: Response)
    requires db.Valid()
    modifies db`follows
    ensures db.Valid()
    ensures httpMethod != "POST" && httpMethod != "DELETE" ==>
      resp == Response(HTTP_405_METHOD_NOT_ALLOWED, NoBody) && db.follows == old(db.follows)
    ensures (httpMethod == "POST" || httpMethod == "DELETE") && author !in db.users ==>
      resp == Response(HTTP_404_NOT_FOUND, NoBody) && db.follows == old(db.follows)
    ensures author in db.users && httpMethod == "POST" ==>
      var v := ValidateSubscription(old(db.follows), db.users.Keys, user, author);
      && (v.Success? ==>
            resp == Response(HTTP_201_CREATED, Subscription(author)) && db.follows == old(db.follows) + [Follow(user, author)])
      && (v.Failure? ==> resp == Response(HTTP_400_BAD_REQUEST, Errors(v.error)) && db.follows == old(db.follows))
    ensures author in db.users && httpMethod == "DELETE" ==>
      if Follow(user, author) in old(db.follows) then
        && resp == Response(HTTP_204_NO_CONTENT, NoBody)
        && db.follows == Without(old(db.follows), Follow(user, author))
        && !IsSubscribed(SignedIn(user), db.follows, author)
      else
        resp == Response(HTTP_400_BAD_REQUEST, Detail(NoExistSub)) && db.follows == old(db.follows)
    ensures resp.status == HTTP_201_CREATED ==> IsSubscribed(SignedIn(user), db.follows, author) && user != author
  {
    // The action's method list refuses any other method before the handler runs.
    if httpMethod != "POST" && httpMethod != "DELETE" {
      return Response(HTTP_405_METHOD_NOT_ALLOWED, NoBody);
    }
    if author !in db.users {
      return Response(HTTP_404_NOT_FOUND, NoBody);
    }
    var x := Follow(user, author);
    if httpMethod == "POST" {
      var v := ValidateSubscription(db.follows, db.users.Keys, user, author);
      match v
      case Failure(errors) =>
        resp := Response(HTTP_400_BAD_REQUEST, Errors(errors));
      case Success(f) =>
        AcceptedSubscriptionKeepsTableValid(db.follows, db.users.Keys, user, author);
        db.follows := db.follows + [f];
        GettersReadTheViewersRows(SignedIn(user), db.favorites, db.follows, 0, author);
        resp := Response(HTTP_201_CREATED, Subscription(author));
    } else if httpMethod == "DELETE" {
      var before := db.follows;
      var remaining := Without(before, x);
      var deletedCount := |before| - |remaining|;
      DeletedCount(before, x);
      WithoutKeepsFollowsValid(before, db.users.Keys, x);
      db.follows := remaining;
      GettersReadTheViewersRows(SignedIn(user), db.favorites, remaining, 0, author);
      if deletedCount == 0 {
        resp := Response(HTTP_400_BAD_REQUEST, Detail(NoExistSub));
      } else {
        resp := Response(HTTP_204_NO_CONTENT, NoBody);
      }
    }
  }

  // ---------------------------------------------------------------------
  // Download

  /** The attachment name: the username, "'s-", then the shopping-cart name. */
  function Filename(username: string, cartName: string): (r: string)
    ensures |r| == |username| + 3 + |cartName|
    ensures r[..|username|] == username && r[|username|] == '\''
  {
    username + "'s-" + cartName
  }

  /** A valid username contains no apostrophe, so the filename determines the
      username: different users download under different names. */
  lemma FilenameDeterminesUser(users: map<UserId, User>, a: UserId, b: UserId, cartName: string)
    requires UsersValid(users) && a in users && b in users
    requires Filename(users[a].username, cartName) == Filename(users[b].username, cartName)
    ensures a == b
  {
    var ua, ub := users[a].username, users[b].username;
    FilenameDeterminesUsername(ua, ub, cartName);
  }

  lemma FilenameDeterminesUsername(ua: string, ub: string, cartName: string)
    requires UserValidators.IsValidUsername(ua) && UserValidators.IsValidUsername(ub)
    requires Filename(ua, cartName) == Filename(ub, cartName)
    ensures ua == ub
  {
    UserValidators.PatternCharacterization(ua);
    UserValidators.PatternCharacterization(ub);
    var f := Filename(ua, cartName);
    if |ua| == |ub| {
      assert ua == f[..|ua|] == ub;
    }
  }

  /** A download: the attachment name and the rewound PDF buffer. */
  datatype Download = Download(filename: string, buffer: PdfBuffer)

  /** `download_shopping_cart`: aggregate the cart's ingredients, render them,
      and name the file after the user. An anonymous request has no cart to
      filter by and fails (`None`). */
  method DownloadShoppingCart(db: Database, viewer: RequestUser, cartName: string) returns (r: Option<Download>)
    requires db.Valid()
    ensures r.None? <==> viewer.Anonymous? || viewer.id !in db.users
    ensures r.Some? ==>
      var rows := ShoppingList(db.links, db.ingredients, CartRecipes(db.carts, viewer.id));
      var cmds := r.value.buffer.commands;
      && r.value.filename == Filename(db.users[viewer.id].username, cartName)
      && r.value.buffer.position == 0
      && CountLines(cmds) == |rows|
      && (|rows| > 0 ==>
            && |cmds| == |rows| + 3
            && cmds[1] == DrawCentredString(TITLE_X, TITLE_Y, CART_TITLE)
            && forall i :: 0 <= i < |rows| ==> cmds[2 + i] == DrawString(LINE_X, LineY(i), EntryLine(rows[i])))
      && (|rows| == 0 ==> cmds == [SetFont(FONT_NAME, FONT_SIZE), DrawCentredString(TITLE_X, EMPTY_TITLE_Y, EMPTY_CART_TITLE), ShowPage, Save])
  {
    if viewer.Anonymous? || viewer.id !in db.users {
      return None;
    }
    var rows := ShoppingList(db.links, db.ingredients, CartRecipes(db.carts, viewer.id));
    var buffer := DownloadPdfShoppingCart(rows);
    var filename := Filename(db.users[viewer.id].username, cartName);
    return Some(Download(filename, buffer));
  }
}
