/** The two permission classes of the API. */
module Permissions {
  import opened UserModels

  /** `request.user`: the anonymous user, or a signed-in user. */
  datatype RequestUser = Anonymous | SignedIn(id: UserId)

  /** The framework's `SAFE_METHODS`. */
  const SAFE_METHODS: set<string> := {"GET", "HEAD", "OPTIONS"}

  predicate IsSafeMethod(httpMethod: string) {
    httpMethod in SAFE_METHODS
  }

  predicate IsAuthenticated(user: RequestUser) {
    user.SignedIn?
  }

  /** `x == request.user` for a stored user `x`: never true of the anonymous user. */
  predicate IsRequestUser(user: RequestUser, x: UserId) {
    user.SignedIn? && user.id == x
  }

  /** `IsOwnerOrReadOnly.has_permission`. */
  predicate OwnerOrReadOnlyHasPermission(httpMethod: string, user: RequestUser) {
    IsSafeMethod(httpMethod) || IsAuthenticated(user)
  }

  /** `IsOwnerOrReadOnly.has_object_permission` for an object whose author is `author`. */
  predicate OwnerOrReadOnlyHasObjectPermission(httpMethod: string, user: RequestUser, author: UserId) {
    IsSafeMethod(httpMethod) || IsRequestUser(user, author)
  }

  /** `IsUserAuthenticated.has_permission`. */
  predicate UserAuthenticatedHasPermission(httpMethod: string, user: RequestUser) {
    IsAuthenticated(user)
  }

  /** `IsUserAuthenticated.has_object_permission` for the user object `obj`. */
  predicate UserAuthenticatedHasObjectPermission(httpMethod: string, user: RequestUser, obj: UserId) {
    IsRequestUser(user, obj)
  }

  /** Read requests pass both checks of `IsOwnerOrReadOnly` for anyone, the
      anonymous user included. */
  lemma SafeMethodsPassOwnerChecks(httpMethod: string, user: RequestUser, author: UserId)
    requires httpMethod in SAFE_METHODS
    ensures OwnerOrReadOnlyHasPermission(httpMethod, user)
    ensures OwnerOrReadOnlyHasObjectPermission(httpMethod, user, author)
  {
  }

  /** A write passes `IsOwnerOrReadOnly` exactly when the user is signed in,
      and passes it on an object exactly when the user is its author. */
  lemma OwnerChecksOnWrites(httpMethod: string, user: RequestUser, author: UserId)
    requires httpMethod !in SAFE_METHODS
    ensures OwnerOrReadOnlyHasPermission(httpMethod, user) <==> user.SignedIn?
    ensures OwnerOrReadOnlyHasObjectPermission(httpMethod, user, author) <==> user == SignedIn(author)
  {
  }

  /** `IsUserAuthenticated` looks at the user only, never at the httpMethod. */
  lemma UserAuthenticatedIgnoresMethod(m1: string, m2: string, user: RequestUser, obj: UserId)
    ensures UserAuthenticatedHasPermission(m1, user) == UserAuthenticatedHasPermission(m2, user)
    ensures UserAuthenticatedHasPermission(m1, user) <==> user != Anonymous
    ensures UserAuthenticatedHasObjectPermission(m1, user, obj) == UserAuthenticatedHasObjectPermission(m2, user, obj)
    ensures UserAuthenticatedHasObjectPermission(m1, user, obj) <==> user == SignedIn(obj)
  {
  }
}
