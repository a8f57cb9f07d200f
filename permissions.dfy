/**
 * The three authorization policies of the API (api_yamdb/api/permissions.py).
 * Each is a boolean function of the request method and of the requesting
 * user's attributes; none of them has state.
 */
module Permissions {

  /**
   * The requesting user as the policies see it. The privilege flags and the
   * role string are attributes of the user account, read as given.
   */
  datatype Requester = Requester(
    id: int,
    isAuthenticated: bool,
    role: string,
    isSuperuser: bool,
    isAdmin: bool,
    isModerator: bool)

  /** The methods that never change anything (SAFE_METHODS of the framework). */
  const SafeMethods: set<string> := {"GET", "HEAD", "OPTIONS"}

  predicate IsSafeMethod(verb: string)
  {
    verb in SafeMethods
  }

  /** The requester is the user with the given key; an anonymous requester is no user. */
  predicate IsUser(user: Requester, userId: int)
  {
    user.isAuthenticated && user.id == userId
  }

  /** The object-level policy: a read-only method, or the author or a privileged requester. */
  predicate AuthorModeratorAdminSuperuserOrReadOnly(verb: string, user: Requester, author: int)
  {
    IsSafeMethod(verb)
    || IsUser(user, author)
    || user.isSuperuser
    || user.isAdmin
    || user.isModerator
  }

  /** The request-level policy: a read-only method, or an authenticated admin or superuser. */
  predicate AdminOrReadOnly(verb: string, user: Requester)
  {
    if IsSafeMethod(verb) then true
    else user.isAuthenticated && (user.role == "admin" || user.isSuperuser)
  }

  /** The request-level policy: an admin or a superuser; the method plays no part. */
  predicate AdminOnly(verb: string, user: Requester)
  {
    user.role == "admin" || user.isSuperuser
  }

  // -------------------------------------------------------------------
  // Object-level policy
  // -------------------------------------------------------------------

  lemma SafeMethodMayAccessAnyObject(verb: string, user: Requester, author: int)
    requires IsSafeMethod(verb)
    ensures AuthorModeratorAdminSuperuserOrReadOnly(verb, user, author)
  {
  }

  lemma ObjectMutationAllowedIff(verb: string, user: Requester, author: int)
    requires !IsSafeMethod(verb)
    ensures AuthorModeratorAdminSuperuserOrReadOnly(verb, user, author)
        <==> IsUser(user, author) || user.isSuperuser || user.isAdmin || user.isModerator
  {
  }

  // -------------------------------------------------------------------
  // AdminOrReadOnly
  // -------------------------------------------------------------------

  /** Safe methods pass whether or not the requester is authenticated. */
  lemma AdminOrReadOnlyAllowsSafe(verb: string, user: Requester)
    requires IsSafeMethod(verb)
    ensures AdminOrReadOnly(verb, user)
  {
  }

  lemma AdminOrReadOnlyMutationIff(verb: string, user: Requester)
    requires !IsSafeMethod(verb)
    ensures AdminOrReadOnly(verb, user)
        <==> user.isAuthenticated && (user.role == "admin" || user.isSuperuser)
  {
  }

  /** Anonymous requesters, and non-superusers whose role is "moderator" or "user", may not mutate. */
  lemma AdminOrReadOnlyDeniesOthers(verb: string, user: Requester)
    requires !IsSafeMethod(verb)
    requires !user.isAuthenticated || (!user.isSuperuser && user.role in {"moderator", "user"})
    ensures !AdminOrReadOnly(verb, user)
  {
  }

  // -------------------------------------------------------------------
  // AdminOnly
  // -------------------------------------------------------------------

  lemma AdminOnlyIgnoresMethod(verb: string, otherVerb: string, user: Requester)
    ensures AdminOnly(verb, user) == AdminOnly(otherVerb, user)
    ensures AdminOnly(verb, user) <==> user.role == "admin" || user.isSuperuser
  {
  }

  /** For an authenticated requester, AdminOnly is the stronger policy. */
  lemma AdminOnlyImpliesAdminOrReadOnly(verb: string, otherVerb: string, user: Requester)
    requires user.isAuthenticated
    requires AdminOnly(verb, user)
    ensures AdminOrReadOnly(otherVerb, user)
  {
  }

  // -------------------------------------------------------------------
  // Monotonicity: more privilege never turns an allow into a deny.
  // -------------------------------------------------------------------

  /** `more` is `user` with possibly some extra privilege flags set. */
  predicate MorePrivileged(more: Requester, user: Requester)
  {
    && more.id == user.id
    && more.isAuthenticated == user.isAuthenticated
    && more.role == user.role
    && (user.isSuperuser ==> more.isSuperuser)
    && (user.isAdmin ==> more.isAdmin)
    && (user.isModerator ==> more.isModerator)
  }

  lemma ObjectPolicyMonotonic(verb: string, user: Requester, more: Requester, author: int)
    requires MorePrivileged(more, user)
    requires AuthorModeratorAdminSuperuserOrReadOnly(verb, user, author)
    ensures AuthorModeratorAdminSuperuserOrReadOnly(verb, more, author)
  {
  }

  /** An authenticated requester always passes the object policy on objects they wrote. */
  lemma ObjectPolicyAuthorship(verb: string, user: Requester)
    requires user.isAuthenticated
    ensures AuthorModeratorAdminSuperuserOrReadOnly(verb, user, user.id)
  {
  }

  lemma AdminOrReadOnlyMonotonic(verb: string, user: Requester, more: Requester)
    requires MorePrivileged(more, user)
    requires AdminOrReadOnly(verb, user)
    ensures AdminOrReadOnly(verb, more)
  {
  }

  lemma AdminOnlyMonotonic(verb: string, user: Requester, more: Requester)
    requires MorePrivileged(more, user)
    requires AdminOnly(verb, user)
    ensures AdminOnly(verb, more)
  {
  }
}
