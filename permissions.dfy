/**
 * The permission predicates of edu/permissions.py and users/permissions.py,
 * with the framework's `IsAuthenticated` and its `&`, `|` and `~`
 * combinators.
 *
 * Every permission has two halves: a view-level check, run on every request,
 * and an object-level check, run once the object of a detail endpoint has been
 * looked up. A predicate class that does not define one of the halves inherits
 * the base class's default, which allows. Both halves are pure functions of
 * the requester and the object: nothing is written.
 */
module Permissions {
  import opened Wrappers

  type UserId = nat

  /** The name of the group whose members are moderators. */
  const MODERATORS: string := "moderators"

  /** An authenticated account: its primary key and the names of its groups. */
  datatype User = User(id: UserId, groups: set<string>)

  /** Who sends the request: nobody in particular, or a logged-in user. */
  datatype Requester = Anonymous | Authenticated(user: User)

  /**
   * What an object-level check looks at: a course or lesson, whose owner may
   * be null after the owning user was deleted, or a user profile.
   */
  datatype Target = Owned(owner: Option<UserId>) | Profile(subject: UserId)

  /** A permission expression as the views write them. */
  datatype Perm =
    | IsAuthenticated
    | IsModerator
    | IsOwner
    | IsOwnerUserProfile
    | And(left: Perm, right: Perm)
    | Or(left: Perm, right: Perm)
    | Not(inner: Perm)

  /** `request.user.groups.filter(name="moderators").exists()`; the anonymous user has no groups. */
  predicate InModerators(req: Requester)
  {
    req.Authenticated? && MODERATORS in req.user.groups
  }

  /** `obj.owner == request.user`: a null owner, or the anonymous user, matches nobody. */
  predicate OwnsObject(req: Requester, obj: Target)
  {
    req.Authenticated? && obj.Owned? && obj.owner == Some(req.user.id)
  }

  /** `obj == request.user`: only a profile can be the requester. */
  predicate IsOwnProfile(req: Requester, obj: Target)
  {
    req.Authenticated? && obj.Profile? && obj.subject == req.user.id
  }

  /** The view-level half, `has_permission`. */
  predicate HasPermission(p: Perm, req: Requester)
  {
    match p
    case IsAuthenticated => req.Authenticated?
    case IsModerator => InModerators(req)
    case IsOwner => true
    case IsOwnerUserProfile => true
    case And(l, r) => HasPermission(l, req) && HasPermission(r, req)
    case Or(l, r) => HasPermission(l, req) || HasPermission(r, req)
    case Not(q) => !HasPermission(q, req)
  }

  /**
   * The object-level half, `has_object_permission`. A disjunct of `|` only
   * counts at object level if it also passes its own view-level check; `~`
   * negates the object-level half too, so `~P` denies every object when `P`
   * only has the default half.
   */
  predicate HasObjectPermission(p: Perm, req: Requester, obj: Target)
  {
    match p
    case IsAuthenticated => true
    case IsModerator => true
    case IsOwner => OwnsObject(req, obj)
    case IsOwnerUserProfile => IsOwnProfile(req, obj)
    case And(l, r) => HasObjectPermission(l, req, obj) && HasObjectPermission(r, req, obj)
    case Or(l, r) =>
      (HasPermission(l, req) && HasObjectPermission(l, req, obj))
      || (HasPermission(r, req) && HasObjectPermission(r, req, obj))
    case Not(q) => !HasObjectPermission(q, req, obj)
  }

  /** How a request ends once the permissions have been looked at. */
  datatype Outcome = Allow | Unauthenticated | Forbidden | NotFound

  /** A refusal: 401 when nobody is logged in, 403 otherwise. */
  function Denied(req: Requester): (o: Outcome)
    ensures o == Unauthenticated || o == Forbidden
    ensures o == Unauthenticated <==> req.Anonymous?
  {
    if req.Anonymous? then Unauthenticated else Forbidden
  }

  // ---------------------------------------------------------------------------
  // Properties of the atomic predicates
  // ---------------------------------------------------------------------------

  /** `IsModerator` is decided by membership of the "moderators" group alone. */
  lemma IsModeratorIff(req: Requester, obj: Target)
    ensures HasPermission(IsModerator, req) <==> req.Authenticated? && "moderators" in req.user.groups
    ensures HasObjectPermission(IsModerator, req, obj)
  {
  }

  /** `IsOwner` has only an object-level half: the owner must be exactly the requester. */
  lemma IsOwnerIff(req: Requester, owner: Option<UserId>)
    ensures HasPermission(IsOwner, req)
    ensures HasObjectPermission(IsOwner, req, Owned(owner)) <==> req.Authenticated? && owner == Some(req.user.id)
  {
  }

  /** A course or lesson whose owner was set to null belongs to nobody. */
  lemma NullOwnerMatchesNobody(req: Requester)
    ensures !HasObjectPermission(IsOwner, req, Owned(None))
  {
  }

  /** `IsOwnerUserProfile` compares identities only; the groups play no part. */
  lemma IsOwnerUserProfileIff(req: Requester, subject: UserId)
    ensures HasPermission(IsOwnerUserProfile, req)
    ensures HasObjectPermission(IsOwnerUserProfile, req, Profile(subject)) <==> req.Authenticated? && req.user.id == subject
  {
  }

  /** The anonymous user passes neither `IsAuthenticated` nor `IsModerator`. */
  lemma AnonymousIsNoModerator()
    ensures !HasPermission(IsModerator, Anonymous) && !HasPermission(IsAuthenticated, Anonymous)
  {
  }

  // ---------------------------------------------------------------------------
  // Properties of the combinators
  // ---------------------------------------------------------------------------

  /**
   * `~IsModerator` denies every object: it is only usable on endpoints that
   * never look an object up.
   */
  lemma NotModeratorDeniesEveryObject(req: Requester, obj: Target)
    ensures !HasObjectPermission(Not(IsModerator), req, obj)
  {
  }

  /**
   * In `A | B`, a disjunct whose view-level half fails is ignored at object
   * level, even when its object-level half would allow.
   */
  lemma OrIgnoresFailedDisjunct(a: Perm, b: Perm, req: Requester, obj: Target)
    requires !HasPermission(a, req)
    ensures HasObjectPermission(Or(a, b), req, obj) <==> HasPermission(b, req) && HasObjectPermission(b, req, obj)
  {
  }

  /**
   * Passing both halves of `A | B` is passing both halves of `A` or both
   * halves of `B`: the disjunction is taken per permission, not per half.
   */
  lemma OrIsPerPermission(a: Perm, b: Perm, req: Requester, obj: Target)
    ensures HasPermission(Or(a, b), req) && HasObjectPermission(Or(a, b), req, obj)
            <==> (HasPermission(a, req) && HasObjectPermission(a, req, obj))
                 || (HasPermission(b, req) && HasObjectPermission(b, req, obj))
  {
  }

  /** Both halves of `A & B` pass exactly when both halves of `A` and of `B` pass. */
  lemma AndIsPerHalf(a: Perm, b: Perm, req: Requester, obj: Target)
    ensures HasPermission(And(a, b), req) && HasObjectPermission(And(a, b), req, obj)
            <==> HasPermission(a, req) && HasObjectPermission(a, req, obj)
                 && HasPermission(b, req) && HasObjectPermission(b, req, obj)
  {
  }
}
