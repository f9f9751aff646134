/**
 * Which permission each endpoint demands, and how a request is admitted.
 *
 * The course endpoints choose their permission by action
 * (`CourseViewSet.get_permissions`, edu/views.py:22-35); the lesson and
 * subscription endpoints carry fixed permission tuples. The users-side views
 * are not part of this model; their policy is the one the users test-suite
 * pins down, written with the same predicates.
 *
 * A request first passes the view-level check. Endpoints that work on one
 * object then look it up (404 when it does not exist) and pass the
 * object-level check. List and create endpoints have no object.
 */
module Policies {
  import opened Wrappers
  import opened Permissions

  /** The viewset actions: `list`, `retrieve`, `create`, `update`, `partial_update`, `destroy`. */
  datatype Action = List | Retrieve | Create | Update | PartialUpdate | Destroy

  datatype Endpoint =
    | CourseEndpoint(action: Action)
    | LessonCreate
    | LessonDestroy
    | LessonRetrieve
    | LessonUpdate
    | LessonList
    | SubscriptionToggle
    | ProfileRetrieve
    | ProfileList
    | ProfileUpdate
    | ProfileDestroy
    | Register
    | PaymentList

  /** `IsAuthenticated & ~IsModerator`. */
  const AUTHENTICATED_NON_MODERATOR: Perm := And(IsAuthenticated, Not(IsModerator))
  /** `IsAuthenticated & IsOwner`. */
  const AUTHENTICATED_OWNER: Perm := And(IsAuthenticated, IsOwner)
  /** `IsModerator | (IsAuthenticated & IsOwner)`. */
  const MODERATOR_OR_OWNER: Perm := Or(IsModerator, And(IsAuthenticated, IsOwner))

  /** `CourseViewSet.get_permissions`, branch by branch. */
  function CoursePermission(a: Action): Perm
  {
    if a == List || a == Retrieve then IsAuthenticated
    else if a == Create then AUTHENTICATED_NON_MODERATOR
    else if a == Destroy then AUTHENTICATED_OWNER
    else MODERATOR_OR_OWNER
  }

  /** The permission each endpoint demands. */
  function Policy(e: Endpoint): Perm
  {
    match e
    case CourseEndpoint(a) => CoursePermission(a)
    case LessonCreate => AUTHENTICATED_NON_MODERATOR
    case LessonDestroy => AUTHENTICATED_OWNER
    case LessonRetrieve => MODERATOR_OR_OWNER
    case LessonUpdate => MODERATOR_OR_OWNER
    case LessonList => MODERATOR_OR_OWNER
    case SubscriptionToggle => IsAuthenticated
    case ProfileRetrieve => IsAuthenticated
    case ProfileList => IsAuthenticated
    case ProfileUpdate => And(IsAuthenticated, IsOwnerUserProfile)
    case ProfileDestroy => IsModerator
    case Register => Not(IsAuthenticated)
    case PaymentList => IsModerator
  }

  /** The endpoint works on one looked-up object, so the object-level check runs. */
  predicate HasObject(e: Endpoint)
  {
    match e
    case CourseEndpoint(a) => a != List && a != Create
    case LessonDestroy => true
    case LessonRetrieve => true
    case LessonUpdate => true
    case ProfileRetrieve => true
    case ProfileUpdate => true
    case ProfileDestroy => true
    case _ => false
  }

  /**
   * The admission of a request: the view-level check, then, for an endpoint
   * with an object, the lookup (`obj` is `None` when nothing has that key)
   * and the object-level check.
   */
  function Authorize(e: Endpoint, req: Requester, obj: Option<Target>): (o: Outcome)
    ensures o == Allow ==> HasPermission(Policy(e), req)
    ensures o == Allow && HasObject(e) ==> obj.Some? && HasObjectPermission(Policy(e), req, obj.value)
    ensures o == NotFound ==> HasObject(e) && obj.None?
    ensures (o == Unauthenticated || o == Forbidden) ==> o == Denied(req)
    ensures HasPermission(Policy(e), req) && HasObject(e) && obj.None? ==> o == NotFound
    ensures HasPermission(Policy(e), req) && (!HasObject(e) || (obj.Some? && HasObjectPermission(Policy(e), req, obj.value))) ==> o == Allow
  {
    if !HasPermission(Policy(e), req) then Denied(req)
    else if !HasObject(e) then Allow
    else match obj
      case None => NotFound
      case Some(t) => if HasObjectPermission(Policy(e), req, t) then Allow else Denied(req)
  }

  // ---------------------------------------------------------------------------
  // The policy in closed form
  // ---------------------------------------------------------------------------

  /** The two halves of the three composite permissions the views use. */
  lemma CompositeHalves(req: Requester, t: Target)
    ensures HasPermission(AUTHENTICATED_NON_MODERATOR, req) <==> req.Authenticated? && !InModerators(req)
    ensures !HasObjectPermission(AUTHENTICATED_NON_MODERATOR, req, t)
    ensures HasPermission(AUTHENTICATED_OWNER, req) <==> req.Authenticated?
    ensures HasObjectPermission(AUTHENTICATED_OWNER, req, t) <==> OwnsObject(req, t)
    ensures HasPermission(MODERATOR_OR_OWNER, req) <==> req.Authenticated?
    ensures HasObjectPermission(MODERATOR_OR_OWNER, req, t) <==> InModerators(req) || OwnsObject(req, t)
  {
    assert HasPermission(Not(IsModerator), req) <==> !InModerators(req);
    assert !HasObjectPermission(Not(IsModerator), req, t);
    var owning := And(IsAuthenticated, IsOwner);
    assert HasPermission(owning, req) <==> req.Authenticated?;
    assert HasObjectPermission(owning, req, t) <==> OwnsObject(req, t);
    assert HasObjectPermission(Or(IsModerator, owning), req, t)
      <==> InModerators(req) || (req.Authenticated? && OwnsObject(req, t));
  }

  /** The request is admitted once the object `t` has been found. */
  predicate Admits(e: Endpoint, req: Requester, t: Target)
  {
    Authorize(e, req, Some(t)) == Allow
  }

  /**
   * Courses: list and retrieve for any logged-in user; create for one who is
   * no moderator; destroy for the owner; update and partial update for a
   * moderator or the owner.
   */
  lemma CoursePolicy(a: Action, req: Requester, owner: Option<UserId>)
    ensures a == List || a == Retrieve ==> (Admits(CourseEndpoint(a), req, Owned(owner)) <==> req.Authenticated?)
    ensures a == Create ==> (Admits(CourseEndpoint(a), req, Owned(owner)) <==> req.Authenticated? && !InModerators(req))
    ensures a == Destroy ==> (Admits(CourseEndpoint(a), req, Owned(owner)) <==> req.Authenticated? && owner == Some(req.user.id))
    ensures a == Update || a == PartialUpdate ==>
      (Admits(CourseEndpoint(a), req, Owned(owner)) <==> InModerators(req) || (req.Authenticated? && owner == Some(req.user.id)))
  {
    CompositeHalves(req, Owned(owner));
  }

  /**
   * Lessons: create for a logged-in non-moderator; destroy for the owner;
   * retrieve and update for a moderator or the owner. The list has no object,
   * so the owner half never runs and any logged-in user is admitted.
   */
  lemma LessonPolicy(req: Requester, owner: Option<UserId>)
    ensures Admits(LessonCreate, req, Owned(owner)) <==> req.Authenticated? && !InModerators(req)
    ensures Admits(LessonDestroy, req, Owned(owner)) <==> req.Authenticated? && owner == Some(req.user.id)
    ensures Admits(LessonRetrieve, req, Owned(owner)) <==> InModerators(req) || (req.Authenticated? && owner == Some(req.user.id))
    ensures Admits(LessonUpdate, req, Owned(owner)) <==> InModerators(req) || (req.Authenticated? && owner == Some(req.user.id))
    ensures Admits(LessonList, req, Owned(owner)) <==> req.Authenticated?
  {
    CompositeHalves(req, Owned(owner));
  }

  /**
   * The users side: profiles can be read by anyone logged in, edited only by
   * their subject (a moderator editing another profile is refused) and deleted
   * only by a moderator (even the subject is refused); registration is for
   * anonymous requesters only; the payment list is for moderators.
   */
  lemma UsersPolicy(req: Requester, subject: UserId)
    ensures Admits(ProfileRetrieve, req, Profile(subject)) <==> req.Authenticated?
    ensures Admits(ProfileList, req, Profile(subject)) <==> req.Authenticated?
    ensures Admits(ProfileUpdate, req, Profile(subject)) <==> req.Authenticated? && req.user.id == subject
    ensures Admits(ProfileDestroy, req, Profile(subject)) <==> InModerators(req)
    ensures Admits(Register, req, Profile(subject)) <==> req.Anonymous?
    ensures Admits(PaymentList, req, Profile(subject)) <==> InModerators(req)
  {
    var editing := And(IsAuthenticated, IsOwnerUserProfile);
    assert HasPermission(editing, req) <==> req.Authenticated?;
    assert HasObjectPermission(editing, req, Profile(subject)) <==> IsOwnProfile(req, Profile(subject));
    assert HasPermission(Not(IsAuthenticated), req) <==> req.Anonymous?;
  }

  // ---------------------------------------------------------------------------
  // Consequences
  // ---------------------------------------------------------------------------

  /** Every endpoint but registration answers an anonymous request with 401, whatever the object. */
  lemma AnonymousIsUnauthenticated(e: Endpoint, obj: Option<Target>)
    requires e != Register
    ensures Authorize(e, Anonymous, obj) == Unauthenticated
  {
  }

  /** A refusal is a 401 exactly when the requester is anonymous, and a 403 otherwise. */
  lemma RefusalStatus(e: Endpoint, req: Requester, obj: Option<Target>)
    requires Authorize(e, req, obj) == Unauthenticated || Authorize(e, req, obj) == Forbidden
    ensures Authorize(e, req, obj) == Unauthenticated <==> req.Anonymous?
  {
  }

  /**
   * A moderator who does not own the course or lesson may update it, but
   * may neither create nor destroy one.
   */
  lemma ModeratorMayOnlyUpdate(req: Requester, owner: Option<UserId>)
    requires InModerators(req) && owner != Some(req.user.id)
    ensures Admits(CourseEndpoint(Update), req, Owned(owner)) && Admits(CourseEndpoint(PartialUpdate), req, Owned(owner))
    ensures Admits(LessonUpdate, req, Owned(owner))
    ensures Authorize(CourseEndpoint(Create), req, None) == Forbidden
    ensures Authorize(LessonCreate, req, None) == Forbidden
    ensures Authorize(CourseEndpoint(Destroy), req, Some(Owned(owner))) == Forbidden
    ensures Authorize(LessonDestroy, req, Some(Owned(owner))) == Forbidden
  {
    CompositeHalves(req, Owned(owner));
  }

  /** A course or lesson without an owner is out of reach for every non-moderator. */
  lemma OwnerlessIsModeratorOnly(e: Endpoint, req: Requester)
    requires e in {CourseEndpoint(Update), CourseEndpoint(PartialUpdate), CourseEndpoint(Destroy), LessonDestroy, LessonRetrieve, LessonUpdate}
    requires !InModerators(req)
    ensures Authorize(e, req, Some(Owned(None))) == Denied(req)
  {
    CompositeHalves(req, Owned(None));
  }

  /** For an endpoint without an object, the outcome does not depend on the object. */
  lemma NoObjectNoLookup(e: Endpoint, req: Requester, a: Option<Target>, b: Option<Target>)
    requires !HasObject(e)
    ensures Authorize(e, req, a) == Authorize(e, req, b)
    ensures Authorize(e, req, a) != NotFound
  {
  }

  /** The view-level check comes first: a refused requester never learns whether the object exists. */
  lemma RefusalBeforeLookup(e: Endpoint, req: Requester, a: Option<Target>, b: Option<Target>)
    requires !HasPermission(Policy(e), req)
    ensures Authorize(e, req, a) == Authorize(e, req, b) == Denied(req)
  {
  }
}
