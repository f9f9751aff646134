/**
 * The course catalogue of the edu application: courses, lessons and
 * subscriptions, the stamping routine `update_course` of edu/service.py and
 * the mutating handlers of edu/views.py.
 *
 * The tables are the fields of one `Store`. The `updated_at` column that the
 * stamping routine reads and writes is the integer `updatedAt` (seconds).
 * Handing a notification to the mail worker is appending it to `outbox`.
 *
 * Every handler follows the framework's order: the view-level permission
 * check; for a detail endpoint, the lookup (404) and the object-level check;
 * the validation of the request body (400); then the handler's own writes.
 * A refusal or a validation error writes nothing. An attribute access on a
 * null course inside a handler is a crash (500); the writes made before it
 * stay. That assumes requests run outside a transaction, which is Django's
 * default (`ATOMIC_REQUESTS` off); the project's settings are not part of
 * this model.
 */
module Courses {
  import opened Wrappers
  import opened Permissions
  import opened Policies
  import opened CharFields

  type CourseId = nat
  type LessonId = nat

  /** A course is stamped without notifying when it was stamped at most this many seconds before. */
  const NOTIFY_AFTER_SECONDS: int := 4
  const SUBJECT: string := "Тема"
  const BODY: string := "Письмо"
  const UNSUBSCRIBED: string := "подписка удалена"
  const SUBSCRIBED: string := "подписка добавлена"
  /** `max_length` of the `name` columns and of `Lesson.video_url`. */
  const NAME_MAX_LENGTH: nat := 150
  const VIDEO_URL_MAX_LENGTH: nat := 200

  const OK: int := 200
  const CREATED: int := 201
  const NO_CONTENT: int := 204
  const BAD_REQUEST: int := 400
  const SERVER_ERROR: int := 500

  datatype Course = Course(name: string, description: Option<string>, owner: Option<UserId>, updatedAt: int)

  datatype Lesson = Lesson(
    name: string,
    description: Option<string>,
    videoUrl: Option<string>,
    course: Option<CourseId>,
    owner: Option<UserId>)

  /** A mail job: subject, body and the list of recipients. */
  datatype Notification = Notification(subject: string, body: string, recipients: seq<string>)

  /** A subscription row: who follows which course. */
  type Subscription = (UserId, CourseId)

  /** The status code of an admission outcome. */
  function StatusOf(o: Outcome): int
  {
    match o
    case Allow => OK
    case Unauthenticated => 401
    case Forbidden => 403
    case NotFound => 404
  }

  /** The requester's primary key, which the handlers write into `owner`. */
  function RequesterId(req: Requester): Option<UserId>
  {
    if req.Authenticated? then Some(req.user.id) else None
  }

  // ---------------------------------------------------------------------------
  // Subscription rows
  // ---------------------------------------------------------------------------

  predicate NoDup<T(==)>(s: seq<T>)
  {
    forall i, j :: 0 <= i < j < |s| ==> s[i] != s[j]
  }

  /** The rows without every copy of `r`: `Subscription.objects.filter(...).delete()`. */
  function Without(rows: seq<Subscription>, r: Subscription): (out: seq<Subscription>)
    ensures |out| <= |rows|
    ensures forall q :: q in out <==> q in rows && q != r
  {
    if rows == [] then []
    else (if rows[0] == r then [] else [rows[0]]) + Without(rows[1..], r)
  }

  /** `SubscriptionAPIView.post` on the table: remove the row if it is there, append it otherwise. */
  function Toggled(rows: seq<Subscription>, r: Subscription): seq<Subscription>
  {
    if r in rows then Without(rows, r) else rows + [r]
  }

  lemma {:induction false} WithoutKeepsNoDup(rows: seq<Subscription>, r: Subscription)
    requires NoDup(rows)
    ensures NoDup(Without(rows, r))
  {
    if rows != [] {
      WithoutKeepsNoDup(rows[1..], r);
      assert rows[0] !in rows[1..];
    }
  }

  /** Removing a row that is not there changes nothing. */
  lemma {:induction false} WithoutAbsent(rows: seq<Subscription>, r: Subscription)
    requires r !in rows
    ensures Without(rows, r) == rows
  {
    if rows != [] {
      WithoutAbsent(rows[1..], r);
      assert [rows[0]] + rows[1..] == rows;
    }
  }

  /** Removing a row that occurs once shortens the table by one. */
  lemma {:induction false} WithoutPresent(rows: seq<Subscription>, r: Subscription)
    requires NoDup(rows) && r in rows
    ensures |Without(rows, r)| == |rows| - 1
  {
    assert rows != [];
    if rows[0] == r {
      assert r !in rows[1..];
      WithoutAbsent(rows[1..], r);
    } else {
      WithoutPresent(rows[1..], r);
    }
  }

  /** Removing a row just appended gives back the table it was appended to. */
  lemma {:induction false} WithoutAppended(rows: seq<Subscription>, r: Subscription)
    requires r !in rows
    ensures Without(rows + [r], r) == rows
  {
    if rows == [] {
      assert [] + [r] == [r];
    } else {
      assert (rows + [r])[1..] == rows[1..] + [r];
      WithoutAppended(rows[1..], r);
      assert [rows[0]] + rows[1..] == rows;
    }
  }

  /**
   * Toggling flips the membership of the requester's row and of no other
   * row, keeps the table free of duplicates, and removes or adds exactly one
   * row.
   */
  lemma ToggleFlips(rows: seq<Subscription>, r: Subscription)
    requires NoDup(rows)
    ensures NoDup(Toggled(rows, r))
    ensures r in Toggled(rows, r) <==> r !in rows
    ensures forall q :: q != r ==> (q in Toggled(rows, r) <==> q in rows)
    ensures |Toggled(rows, r)| == if r in rows then |rows| - 1 else |rows| + 1
  {
    if r in rows {
      WithoutKeepsNoDup(rows, r);
      WithoutPresent(rows, r);
    }
  }

  /** Two toggles restore the set of rows; starting without the row they restore the table itself. */
  lemma ToggleTwice(rows: seq<Subscription>, r: Subscription)
    requires NoDup(rows)
    ensures forall q :: q in Toggled(Toggled(rows, r), r) <==> q in rows
    ensures r !in rows ==> Toggled(Toggled(rows, r), r) == rows
  {
    ToggleFlips(rows, r);
    ToggleFlips(Toggled(rows, r), r);
    if r !in rows {
      WithoutAppended(rows, r);
    }
  }

  /** Every row's user has an account. */
  predicate UsersKnown(rows: seq<Subscription>, emails: map<UserId, string>)
  {
    forall k :: 0 <= k < |rows| ==> rows[k].0 in emails
  }

  /** The rows of one course, in table order: `Subscription.objects.filter(course=c)`. */
  function SubscriptionsTo(rows: seq<Subscription>, c: CourseId): seq<Subscription>
  {
    if rows == [] then []
    else SubscriptionsTo(rows[..|rows| - 1], c) + (if rows[|rows| - 1].1 == c then [rows[|rows| - 1]] else [])
  }

  /** `[sub.user.email for sub in subscriptions]`. */
  function SubscriberEmails(rows: seq<Subscription>, emails: map<UserId, string>, c: CourseId): seq<string>
    requires UsersKnown(rows, emails)
  {
    if rows == [] then []
    else
      var last := rows[|rows| - 1];
      SubscriberEmails(rows[..|rows| - 1], emails, c) + (if last.1 == c then [emails[last.0]] else [])
  }

  /** The rows of a course are exactly the table's rows for that course. */
  lemma {:induction false} SubscriptionsToIff(rows: seq<Subscription>, c: CourseId, q: Subscription)
    ensures q in SubscriptionsTo(rows, c) <==> q in rows && q.1 == c
  {
    if rows != [] {
      var init := rows[..|rows| - 1];
      SubscriptionsToIff(init, c, q);
      assert rows == init + [rows[|rows| - 1]];
    }
  }

  /** One recipient per subscription of the course, in row order: the email of that row's user. */
  lemma {:induction false} OneRecipientPerSubscription(rows: seq<Subscription>, emails: map<UserId, string>, c: CourseId)
    requires UsersKnown(rows, emails)
    ensures |SubscriberEmails(rows, emails, c)| == |SubscriptionsTo(rows, c)|
    ensures forall k :: 0 <= k < |SubscriptionsTo(rows, c)| ==>
      SubscriptionsTo(rows, c)[k].0 in emails && SubscriberEmails(rows, emails, c)[k] == emails[SubscriptionsTo(rows, c)[k].0]
  {
    if rows != [] {
      var init := rows[..|rows| - 1];
      assert UsersKnown(init, emails);
      OneRecipientPerSubscription(init, emails, c);
      var last := rows[|rows| - 1];
      assert rows == init + [last];
      forall q | q in SubscriptionsTo(init, c)
        ensures q.0 in emails
      {
        SubscriptionsToIff(init, c, q);
      }
    }
  }

  // ---------------------------------------------------------------------------
  // The stamping routine's specification (edu/service.py:6-21)
  // ---------------------------------------------------------------------------

  /**
   * The notification a stamp at `now` enqueues after a stamp at `previous`:
   * one, to the given recipients, when more than 4 seconds lie between them,
   * none otherwise.
   */
  function Notices(previous: int, now: int, recipients: seq<string>): (r: seq<Notification>)
    ensures |r| <= 1
    ensures |r| == 1 <==> now - previous > NOTIFY_AFTER_SECONDS
    ensures |r| == 1 ==> r[0].subject == "Тема" && r[0].body == "Письмо" && r[0].recipients == recipients
  {
    if now - previous > NOTIFY_AFTER_SECONDS then [Notification(SUBJECT, BODY, recipients)] else []
  }

  /** The course table after stamping `c`. */
  function Stamped(courses: map<CourseId, Course>, c: CourseId, now: int): (r: map<CourseId, Course>)
    requires c in courses
    ensures r.Keys == courses.Keys && r[c].updatedAt == now
    ensures r[c] == courses[c].(updatedAt := now)
    ensures forall d :: d in courses && d != c ==> r[d] == courses[d]
  {
    courses[c := courses[c].(updatedAt := now)]
  }

  /** What stamping `c` enqueues. */
  function StampNotices(courses: map<CourseId, Course>, rows: seq<Subscription>, emails: map<UserId, string>, c: CourseId, now: int): seq<Notification>
    requires c in courses && UsersKnown(rows, emails)
  {
    Notices(courses[c].updatedAt, now, SubscriberEmails(rows, emails, c))
  }

  /** Two stamps of one course at most 4 seconds apart: the second one enqueues nothing. */
  lemma SecondStampIsQuiet(courses: map<CourseId, Course>, rows: seq<Subscription>, emails: map<UserId, string>, c: CourseId, first: int, second: int)
    requires c in courses && UsersKnown(rows, emails)
    requires second - first <= NOTIFY_AFTER_SECONDS
    ensures StampNotices(Stamped(courses, c, first), rows, emails, c, second) == []
  {
  }

  /** A stamp enqueues even when the course has no subscriber: the notification then has no recipient. */
  lemma NotifiesWithoutSubscribers(courses: map<CourseId, Course>, emails: map<UserId, string>, c: CourseId, now: int)
    requires c in courses && now - courses[c].updatedAt > NOTIFY_AFTER_SECONDS
    ensures StampNotices(courses, [], emails, c, now) == [Notification("Тема", "Письмо", [])]
  {
  }

  // ---------------------------------------------------------------------------
  // Deleting a course
  // ---------------------------------------------------------------------------

  /**
   * `on_delete=SET_NULL` of `Lesson.course`: no lesson refers to the deleted
   * course any more, a lesson of it keeps every other field with a null
   * course, and a lesson of another course is untouched.
   */
  function DetachLessons(lessons: map<LessonId, Lesson>, c: CourseId): (r: map<LessonId, Lesson>)
    ensures r.Keys == lessons.Keys
    ensures forall l :: l in r ==> r[l].course != Some(c)
    ensures forall l :: l in lessons ==> r[l] == lessons[l].(course := r[l].course)
    ensures forall l :: l in lessons && lessons[l].course == Some(c) ==> r[l].course == None
    ensures forall l :: l in lessons && lessons[l].course != Some(c) ==> r[l] == lessons[l]
  {
    map l | l in lessons :: if lessons[l].course == Some(c) then lessons[l].(course := None) else lessons[l]
  }

  /** The subscriptions that survive the deletion of course `c`. */
  function DropSubscriptions(rows: seq<Subscription>, c: CourseId): (r: seq<Subscription>)
    ensures forall q :: q in r <==> q in rows && q.1 != c
  {
    if rows == [] then []
    else (if rows[0].1 == c then [] else [rows[0]]) + DropSubscriptions(rows[1..], c)
  }

  lemma {:induction false} DropKeepsNoDup(rows: seq<Subscription>, c: CourseId)
    requires NoDup(rows)
    ensures NoDup(DropSubscriptions(rows, c))
  {
    if rows != [] {
      DropKeepsNoDup(rows[1..], c);
      assert rows[0] !in rows[1..];
    }
  }

  /** After a course is deleted, the surviving rows are still unique and refer to users and to the remaining courses. */
  lemma DropKeepsRows(rows: seq<Subscription>, c: CourseId, courses: set<CourseId>, emails: map<UserId, string>)
    requires NoDup(rows) && UsersKnown(rows, emails)
    requires forall k :: 0 <= k < |rows| ==> rows[k].1 in courses
    ensures NoDup(DropSubscriptions(rows, c)) && UsersKnown(DropSubscriptions(rows, c), emails)
    ensures forall k :: 0 <= k < |DropSubscriptions(rows, c)| ==> DropSubscriptions(rows, c)[k].1 in courses - {c}
  {
    DropKeepsNoDup(rows, c);
    var r := DropSubscriptions(rows, c);
    forall k | 0 <= k < |r|
      ensures r[k].0 in emails && r[k].1 in courses - {c}
    {
      assert r[k] in rows;
      var j :| 0 <= j < |rows| && rows[j] == r[k];
    }
  }

  /** After a course is deleted, every lesson still refers to existing rows. */
  lemma DetachKeepsLinks(lessons: map<LessonId, Lesson>, c: CourseId, courses: set<CourseId>, users: set<UserId>)
    requires forall l :: l in lessons ==> LessonLinks(lessons[l], courses, users)
    ensures forall l :: l in DetachLessons(lessons, c) ==> LessonLinks(DetachLessons(lessons, c)[l], courses - {c}, users)
  {
  }

  // ---------------------------------------------------------------------------
  // Request bodies
  // ---------------------------------------------------------------------------

  /** A course body; `None` is an absent field, `Some(None)` an explicit null. */
  datatype CourseInput = CourseInput(name: Option<Option<string>>, description: Option<Option<string>>, owner: Option<Option<UserId>>)

  /** A lesson body. */
  datatype LessonInput = LessonInput(
    name: Option<Option<string>>,
    description: Option<Option<string>>,
    videoUrl: Option<Option<string>>,
    course: Option<Option<CourseId>>,
    owner: Option<Option<UserId>>)

  /** `name`: required unless the update is partial, not null, not blank, at most 150 characters. */
  function NameRules(partial: bool): Rules
  {
    Rules(!partial, false, false, Some(NAME_MAX_LENGTH))
  }

  /** `description`: optional, nullable, may be blank, no length limit. */
  const DESCRIPTION_RULES: Rules := Rules(false, true, true, None)
  /** `Lesson.video_url`: optional, nullable, may be blank, at most 200 characters. */
  const VIDEO_URL_RULES: Rules := Rules(false, true, true, Some(VIDEO_URL_MAX_LENGTH))

  /** A sent key must name an existing row. */
  predicate RefersTo(key: Option<Option<nat>>, ids: set<nat>)
  {
    key.Some? && key.value.Some? ==> key.value.value in ids
  }

  /** Every text field of a course body cleans. */
  predicate CourseTextsValid(i: CourseInput, partial: bool)
  {
    !Clean(i.name, NameRules(partial)).Refused? && !Clean(i.description, DESCRIPTION_RULES).Refused?
  }

  /** The course serializer accepts the body: every text field cleans, and a sent owner is a user. */
  predicate CourseInputValid(i: CourseInput, partial: bool, users: set<UserId>)
  {
    CourseTextsValid(i, partial) && RefersTo(i.owner, users)
  }

  /** Every text field of a lesson body cleans. */
  predicate LessonTextsValid(i: LessonInput, partial: bool)
  {
    && !Clean(i.name, NameRules(partial)).Refused?
    && !Clean(i.description, DESCRIPTION_RULES).Refused?
    && !Clean(i.videoUrl, VIDEO_URL_RULES).Refused?
  }

  /** The lesson serializer accepts the body: as for a course, plus the URL and the course key. */
  predicate LessonInputValid(i: LessonInput, partial: bool, courses: set<CourseId>, users: set<UserId>)
  {
    LessonTextsValid(i, partial) && RefersTo(i.course, courses) && RefersTo(i.owner, users)
  }

  /** The name rule spelled out: present unless partial, a text, and after stripping non-blank, short enough and free of NUL. */
  predicate NameAccepted(name: Option<Option<string>>, partial: bool)
  {
    && (name.None? ==> partial)
    && (name.Some? ==> name.value.Some? && var t := Strip(name.value.value); t != [] && |t| <= NAME_MAX_LENGTH && '\0' !in t)
  }

  /** A nullable text rule spelled out: a sent text is, after stripping, short enough and free of NUL. */
  predicate OptionalAccepted(sent: Option<Option<string>>, maxLength: Option<nat>)
  {
    sent.Some? && sent.value.Some? ==>
      var t := Strip(sent.value.value); (maxLength.Some? ==> |t| <= maxLength.value) && '\0' !in t
  }

  /**
   * What the course serializer accepts, in plain terms: a blank, whitespace
   * only, null or (on a full update or a create) missing name is rejected.
   */
  lemma CourseInputValidIff(i: CourseInput, partial: bool, users: set<UserId>)
    ensures CourseInputValid(i, partial, users) <==>
      NameAccepted(i.name, partial) && OptionalAccepted(i.description, None) && RefersTo(i.owner, users)
  {
  }

  /** What the lesson serializer accepts, in plain terms. */
  lemma LessonInputValidIff(i: LessonInput, partial: bool, courses: set<CourseId>, users: set<UserId>)
    ensures LessonInputValid(i, partial, courses, users) <==>
      && NameAccepted(i.name, partial) && OptionalAccepted(i.description, None)
      && OptionalAccepted(i.videoUrl, Some(VIDEO_URL_MAX_LENGTH))
      && RefersTo(i.course, courses) && RefersTo(i.owner, users)
  {
  }

  /** A stored course row: a clean non-blank name, and a clean description. */
  predicate CourseRow(c: Course)
  {
    Storable(c.name, NameRules(false)) && (c.description.Some? ==> Storable(c.description.value, DESCRIPTION_RULES))
  }

  /** A stored lesson row: as for a course, plus a clean URL. */
  predicate LessonRow(l: Lesson)
  {
    && Storable(l.name, NameRules(false))
    && (l.description.Some? ==> Storable(l.description.value, DESCRIPTION_RULES))
    && (l.videoUrl.Some? ==> Storable(l.videoUrl.value, VIDEO_URL_RULES))
  }

  /**
   * Saving a body onto a course: the sent text fields are saved stripped, an
   * explicit null clears the description, the sent owner is taken over, and
   * the rest and the stamp are kept.
   */
  function ApplyCourse(c: Course, i: CourseInput): (r: Course)
    ensures r.updatedAt == c.updatedAt
    ensures CourseRow(c) && CourseTextsValid(i, true) ==> CourseRow(r)
  {
    c.(name := SavedText(Clean(i.name, NameRules(true)), c.name),
       description := Saved(Clean(i.description, DESCRIPTION_RULES), c.description),
       owner := UnwrapOr(i.owner, c.owner))
  }

  /** Saving a body onto a lesson, field by field as for a course. */
  function ApplyLesson(l: Lesson, i: LessonInput): (r: Lesson)
    ensures LessonRow(l) && LessonTextsValid(i, true) ==> LessonRow(r)
  {
    l.(name := SavedText(Clean(i.name, NameRules(true)), l.name),
       description := Saved(Clean(i.description, DESCRIPTION_RULES), l.description),
       videoUrl := Saved(Clean(i.videoUrl, VIDEO_URL_RULES), l.videoUrl),
       course := UnwrapOr(i.course, l.course), owner := UnwrapOr(i.owner, l.owner))
  }

  /** The course `perform_create` saves: the owner is the requester, whatever owner the body named. */
  function NewCourse(i: CourseInput, owner: Option<UserId>, now: int): (r: Course)
    ensures r.owner == owner && r.updatedAt == now
    ensures CourseTextsValid(i, false) ==> CourseRow(r) && r.name == Strip(i.name.value.value)
  {
    Course(SavedText(Clean(i.name, NameRules(false)), ""), Saved(Clean(i.description, DESCRIPTION_RULES), None), owner, now)
  }

  /** The lesson `perform_create` saves: the owner is the requester, whatever owner the body named. */
  function NewLesson(i: LessonInput, owner: Option<UserId>): (r: Lesson)
    ensures r.owner == owner && r.course == UnwrapOr(i.course, None)
    ensures LessonTextsValid(i, false) ==> LessonRow(r) && r.name == Strip(i.name.value.value)
  {
    Lesson(SavedText(Clean(i.name, NameRules(false)), ""), Saved(Clean(i.description, DESCRIPTION_RULES), None),
           Saved(Clean(i.videoUrl, VIDEO_URL_RULES), None), UnwrapOr(i.course, None), owner)
  }

  /** The owner a client names in a create request makes no difference to the saved course or lesson. */
  lemma SentOwnerIsDiscarded(i: CourseInput, j: LessonInput, owner: Option<UserId>, sent: Option<Option<UserId>>, now: int)
    ensures NewCourse(i.(owner := sent), owner, now) == NewCourse(i, owner, now)
    ensures NewLesson(j.(owner := sent), owner) == NewLesson(j, owner)
  {
  }

  /**
   * An update keeps every field the body does not send and takes over every
   * field it sends: a text stripped, a null as null.
   */
  lemma ApplyCourseIsExact(c: Course, i: CourseInput)
    requires CourseTextsValid(i, true)
    ensures ApplyCourse(c, CourseInput(None, None, None)) == c
    ensures ApplyCourse(c, i).updatedAt == c.updatedAt
    ensures i.name.None? ==> ApplyCourse(c, i).name == c.name
    ensures i.name.Some? ==> ApplyCourse(c, i).name == Strip(i.name.value.value)
    ensures i.description.None? ==> ApplyCourse(c, i).description == c.description
    ensures i.description == Some(None) ==> ApplyCourse(c, i).description == None
    ensures i.description.Some? && i.description.value.Some? ==> ApplyCourse(c, i).description == Some(Strip(i.description.value.value))
    ensures i.owner.Some? ==> ApplyCourse(c, i).owner == i.owner.value
    ensures i.owner.None? ==> ApplyCourse(c, i).owner == c.owner
  {
  }

  /** The same for a lesson, field by field. */
  lemma ApplyLessonIsExact(l: Lesson, i: LessonInput)
    requires LessonTextsValid(i, true)
    ensures ApplyLesson(l, LessonInput(None, None, None, None, None)) == l
    ensures i.name.None? ==> ApplyLesson(l, i).name == l.name
    ensures i.name.Some? ==> ApplyLesson(l, i).name == Strip(i.name.value.value)
    ensures i.description.None? ==> ApplyLesson(l, i).description == l.description
    ensures i.description == Some(None) ==> ApplyLesson(l, i).description == None
    ensures i.description.Some? && i.description.value.Some? ==> ApplyLesson(l, i).description == Some(Strip(i.description.value.value))
    ensures i.videoUrl.None? ==> ApplyLesson(l, i).videoUrl == l.videoUrl
    ensures i.videoUrl == Some(None) ==> ApplyLesson(l, i).videoUrl == None
    ensures i.videoUrl.Some? && i.videoUrl.value.Some? ==> ApplyLesson(l, i).videoUrl == Some(Strip(i.videoUrl.value.value))
    ensures i.course.Some? ==> ApplyLesson(l, i).course == i.course.value
    ensures i.course.None? ==> ApplyLesson(l, i).course == l.course
    ensures i.owner.Some? ==> ApplyLesson(l, i).owner == i.owner.value
    ensures i.owner.None? ==> ApplyLesson(l, i).owner == l.owner
  {
  }

  /** What the object-level check of a course endpoint sees, or `None` when the course does not exist. */
  function CourseTarget(courses: map<CourseId, Course>, c: CourseId): (r: Option<Target>)
    ensures r.Some? <==> c in courses
  {
    if c in courses then Some(Owned(courses[c].owner)) else None
  }

  function LessonTarget(lessons: map<LessonId, Lesson>, l: LessonId): (r: Option<Target>)
    ensures r.Some? <==> l in lessons
  {
    if l in lessons then Some(Owned(lessons[l].owner)) else None
  }

  /** A lesson's keys refer to existing rows. */
  predicate LessonLinks(l: Lesson, courses: set<CourseId>, users: set<UserId>)
  {
    (l.course.Some? ==> l.course.value in courses) && (l.owner.Some? ==> l.owner.value in users)
  }

  // ---------------------------------------------------------------------------
  // The store
  // ---------------------------------------------------------------------------

  class Store {
    var courses: map<CourseId, Course>
    var lessons: map<LessonId, Lesson>
    var subscriptions: seq<Subscription>
    /** The users table, as far as this application reads it: the email of every account. */
    var emails: map<UserId, string>
    var outbox: seq<Notification>
    var nextCourse: CourseId
    var nextLesson: LessonId

    /** Keys below the counters, foreign keys that refer to existing rows, and one row per subscription. */
    predicate Valid()
      reads this
    {
      && (forall c :: c in courses ==> c < nextCourse)
      && (forall l :: l in lessons ==> l < nextLesson)
      && (forall c :: c in courses && courses[c].owner.Some? ==> courses[c].owner.value in emails)
      && (forall l :: l in lessons ==> LessonLinks(lessons[l], courses.Keys, emails.Keys))
      && UsersKnown(subscriptions, emails)
      && (forall k :: 0 <= k < |subscriptions| ==> subscriptions[k].1 in courses)
      && NoDup(subscriptions)
    }

    /** The requester, when logged in, has an account. */
    predicate Known(req: Requester)
      reads this
    {
      req.Authenticated? ==> req.user.id in emails
    }

    /** An empty catalogue over the given accounts. */
    constructor (accounts: map<UserId, string>)
      ensures Valid()
      ensures courses == map[] && lessons == map[] && subscriptions == [] && outbox == []
      ensures emails == accounts
    {
      courses := map[];
      lessons := map[];
      subscriptions := [];
      emails := accounts;
      outbox := [];
      nextCourse := 0;
      nextLesson := 0;
    }

    /** The recipient list of `update_course`, built row by row. */
    method CollectEmails(c: CourseId) returns (recipients: seq<string>)
      requires UsersKnown(subscriptions, emails)
      ensures recipients == SubscriberEmails(subscriptions, emails, c)
    {
      recipients := [];
      var i := 0;
      while i < |subscriptions|
        invariant 0 <= i <= |subscriptions|
        invariant recipients == SubscriberEmails(subscriptions[..i], emails, c)
      {
        assert subscriptions[..i + 1][..i] == subscriptions[..i];
        var row := subscriptions[i];
        if row.1 == c {
          recipients := recipients + [emails[row.0]];
        }
        i := i + 1;
      }
      assert subscriptions[..i] == subscriptions;
    }

    /**
     * `update_course`: stamp the course with `now` and, when the previous
     * stamp is more than 4 seconds old, enqueue one notification to the
     * course's subscribers. Only that course's stamp is written.
     */
    method UpdateCourse(c: CourseId, now: int)
      requires Valid() && c in courses
      modifies this`courses, this`outbox
      ensures Valid()
      ensures courses == Stamped(old(courses), c, now)
      ensures outbox == old(outbox) + StampNotices(old(courses), subscriptions, emails, c, now)
    {
      var previous := courses[c].updatedAt;
      courses := courses[c := courses[c].(updatedAt := now)];
      if now - previous > NOTIFY_AFTER_SECONDS {
        var recipients := CollectEmails(c);
        outbox := outbox + [Notification(SUBJECT, BODY, recipients)];
      }
    }

    /** `CourseViewSet` create: the requester becomes the owner; nothing is stamped. */
    method CreateCourse(req: Requester, input: CourseInput, now: int) returns (code: int, id: Option<CourseId>)
      requires Valid() && Known(req)
      modifies this`courses, this`nextCourse
      ensures Valid()
      ensures var o := Authorize(CourseEndpoint(Create), req, None);
        if o != Allow then code == StatusOf(o) && id == None && courses == old(courses) && nextCourse == old(nextCourse)
        else if !CourseInputValid(input, false, emails.Keys) then
          code == BAD_REQUEST && id == None && courses == old(courses) && nextCourse == old(nextCourse)
        else
          && code == CREATED && id == Some(old(nextCourse)) && nextCourse == old(nextCourse) + 1
          && courses == old(courses)[old(nextCourse) := NewCourse(input, RequesterId(req), now)]
    {
      var o := Authorize(CourseEndpoint(Create), req, None);
      if o != Allow {
        return StatusOf(o), None;
      }
      if !CourseInputValid(input, false, emails.Keys) {
        return BAD_REQUEST, None;
      }
      id := Some(nextCourse);
      courses := courses[nextCourse := NewCourse(input, RequesterId(req), now)];
      nextCourse := nextCourse + 1;
      code := CREATED;
    }

    /**
     * `CourseViewSet` update and partial update: save, look the course up
     * again (which re-runs the object-level check on the saved row) and stamp
     * it. When the saved row fails the check, the save stays and nothing is
     * stamped.
     */
    method UpdateCourseView(req: Requester, c: CourseId, input: CourseInput, partial: bool, now: int) returns (code: int)
      requires Valid() && Known(req)
      modifies this`courses, this`outbox
      ensures Valid()
      ensures var e := CourseEndpoint(if partial then PartialUpdate else Update);
        var o := Authorize(e, req, CourseTarget(old(courses), c));
        if o != Allow then code == StatusOf(o) && courses == old(courses) && outbox == old(outbox)
        else if !CourseInputValid(input, partial, emails.Keys) then
          code == BAD_REQUEST && courses == old(courses) && outbox == old(outbox)
        else
          var saved := ApplyCourse(old(courses)[c], input);
          if !HasObjectPermission(Policy(e), req, Owned(saved.owner)) then
            code == StatusOf(Denied(req)) && courses == old(courses)[c := saved] && outbox == old(outbox)
          else
            && code == OK
            && courses == Stamped(old(courses)[c := saved], c, now)
            && outbox == old(outbox) + StampNotices(old(courses), subscriptions, emails, c, now)
    {
      var e := CourseEndpoint(if partial then PartialUpdate else Update);
      var o := Authorize(e, req, CourseTarget(courses, c));
      if o != Allow {
        return StatusOf(o);
      }
      if !CourseInputValid(input, partial, emails.Keys) {
        return BAD_REQUEST;
      }
      var saved := ApplyCourse(courses[c], input);
      courses := courses[c := saved];
      if !HasObjectPermission(Policy(e), req, Owned(saved.owner)) {
        return StatusOf(Denied(req));
      }
      UpdateCourse(c, now);
      code := OK;
    }

    /** `CourseViewSet` destroy: the course's lessons lose their course, its subscriptions go; nothing is stamped. */
    method DestroyCourse(req: Requester, c: CourseId) returns (code: int)
      requires Valid()
      modifies this`courses, this`lessons, this`subscriptions
      ensures Valid()
      ensures var o := Authorize(CourseEndpoint(Destroy), req, CourseTarget(old(courses), c));
        if o != Allow then
          code == StatusOf(o) && courses == old(courses) && lessons == old(lessons) && subscriptions == old(subscriptions)
        else
          && code == NO_CONTENT
          && courses == old(courses) - {c}
          && lessons == DetachLessons(old(lessons), c)
          && subscriptions == DropSubscriptions(old(subscriptions), c)
    {
      var o := Authorize(CourseEndpoint(Destroy), req, CourseTarget(courses, c));
      if o != Allow {
        return StatusOf(o);
      }
      DropKeepsRows(subscriptions, c, courses.Keys, emails);
      DetachKeepsLinks(lessons, c, courses.Keys, emails.Keys);
      courses := courses - {c};
      lessons := DetachLessons(lessons, c);
      subscriptions := DropSubscriptions(subscriptions, c);
      code := NO_CONTENT;
    }

    /**
     * `LessonCreateAPIView`: save the lesson with the requester as owner, then
     * stamp its course. A lesson saved without a course makes the stamp crash,
     * and the lesson stays.
     */
    method CreateLesson(req: Requester, input: LessonInput, now: int) returns (code: int, id: Option<LessonId>)
      requires Valid() && Known(req)
      modifies this`lessons, this`nextLesson, this`courses, this`outbox
      ensures Valid()
      ensures var o := Authorize(LessonCreate, req, None);
        if o != Allow then
          && code == StatusOf(o) && id == None
          && lessons == old(lessons) && nextLesson == old(nextLesson) && courses == old(courses) && outbox == old(outbox)
        else if !LessonInputValid(input, false, old(courses).Keys, emails.Keys) then
          && code == BAD_REQUEST && id == None
          && lessons == old(lessons) && nextLesson == old(nextLesson) && courses == old(courses) && outbox == old(outbox)
        else
          var made := NewLesson(input, RequesterId(req));
          && id == Some(old(nextLesson)) && nextLesson == old(nextLesson) + 1
          && lessons == old(lessons)[old(nextLesson) := made]
          && match made.course
             case None => code == SERVER_ERROR && courses == old(courses) && outbox == old(outbox)
             case Some(k) =>
               && code == CREATED
               && courses == Stamped(old(courses), k, now)
               && outbox == old(outbox) + StampNotices(old(courses), subscriptions, emails, k, now)
    {
      var o := Authorize(LessonCreate, req, None);
      if o != Allow {
        return StatusOf(o), None;
      }
      if !LessonInputValid(input, false, courses.Keys, emails.Keys) {
        return BAD_REQUEST, None;
      }
      code, id := AddLesson(NewLesson(input, RequesterId(req)), now);
    }

    /** The writes of `LessonCreateAPIView` once the body is accepted: save `made`, then stamp its course. */
    method AddLesson(made: Lesson, now: int) returns (code: int, id: Option<LessonId>)
      requires Valid() && LessonLinks(made, courses.Keys, emails.Keys)
      modifies this`lessons, this`nextLesson, this`courses, this`outbox
      ensures Valid()
      ensures && id == Some(old(nextLesson)) && nextLesson == old(nextLesson) + 1
              && lessons == old(lessons)[old(nextLesson) := made]
              && match made.course
                 case None => code == SERVER_ERROR && courses == old(courses) && outbox == old(outbox)
                 case Some(k) =>
                   && code == CREATED
                   && courses == Stamped(old(courses), k, now)
                   && outbox == old(outbox) + StampNotices(old(courses), subscriptions, emails, k, now)
    {
      id := Some(nextLesson);
      lessons := lessons[nextLesson := made];
      nextLesson := nextLesson + 1;
      if made.course.None? {
        return SERVER_ERROR, id;
      }
      UpdateCourse(made.course.value, now);
      code := CREATED;
    }

    /** `LessonDestroyAPIView`: stamp the lesson's course, then delete the lesson. */
    method DestroyLesson(req: Requester, l: LessonId, now: int) returns (code: int)
      requires Valid()
      modifies this`lessons, this`courses, this`outbox
      ensures Valid()
      ensures var o := Authorize(LessonDestroy, req, LessonTarget(old(lessons), l));
        if o != Allow then code == StatusOf(o) && lessons == old(lessons) && courses == old(courses) && outbox == old(outbox)
        else match old(lessons)[l].course
          case None => code == SERVER_ERROR && lessons == old(lessons) && courses == old(courses) && outbox == old(outbox)
          case Some(k) =>
            && code == NO_CONTENT
            && courses == Stamped(old(courses), k, now)
            && outbox == old(outbox) + StampNotices(old(courses), subscriptions, emails, k, now)
            && lessons == old(lessons) - {l}
    {
      var o := Authorize(LessonDestroy, req, LessonTarget(lessons, l));
      if o != Allow {
        return StatusOf(o);
      }
      var course := lessons[l].course;
      if course.None? {
        return SERVER_ERROR;
      }
      UpdateCourse(course.value, now);
      lessons := lessons - {l};
      code := NO_CONTENT;
    }

    /**
     * `LessonUpdateAPIView`: stamp the lesson's current course, save, and stamp
     * the course the lesson now belongs to when it moved. A lesson without a
     * course before, or moved to no course, makes the handler crash at that
     * point.
     */
    method UpdateLesson(req: Requester, l: LessonId, input: LessonInput, partial: bool, now: int) returns (code: int)
      requires Valid() && Known(req)
      modifies this`lessons, this`courses, this`outbox
      ensures Valid()
      ensures var o := Authorize(LessonUpdate, req, LessonTarget(old(lessons), l));
        if o != Allow then code == StatusOf(o) && lessons == old(lessons) && courses == old(courses) && outbox == old(outbox)
        else if !LessonInputValid(input, partial, old(courses).Keys, emails.Keys) then
          code == BAD_REQUEST && lessons == old(lessons) && courses == old(courses) && outbox == old(outbox)
        else match old(lessons)[l].course
          case None => code == SERVER_ERROR && lessons == old(lessons) && courses == old(courses) && outbox == old(outbox)
          case Some(k) =>
            var saved := ApplyLesson(old(lessons)[l], input);
            var once := Stamped(old(courses), k, now);
            var first := old(outbox) + StampNotices(old(courses), subscriptions, emails, k, now);
            && lessons == old(lessons)[l := saved]
            && if saved.course == Some(k) then code == OK && courses == once && outbox == first
               else match saved.course
                 case None => code == SERVER_ERROR && courses == once && outbox == first
                 case Some(m) =>
                   && code == OK
                   && courses == Stamped(once, m, now)
                   && outbox == first + StampNotices(once, subscriptions, emails, m, now)
    {
      var o := Authorize(LessonUpdate, req, LessonTarget(lessons, l));
      if o != Allow {
        return StatusOf(o);
      }
      if !LessonInputValid(input, partial, courses.Keys, emails.Keys) {
        return BAD_REQUEST;
      }
      code := SaveLesson(l, ApplyLesson(lessons[l], input), now);
    }

    /**
     * The writes of `LessonUpdateAPIView` once the body is accepted: stamp the
     * lesson's current course, save `saved`, and stamp the new course when the
     * lesson moved; a missing course at either point is a crash.
     */
    method SaveLesson(l: LessonId, saved: Lesson, now: int) returns (code: int)
      requires Valid() && l in lessons && LessonLinks(saved, courses.Keys, emails.Keys)
      modifies this`lessons, this`courses, this`outbox
      ensures Valid()
      ensures match old(lessons)[l].course
          case None => code == SERVER_ERROR && lessons == old(lessons) && courses == old(courses) && outbox == old(outbox)
          case Some(k) =>
            var once := Stamped(old(courses), k, now);
            var first := old(outbox) + StampNotices(old(courses), subscriptions, emails, k, now);
            && lessons == old(lessons)[l := saved]
            && if saved.course == Some(k) then code == OK && courses == once && outbox == first
               else match saved.course
                 case None => code == SERVER_ERROR && courses == once && outbox == first
                 case Some(m) =>
                   && code == OK
                   && courses == Stamped(once, m, now)
                   && outbox == first + StampNotices(once, subscriptions, emails, m, now)
    {
      var course := lessons[l].course;
      if course.None? {
        return SERVER_ERROR;
      }
      UpdateCourse(course.value, now);
      lessons := lessons[l := saved];
      if saved.course != course {
        if saved.course.None? {
          return SERVER_ERROR;
        }
        UpdateCourse(saved.course.value, now);
      }
      code := OK;
    }

    /**
     * `SubscriptionAPIView.post`: 404 for a missing or unknown course;
     * otherwise the requester's subscription to it is removed when present and
     * added when absent, and the message says which.
     */
    method ToggleSubscription(req: Requester, course: Option<CourseId>) returns (code: int, message: Option<string>)
      requires Valid() && Known(req)
      modifies this`subscriptions
      ensures Valid()
      ensures var o := Authorize(SubscriptionToggle, req, None);
        if o != Allow then code == StatusOf(o) && message == None && subscriptions == old(subscriptions)
        else if course.None? || course.value !in courses then
          code == 404 && message == None && subscriptions == old(subscriptions)
        else
          var row := (req.user.id, course.value);
          && code == OK
          && subscriptions == Toggled(old(subscriptions), row)
          && message == Some(if row in old(subscriptions) then UNSUBSCRIBED else SUBSCRIBED)
    {
      var o := Authorize(SubscriptionToggle, req, None);
      if o != Allow {
        return StatusOf(o), None;
      }
      if course.None? || course.value !in courses {
        return 404, None;
      }
      var row := (req.user.id, course.value);
      ToggleFlips(subscriptions, row);
      ghost var before := subscriptions;
      if row in subscriptions {
        subscriptions := Without(subscriptions, row);
        message := Some(UNSUBSCRIBED);
      } else {
        subscriptions := subscriptions + [row];
        message := Some(SUBSCRIBED);
      }
      forall k | 0 <= k < |subscriptions|
        ensures subscriptions[k].0 in emails && subscriptions[k].1 in courses
      {
        var q := subscriptions[k];
        if q != row {
          assert q in before;
          var j :| 0 <= j < |before| && before[j] == q;
        }
      }
      code := OK;
    }
  }
}
