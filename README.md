# edu-sphere core, modelled in Dafny

This project models the self-contained logic of an online-course backend: a
link allow-list validator, the permission policy of its endpoints, the
course/lesson/subscription handlers with their "course was updated" mail
trigger, the profile serializers, and two batch jobs over the users tables.
Everything is sequential and deterministic once the clock (`now`, integer
seconds) and the payment processor's answers (a map from session id to
status) are parameters.

Modules, one per concern:

- `Wrappers`: `Option` for the nullable columns.
- `CharFields`: how the REST framework cleans a submitted text for a
  `CharField`, `TextField` or `EmailField` column. The text is stripped of
  surrounding whitespace. A blank text is refused unless the column allows
  blanks. A null is refused unless the column is nullable. A missing field is
  refused when it is required. The stripped text must fit `max_length` and
  hold no NUL character.
- `Validators`: `YoutubeOnly` from edu/validators.py. The case-insensitive
  `http://` / `https://` marker is a leftmost, non-overlapping match of a 7-
  or 8-character pattern. The host token is the text up to the first space,
  then up to the first `/`. The verdict is `Ok` or `Invalid(key, host)`.
- `Permissions`: `IsAuthenticated`, `IsModerator`, `IsOwner`,
  `IsOwnerUserProfile` and the `&`, `|`, `~` combinators. A permission is a
  tree with a view-level half and an object-level half. A missing half
  allows. In `|`, each disjunct must also pass its own view-level half.
- `Policies`: which permission each endpoint demands, and how a request is
  admitted. The checks run in this order:
  - the view-level check;
  - for an endpoint that works on one object, the lookup (404);
  - the object-level check.
  A refusal is 401 for an anonymous requester and 403 otherwise.
- `UserModels`, `UserSerializers`: account and payment records, the three
  profile tiers, the read-only payment fields, and registration. Registration
  cleans the email and the password as `CharFields` does. It then checks the
  email's format and that no account has it yet.
- `Courses`: a `Store` class whose fields are the tables and an outbox of
  mail jobs. It covers `update_course` from edu/service.py and the mutating
  handlers of edu/views.py.
- `UserTasks`, `CheckPaymentsCommand`: the payment settlement loop, written
  twice in the source, and the inactive-account job. Both work in place on
  arrays.

Where the docstring of `update_course` says "4 hours", the code compares
against 4 seconds. The model follows the code: a notification goes out iff
`now - previous > 4`.

Some facts come from the test suites rather than the views, because the views
involved are not part of this model:
- the users-side endpoint policy;
- the tier each viewer gets.
Neither is visible in the views themselves.

Some functions only compute a value and carry no contract of their own. The
lemmas and methods in the table state what they promise:
- `Validators.Split`, `Validators.Passes` (edu/validators.py:27-30):
  `SplitRoundTrip`, `SplitOfJoin`, `CheckValue`.
- `Permissions.HasPermission`, `Permissions.HasObjectPermission`
  (edu/permissions.py:4-15, users/permissions.py:4-8): `IsModeratorIff`,
  `IsOwnerIff`, `IsOwnerUserProfileIff`, `OrIsPerPermission`, `AndIsPerHalf`.
- `Policies.Policy`, `Policies.CoursePermission`, `Policies.HasObject`
  (edu/views.py:22-35, edu/views.py:66-134): `CoursePolicy`, `LessonPolicy`,
  `UsersPolicy`, `Authorize`.
- `Courses.Toggled` (edu/views.py:162-169): `ToggleFlips`, `ToggleTwice`.
- `Courses.SubscriptionsTo`, `Courses.SubscriberEmails` (edu/service.py:18-19):
  `SubscriptionsToIff`, `OneRecipientPerSubscription`, `Store.CollectEmails`.
- `Courses.StampNotices` (edu/service.py:17-21): `Notices`,
  `SecondStampIsQuiet`, `NotifiesWithoutSubscribers`, `Store.UpdateCourse`.
- `UserSerializers.DetailTier`, `UserSerializers.ListTier`,
  `UserSerializers.FieldValue` (users/serializers.py:15-59):
  `DetailTierPrecedence`, `PasswordOnlyToItsOwner`, `RenderedValues`.
- `UserTasks.Settles`, `UserTasks.Reconcile`, `UserTasks.Reconciled`
  (users/tasks.py:26-40): `ReconcileIsExact`, `DatedPaymentsUntouched`,
  `ReconciledIsIdempotent`, `CheckPayments`.
- `UserTasks.Inactive`, `UserTasks.Deactivate`, `UserTasks.Deactivated`
  (users/tasks.py:14-21): `DeactivateIsExact`, `DeactivatedIsIdempotent`,
  `DisableInactiveUsers`.

## Model

| member | source | states |
|---|---|---|
| Validators.MarkerLength | edu/validators.py:27 | the marker found at a position has length 0, 7 or 8 and fits in the text |
| Validators.MarkerIsCaseInsensitiveScheme | edu/validators.py:27 | an 8-character marker is exactly a case-insensitive `https://`, a 7-character one a case-insensitive `http://`; the longer one wins |
| Validators.FindMarker | edu/validators.py:27 | finds the leftmost marker at or after a position, and no marker starts before it |
| Validators.SplitFrom | edu/validators.py:27 | splitting always returns at least one piece |
| Validators.IsSchemeIff | edu/validators.py:27 | a whole text matches the pattern iff it is `https://` or `http://` in some mix of cases |
| Validators.SplitRoundTrip | edu/validators.py:27 | splitting loses nothing: there is one marker text fewer than pieces, each marker text is a whole match, and joining the pieces with the marker texts gives back the value |
| Validators.SplitOfJoin | edu/validators.py:27-29 | conversely, marker-free pieces joined with schemes split back into exactly those pieces, and the host tokens are those of the pieces after each scheme |
| Validators.SplitPiecesHaveNoMarker | edu/validators.py:27 | no piece returned by the split contains a marker: matches are leftmost and do not overlap |
| Validators.Before | edu/validators.py:29 | `s.split(c)[0]` is the prefix before the first `c`, and it contains no `c` |
| Validators.Host | edu/validators.py:29 | the host token is a prefix of the piece and holds neither a space nor a slash |
| Validators.Hosts | edu/validators.py:27-29 | one host token per marker: one fewer than the pieces of the split |
| Validators.HostIsPrefixBeforeSeparator | edu/validators.py:29 | the host token is a prefix of the piece without space or slash, ending at the first space or slash |
| Validators.HostIsUnique | edu/validators.py:29 | any prefix with those properties is the host token |
| Validators.HostOfWord | edu/validators.py:29 | the host of `h + rest` is `h` when `h` has no separator and `rest` starts with one or is empty |
| Validators.FirstDisallowed | edu/validators.py:28-30 | finds the first host not among the allowed domains, or reports that all are allowed |
| Validators.CheckValue | edu/validators.py:28-31 | a value fails iff some host token is not allowed, and the reported host is the first such token |
| Validators.NoMarkerHasNoHost | edu/validators.py:27-28 | a value without a marker is one piece and has no host token |
| Validators.NoMarkerPasses | edu/validators.py:27-28 | a value without a marker always passes, alone or as the only entry of the data |
| Validators.NoMarkerWithoutH | edu/validators.py:27 | a text with no `h` or `H` contains no marker |
| Validators.OneLinkHosts | edu/validators.py:27-30 | a marker in any mix of cases, followed by text without further markers, yields exactly that text's host token, checked against the allow-list |
| Validators.EmptyHostIsRejected | edu/validators.py:29-30 | a marker followed by a space, a slash or nothing gives the empty host, which is rejected |
| Validators.UpperCaseSchemePasses | edu/validators.py:27 | `HTTPS://youtube.com/x` passes |
| Validators.EmptyHostExamples | edu/validators.py:29-30 | `https:// x` and `https:///` are rejected with an empty host |
| Validators.SubdomainIsRejected | edu/validators.py:30 | `https://www.youtube.com` is rejected: matching is exact |
| Validators.DomainCaseMatters | edu/validators.py:30 | `http://YouTube.com/` is rejected: the domain comparison is case-sensitive |
| Validators.TwoLinkHosts | edu/validators.py:27-29 | a value with two links, each followed by marker-free text, has two host tokens, one per link, in order |
| Validators.TwoLinkExample | edu/validators.py:27-31 | `https://youtube.com/watch?v=x http://evil.com/x` has the host tokens `youtube.com` and `evil.com`, and `evil.com` is reported |
| Validators.Validate | edu/validators.py:22-31 | a rejection names a configured key and a host outside the allow-list |
| Validators.ValidateOkIff | edu/validators.py:22-31 | the data is accepted iff every value under a configured key passes |
| Validators.ValidateReportsFirstFailure | edu/validators.py:23-31 | the error names the first failing configured key in data order, and the first offending host in that value |
| Validators.InvalidComesFromFirstFailure | edu/validators.py:23-31 | every rejection comes from such a first failing entry |
| Validators.UncheckedKeyIsIgnored | edu/validators.py:23-25 | replacing the value of a key that is not configured, whatever links it holds, never changes the verdict |
| CharFields.Strip | edu/models.py:8 | stripping gives a text no longer than the input, with no whitespace at either end, and empty iff the input is all whitespace |
| CharFields.StripIsExact | edu/models.py:8 | whatever whitespace surrounds a text without whitespace at its ends, stripping gives back that text |
| CharFields.StripIsIdempotent | edu/models.py:8 | stripping twice is stripping once |
| CharFields.Clean | edu/models.py:8-9 | a missing field is absent iff not required; a null is kept iff the column is nullable; a sent text is accepted iff its stripped form is non-blank (unless blanks are allowed), fits `max_length` and holds no NUL, and then the stripped form is saved; all other cases are refused |
| CharFields.CleanIsIdempotent | edu/models.py:8 | an accepted text, sent again, is accepted unchanged |
| CharFields.PaddingIsIgnored | edu/models.py:8 | whitespace around a sent text makes no difference to the outcome |
| Permissions.Denied | edu/tests.py:36-42 | a refusal is 401 exactly for an anonymous requester, otherwise 403 |
| Permissions.IsModeratorIff | edu/permissions.py:4-8 | the view-level half holds iff the requester is in the group "moderators"; the object-level half allows |
| Permissions.IsOwnerIff | edu/permissions.py:11-15 | the object-level half holds iff the object's owner is the requester; the view-level half allows |
| Permissions.NullOwnerMatchesNobody | edu/permissions.py:14-15 | an object whose owner was set to null belongs to nobody |
| Permissions.IsOwnerUserProfileIff | users/permissions.py:4-8 | the object-level half holds iff the profile is the requester's own; groups play no part |
| Permissions.AnonymousIsNoModerator | edu/permissions.py:7-8 | the anonymous user passes neither `IsModerator` nor `IsAuthenticated` |
| Permissions.NotModeratorDeniesEveryObject | edu/views.py:28 | `~IsModerator` refuses every object, so it only suits endpoints without an object |
| Permissions.OrIgnoresFailedDisjunct | edu/views.py:100 | in `A \| B`, a disjunct failing its view-level half does not count at object level |
| Permissions.OrIsPerPermission | edu/views.py:34 | passing both halves of `A \| B` is passing both halves of `A` or both halves of `B` |
| Permissions.AndIsPerHalf | edu/views.py:31 | passing both halves of `A & B` is passing both halves of each |
| Policies.Authorize | edu/views.py:22-35 | admission: allowed iff the view-level half passes and, on an endpoint with an object, the object exists and passes the object-level half; 404 iff the view-level half passes on such an endpoint and the object is missing; every other refusal is `Denied` |
| Policies.CompositeHalves | edu/views.py:28-34 | the halves of `IsAuthenticated & ~IsModerator`, `IsAuthenticated & IsOwner` and `IsModerator \| (IsAuthenticated & IsOwner)` in closed form |
| Policies.CoursePolicy | edu/views.py:22-35 | list and retrieve for anyone logged in; create for a non-moderator; destroy for the owner; update and partial update for the owner or a moderator |
| Policies.LessonPolicy | edu/views.py:59-134 | lesson create for a non-moderator; destroy for the owner; retrieve and update for the owner or a moderator; list for anyone logged in |
| Policies.UsersPolicy | users/tests.py:22-226 | profiles: any logged-in user reads; only the subject edits; only a moderator deletes; registration only for anonymous requesters; the payment list only for moderators |
| Policies.AnonymousIsUnauthenticated | edu/tests.py:35-37 | every endpoint except registration answers an anonymous request with 401, whether or not the object exists |
| Policies.RefusalStatus | edu/tests.py:173-182 | every refusal is 401 iff the requester is anonymous |
| Policies.ModeratorMayOnlyUpdate | edu/tests.py:322-367 | a moderator who is not the owner may update a course or lesson, but is refused (403) creating or destroying one |
| Policies.OwnerlessIsModeratorOnly | edu/permissions.py:14-15 | a course or lesson owned by nobody is refused to every non-moderator on the owner-guarded endpoints |
| Policies.NoObjectNoLookup | edu/views.py:127-134 | list and create endpoints never look an object up: the result does not depend on it and is never 404 |
| Policies.RefusalBeforeLookup | edu/views.py:98-100 | a requester refused at view level gets the same refusal whether or not the object exists |
| UserModels.PaymentsOf | users/serializers.py:18 | the nested payment list holds only the account's payments, taken from the table |
| UserModels.PaymentsOfIff | users/serializers.py:18 | a payment is in the nested list iff it is in the table and belongs to the account |
| UserSerializers.Render | users/serializers.py:15-59 | a rendering has one entry per declared field of the tier, in declaration order |
| UserSerializers.ModeratorIsOwnerWithoutPassword | users/serializers.py:22-59 | the moderator's fields are the owner's fields with `password` removed, in the same order |
| UserSerializers.GeneralIsPartOfModerator | users/serializers.py:38-59 | the general fields are among the moderator's fields and include neither `payments` nor `password` |
| UserSerializers.PasswordOnlyToItsOwner | users/tests.py:45-110 | on a profile page, `password` is shown iff the viewer is the subject; the list never shows it |
| UserSerializers.DetailTierPrecedence | users/tests.py:45-84 | own profile gives the owner tier, even for a moderator; else a moderator gets the moderator tier; else the general tier |
| UserSerializers.RenderedValues | users/serializers.py:22-30 | each rendered value is the account's own column, and `payments` lists exactly its payments |
| UserSerializers.ApplyPaymentInput | users/serializers.py:6-12 | client input never changes a payment's id, user, date, session id or link |
| UserSerializers.ReadOnlyInputIgnored | users/serializers.py:12 | two inputs that differ only in read-only fields save the same payment |
| UserSerializers.WritableInputTaken | users/serializers.py:11 | each writable field that is sent is saved as sent |
| UserSerializers.RegisterAccount | users/serializers.py:62-70 | an account is created iff the requester is anonymous, the email and the password both clean (present, not null, not blank, within 254 and 128 characters, no NUL), the stripped email is well-formed and no account has it; the new account holds the stripped email and password; otherwise nothing changes, with 403 for a logged-in requester and 400 for an anonymous one |
| UserSerializers.BlankRegistrationRejected | users/models.py:10 | a missing, null, blank or whitespace-only email or password creates no account |
| UserSerializers.PaddedEmailRegisters | users/models.py:10 | whitespace around the sent email changes neither the outcome nor the saved account |
| UserTasks.CheckPayments | users/tasks.py:24-40 | after the loop, the payments table is the row-by-row settlement of the old table |
| UserTasks.ReconcileIsExact | users/tasks.py:30-40 | a payment changes iff it is undated, has a non-empty session id, that session exists and is "complete"; then only link (empty) and date (`now`) change |
| UserTasks.DatedPaymentsUntouched | users/tasks.py:26 | a payment that already has a date is left unchanged |
| UserTasks.ReconciledIsIdempotent | users/tasks.py:26-40 | a second run with the same gateway answers changes nothing, at any later time |
| UserTasks.DisableInactiveUsers | users/tasks.py:8-21 | after the loop, the accounts table is the row-by-row deactivation of the old table |
| UserTasks.DeactivateIsExact | users/tasks.py:14-21 | an account ends inactive iff it was inactive already or is a non-staff, non-superuser, active account whose last login is before `now - 2592000`; only `is_active` changes |
| UserTasks.DeactivatedIsIdempotent | users/tasks.py:16-21 | running the job twice at the same time is running it once |
| CheckPaymentsCommand.Handle | users/management/commands/check_payments.py:11-26 | the command's loop produces the same settled table as the periodic job |
| Courses.Without | edu/views.py:162-165 | deleting the requester's rows keeps exactly the other rows |
| Courses.ToggleFlips | edu/views.py:162-169 | a toggle flips the membership of the requester's row only, keeps rows unique, and removes or adds exactly one row |
| Courses.ToggleTwice | edu/tests.py:195-223 | two toggles restore the set of subscriptions, and restore the table itself when the row was absent |
| Courses.WithoutAppended | edu/views.py:165-168 | removing a just-added row gives back the previous table |
| Courses.SubscriptionsToIff | edu/service.py:18 | the course's subscriptions are exactly the rows for that course |
| Courses.OneRecipientPerSubscription | edu/service.py:18-19 | one recipient per subscription of the course, in row order: the email of that row's user |
| Courses.Notices | edu/service.py:17-21 | at most one notification; one iff more than 4 seconds passed since the previous stamp; subject "Тема", body "Письмо", recipients as given |
| Courses.SecondStampIsQuiet | edu/service.py:13-17 | of two stamps of one course at most 4 seconds apart, the second enqueues nothing |
| Courses.NotifiesWithoutSubscribers | edu/service.py:18-21 | a due notification is enqueued even with an empty recipient list |
| Courses.DetachLessons | edu/models.py:26 | after deleting a course no lesson refers to it; each of its lessons keeps every other field and gets a null course; a lesson of another course is unchanged |
| Courses.DetachKeepsLinks | edu/models.py:26-27 | after the detach, every lesson still refers to existing courses and users |
| Courses.DropSubscriptions | edu/views.py:15-18 | the `ModelViewSet` destroy with the assumed cascade (see "## Left out"): the remaining subscriptions are exactly the rows of other courses |
| Courses.DropKeepsNoDup | edu/views.py:15-18 | dropping a course's subscriptions keeps the rows unique |
| Courses.DropKeepsRows | edu/views.py:15-18 | the remaining rows are unique and refer to known users and to the remaining courses |
| Courses.CourseInputValidIff | edu/models.py:8-9 | a course body is accepted iff the name is sent (or the update is partial), not null, and after stripping non-blank, at most 150 characters and free of NUL, the description after stripping is free of NUL, and a sent owner is a user |
| Courses.LessonInputValidIff | edu/models.py:22-27 | a lesson body is accepted under the same name and description rules, a sent video URL is at most 200 characters after stripping and free of NUL, and a sent course and owner exist |
| Courses.ApplyCourse | edu/views.py:41-42 | saving a valid body onto a well-formed course row gives a well-formed row, and keeps the stamp |
| Courses.ApplyLesson | edu/views.py:120 | saving a valid body onto a well-formed lesson row gives a well-formed row |
| Courses.NewCourse | edu/views.py:37-39 | a created course is owned by the requester and stamped `now`; from a valid body it is a well-formed row whose name is the stripped sent name |
| Courses.NewLesson | edu/views.py:68-70 | a created lesson is owned by the requester and belongs to the sent course; from a valid body it is a well-formed row whose name is the stripped sent name |
| Courses.SentOwnerIsDiscarded | edu/views.py:37-39 | the owner named in a create request makes no difference to what is saved |
| Courses.ApplyCourseIsExact | edu/views.py:41-42 | an update keeps every field not sent and the stamp; a sent text is saved stripped, a sent null clears the description, a sent owner is taken over |
| Courses.ApplyLessonIsExact | edu/views.py:120 | the same for a lesson: name, description, video URL, course and owner each kept when not sent and taken over (texts stripped) when sent |
| Courses.Stamped | edu/service.py:13-15 | stamping writes `now` into that course's `updated_at` only |
| Courses.Store.CollectEmails | edu/service.py:18-19 | the loop builds the subscribers' email list of the course, in row order |
| Courses.Store.UpdateCourse | edu/service.py:6-21 | stamps the course with `now` and enqueues the due notification; nothing else changes |
| Courses.Store.CreateCourse | edu/views.py:37-39 | refused or invalid: no change; otherwise one course is added under a fresh key, owned by the requester, with no stamp or notification |
| Courses.Store.UpdateCourseView | edu/views.py:41-44 | saves, re-checks the object-level half on the saved row (403 with the save kept), then stamps the saved course |
| Courses.Store.DestroyCourse | edu/views.py:15-31 | the `ModelViewSet` destroy under the owner-only permission: removes the course, detaches its lessons and drops its subscriptions; no stamp |
| Courses.Store.CreateLesson | edu/views.py:66-73 | refused or invalid: no change; otherwise saves the lesson owned by the requester, then stamps its course; a lesson without a course stays saved and the request crashes |
| Courses.Store.AddLesson | edu/views.py:68-73 | the writes once the body is accepted: the lesson under a fresh key, then the stamp of its course, or a crash with the lesson saved |
| Courses.Store.DestroyLesson | edu/views.py:83-89 | stamps the lesson's course before deleting the lesson; a lesson without a course crashes before any write |
| Courses.Store.UpdateLesson | edu/views.py:111-124 | refused or invalid: no change; otherwise stamps the old course before saving, and the new course after saving only when the lesson moved |
| Courses.Store.SaveLesson | edu/views.py:116-124 | the writes once the body is accepted: a lesson without a course crashes before any write; a lesson moved to no course crashes after the save |
| Courses.Store.ToggleSubscription | edu/views.py:149-170 | 404 with no change for a missing or unknown course; otherwise the row is toggled and the message says "подписка удалена" or "подписка добавлена" |

## Left out

- Mail delivery (edu/tasks.py) is I/O. The `.delay(...)` call is modelled as appending a `(subject, body, recipients)` record to the store's `outbox`.
- The payment processor (users/services.py) uses the network. A session lookup is a map from session id to an optional status. `create_product` and `create_session` are not modelled.
- The `print` calls of both settlement loops are only output.
- Real clocks and time zones are not modelled. Every instant is an integer `now` in seconds, and the naive and aware timestamps of the two settlement loops are the same number.
- UserTasks.CheckPayments: uses one instant `now` for every payment it settles, while the source reads the clock again for each one.
- UserTasks.CheckPayments: the gateway answers every lookup. A `get_session` call that times out (10 seconds) or loses the connection raises; that ends the loop part-way, leaving the payments settled before it saved. The model does not capture that path.
- CheckPaymentsCommand.Handle: same single instant `now` as the periodic job.
- CheckPaymentsCommand.Handle: the command loop has the same `get_session` failure path, and it is left out in the same way.
- Transactions: a crash in a handler keeps the writes made before it. That assumes Django's default of running requests outside a transaction (`ATOMIC_REQUESTS` off). The project's settings are not part of this model.
- RegisterAccount: the email format check of the framework's `EmailField` is the parameter `isEmail`, applied to the stripped email. Its rules are not modelled.
- Text cleaning: whitespace is what Python's `str.isspace` accepts. A non-string value sent for a text field, which the framework converts or refuses, is not modelled. Surrogate code points cannot occur in a Dafny string, so the framework's check against them has nothing to do here.
- Courses.Store.ToggleSubscription: the body's `course` is modelled as absent or an integer key. The source passes the raw value to `get_object_or_404(Course, pk=...)`: a key that is not a number, such as `"abc"`, raises and the request fails with 500, and a string or float such as `"1"` or `1.5` is coerced to an integer key. Neither is modelled.
- Concurrency is not modelled. The check-then-act of the subscription toggle and the read-modify-write of `updated_at` can race; calls here are strictly sequential.
- Framework and ORM internals are out of scope: pagination envelopes, the commented-out querysets, swagger decorators, routing, migrations, and the group creation command.
- Read-only endpoints (course and lesson retrieve and list, profile pages, the payment list) change nothing. Only their admission and the profile field tiers are modelled, not the course or lesson output.
- edu/serializers.py is not part of this model: lesson count, nested lessons, `is_subscribed`. The course body is reduced to name, description and owner; the lesson body to name, description, video URL, course and owner. Image fields are left out.
- users/views.py names serializers that users/serializers.py does not define, so it does not describe the tested endpoints. The users-side policy is the one users/tests.py pins down: retrieve and list need a login; update needs `IsAuthenticated & IsOwnerUserProfile`; delete needs `IsModerator`; registration needs `~IsAuthenticated`; the payment list needs `IsModerator`.
- Profile list tiers: the list tier of a non-moderator's own row does not follow from the tests. The model shows every row in the general tier.
- Registration stores the password as sent. Any hashing would happen in the views, which are not modelled, and so would deleting or editing a profile.
- The subscription table is not declared in edu/models.py. It is modelled as unique `(user, course)` rows in table order. Deleting a course is assumed to delete its subscriptions.
- Where a new course's `updated_at` comes from is not shown. A created course is stamped with the request's `now`; no notification is sent.
- The validator's data values are strings. A null or non-string value, on which the regular expression split would raise, is not modelled. The shown serializers never attach the validator.
- `IsOwner` on a profile object would raise, since a user has no `owner`, and `IsOwnerUserProfile` on a course compares a course with a user. Both are modelled as refusals, and no endpoint combines them that way.
- Users are never deleted in the store, so a null owner only arises from an update that sends an explicit null. The permission lemmas still cover null owners in general.
