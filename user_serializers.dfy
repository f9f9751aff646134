/**
 * The serializers of users/serializers.py: the three field tiers in which a
 * profile is shown, which payment fields a client may set, and what
 * registration accepts.
 *
 * Which tier a viewer gets is decided by the views, which are not part of this
 * model; the precedence below is the one the users test-suite pins down
 * (users/tests.py:66-110).
 */
module UserSerializers {
  import opened Wrappers
  import opened Permissions
  import opened Policies
  import opened UserModels
  import CharFields

  // ---------------------------------------------------------------------------
  // Profile tiers (users/serializers.py:15-59)
  // ---------------------------------------------------------------------------

  /** `UserOwnerSerializer.Meta.fields`. */
  const OWNER_FIELDS: seq<string> := ["id", "password", "email", "phone", "first_name", "last_name", "payments"]
  /** `UserGeneralSerializer.Meta.fields`. */
  const GENERAL_FIELDS: seq<string> := ["id", "email", "first_name"]
  /** `UserModeratorSerializer.Meta.fields`. */
  const MODERATOR_FIELDS: seq<string> := ["id", "email", "phone", "first_name", "last_name", "payments"]

  datatype Tier = OwnerView | ModeratorView | GeneralView

  function Fields(t: Tier): seq<string>
  {
    match t
    case OwnerView => OWNER_FIELDS
    case ModeratorView => MODERATOR_FIELDS
    case GeneralView => GENERAL_FIELDS
  }

  /** The tier of a profile page: one's own profile first, then the moderator's tier, then the general one. */
  function DetailTier(viewer: User, subject: UserId): Tier
  {
    if viewer.id == subject then OwnerView
    else if MODERATORS in viewer.groups then ModeratorView
    else GeneralView
  }

  /** The tier of the profile list: a moderator sees every row in the moderator's tier. */
  function ListTier(viewer: User): Tier
  {
    if MODERATORS in viewer.groups then ModeratorView else GeneralView
  }

  /** A rendered value: text, a number, null, or the nested list of payments. */
  datatype Value = Text(s: string) | Number(n: int) | Null | Nested(items: seq<Payment>)

  /** The value of one profile field; `payments` lists the account's own payments. */
  function FieldValue(a: Account, payments: seq<Payment>, name: string): Value
  {
    if name == "id" then Number(a.id)
    else if name == "password" then Text(a.password)
    else if name == "email" then Text(a.email)
    else if name == "phone" then (match a.phone case Some(p) => Text(p) case None => Null)
    else if name == "first_name" then Text(a.firstName)
    else if name == "last_name" then Text(a.lastName)
    else if name == "payments" then Nested(PaymentsOf(payments, a.id))
    else Null
  }

  /** The serializer's output for `a` in tier `t`: one entry per declared field, in declaration order. */
  function Render(t: Tier, a: Account, payments: seq<Payment>): (r: seq<(string, Value)>)
    ensures |r| == |Fields(t)|
    ensures forall k :: 0 <= k < |r| ==> r[k].0 == Fields(t)[k]
  {
    seq(|Fields(t)|, k requires 0 <= k < |Fields(t)| => (Fields(t)[k], FieldValue(a, payments, Fields(t)[k])))
  }

  /** The keys of a rendering. */
  function Keys(r: seq<(string, Value)>): set<string>
  {
    set k | 0 <= k < |r| :: r[k].0
  }

  /** The moderator's tier is the owner's tier without the password, in the same order. */
  lemma ModeratorIsOwnerWithoutPassword()
    ensures MODERATOR_FIELDS == OWNER_FIELDS[..1] + OWNER_FIELDS[2..]
    ensures (set f | f in MODERATOR_FIELDS) == (set f | f in OWNER_FIELDS) - {"password"}
  {
    assert OWNER_FIELDS[..1] + OWNER_FIELDS[2..] == ["id", "email", "phone", "first_name", "last_name", "payments"];
  }

  /** The general tier is part of the moderator's tier. */
  lemma GeneralIsPartOfModerator()
    ensures forall f :: f in GENERAL_FIELDS ==> f in MODERATOR_FIELDS
    ensures "payments" !in GENERAL_FIELDS && "password" !in GENERAL_FIELDS
  {
  }

  /** A profile shows its password exactly when the viewer is looking at their own profile. */
  lemma PasswordOnlyToItsOwner(viewer: User, a: Account, payments: seq<Payment>)
    ensures "password" in Keys(Render(DetailTier(viewer, a.id), a, payments)) <==> viewer.id == a.id
    ensures "password" !in Keys(Render(ListTier(viewer), a, payments))
  {
    var r := Render(DetailTier(viewer, a.id), a, payments);
    if viewer.id == a.id {
      assert r[1].0 == "password";
    }
  }

  /** The precedence: one's own profile wins over being a moderator, which wins over the general tier. */
  lemma DetailTierPrecedence(viewer: User, subject: UserId)
    ensures viewer.id == subject ==> DetailTier(viewer, subject) == OwnerView
    ensures viewer.id != subject && MODERATORS in viewer.groups ==> DetailTier(viewer, subject) == ModeratorView
    ensures viewer.id != subject && MODERATORS !in viewer.groups ==> DetailTier(viewer, subject) == GeneralView
  {
  }

  /** Every rendered value is the account's own column, and the payment list holds exactly its payments. */
  lemma RenderedValues(t: Tier, a: Account, payments: seq<Payment>, k: nat, p: Payment)
    requires k < |Fields(t)|
    ensures Render(t, a, payments)[k].1 == FieldValue(a, payments, Fields(t)[k])
    ensures Fields(t)[k] == "payments" ==>
      Render(t, a, payments)[k].1.Nested? && (p in Render(t, a, payments)[k].1.items <==> p in payments && p.user == a.id)
  {
    PaymentsOfIff(payments, a.id, p);
  }

  // ---------------------------------------------------------------------------
  // Payments (users/serializers.py:6-12)
  // ---------------------------------------------------------------------------

  /** What a client sends for a payment; `None` means the field is absent, `Some(None)` an explicit null. */
  datatype PaymentInput = PaymentInput(
    id: Option<PaymentId>,
    user: Option<UserId>,
    course: Option<Option<nat>>,
    lesson: Option<Option<nat>>,
    amount: Option<int>,
    paymentMethod: Option<string>,
    date: Option<Option<int>>,
    sessionId: Option<Option<string>>,
    link: Option<Option<string>>)

  /** Saving client input onto a payment: only the writable fields are taken over. */
  function ApplyPaymentInput(p: Payment, i: PaymentInput): (r: Payment)
    ensures r.id == p.id && r.user == p.user && r.date == p.date && r.sessionId == p.sessionId && r.link == p.link
  {
    p.(course := UnwrapOr(i.course, p.course), lesson := UnwrapOr(i.lesson, p.lesson),
       amount := UnwrapOr(i.amount, p.amount), paymentMethod := UnwrapOr(i.paymentMethod, p.paymentMethod))
  }

  /** Two inputs that agree on the writable fields save the same payment, whatever read-only fields they send. */
  lemma ReadOnlyInputIgnored(p: Payment, i: PaymentInput, j: PaymentInput)
    requires i.course == j.course && i.lesson == j.lesson && i.amount == j.amount && i.paymentMethod == j.paymentMethod
    ensures ApplyPaymentInput(p, i) == ApplyPaymentInput(p, j)
  {
  }

  /** A writable field that the client sends is saved as sent. */
  lemma WritableInputTaken(p: Payment, i: PaymentInput)
    ensures i.amount.Some? ==> ApplyPaymentInput(p, i).amount == i.amount.value
    ensures i.course.Some? ==> ApplyPaymentInput(p, i).course == i.course.value
    ensures i.lesson.Some? ==> ApplyPaymentInput(p, i).lesson == i.lesson.value
    ensures i.paymentMethod.Some? ==> ApplyPaymentInput(p, i).paymentMethod == i.paymentMethod.value
  {
  }

  // ---------------------------------------------------------------------------
  // Registration (users/serializers.py:62-70)
  // ---------------------------------------------------------------------------

  /** What registration reads from the request body; `None` is an absent field, `Some(None)` an explicit null. */
  datatype RegisterInput = RegisterInput(email: Option<Option<string>>, password: Option<Option<string>>)

  /** `User.email`, an `EmailField`: required, not null, not blank, at most 254 characters. */
  const EMAIL_RULES: CharFields.Rules := CharFields.Rules(true, false, false, Some(254))
  /** `User.password`, the inherited `CharField`: required, not null, not blank, at most 128 characters. */
  const PASSWORD_RULES: CharFields.Rules := CharFields.Rules(true, false, false, Some(128))

  datatype Registration = Registration(code: int, accounts: seq<Account>)

  /** The email is already taken by an account. */
  predicate EmailTaken(accounts: seq<Account>, email: string)
  {
    exists k :: 0 <= k < |accounts| && accounts[k].email == email
  }

  /** The account registration creates: the given email and password, active, without privileges. */
  function NewAccount(id: UserId, email: string, password: string): Account
  {
    Account(id, email, password, None, "", "", false, false, true, None)
  }

  /**
   * The registration endpoint: refused (401/403) unless the requester is
   * anonymous; rejected (400) when the email or the password is missing,
   * null, blank or too long, when the email is malformed (`isEmail`, the
   * framework's email validator, applied to the stripped text) or when it is
   * taken; otherwise one new account is appended with the stripped values.
   */
  function RegisterAccount(req: Requester, accounts: seq<Account>, input: RegisterInput, nextId: UserId, isEmail: string -> bool): (r: Registration)
    ensures r.code == 201 <==>
      && req.Anonymous?
      && CharFields.Clean(input.email, EMAIL_RULES).Text? && CharFields.Clean(input.password, PASSWORD_RULES).Text?
      && isEmail(CharFields.Clean(input.email, EMAIL_RULES).text) && !EmailTaken(accounts, CharFields.Clean(input.email, EMAIL_RULES).text)
    ensures r.code == 201 ==>
      r.accounts == accounts + [NewAccount(nextId, CharFields.Strip(input.email.value.value), CharFields.Strip(input.password.value.value))]
    ensures r.code != 201 ==> r.accounts == accounts
    ensures req.Authenticated? ==> r.code == 403
    ensures req.Anonymous? && r.code != 201 ==> r.code == 400
  {
    assert HasPermission(Policy(Register), req) <==> req.Anonymous?;
    match Authorize(Register, req, None)
    case Allow =>
      var email := CharFields.Clean(input.email, EMAIL_RULES);
      var password := CharFields.Clean(input.password, PASSWORD_RULES);
      if !email.Text? || !password.Text? || !isEmail(email.text) || EmailTaken(accounts, email.text) then Registration(400, accounts)
      else Registration(201, accounts + [NewAccount(nextId, email.text, password.text)])
    case _ => Registration(403, accounts)
  }

  /**
   * In plain terms: a registration with a blank, whitespace-only or null
   * email or password, or with either left out, creates nothing; padding
   * around a good email makes no difference.
   */
  lemma BlankRegistrationRejected(req: Requester, accounts: seq<Account>, input: RegisterInput, nextId: UserId, isEmail: string -> bool)
    ensures input.email.None? || input.email == Some(None) || (input.email.Some? && input.email.value.Some? && CharFields.AllSpace(input.email.value.value))
      ==> RegisterAccount(req, accounts, input, nextId, isEmail).accounts == accounts
    ensures input.password.None? || input.password == Some(None) || (input.password.Some? && input.password.value.Some? && CharFields.AllSpace(input.password.value.value))
      ==> RegisterAccount(req, accounts, input, nextId, isEmail).accounts == accounts
  {
  }

  /** Whitespace around the sent email does not change whether or how the account is made. */
  lemma PaddedEmailRegisters(req: Requester, accounts: seq<Account>, pre: string, email: string, post: string, password: Option<Option<string>>, nextId: UserId, isEmail: string -> bool)
    requires CharFields.AllSpace(pre) && CharFields.AllSpace(post) && CharFields.Trimmed(email)
    ensures RegisterAccount(req, accounts, RegisterInput(Some(Some(pre + email + post)), password), nextId, isEmail)
      == RegisterAccount(req, accounts, RegisterInput(Some(Some(email)), password), nextId, isEmail)
  {
    CharFields.PaddingIsIgnored(pre, email, post, EMAIL_RULES);
  }
}
