/**
 * The records of the users application: accounts and payments.
 *
 * Instants are integer seconds; nullable columns are `Option`s. The payment
 * record takes its columns from the payment fixtures in users/tests.py and
 * from the migration that added the nullable `session_id` and `link`.
 */
module UserModels {
  import opened Wrappers
  import opened Permissions

  /** A user account (users/models.py:8-23, with the columns inherited from the framework's user). */
  datatype Account = Account(
    id: UserId,
    email: string,
    password: string,
    phone: Option<string>,
    firstName: string,
    lastName: string,
    isStaff: bool,
    isSuperuser: bool,
    isActive: bool,
    lastLogin: Option<int>)

  type PaymentId = nat

  /** A payment for a course or a lesson; `date` stays null until the payment is settled. */
  datatype Payment = Payment(
    id: PaymentId,
    user: UserId,
    course: Option<nat>,
    lesson: Option<nat>,
    amount: int,
    paymentMethod: string,
    date: Option<int>,
    sessionId: Option<string>,
    link: Option<string>)

  /** The payments of one user, in table order: the reverse relation `user.payments`. */
  function PaymentsOf(payments: seq<Payment>, user: UserId): (r: seq<Payment>)
    ensures |r| <= |payments|
    ensures forall k :: 0 <= k < |r| ==> r[k].user == user && r[k] in payments
  {
    if payments == [] then []
    else if payments[0].user == user then [payments[0]] + PaymentsOf(payments[1..], user)
    else PaymentsOf(payments[1..], user)
  }

  /** Every payment of the user is listed, and nothing else. */
  lemma {:induction false} PaymentsOfIff(payments: seq<Payment>, user: UserId, p: Payment)
    ensures p in PaymentsOf(payments, user) <==> p in payments && p.user == user
  {
    if payments != [] {
      PaymentsOfIff(payments[1..], user, p);
      assert p in payments <==> p == payments[0] || p in payments[1..];
    }
  }
}
