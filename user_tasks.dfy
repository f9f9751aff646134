/**
 * The periodic jobs of users/tasks.py over the in-memory tables: settling
 * payments whose checkout session has completed, and deactivating accounts
 * that have not logged in for 30 days.
 *
 * The payment processor's session lookup is a parameter: a map from session
 * id to the session's status, where a missing key is a lookup that found no
 * session and `None` a session without a status. The clock is the parameter
 * `now`, in seconds.
 */
module UserTasks {
  import opened Wrappers
  import opened UserModels

  /** The status of a paid checkout session. */
  const COMPLETE: string := "complete"

  /** 30 days, in seconds. */
  const INACTIVITY_SECONDS: int := 2592000

  /** Session id to session status, as the payment processor answers. */
  type Gateway = map<string, Option<string>>

  // ---------------------------------------------------------------------------
  // check_payments (users/tasks.py:24-40)
  // ---------------------------------------------------------------------------

  /**
   * The payment is settled by this run: it has no date yet, it has a
   * non-empty session id, the lookup finds that session, and its status is
   * "complete".
   */
  predicate Settles(p: Payment, gateway: Gateway)
  {
    && p.date.None?
    && p.sessionId.Some? && p.sessionId.value != ""
    && p.sessionId.value in gateway
    && gateway[p.sessionId.value] == Some(COMPLETE)
  }

  /** One payment after the run: a settled one gets an empty link and the date `now`. */
  function Reconcile(p: Payment, gateway: Gateway, now: int): Payment
  {
    if Settles(p, gateway) then p.(link := Some(""), date := Some(now)) else p
  }

  /** The payment table after the run, row by row. */
  function Reconciled(payments: seq<Payment>, gateway: Gateway, now: int): (r: seq<Payment>)
    ensures |r| == |payments|
  {
    seq(|payments|, k requires 0 <= k < |payments| => Reconcile(payments[k], gateway, now))
  }

  /**
   * `check_payments`: the loop visits the undated payments and skips one
   * without a session id, one whose session the lookup does not find, and one
   * whose session is not complete.
   */
  method CheckPayments(payments: array<Payment>, gateway: Gateway, now: int)
    modifies payments
    ensures payments[..] == Reconciled(old(payments[..]), gateway, now)
  {
    var i := 0;
    while i < payments.Length
      invariant 0 <= i <= payments.Length
      invariant forall k :: 0 <= k < i ==> payments[k] == Reconcile(old(payments[k]), gateway, now)
      invariant forall k :: i <= k < payments.Length ==> payments[k] == old(payments[k])
    {
      var p := payments[i];
      if p.date.None? && p.sessionId.Some? && p.sessionId.value != "" {
        var sid := p.sessionId.value;
        if sid in gateway {
          var status := gateway[sid];
          if status == Some(COMPLETE) {
            payments[i] := p.(link := Some(""), date := Some(now));
          }
        }
      }
      i := i + 1;
    }
  }

  /**
   * A run changes a payment exactly when it settles it, and then writes only
   * the link and the date; every other column, and every other payment, is
   * left as it was.
   */
  lemma ReconcileIsExact(payments: seq<Payment>, gateway: Gateway, now: int, k: nat)
    requires k < |payments|
    ensures var p, q := payments[k], Reconciled(payments, gateway, now)[k];
      && (q != p <==> Settles(p, gateway))
      && q.id == p.id && q.user == p.user && q.course == p.course && q.lesson == p.lesson
      && q.amount == p.amount && q.paymentMethod == p.paymentMethod && q.sessionId == p.sessionId
      && (Settles(p, gateway) ==> q.link == Some("") && q.date == Some(now))
  {
  }

  /** A payment that already has a date is never looked at. */
  lemma DatedPaymentsUntouched(payments: seq<Payment>, gateway: Gateway, now: int, k: nat)
    requires k < |payments| && payments[k].date.Some?
    ensures Reconciled(payments, gateway, now)[k] == payments[k]
  {
  }

  /**
   * A second run with the same answers from the gateway changes nothing, at
   * whatever time it runs: every payment it would settle already has a date.
   */
  lemma {:induction false} ReconciledIsIdempotent(payments: seq<Payment>, gateway: Gateway, now: int, later: int)
    ensures Reconciled(Reconciled(payments, gateway, now), gateway, later) == Reconciled(payments, gateway, now)
  {
    var once := Reconciled(payments, gateway, now);
    forall k | 0 <= k < |once|
      ensures Reconcile(once[k], gateway, later) == once[k]
    {
      assert once[k] == Reconcile(payments[k], gateway, now);
    }
  }

  // ---------------------------------------------------------------------------
  // disable_inactive_users (users/tasks.py:8-21)
  // ---------------------------------------------------------------------------

  /**
   * The filter of the job: neither staff nor superuser, still active, and a
   * last login strictly before `now` minus 30 days. An account that never
   * logged in has a null last login, which the comparison never selects.
   */
  predicate Inactive(a: Account, now: int)
  {
    !a.isStaff && !a.isSuperuser && a.isActive && a.lastLogin.Some? && a.lastLogin.value < now - INACTIVITY_SECONDS
  }

  function Deactivate(a: Account, now: int): Account
  {
    if Inactive(a, now) then a.(isActive := false) else a
  }

  function Deactivated(accounts: seq<Account>, now: int): (r: seq<Account>)
    ensures |r| == |accounts|
  {
    seq(|accounts|, k requires 0 <= k < |accounts| => Deactivate(accounts[k], now))
  }

  /** `disable_inactive_users`: clears `is_active` on every selected account and writes that column only. */
  method DisableInactiveUsers(accounts: array<Account>, now: int)
    modifies accounts
    ensures accounts[..] == Deactivated(old(accounts[..]), now)
  {
    var i := 0;
    while i < accounts.Length
      invariant 0 <= i <= accounts.Length
      invariant forall k :: 0 <= k < i ==> accounts[k] == Deactivate(old(accounts[k]), now)
      invariant forall k :: i <= k < accounts.Length ==> accounts[k] == old(accounts[k])
    {
      var a := accounts[i];
      if !a.isStaff && !a.isSuperuser && a.isActive && a.lastLogin.Some? && a.lastLogin.value < now - INACTIVITY_SECONDS {
        accounts[i] := a.(isActive := false);
      }
      i := i + 1;
    }
  }

  /**
   * After the job an account is active exactly when it was active and not
   * selected; staff, superusers and recently seen accounts keep their flag,
   * and no column but `is_active` changes.
   */
  lemma DeactivateIsExact(accounts: seq<Account>, now: int, k: nat)
    requires k < |accounts|
    ensures var a, b := accounts[k], Deactivated(accounts, now)[k];
      && (b.isActive <==> a.isActive && !Inactive(a, now))
      && b == a.(isActive := b.isActive)
      && (a.isStaff || a.isSuperuser ==> b == a)
      && (a.lastLogin.Some? && a.lastLogin.value >= now - INACTIVITY_SECONDS ==> b == a)
  {
  }

  /** Running the job twice at the same time is running it once. */
  lemma {:induction false} DeactivatedIsIdempotent(accounts: seq<Account>, now: int)
    ensures Deactivated(Deactivated(accounts, now), now) == Deactivated(accounts, now)
  {
    var once := Deactivated(accounts, now);
    forall k | 0 <= k < |once|
      ensures Deactivate(once[k], now) == once[k]
    {
      assert once[k] == Deactivate(accounts[k], now);
    }
  }
}
