/**
 * The management command of users/management/commands/check_payments.py,
 * which runs the same settlement loop as the periodic job by hand.
 */
module CheckPaymentsCommand {
  import opened Wrappers
  import opened UserModels
  import opened UserTasks

  /**
   * `Command.handle`: every undated payment with a session id whose session
   * the gateway reports as "complete" gets an empty link and the date `now`;
   * the result is the one the periodic job computes.
   */
  method Handle(payments: array<Payment>, gateway: Gateway, now: int)
    modifies payments
    ensures payments[..] == Reconciled(old(payments[..]), gateway, now)
  {
    for i := 0 to payments.Length
      invariant forall k :: 0 <= k < i ==> payments[k] == Reconcile(old(payments[k]), gateway, now)
      invariant forall k :: i <= k < payments.Length ==> payments[k] == old(payments[k])
    {
      var payment := payments[i];
      if payment.date.Some? || payment.sessionId.None? || payment.sessionId.value == "" {
        continue;
      }
      var session := payment.sessionId.value;
      if session !in gateway {
        continue;
      }
      if gateway[session] == Some(COMPLETE) {
        payments[i] := payment.(link := Some(""), date := Some(now));
      }
    }
  }
}
