/**
 * The status steps staff can trigger, gathered from the three views that
 * offer one: the kitchen card (start preparing, finish), the waiter monitor
 * (mark a ready order delivered) and the overview (cancel a pending order).
 */
module OrderFlow {
  import opened Wrappers
  import opened Domain

  /** The button of a kitchen card: a pending order can be started, an order
      in preparation can be finished, any other card (a cancelled one is
      shown struck through) has no button. */
  function KitchenAction(s: Status): (next: Option<Status>)
    ensures next.Some? <==> s == Pending || s == Preparing
    ensures next.Some? ==> LifecycleStep(s, next.value)
  {
    match s
    case Pending => Some(Preparing)
    case Preparing => Some(Ready)
    case _ => None
  }

  /** The waiter monitor lists the ready orders and offers to mark them delivered. */
  function WaiterAction(s: Status): (next: Option<Status>)
    ensures next.Some? <==> s == Ready
    ensures next.Some? ==> LifecycleStep(s, next.value)
  {
    if s == Ready then Some(Delivered) else None
  }

  /** The overview's cancel button is enabled only for a pending order. */
  function CancelAction(s: Status): (next: Option<Status>)
    ensures next.Some? <==> s == Pending
    ensures next.Some? ==> LifecycleStep(s, next.value)
  {
    if s == Pending then Some(Cancelled) else None
  }

  /** Some view offers to move an order from `s` to `t`. */
  predicate StaffStep(s: Status, t: Status) {
    KitchenAction(s) == Some(t) || WaiterAction(s) == Some(t) || CancelAction(s) == Some(t)
  }

  /** The order lifecycle: pending to preparing to ready to
      delivered, with cancellation possible before an order is ready. */
  predicate LifecycleStep(s: Status, t: Status) {
    match s
    case Pending => t == Preparing || t == Cancelled
    case Preparing => t == Ready || t == Cancelled
    case Ready => t == Delivered
    case _ => false
  }

  /** How far along the lifecycle a status is. */
  function Stage(s: Status): nat {
    match s
    case Pending => 0
    case Confirmed => 0
    case Preparing => 1
    case Ready => 2
    case Delivered => 3
    case Cancelled => 3
    case Paid => 4
  }

  /** Every status a view offers is further along the lifecycle, and no
      view offers to mark an order paid. */
  lemma StaffStepAdvances(s: Status, t: Status)
    requires StaffStep(s, t)
    ensures LifecycleStep(s, t) && Stage(s) < Stage(t) <= 3
  {
  }

  predicate IsStaffPath(path: seq<Status>) {
    forall i | 0 <= i < |path| - 1 :: StaffStep(path[i], path[i + 1])
  }

  /** Following the offered buttons, an order never comes back to a status
      it had, and goes through at most four statuses. */
  lemma {:induction false} StaffPathsAdvance(path: seq<Status>)
    requires IsStaffPath(path)
    ensures forall i | 0 <= i < |path| :: Stage(path[0]) + i <= Stage(path[i])
    ensures forall i, j | 0 <= i < j < |path| :: Stage(path[i]) < Stage(path[j])
    ensures |path| <= 4
  {
    if |path| > 1 {
      var tail := path[1..];
      assert IsStaffPath(tail) by {
        forall i | 0 <= i < |tail| - 1 ensures StaffStep(tail[i], tail[i + 1]) {
          assert StaffStep(path[i + 1], path[i + 2]);
        }
      }
      StaffPathsAdvance(tail);
      StaffStepAdvances(path[0], path[1]);
      forall i | 0 < i < |path| ensures Stage(path[0]) + i <= Stage(path[i]) {
        assert path[i] == tail[i - 1];
      }
      forall i, j | 0 <= i < j < |path| ensures Stage(path[i]) < Stage(path[j]) {
        if i > 0 {
          assert path[i] == tail[i - 1] && path[j] == tail[j - 1];
        }
      }
      if |path| > 4 {
        StaffStepAdvances(path[3], path[4]);
        assert false;
      }
    }
  }
}
