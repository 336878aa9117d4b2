/**
 The cancellation token (cancellation.rs) as its callers interleave: an atomic flag and a notifier,
 with every load, swap, registration and wake-up a separate step.
 */
module Cancellation {

  /** Where one `cancelled()` call stands; `woken` is set by a notification it is registered for. */
  datatype Waiter =
    | Checking
    | Creating
    | Created(woken: bool)
    | Enabled(woken: bool)
    | Parked(woken: bool)
    | Returned

  /** Where one `cancel()` call stands. */
  datatype Canceller = Swapping | Notifying | Finished

  datatype Token = Token(cancelled: bool, waiters: map<nat, Waiter>, cancellers: map<nat, Canceller>)

  datatype Step =
    | NewWaiter(id: nat)
    | NewCanceller(id: nat)
    | WaiterStep(id: nat)
    | CancellerStep(id: nat, alsoWoken: set<nat>)

  function AdvanceWaiter(cancelled: bool, w: Waiter): Waiter {
    match w
    case Checking => if cancelled then Returned else Creating
    case Creating => Created(false)
    case Created(woken) => Enabled(woken)
    case Enabled(woken) => if cancelled then Returned else Parked(woken)
    case Parked(woken) => if woken then Returned else w
    case Returned => w
  }

  /** A notification wakes every enabled waiter; one that is only created may or may not be woken. */
  function Wake(w: Waiter, alsoWoken: bool): Waiter {
    match w
    case Created(woken) => Created(woken || alsoWoken)
    case Enabled(_) => Enabled(true)
    case Parked(_) => Parked(true)
    case _ => w
  }

  function WakeAll(waiters: map<nat, Waiter>, alsoWoken: set<nat>): map<nat, Waiter> {
    map id | id in waiters :: Wake(waiters[id], id in alsoWoken)
  }

  ghost predicate Next(t: Token, step: Step, t': Token) {
    match step
    case NewWaiter(id) => id !in t.waiters && t' == t.(waiters := t.waiters[id := Checking])
    case NewCanceller(id) => id !in t.cancellers && t' == t.(cancellers := t.cancellers[id := Swapping])
    case WaiterStep(id) =>
      id in t.waiters && t' == t.(waiters := t.waiters[id := AdvanceWaiter(t.cancelled, t.waiters[id])])
    case CancellerStep(id, alsoWoken) =>
      && id in t.cancellers
      && match t.cancellers[id]
         case Swapping =>
           t' == t.(cancelled := true, cancellers := t.cancellers[id := if t.cancelled then Finished else Notifying])
         case Notifying =>
           t' == t.(waiters := WakeAll(t.waiters, alsoWoken), cancellers := t.cancellers[id := Finished])
         case Finished => t' == t
  }

  ghost predicate Behaviour(tokens: seq<Token>, steps: seq<Step>) {
    && |tokens| == |steps| + 1
    && tokens[0] == Token(false, map[], map[])
    && forall i :: 0 <= i < |steps| ==> Next(tokens[i], steps[i], tokens[i + 1])
  }

  predicate NotifyPending(t: Token) {
    exists id :: id in t.cancellers && t.cancellers[id] == Notifying
  }

  /** Either the notification is still owed, or every parked waiter has already received it. */
  predicate NoLostWakeup(t: Token) {
    t.cancelled ==>
      NotifyPending(t) || forall id :: id in t.waiters && t.waiters[id].Parked? ==> t.waiters[id].woken
  }

  predicate OneNotifier(t: Token) {
    && (!t.cancelled ==> !NotifyPending(t))
    && (forall a, b :: a in t.cancellers && b in t.cancellers && t.cancellers[a] == Notifying && t.cancellers[b] == Notifying
                       ==> a == b)
  }

  lemma NextKeepsWakeups(t: Token, step: Step, t': Token)
    requires NoLostWakeup(t) && OneNotifier(t) && Next(t, step, t')
    ensures NoLostWakeup(t') && OneNotifier(t')
    ensures t.cancelled ==> t'.cancelled
  {
    if step.CancellerStep? && t.cancellers[step.id] == Swapping && !t.cancelled {
      assert t'.cancellers[step.id] == Notifying;
    } else if NotifyPending(t) {
      var owner :| owner in t.cancellers && t.cancellers[owner] == Notifying;
      if step.CancellerStep? && step.id == owner {
        assert forall id :: id in t'.waiters && t'.waiters[id].Parked? ==> t'.waiters[id].woken;
      } else {
        assert t'.cancellers[owner] == Notifying;
      }
    }
  }

  /**
   No lost wake-up: in every interleaving of any number of waiters and cancellers, a waiter parked
   after cancellation is already notified, or some canceller still has its notification to send.
   */
  lemma {:induction false} WakeupsAreNeverLost(tokens: seq<Token>, steps: seq<Step>, i: nat)
    requires Behaviour(tokens, steps) && i < |tokens|
    ensures NoLostWakeup(tokens[i]) && OneNotifier(tokens[i])
    decreases i
  {
    if i > 0 {
      WakeupsAreNeverLost(tokens, steps, i - 1);
      NextKeepsWakeups(tokens[i - 1], steps[i - 1], tokens[i]);
    }
  }

  /** Cancellation is monotone: once observed by any clone it is observed for ever. */
  lemma {:induction false} CancellationIsMonotone(tokens: seq<Token>, steps: seq<Step>, i: nat, j: nat)
    requires Behaviour(tokens, steps) && i <= j < |tokens| && tokens[i].cancelled
    ensures tokens[j].cancelled
    decreases j - i
  {
    if i < j {
      CancellationIsMonotone(tokens, steps, i, j - 1);
      WakeupsAreNeverLost(tokens, steps, j - 1);
      NextKeepsWakeups(tokens[j - 1], steps[j - 1], tokens[j]);
    }
  }

  /** No existing call can take another step that changes anything. */
  predicate Quiescent(t: Token) {
    && (forall id :: id in t.waiters ==> AdvanceWaiter(t.cancelled, t.waiters[id]) == t.waiters[id])
    && (forall id :: id in t.cancellers ==> t.cancellers[id] == Finished)
  }

  /** Nobody waits in vain: once cancellation was requested and all calls have run, all waiters returned. */
  lemma CancelledWaitersAllReturn(tokens: seq<Token>, steps: seq<Step>, i: nat, w: nat)
    requires Behaviour(tokens, steps) && i < |tokens| && tokens[i].cancelled && Quiescent(tokens[i])
    requires w in tokens[i].waiters
    ensures tokens[i].waiters[w] == Returned
  {
    WakeupsAreNeverLost(tokens, steps, i);
  }

  // ---------------------------------------------------------------- bounded waiting

  /** How many steps of its own a waiter can still take. */
  function StepsLeft(w: Waiter): nat {
    match w
    case Checking => 5
    case Creating => 4
    case Created(_) => 3
    case Enabled(_) => 2
    case Parked(_) => 1
    case Returned => 0
  }

  /** How often waiter `w` was scheduled between two moments. */
  function OwnSteps(steps: seq<Step>, i: nat, j: nat, w: nat): nat
    requires i <= j <= |steps|
  {
    if i == j then 0 else OwnSteps(steps, i, j - 1, w) + if steps[j - 1] == WaiterStep(w) then 1 else 0
  }

  /** The token is cancelled and its notification has been sent. */
  predicate Announced(t: Token) {
    t.cancelled && !NotifyPending(t)
  }

  /** From then on every step of a waiter brings it closer to returning, and nothing sets it back. */
  lemma AnnouncedStep(t: Token, step: Step, t': Token, w: nat)
    requires NoLostWakeup(t) && Announced(t) && Next(t, step, t') && w in t.waiters
    ensures Announced(t') && w in t'.waiters
    ensures step == WaiterStep(w) && StepsLeft(t.waiters[w]) > 0 ==> StepsLeft(t'.waiters[w]) < StepsLeft(t.waiters[w])
    ensures StepsLeft(t'.waiters[w]) <= StepsLeft(t.waiters[w])
  {
  }

  lemma {:induction false} StepsRunOut(tokens: seq<Token>, steps: seq<Step>, i: nat, j: nat, w: nat)
    requires Behaviour(tokens, steps) && i <= j < |tokens| && Announced(tokens[i]) && w in tokens[i].waiters
    ensures Announced(tokens[j]) && w in tokens[j].waiters
    ensures || StepsLeft(tokens[j].waiters[w]) == 0
            || StepsLeft(tokens[j].waiters[w]) + OwnSteps(steps, i, j, w) <= StepsLeft(tokens[i].waiters[w])
    decreases j - i
  {
    if i < j {
      StepsRunOut(tokens, steps, i, j - 1, w);
      WakeupsAreNeverLost(tokens, steps, j - 1);
      AnnouncedStep(tokens[j - 1], steps[j - 1], tokens[j], w);
    }
  }

  /**
   Bounded waiting: once a cancelled token has sent its notification, every waiter, wherever it stands,
   has returned after at most five steps of its own, whatever everybody else does meanwhile.
   */
  lemma WaitersReturnInFiveSteps(tokens: seq<Token>, steps: seq<Step>, i: nat, j: nat, w: nat)
    requires Behaviour(tokens, steps) && i <= j < |tokens| && Announced(tokens[i]) && w in tokens[i].waiters
    requires OwnSteps(steps, i, j, w) >= 5
    ensures w in tokens[j].waiters && tokens[j].waiters[w] == Returned
  {
    StepsRunOut(tokens, steps, i, j, w);
  }

  // ---------------------------------------------------------------- nobody returns early

  /** Notifications and returns happen only after cancellation. */
  predicate NoEarlyReturn(t: Token) {
    !t.cancelled ==>
      && !NotifyPending(t)
      && forall id :: id in t.waiters ==>
           t.waiters[id] != Returned
           && (t.waiters[id].Created? || t.waiters[id].Enabled? || t.waiters[id].Parked? ==> !t.waiters[id].woken)
  }

  lemma NextKeepsWaiting(t: Token, step: Step, t': Token)
    requires NoEarlyReturn(t) && Next(t, step, t')
    ensures NoEarlyReturn(t')
  {
    if step.CancellerStep? && !t'.cancelled {
      assert t.cancellers[step.id] != Notifying;
    }
  }

  /** A waiter returns only from a token that is cancelled: no wake-up is spurious. */
  lemma {:induction false} OnlyCancelledWaitersReturn(tokens: seq<Token>, steps: seq<Step>, i: nat)
    requires Behaviour(tokens, steps) && i < |tokens|
    ensures NoEarlyReturn(tokens[i])
    decreases i
  {
    if i > 0 {
      OnlyCancelledWaitersReturn(tokens, steps, i - 1);
      NextKeepsWaiting(tokens[i - 1], steps[i - 1], tokens[i]);
    }
  }

  /** Cancellation takes one step: once a `cancel()` call has run its first, the token is cancelled. */
  lemma {:induction false} CancelTakesEffect(tokens: seq<Token>, steps: seq<Step>, i: nat, c: nat)
    requires Behaviour(tokens, steps) && i < |tokens| && c in tokens[i].cancellers && tokens[i].cancellers[c] != Swapping
    ensures tokens[i].cancelled
    decreases i
  {
    if i > 0 {
      assert Next(tokens[i - 1], steps[i - 1], tokens[i]);
      if c in tokens[i - 1].cancellers && tokens[i - 1].cancellers[c] != Swapping {
        CancelTakesEffect(tokens, steps, i - 1, c);
        CancellationIsMonotone(tokens, steps, i - 1, i);
      }
    }
  }
}
