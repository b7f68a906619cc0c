/**
 * The tracker of WebSocket sessions that shutdown waits for. Every lock-protected section, and
 * every await point of the single waiter, is one step; steps interleave freely.
 */
module WsTracker {
  import opened Outcomes

  /**
   * Where the waiter stands: not waiting, about to look at the count, past a look that saw
   * sessions but not yet enqueued, enqueued, handed a notification while enqueued, returned.
   */
  datatype Waiter = Idle | Looking | Enqueuing | Parked | Woken | Returned

  /** `permit` is the notification kept when nobody is enqueued; `guards` are the live guards. */
  datatype Tracker = Tracker(accepting: bool, active: nat, permit: bool, waiter: Waiter, guards: set<nat>, issued: nat)

  const INITIAL := Tracker(true, 0, false, Idle, {}, 0)

  /** An enqueued waiter takes the notification, otherwise one permit is kept. */
  function NotifyOne(t: Tracker): Tracker {
    if t.waiter == Parked then t.(waiter := Woken) else t.(permit := true)
  }

  function TryRegister(t: Tracker): (Tracker, Option<nat>) {
    if !t.accepting then (t, None)
    else (t.(active := t.active + 1, guards := t.guards + {t.issued}, issued := t.issued + 1), Some(t.issued))
  }

  function StopAccepting(t: Tracker): Tracker {
    var stopped := t.(accepting := false);
    if stopped.active == 0 then NotifyOne(stopped) else stopped
  }

  /** Subtraction that stops at zero. */
  function Decrement(n: nat): nat {
    if n == 0 then 0 else n - 1
  }

  function DropGuard(t: Tracker, guard: nat): Tracker {
    var dropped := t.(active := Decrement(t.active), guards := t.guards - {guard});
    if dropped.active == 0 then NotifyOne(dropped) else dropped
  }

  /** The waiter's next piece of work, if it can move at all. */
  function WaiterStep(t: Tracker): Tracker {
    match t.waiter
    case Idle => t.(waiter := Looking)
    case Looking => t.(waiter := if t.active == 0 then Returned else Enqueuing)
    case Enqueuing => if t.permit then t.(permit := false, waiter := Looking) else t.(waiter := Parked)
    case Parked => t
    case Woken => t.(waiter := Looking)
    case Returned => t
  }

  /** The waiter is dropped by its timeout; a notification handed to it is passed on. */
  function CancelWait(t: Tracker): Tracker {
    if t.waiter == Woken then t.(waiter := Idle, permit := true) else t.(waiter := Idle)
  }

  datatype Step = Register | Drop(guard: nat) | Stop | Wait | Cancel

  function Apply(t: Tracker, s: Step): Tracker {
    match s
    case Register => TryRegister(t).0
    case Drop(g) => if g in t.guards then DropGuard(t, g) else t
    case Stop => StopAccepting(t)
    case Wait => WaiterStep(t)
    case Cancel => CancelWait(t)
  }

  function Execute(t: Tracker, steps: seq<Step>): Tracker
    decreases |steps|
  {
    if steps == [] then t else Execute(Apply(t, steps[0]), steps[1..])
  }

  /**
   * The count is the number of live guards; an enqueued waiter has a session to wait for and no
   * permit was left behind; one about to enqueue has a session to wait for or a permit.
   */
  ghost predicate Valid(t: Tracker) {
    && t.active == |t.guards| && (forall g :: g in t.guards ==> g < t.issued)
    && (t.waiter == Parked ==> t.active > 0 && !t.permit)
    && (t.waiter == Enqueuing && t.active == 0 ==> t.permit)
  }

  lemma StepStaysValid(t: Tracker, s: Step)
    requires Valid(t)
    ensures Valid(Apply(t, s))
  {
  }

  /**
   * No wakeup is lost: in every interleaving the count never saturates and equals the number of
   * live guards, and a waiter can only be asleep while some session is active.
   */
  lemma {:induction false} NoLostWakeup(t: Tracker, steps: seq<Step>)
    requires Valid(t)
    ensures var r := Execute(t, steps);
      && Valid(r) && r.active == |r.guards|
      && (r.waiter == Parked ==> r.active > 0)
      && (r.active == 0 && r.waiter !in {Idle, Returned} ==> WaiterStep(r) != r)
    decreases |steps|
  {
    if steps != [] {
      StepStaysValid(t, steps[0]);
      NoLostWakeup(Apply(t, steps[0]), steps[1..]);
    }
  }

  predicate Drained(t: Tracker) { !t.accepting && t.active == 0 }

  /** Once registration is closed and no session is active, none ever is again. */
  lemma {:induction false} DrainedForever(t: Tracker, steps: seq<Step>)
    requires Valid(t) && Drained(t)
    ensures Drained(Execute(t, steps)) && Execute(t, steps).guards == {}
    decreases |steps|
  {
    assert t.guards == {};
    if steps != [] {
      StepStaysValid(t, steps[0]);
      DrainedForever(Apply(t, steps[0]), steps[1..]);
    }
  }

  /** Once stopped, no run registers another session: the guards that are left only go away. */
  lemma {:induction false} StoppedForGood(t: Tracker, steps: seq<Step>)
    requires !t.accepting
    ensures var r := Execute(t, steps);
      !r.accepting && r.issued == t.issued && r.guards <= t.guards && r.active <= t.active
    decreases |steps|
  {
    if steps != [] {
      StoppedForGood(Apply(t, steps[0]), steps[1..]);
    }
  }

  /** Stopping closes registration for good; until then every registration adds a session. */
  lemma StopCloses(t: Tracker, steps: seq<Step>)
    ensures var r := Execute(Apply(t, Stop), steps);
      !r.accepting && r.issued == t.issued && TryRegister(r) == (r, None)
    ensures t.accepting ==>
      var (next, guard) := TryRegister(t);
      && guard == Some(t.issued) && next.guards == t.guards + {t.issued}
      && next.active == t.active + 1 && next.accepting
  {
    StoppedForGood(Apply(t, Stop), steps);
  }

  /** A wait that returns after registration was closed leaves no session, then or ever. */
  lemma ReturnMeansDrained(t: Tracker, before: seq<Step>, after: seq<Step>)
    requires Valid(t)
    requires var at := Execute(t, before);
      !at.accepting && at.waiter != Returned && WaiterStep(at).waiter == Returned
    ensures var r := Execute(WaiterStep(Execute(t, before)), after);
      r.active == 0 && r.guards == {} && !r.accepting
  {
    NoLostWakeup(t, before);
    DrainedForever(WaiterStep(Execute(t, before)), after);
  }

  /** How many of its own steps the waiter is from returning once nothing is active. */
  function StepsLeft(w: Waiter): nat {
    match w
    case Returned => 0
    case Looking => 1
    case Idle => 2
    case _ => 2
  }

  function WaitsIn(steps: seq<Step>): nat
    decreases |steps|
  {
    if steps == [] then 0 else (if steps[0] == Wait then 1 else 0) + WaitsIn(steps[1..])
  }

  /**
   * After the last session ended with registration closed, two turns of the waiter are enough for
   * it to return, however other steps interleave.
   */
  lemma {:induction false} DrainedWaitReturns(t: Tracker, steps: seq<Step>)
    requires Valid(t) && Drained(t) && Cancel !in steps
    requires WaitsIn(steps) >= StepsLeft(t.waiter)
    ensures Execute(t, steps).waiter == Returned
    decreases |steps|
  {
    assert t.guards == {};
    if steps != [] {
      StepStaysValid(t, steps[0]);
      assert steps[0] in steps;
      DrainedWaitReturns(Apply(t, steps[0]), steps[1..]);
    }
  }

  class WsSessionTracker {
    var accepting: bool
    var active: nat
    var permit: bool
    var waiter: Waiter
    ghost var guards: set<nat>
    ghost var issued: nat

    ghost function State(): Tracker
      reads this
    {
      Tracker(accepting, active, permit, waiter, guards, issued)
    }

    ghost predicate Tracked()
      reads this
    {
      Valid(State())
    }

    constructor ()
      ensures State() == INITIAL && Tracked()
    {
      accepting, active, permit, waiter := true, 0, false, Idle;
      guards, issued := {}, 0;
    }

    method Notify()
      modifies `permit, `waiter
      ensures State() == NotifyOne(old(State()))
    {
      if waiter == Parked {
        waiter := Woken;
      } else {
        permit := true;
      }
    }

    method Register() returns (registered: bool)
      requires Tracked()
      modifies this
      ensures Tracked() && State() == TryRegister(old(State())).0
      ensures registered == old(accepting) == (|guards| == |old(guards)| + 1)
    {
      if !accepting {
        return false;
      }
      active := active + 1;
      guards := guards + {issued};
      issued := issued + 1;
      return true;
    }

    method Stop()
      requires Tracked()
      modifies this
      ensures Tracked() && State() == StopAccepting(old(State()))
    {
      accepting := false;
      if active == 0 {
        Notify();
      }
    }

    /** Dropping a guard that is held; it is held no longer. */
    method Release(ghost guard: nat)
      requires Tracked() && guard in guards
      modifies this
      ensures Tracked() && State() == DropGuard(old(State()), guard)
      ensures active == old(active) - 1
    {
      active := Decrement(active);
      guards := guards - {guard};
      if active == 0 {
        Notify();
      }
    }

    /** One turn of the wait loop: create the notification, look at the count, or await. */
    method Wait() returns (done: bool)
      requires Tracked()
      modifies `permit, `waiter
      ensures Tracked() && State() == WaiterStep(old(State()))
      ensures done <==> waiter == Returned
    {
      if waiter == Looking {
        waiter := if active == 0 then Returned else Enqueuing;
      } else if waiter == Enqueuing && permit {
        permit := false;
        waiter := Looking;
      } else if waiter == Enqueuing {
        waiter := Parked;
      } else if waiter == Idle || waiter == Woken {
        waiter := Looking;
      }
      done := waiter == Returned;
    }
  }
}
