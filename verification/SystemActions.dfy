/** The manager's pending system action (ck-manager.c) beside its lock manager, updated in
    place and proved against ActionSpec: one armed timeout at most, fired by its timer or
    by the handler of the lock manager's changes. */
module SystemActions {
  import opened Text
  import opened InhibitSpec
  import opened ActionSpec
  import opened Inhibit

  class SystemActions {
    const inhibitManager: InhibitManager
    var timer: Option<Action>   // the timeout armed, with its data
    var delay: nat
    var saved: Option<Action>   // system_action_data
    ghost var trace: seq<Out>

    ghost function State(): Actions
      reads this
    {
      Actions(timer, delay, saved, trace)
    }

    ghost function View(): Core
      reads this, inhibitManager
    {
      Core(inhibitManager.model, State())
    }

    ghost predicate Valid()
      reads this, inhibitManager, inhibitManager.inhibitors, inhibitManager.inhibitList
    {
      inhibitManager.Valid() && ActionInv(State())
    }

    constructor ()
      ensures Valid() && View() == Core(Start(), NoAction()) && fresh(inhibitManager)
    {
      var locks := new InhibitManager();
      inhibitManager, timer, delay, saved, trace := locks, None, 0, None, [];
      new;
      assert Cycles([]) + Pending(None) == [];
    }

    /** dbus_restart and the like with do_restart and the like, for an authorised call */
    method Request(kind: Kind, context: nat)
      requires Valid()
      modifies this
      ensures Valid() && View() == CoreStep(old(View()), ActionRequested(kind, context))
      ensures trace == old(trace) + [Refused(context, BlockedByLock)] <==>
        Inhibited(old(View()).locks, Slot(Block, if kind == Restart || kind == Stop then Shutdown else Suspend))
    {
      hide ActionInv, InhibitManager.Valid, Inhibited;
      if kind == Restart || kind == Stop {
        ShutdownsAnswered(State(), inhibitManager.model, kind, context);
      } else {
        SleepsAnswered(State(), inhibitManager.model, kind, context);
      }
      RequestKeeps(State(), inhibitManager.model, kind, context);
      var blocked := inhibitManager.GetInhibitStatus(Slot(Block, WhatOf(kind)));
      if blocked {
        trace := trace + [Refused(context, BlockedByLock)];
        return;
      }
      if timer.Some? {
        trace := trace + [Refused(context, Busy)];
        return;
      }
      var delayed := inhibitManager.GetInhibitStatus(Slot(Delay, WhatOf(kind)));
      var action := Action(kind, context, delayed);
      trace := trace + [Accepted(action), Prepared(PrepareOf(kind), true)];
      if delayed {
        delay, saved := INHIBITED_DELAY, Some(action);
      } else {
        delay := IDLE_DELAY;
      }
      timer := Some(action);
    }

    /** system_action_idle_cb; ok is whether the command could be run */
    method SystemActionIdleCb(action: Action, ok: bool)
      modifies this
      ensures State() == Fire(old(State()), action, ok)
    {
      trace := trace + [Command(action), Replied(action, ok), Prepared(PrepareOf(action.kind), false)];
      timer, delay, saved := None, 0, None;
    }

    /** The timeout fires. */
    method TimerFires(ok: bool)
      requires Valid() && timer.Some?
      modifies this
      ensures Valid() && View() == CoreStep(old(View()), TimerFired(ok))
    {
      hide ActionInv, InhibitManager.Valid, Fire;
      FireKeeps(State(), ok);
      SystemActionIdleCb(timer.value, ok);
    }

    /** on_inhibit_manager_changed_event */
    method OnInhibitManagerChangedEvent(slot: Slot, enabled: bool, ok: bool)
      modifies this
      ensures State() == OnChanged(old(State()), Changed(slot, enabled), ok)
    {
      if timer.None? || saved.None? {
        return;
      }
      if slot.what != Suspend && slot.what != Shutdown {
        return;
      }
      if slot.mode != Delay || enabled {
        return;
      }
      timer := None;
      SystemActionIdleCb(saved.value, ok);
    }

    /** The handlers of the changes announced from the n-th on, in order. */
    method HandleFrom(n: nat, ok: bool)
      requires n <= |inhibitManager.emitted|
      modifies this
      ensures State() == OnAllChanged(old(State()), inhibitManager.emitted[n..], ok)
    {
      ghost var changes := inhibitManager.emitted;
      for i := n to |inhibitManager.emitted|
        invariant inhibitManager.emitted == changes
        invariant State() == OnAllChanged(old(State()), changes[n..i], ok)
      {
        ghost var c := changes[i];
        assert changes[n..i + 1] == changes[n..i] + [c] && c == Changed(c.slot, c.enabled);
        assert (changes[n..i] + [c])[..i - n] == changes[n..i];
        OnInhibitManagerChangedEvent(inhibitManager.emitted[i].slot, inhibitManager.emitted[i].enabled, ok);
      }
      assert changes[n..|changes|] == changes[n..];
    }

    /** ck_inhibit_manager_create_lock with the manager listening */
    method CreateLock(what: string, mode: string, pipes: Pipes, ok: bool) returns (reply: CreateReply)
      requires Valid()
      modifies this, inhibitManager, inhibitManager.inhibitors
      ensures Valid() && View() == CoreStep(old(View()), Locking(LockRequested(what, mode, pipes), ok))
      ensures reply == Create(old(inhibitManager.model), what, mode, pipes).1
    {
      hide ActionInv, Create, OnAllChanged;
      CoreStepKeeps(View(), Locking(LockRequested(what, mode, pipes), ok));
      var n := |inhibitManager.emitted|;
      reply := inhibitManager.CreateLock(what, mode, pipes);
      StepChanges(old(inhibitManager.model), LockRequested(what, mode, pipes), Slot(Delay, Suspend));
      HandleFrom(n, ok);
    }

    /** The last holder of a lock's pipe has closed it. */
    method ReleaseLock(i: nat, ok: bool)
      requires Valid() && i < |inhibitManager.inhibitList|
      modifies this, inhibitManager, inhibitManager.inhibitors, inhibitManager.inhibitList
      ensures Valid() && View() == CoreStep(old(View()), Locking(PipeClosed(i), ok))
    {
      hide ActionInv, Release, OnAllChanged;
      CoreStepKeeps(View(), Locking(PipeClosed(i), ok));
      var n := |inhibitManager.emitted|;
      inhibitManager.CloseNamedPipe(i);
      StepChanges(old(inhibitManager.model), PipeClosed(i), Slot(Delay, Suspend));
      HandleFrom(n, ok);
    }
  }
}
