/** Delayed system actions (restart, stop, suspend, hibernate, hybrid sleep) and the
    inhibit locks they consult, as one state (ck-manager.c with ck-inhibit-manager.c). */
module ActionSpec {
  import opened Text
  import opened InhibitSpec

  datatype Kind = Restart | Stop | SuspendNow | Hibernate | HybridSleep
  datatype Prepare = ForShutdown | ForSleep

  /** A request accepted: who asked for what, and whether a delay lock for its own kind
      was counted at that moment. */
  datatype Action = Action(kind: Kind, context: nat, delayed: bool)

  datatype Refusal = Busy | BlockedByLock

  /** What the outside sees, with the moment of acceptance marked. */
  datatype Out =
    | Accepted(action: Action)
    | Prepared(prepare: Prepare, start: bool)
    | Command(action: Action)
    | Replied(action: Action, ok: bool)
    | Refused(context: nat, why: Refusal)

  const IDLE_DELAY: nat := 2000
  const INHIBITED_DELAY: nat := 8000

  /** timer: the armed timeout's data and delay; saved: system_action_data */
  datatype Actions = Actions(timer: Option<Action>, delay: nat, saved: Option<Action>, trace: seq<Out>)

  function PrepareOf(kind: Kind): Prepare {
    if kind == Restart || kind == Stop then ForShutdown else ForSleep
  }

  /** The event whose locks hold up an action of this kind. */
  function WhatOf(kind: Kind): What {
    if kind == Restart || kind == Stop then Shutdown else Suspend
  }

  function NoAction(): Actions { Actions(None, 0, None, []) }

  /** dbus_restart and its like, followed by do_restart and its like: an authorised call. */
  function Request(a: Actions, st: Inhibitors, kind: Kind, context: nat): Actions {
    if Inhibited(st, Slot(Block, WhatOf(kind))) then a.(trace := a.trace + [Refused(context, BlockedByLock)])
    else if a.timer.Some? then a.(trace := a.trace + [Refused(context, Busy)])
    else
      var delayed := Inhibited(st, Slot(Delay, WhatOf(kind)));
      var action := Action(kind, context, delayed);
      Actions(Some(action),
              if delayed then INHIBITED_DELAY else IDLE_DELAY,
              if delayed then Some(action) else a.saved,
              a.trace + [Accepted(action), Prepared(PrepareOf(kind), true)])
  }

  /** system_action_idle_cb; ok is whether the command could be run */
  function Fire(a: Actions, action: Action, ok: bool): Actions {
    Actions(None, 0, None,
            a.trace + [Command(action), Replied(action, ok), Prepared(PrepareOf(action.kind), false)])
  }

  predicate FiresOn(c: Changed) {
    !c.enabled && c.slot.mode == Delay && (c.slot.what == Suspend || c.slot.what == Shutdown)
  }

  /** on_inhibit_manager_changed_event */
  function OnChanged(a: Actions, c: Changed, ok: bool): Actions {
    if a.timer.None? || a.saved.None? || !FiresOn(c) then a else Fire(a, a.saved.value, ok)
  }

  function OnAllChanged(a: Actions, cs: seq<Changed>, ok: bool): Actions {
    if cs == [] then a else OnChanged(OnAllChanged(a, cs[..|cs| - 1], ok), cs[|cs| - 1], ok)
  }

  // ----- the two together

  datatype Core = Core(locks: Inhibitors, actions: Actions)

  datatype CoreEvent =
    | ActionRequested(kind: Kind, context: nat)
    | TimerFired(ok: bool)
    | Locking(event: InhibitSpec.Event, ok: bool)

  predicate CoreEnabled(c: Core, e: CoreEvent) { e.TimerFired? ==> c.actions.timer.Some? }

  /** The lock manager's handlers run while the signals go out; since they touch neither
      the locks nor the table, it is the same to run them afterwards, in order. */
  function CoreStep(c: Core, e: CoreEvent): Core
    requires CoreEnabled(c, e)
  {
    match e
    case ActionRequested(kind, context) => c.(actions := Request(c.actions, c.locks, kind, context))
    case TimerFired(ok) => c.(actions := Fire(c.actions, c.actions.timer.value, ok))
    case Locking(event, ok) =>
      var locks := InhibitSpec.Step(c.locks, event);
      Core(locks, OnAllChanged(c.actions, NewChanges(c.locks, locks), ok))
  }

  predicate CoreLegal(es: seq<CoreEvent>)
    decreases |es|, 0
  {
    es == [] || (CoreLegal(es[..|es| - 1]) && CoreEnabled(CoreRun(es[..|es| - 1]), es[|es| - 1]))
  }

  function CoreRun(es: seq<CoreEvent>): Core
    requires CoreLegal(es)
    decreases |es|, 1
  {
    if es == [] then Core(Start(), NoAction()) else CoreStep(CoreRun(es[..|es| - 1]), es[|es| - 1])
  }

  /** The part of a run that concerns the locks. */
  function LockEvents(es: seq<CoreEvent>): seq<InhibitSpec.Event> {
    if es == [] then []
    else
      var n := |es| - 1;
      LockEvents(es[..n]) + (if es[n].Locking? then [es[n].event] else [])
  }

  /** It is a run of the lock manager, whatever actions are asked for in between. */
  lemma {:induction false} LocksRunByThemselves(es: seq<CoreEvent>)
    requires CoreLegal(es)
    ensures CoreRun(es).locks == InhibitSpec.Run(LockEvents(es))
  {
    hide InhibitSpec.Step, OnAllChanged, NewChanges, Request, Fire;
    if es != [] {
      LocksRunByThemselves(es[..|es| - 1]);
      if es[|es| - 1].Locking? {
        RunOneMore(LockEvents(es[..|es| - 1]), es[|es| - 1].event);
      } else {
        assert LockEvents(es) == LockEvents(es[..|es| - 1]);
      }
    }
  }

  // ----- kind by kind

  /** A restart or a stop is refused exactly while block locks on shutdown are counted; one
      accepted waits the longer for delay locks on shutdown, and announces a shutdown. */
  lemma ShutdownsAnswered(a: Actions, st: Inhibitors, kind: Kind, context: nat)
    requires kind == Restart || kind == Stop
    ensures var r := Request(a, st, kind, context);
      && (r.trace == a.trace + [Refused(context, BlockedByLock)] <==> Inhibited(st, Slot(Block, Shutdown)))
      && (r.trace == a.trace + [Refused(context, Busy)]
          <==> !Inhibited(st, Slot(Block, Shutdown)) && a.timer.Some?)
      && (Inhibited(st, Slot(Block, Shutdown)) || a.timer.Some? ==> r == a.(trace := r.trace))
      && (!Inhibited(st, Slot(Block, Shutdown)) && a.timer.None? ==>
            var action := Action(kind, context, Inhibited(st, Slot(Delay, Shutdown)));
            r == Actions(
              Some(action), if action.delayed then 8000 else 2000, if action.delayed then Some(action) else a.saved,
              a.trace + [Accepted(action), Prepared(ForShutdown, true)]))
  {
    LastSeen(a.trace, Refused(context, BlockedByLock));
    LastSeen(a.trace, Refused(context, Busy));
  }

  /** The same of sleep, in all its forms. */
  lemma SleepsAnswered(a: Actions, st: Inhibitors, kind: Kind, context: nat)
    requires kind == SuspendNow || kind == Hibernate || kind == HybridSleep
    ensures var r := Request(a, st, kind, context);
      && (r.trace == a.trace + [Refused(context, BlockedByLock)] <==> Inhibited(st, Slot(Block, Suspend)))
      && (r.trace == a.trace + [Refused(context, Busy)]
          <==> !Inhibited(st, Slot(Block, Suspend)) && a.timer.Some?)
      && (Inhibited(st, Slot(Block, Suspend)) || a.timer.Some? ==> r == a.(trace := r.trace))
      && (!Inhibited(st, Slot(Block, Suspend)) && a.timer.None? ==>
            var action := Action(kind, context, Inhibited(st, Slot(Delay, Suspend)));
            r == Actions(
              Some(action), if action.delayed then 8000 else 2000, if action.delayed then Some(action) else a.saved,
              a.trace + [Accepted(action), Prepared(ForSleep, true)]))
  {
    LastSeen(a.trace, Refused(context, BlockedByLock));
    LastSeen(a.trace, Refused(context, Busy));
  }

  lemma LastSeen(t: seq<Out>, o: Out)
    ensures (t + [o])[|t|] == o
  {
  }

  /** When its timer fires the action is carried out, answered and announced as over. */
  lemma FiredExactly(c: Core, ok: bool)
    requires c.actions.timer.Some?
    ensures var action := c.actions.timer.value;
      var over := Prepared(if action.kind in {Restart, Stop} then ForShutdown else ForSleep, false);
      CoreStep(c, TimerFired(ok)) ==
        c.(actions := Actions(None, 0, None, c.actions.trace + [Command(action), Replied(action, ok), over]))
  {
  }

  lemma {:induction false} LiveExactly(locks: seq<Lock>, slot: Slot)
    ensures Live(locks, slot) > 0 <==> exists i :: 0 <= i < |locks| && Holds(locks[i], slot)
  {
    if locks != [] {
      LiveExactly(locks[1..], slot);
      assert forall i :: 1 <= i < |locks| ==> locks[i] == locks[1..][i - 1];
    }
  }

  /** After a run in which every lock was released while held and named no more events than
      its release gets to, a request is refused as inhibited exactly while some client holds
      a block lock on what it is about. */
  lemma RefusedWhileHeld(es: seq<CoreEvent>, kind: Kind, context: nat)
    requires CoreLegal(es) && AllFit(Start(), LockEvents(es))
    ensures var c := CoreRun(es);
      var what := if kind == Restart || kind == Stop then Shutdown else Suspend;
      Request(c.actions, c.locks, kind, context).trace == c.actions.trace + [Refused(context, BlockedByLock)]
      <==> exists i ::
             0 <= i < |c.locks.locks| && c.locks.locks[i].held && c.locks.locks[i].mode == Block
             && what in c.locks.locks[i].events
  {
    hide Request, Live, AllFit, Exact, ExactThroughout, Wf;
    var c, slot := CoreRun(es), Slot(Block, if kind == Restart || kind == Stop then Shutdown else Suspend);
    LocksRunByThemselves(es);
    StartIsExact();
    ExactThroughoutIff(Start(), LockEvents(es));
    assert Excess(c.locks, slot) == 0 by { ExactAt(LockEvents(es), slot); }
    LiveExactly(c.locks.locks, slot);
    if kind == Restart || kind == Stop {
      ShutdownsAnswered(c.actions, c.locks, kind, context);
    } else {
      SleepsAnswered(c.actions, c.locks, kind, context);
    }
  }

  lemma ExactAt(es: seq<InhibitSpec.Event>, slot: Slot)
    requires ExactThroughout(Start(), es)
    ensures Excess(InhibitSpec.Run(es), slot) == 0
  {
  }

  // ----- what every run keeps

  /** What was seen, the refusals left out. */
  function Unrefused(trace: seq<Out>): seq<Out> {
    if trace == [] then []
    else
      var n := |trace| - 1;
      Unrefused(trace[..n]) + (if trace[n].Refused? then [] else [trace[n]])
  }

  datatype Outcome = Outcome(action: Action, ok: bool)

  /** The requests answered, in the order of their replies. */
  function Answered(trace: seq<Out>): seq<Outcome> {
    if trace == [] then []
    else
      var n := |trace| - 1;
      Answered(trace[..n]) + (if trace[n].Replied? then [Outcome(trace[n].action, trace[n].ok)] else [])
  }

  function Cycle(o: Outcome): seq<Out> {
    [Accepted(o.action), Prepared(PrepareOf(o.action.kind), true),
     Command(o.action), Replied(o.action, o.ok), Prepared(PrepareOf(o.action.kind), false)]
  }

  function Cycles(os: seq<Outcome>): seq<Out> {
    if os == [] then [] else Cycles(os[..|os| - 1]) + Cycle(os[|os| - 1])
  }

  function Pending(timer: Option<Action>): seq<Out> {
    match timer
    case None => []
    case Some(action) => [Accepted(action), Prepared(PrepareOf(action.kind), true)]
  }

  /** Everything seen is a sequence of complete cycles, each of them one accepted request
      bracketed by its own pair of signals, with one command and one reply, followed by
      the opening of the request whose timer is armed, if one is. And the data is saved
      exactly while the timer armed is that of a request accepted under a delay lock. */
  ghost predicate ActionInv(a: Actions) {
    && Unrefused(a.trace) == Cycles(Answered(a.trace)) + Pending(a.timer)
    && a.saved == (if a.timer.Some? && a.timer.value.delayed then a.timer else None)
    && (a.timer.Some? ==> a.delay == if a.timer.value.delayed then INHIBITED_DELAY else IDLE_DELAY)
  }

  lemma Append(t: seq<Out>, o: Out)
    ensures Unrefused(t + [o]) == if o.Refused? then Unrefused(t) else Unrefused(t) + [o]
    ensures Answered(t + [o]) == if o.Replied? then Answered(t) + [Outcome(o.action, o.ok)] else Answered(t)
  {
    assert (t + [o])[..|t|] == t;
  }

  lemma Append2(t: seq<Out>, o1: Out, o2: Out)
    requires !o1.Refused? && !o2.Refused? && !o1.Replied? && !o2.Replied?
    ensures Unrefused(t + [o1, o2]) == Unrefused(t) + [o1, o2]
    ensures Answered(t + [o1, o2]) == Answered(t)
  {
    Append(t, o1);
    Append(t + [o1], o2);
    assert t + [o1, o2] == t + [o1] + [o2];
  }

  lemma RequestKeeps(a: Actions, st: Inhibitors, kind: Kind, context: nat)
    requires ActionInv(a)
    ensures ActionInv(Request(a, st, kind, context))
  {
    hide Unrefused, Answered, Cycles, Inhibited;
    if Inhibited(st, Slot(Block, WhatOf(kind))) {
      Append(a.trace, Refused(context, BlockedByLock));
    } else if a.timer.Some? {
      Append(a.trace, Refused(context, Busy));
    } else {
      var action := Action(kind, context, Inhibited(st, Slot(Delay, WhatOf(kind))));
      Append2(a.trace, Accepted(action), Prepared(PrepareOf(kind), true));
      assert Cycles(Answered(a.trace)) + [] == Cycles(Answered(a.trace));
      assert [Accepted(action), Prepared(PrepareOf(kind), true)] == Pending(Some(action));
    }
  }

  lemma FireKeeps(a: Actions, ok: bool)
    requires ActionInv(a) && a.timer.Some?
    ensures ActionInv(Fire(a, a.timer.value, ok))
    ensures Answered(Fire(a, a.timer.value, ok).trace) == Answered(a.trace) + [Outcome(a.timer.value, ok)]
  {
    hide Unrefused, Answered, Cycles;
    var action := a.timer.value;
    var prepare := Prepared(PrepareOf(action.kind), false);
    Append(a.trace, Command(action));
    Append(a.trace + [Command(action)], Replied(action, ok));
    Append(a.trace + [Command(action)] + [Replied(action, ok)], prepare);
    assert a.trace + [Command(action), Replied(action, ok), prepare]
        == a.trace + [Command(action)] + [Replied(action, ok)] + [prepare];
    CyclesAppend(Answered(a.trace), Outcome(action, ok));
    var cs, p := Cycles(Answered(a.trace)), Pending(a.timer);
    assert p + [Command(action)] + [Replied(action, ok)] + [prepare] == Cycle(Outcome(action, ok));
    assert cs + p + [Command(action)] + [Replied(action, ok)] + [prepare]
        == cs + (p + [Command(action)] + [Replied(action, ok)] + [prepare]);
    var done := Cycles(Answered(a.trace) + [Outcome(action, ok)]);
    assert done + Pending(None) == done;
  }

  lemma CyclesAppend(os: seq<Outcome>, o: Outcome)
    ensures Cycles(os + [o]) == Cycles(os) + Cycle(o)
  {
    assert (os + [o])[..|os|] == os;
  }

  lemma {:induction false} AllChangedKeeps(a: Actions, cs: seq<Changed>, ok: bool)
    requires ActionInv(a)
    ensures ActionInv(OnAllChanged(a, cs, ok))
  {
    if cs != [] {
      AllChangedKeeps(a, cs[..|cs| - 1], ok);
      var b := OnAllChanged(a, cs[..|cs| - 1], ok);
      if b.timer.Some? && b.saved.Some? {
        FireKeeps(b, ok);
      }
    }
  }

  lemma CoreStepKeeps(c: Core, e: CoreEvent)
    requires CoreEnabled(c, e) && ActionInv(c.actions)
    ensures ActionInv(CoreStep(c, e).actions)
  {
    hide ActionInv, NewChanges, InhibitSpec.Step, Request, Fire, OnAllChanged;
    match e {
      case ActionRequested(kind, context) => RequestKeeps(c.actions, c.locks, kind, context);
      case TimerFired(ok) => FireKeeps(c.actions, ok);
      case Locking(event, ok) => AllChangedKeeps(c.actions, NewChanges(c.locks, InhibitSpec.Step(c.locks, event)), ok);
    }
  }

  lemma {:induction false} EveryRunKeepsActions(es: seq<CoreEvent>)
    requires CoreLegal(es)
    ensures ActionInv(CoreRun(es).actions)
  {
    if es != [] {
      EveryRunKeepsActions(es[..|es| - 1]);
      CoreStepKeeps(CoreRun(es[..|es| - 1]), es[|es| - 1]);
    }
  }

  /** A request made while one is pending. */
  lemma PendingRefuses(a: Actions, st: Inhibitors, kind: Kind, context: nat)
    requires a.timer.Some?
    ensures Request(a, st, kind, context) == a.(trace := a.trace + [Refused(context,
      if Inhibited(st, Slot(Block, WhatOf(kind))) then BlockedByLock else Busy)])
  {
  }

  // ----- one at a time

  /** The request accepted and not yet replied to. */
  function Unanswered(trace: seq<Out>): Option<Action> {
    if trace == [] then None
    else
      var n := |trace| - 1;
      match trace[n]
      case Accepted(action) => Some(action)
      case Replied(_, _) => None
      case _ => Unanswered(trace[..n])
  }

  /** A request is accepted only when none is unanswered; the signal that opens it, its
      command and its reply are those of the unanswered one; only then is another busy. */
  ghost predicate OneAtATime(trace: seq<Out>) {
    trace == [] ||
    var n := |trace| - 1;
    OneAtATime(trace[..n]) && InTurn(Unanswered(trace[..n]), trace[n])
  }

  predicate InTurn(pending: Option<Action>, o: Out) {
    match o
    case Accepted(_) => pending.None?
    case Prepared(prepare, start) => start ==> pending.Some? && prepare == PrepareOf(pending.value.kind)
    case Command(action) => pending == Some(action)
    case Replied(action, _) => pending == Some(action)
    case Refused(_, why) => why == Busy ==> pending.Some?
  }

  /** Whose requests were accepted or refused, in order. */
  function Decided(trace: seq<Out>): seq<nat> {
    if trace == [] then []
    else
      var n := |trace| - 1;
      Decided(trace[..n]) +
      match trace[n]
      case Accepted(action) => [action.context]
      case Refused(context, _) => [context]
      case _ => []
  }

  /** Who made requests, in order. */
  function Requesters(es: seq<CoreEvent>): seq<nat> {
    if es == [] then []
    else
      var n := |es| - 1;
      Requesters(es[..n]) + (if es[n].ActionRequested? then [es[n].context] else [])
  }

  ghost predicate Orderly(a: Actions) {
    OneAtATime(a.trace) && Unanswered(a.trace) == a.timer
  }

  lemma SeenOneMore(t: seq<Out>, o: Out)
    ensures OneAtATime(t + [o]) <==> OneAtATime(t) && InTurn(Unanswered(t), o)
    ensures Unanswered(t + [o]) ==
      if o.Accepted? then Some(o.action) else if o.Replied? then None else Unanswered(t)
    ensures Decided(t + [o]) ==
      Decided(t) + if o.Accepted? then [o.action.context] else if o.Refused? then [o.context] else []
  {
    assert (t + [o])[..|t|] == t;
  }

  lemma RequestIsOrderly(a: Actions, st: Inhibitors, kind: Kind, context: nat)
    requires Orderly(a)
    ensures Orderly(Request(a, st, kind, context))
    ensures Decided(Request(a, st, kind, context).trace) == Decided(a.trace) + [context]
  {
    hide Unanswered, OneAtATime, Decided, Inhibited;
    if Inhibited(st, Slot(Block, WhatOf(kind))) {
      SeenOneMore(a.trace, Refused(context, BlockedByLock));
    } else if a.timer.Some? {
      SeenOneMore(a.trace, Refused(context, Busy));
    } else {
      var action := Action(kind, context, Inhibited(st, Slot(Delay, WhatOf(kind))));
      SeenOneMore(a.trace, Accepted(action));
      SeenOneMore(a.trace + [Accepted(action)], Prepared(PrepareOf(kind), true));
      assert a.trace + [Accepted(action), Prepared(PrepareOf(kind), true)]
          == a.trace + [Accepted(action)] + [Prepared(PrepareOf(kind), true)];
      assert Decided(a.trace) + [context] + [] == Decided(a.trace) + [context];
    }
  }

  lemma FireIsOrderly(a: Actions, ok: bool)
    requires Orderly(a) && a.timer.Some?
    ensures var r := Fire(a, a.timer.value, ok); Orderly(r) && Decided(r.trace) == Decided(a.trace)
  {
    hide Unanswered, OneAtATime, Decided;
    var action, t := a.timer.value, a.trace;
    var prepare := Prepared(PrepareOf(action.kind), false);
    SeenOneMore(t, Command(action));
    SeenOneMore(t + [Command(action)], Replied(action, ok));
    SeenOneMore(t + [Command(action)] + [Replied(action, ok)], prepare);
    assert t + [Command(action), Replied(action, ok), prepare]
        == t + [Command(action)] + [Replied(action, ok)] + [prepare];
    assert Decided(t) + [] == Decided(t);
  }

  lemma {:induction false} AllChangedIsOrderly(a: Actions, cs: seq<Changed>, ok: bool)
    requires Orderly(a) && ActionInv(a)
    ensures var r := OnAllChanged(a, cs, ok); Orderly(r) && Decided(r.trace) == Decided(a.trace)
  {
    hide Orderly, ActionInv, Fire, FiresOn;
    if cs != [] {
      var before := OnAllChanged(a, cs[..|cs| - 1], ok);
      AllChangedIsOrderly(a, cs[..|cs| - 1], ok);
      AllChangedKeeps(a, cs[..|cs| - 1], ok);
      SavedOfInv(before);
      if before.timer.Some? {
        FireIsOrderly(before, ok);
      }
    }
  }

  /** In every run each request is accepted or refused, once and in order, and one is
      accepted only when every one accepted before has had its command and its reply. */
  lemma {:induction false} OnlyOneAtATime(es: seq<CoreEvent>)
    requires CoreLegal(es)
    ensures var a := CoreRun(es).actions;
      && OneAtATime(a.trace) && Unanswered(a.trace) == a.timer
      && Decided(a.trace) == Requesters(es)
  {
    hide Request, Fire, OnAllChanged, NewChanges, InhibitSpec.Step, OneAtATime, ActionInv;
    if es != [] {
      var c, e := CoreRun(es[..|es| - 1]), es[|es| - 1];
      OnlyOneAtATime(es[..|es| - 1]);
      EveryRunKeepsActions(es[..|es| - 1]);
      match e {
        case ActionRequested(kind, context) => RequestIsOrderly(c.actions, c.locks, kind, context);
        case TimerFired(ok) => FireIsOrderly(c.actions, ok);
        case Locking(event, ok) =>
          AllChangedIsOrderly(c.actions, NewChanges(c.locks, InhibitSpec.Step(c.locks, event)), ok);
      }
    } else {
      assert OneAtATime([]) by { NothingSeen(); }
    }
  }

  lemma NothingSeen()
    ensures OneAtATime([])
  {
  }

  // ----- what is armed and saved

  /** The request made now is accepted as this action. */
  predicate Accepts(c: Core, e: CoreEvent, action: Action) {
    && e.ActionRequested? && c.actions.timer.None?
    && !Inhibited(c.locks, Slot(Block, WhatOf(e.kind)))
    && action == Action(e.kind, e.context, Inhibited(c.locks, Slot(Delay, WhatOf(e.kind))))
  }

  /** Event n of the run is the request accepted as this action, and its timer has been
      armed ever since. */
  predicate ArmedSince(es: seq<CoreEvent>, n: nat, action: Action)
    requires CoreLegal(es)
  {
    && n < |es| && CoreRun(es).actions.timer == Some(action)
    && if n == |es| - 1 then Accepts(CoreRun(es[..n]), es[n], action)
       else ArmedSince(es[..|es| - 1], n, action)
  }

  lemma SavedOfInv(a: Actions)
    requires ActionInv(a)
    ensures a.saved == if a.timer.Some? && a.timer.value.delayed then a.timer else None
  {
  }

  /** A timer armed after a step was armed before, or is that of a request accepted now. */
  lemma TimerStep(c: Core, e: CoreEvent)
    requires CoreEnabled(c, e) && ActionInv(c.actions) && CoreStep(c, e).actions.timer.Some?
    ensures CoreStep(c, e).actions.timer == c.actions.timer
         || Accepts(c, e, CoreStep(c, e).actions.timer.value)
  {
    hide ActionInv, NewChanges, InhibitSpec.Step, OnAllChanged;
    if e.Locking? {
      var cs := NewChanges(c.locks, InhibitSpec.Step(c.locks, e.event));
      if c.actions.timer.Some? {
        AllChangedFires(c.actions, cs, e.ok);
      } else {
        NothingToFire(c.actions, cs, e.ok);
      }
    }
  }

  lemma {:induction false} NothingToFire(a: Actions, cs: seq<Changed>, ok: bool)
    requires a.timer.None?
    ensures OnAllChanged(a, cs, ok) == a
  {
    if cs != [] {
      NothingToFire(a, cs[..|cs| - 1], ok);
    }
  }

  lemma {:induction false} ArmedSinceAccepted(es: seq<CoreEvent>) returns (n: nat)
    requires CoreLegal(es) && CoreRun(es).actions.timer.Some?
    ensures ArmedSince(es, n, CoreRun(es).actions.timer.value)
  {
    hide CoreStep, Accepts;
    assert es != [];
    var before, e := es[..|es| - 1], es[|es| - 1];
    EveryRunKeepsActions(before);
    TimerStep(CoreRun(before), e);
    if CoreRun(es).actions.timer == CoreRun(before).actions.timer {
      n := ArmedSinceAccepted(before);
    } else {
      n := |es| - 1;
    }
  }

  /** In every run system_action_data is kept exactly while the armed timer is that of a
      request accepted under a delay lock on its own kind, and is that timer's data. */
  lemma SavedIsArmed(es: seq<CoreEvent>)
    requires CoreLegal(es)
    ensures var a := CoreRun(es).actions;
      && (a.saved.Some? <==> exists n, action :: ArmedSince(es, n, action) && action.delayed)
      && (a.saved.Some? ==> a.timer == a.saved)
  {
    hide CoreStep, ActionInv;
    EveryRunKeepsActions(es);
    SavedOfInv(CoreRun(es).actions);
    if CoreRun(es).actions.timer.Some? {
      var n := ArmedSinceAccepted(es);
    }
  }

  // ----- what a cycle says

  function Prepares(trace: seq<Out>): seq<Out> {
    if trace == [] then []
    else
      var n := |trace| - 1;
      Prepares(trace[..n]) + (if trace[n].Prepared? then [trace[n]] else [])
  }

  /** Strict alternation: TRUE, FALSE, TRUE, ... with one kind to each pair. */
  predicate Paired(ps: seq<Out>) {
    && (forall i :: 0 <= i < |ps| ==> ps[i].Prepared? && (ps[i].start <==> i % 2 == 0))
    && (forall i :: 0 < i < |ps| && i % 2 == 1 ==> ps[i].prepare == ps[i - 1].prepare)
  }

  lemma PreparesAppend(t: seq<Out>, o: Out)
    ensures Prepares(t + [o]) == Prepares(t) + (if o.Prepared? then [o] else [])
  {
    assert (t + [o])[..|t|] == t;
  }

  lemma {:induction false} PreparesConcat(t: seq<Out>, u: seq<Out>)
    ensures Prepares(t + u) == Prepares(t) + Prepares(u)
  {
    if u == [] {
      assert t + u == t;
    } else {
      PreparesConcat(t, u[..|u| - 1]);
      assert (t + u)[..|t + u| - 1] == t + u[..|u| - 1];
    }
  }

  lemma {:induction false} PreparesIgnoreRefusals(t: seq<Out>)
    ensures Prepares(Unrefused(t)) == Prepares(t)
  {
    if t != [] {
      var n := |t| - 1;
      PreparesIgnoreRefusals(t[..n]);
      if !t[n].Refused? {
        PreparesAppend(Unrefused(t[..n]), t[n]);
      } else {
        assert Unrefused(t) == Unrefused(t[..n]);
      }
    }
  }

  lemma PreparesOfCycle(o: Outcome)
    ensures Prepares(Cycle(o)) == [Prepared(PrepareOf(o.action.kind), true), Prepared(PrepareOf(o.action.kind), false)]
  {
    hide Prepares;
    var c := Cycle(o);
    assert c == [] + [c[0]] + [c[1]] + [c[2]] + [c[3]] + [c[4]];
    NoPrepares();
    PreparesAppend([], c[0]);
    PreparesAppend([] + [c[0]], c[1]);
    PreparesAppend([] + [c[0]] + [c[1]], c[2]);
    PreparesAppend([] + [c[0]] + [c[1]] + [c[2]], c[3]);
    PreparesAppend([] + [c[0]] + [c[1]] + [c[2]] + [c[3]], c[4]);
  }

  lemma NoPrepares()
    ensures Prepares([]) == []
  {
  }

  lemma {:induction false} CyclesArePaired(os: seq<Outcome>)
    ensures var ps := Prepares(Cycles(os)); Paired(ps) && |ps| == 2 * |os|
  {
    hide Prepares, Cycle;
    NoPrepares();
    if os != [] {
      var o := os[|os| - 1];
      CyclesArePaired(os[..|os| - 1]);
      PreparesConcat(Cycles(os[..|os| - 1]), Cycle(o));
      PreparesOfCycle(o);
    }
  }

  /** The signals announcing an action and its end strictly alternate, each pair of one
      kind; an opening signal stands alone exactly while a timer is armed. */
  lemma SignalsAlternate(a: Actions)
    requires ActionInv(a)
    ensures Paired(Prepares(a.trace))
    ensures |Prepares(a.trace)| == 2 * |Answered(a.trace)| + (if a.timer.Some? then 1 else 0)
  {
    hide Unrefused, Cycles, Answered, Prepares, Pending;
    PreparesIgnoreRefusals(a.trace);
    CyclesArePaired(Answered(a.trace));
    PreparesConcat(Cycles(Answered(a.trace)), Pending(a.timer));
    PreparesOfPending(a.timer);
  }

  lemma PreparesOfPending(timer: Option<Action>)
    ensures Prepares(Pending(timer)) == match timer case None => [] case Some(a) => [Prepared(PrepareOf(a.kind), true)]
  {
    hide Prepares;
    NoPrepares();
    if timer.Some? {
      var p := Pending(timer);
      assert p == [] + [p[0]] + [p[1]];
      PreparesAppend([], p[0]);
      PreparesAppend([] + [p[0]], p[1]);
    }
  }

  // ----- firing early

  /** Handling a batch of changes fires a saved action once if any of them calls for it. */
  lemma {:induction false} AllChangedFires(a: Actions, cs: seq<Changed>, ok: bool)
    requires ActionInv(a) && a.timer.Some?
    ensures OnAllChanged(a, cs, ok) ==
            if a.saved.Some? && exists i :: 0 <= i < |cs| && FiresOn(cs[i]) then Fire(a, a.timer.value, ok) else a
  {
    hide ActionInv;
    assert a.saved.Some? ==> a.saved == a.timer by { SavedOfInv(a); }
    if cs != [] {
      var n := |cs| - 1;
      AllChangedFires(a, cs[..n], ok);
      assert forall i :: 0 <= i < n ==> cs[..n][i] == cs[i];
    }
  }

  /** A pending action is fired before its timer exactly when it was accepted while its own
      kind was delay-inhibited and the step takes the DELAY counter of suspend or shutdown,
      whichever its own kind is, from one to zero; it is then answered in that step. */
  lemma FiresEarlyExactly(c: Core, e: CoreEvent)
    requires CoreEnabled(c, e) && ActionInv(c.actions) && c.actions.timer.Some? && !e.TimerFired?
    ensures CoreStep(c, e).actions.timer.None? <==>
      && c.actions.timer.value.delayed
      && (|| DropsToZero(c.locks, CoreStep(c, e).locks, Slot(Delay, Suspend))
          || DropsToZero(c.locks, CoreStep(c, e).locks, Slot(Delay, Shutdown)))
    ensures CoreStep(c, e).actions.timer.None? ==>
      e.Locking? && CoreStep(c, e).actions == Fire(c.actions, c.actions.timer.value, e.ok)
  {
    hide ActionInv, InhibitSpec.Step, Count, NewChanges, Inhibited;
    var r := CoreStep(c, e);
    SavedOfInv(c.actions);
    match e {
      case ActionRequested(kind, context) =>
        PendingRefuses(c.actions, c.locks, kind, context);
      case Locking(event, ok) =>
        var cs := NewChanges(c.locks, r.locks);
        AllChangedFires(c.actions, cs, ok);
        forall slot ensures Changed(slot, false) in cs <==> DropsToZero(c.locks, r.locks, slot) {
          StepChanges(c.locks, event, slot);
        }
        assert forall i :: 0 <= i < |cs| && FiresOn(cs[i]) ==> cs[i] == Changed(cs[i].slot, false) && cs[i] in cs;
        assert FiresOn(Changed(Slot(Delay, Suspend), false)) && FiresOn(Changed(Slot(Delay, Shutdown), false));
    }
  }

  /** So a shutdown held up by a delay lock is carried out when the last delay lock on
      sleep goes away, whatever locks on shutdown are still held. */
  lemma FiresWithSleepLock(c: Core, at: nat, ok: bool)
    requires ActionInv(c.actions) && Wf(c.locks)
    requires c.actions.timer.Some? && c.actions.timer.value.delayed && c.actions.timer.value.kind in {Restart, Stop}
    requires at < |c.locks.locks| && c.locks.locks[at].held
    requires c.locks.locks[at].mode == Delay && c.locks.locks[at].events == {Suspend}
    requires Count(c.locks, Slot(Delay, Suspend)) == 1
    ensures var r := CoreStep(c, Locking(PipeClosed(at), ok));
      && r.actions == Fire(c.actions, c.actions.timer.value, ok)
      && Live(r.locks.locks, Slot(Delay, Shutdown)) == Live(c.locks.locks, Slot(Delay, Shutdown))
  {
    hide ActionInv, Wf, Live, DisableAll, InOrder, CoreStep, Missed;
    var slot, lock := Slot(Delay, Suspend), c.locks.locks[at];
    assert lock.pipeOpen by { assert Wf(c.locks); HeldIsOpen(c.locks, at); }
    var e := Locking(PipeClosed(at), ok);
    assert CoreStep(c, e).locks == Release(c.locks, at) by { LockingStep(c, PipeClosed(at), ok); }
    ReleaseExactIff(c.locks, at);
    ReleaseOthers(c.locks, at, slot);
    ReleaseOthers(c.locks, at, Slot(Delay, Shutdown));
    assert Excess(Release(c.locks, at), slot) == Excess(c.locks, slot);
    assert DropsToZero(c.locks, CoreStep(c, e).locks, slot);
    FiresEarlyExactly(c, e);
  }

  lemma HeldIsOpen(st: Inhibitors, i: nat)
    requires Wf(st) && i < |st.locks| && st.locks[i].held
    ensures st.locks[i].pipeOpen
  {
    assert LockOk(st.locks[i]);
  }

  /** Delay locks on shutdown and on sleep are taken, and a shutdown or restart asked for. */
  function Waiting(kind: Kind, context: nat, pipes: Pipes): seq<CoreEvent> {
    [Locking(LockRequested("shutdown", "delay", pipes), true), Locking(LockRequested("sleep", "delay", pipes), true),
     ActionRequested(kind, context)]
  }

  lemma WaitingRun(kind: Kind, context: nat, pipes: Pipes) returns (c: Core)
    requires AllGoesWell(pipes) && kind in {Restart, Stop}
    ensures CoreLegal(Waiting(kind, context, pipes)) && c == CoreRun(Waiting(kind, context, pipes))
    ensures c.actions.timer == Some(Action(kind, context, true)) && Wf(c.locks)
    ensures c.locks.locks ==
      [Lock(0, Delay, {Shutdown}, true, true, pipes.path), Lock(1, Delay, {Suspend}, true, true, pipes.path)]
    ensures Count(c.locks, Slot(Delay, Suspend)) == 1
  {
    hide Create, ParseWhat, Wf, Count, NewChanges;
    var es := Waiting(kind, context, pipes);
    assert es[..3][..2] == es[..2] && es[..2][..1] == es[..1] && es[..1][..0] == [] && es[..3] == es;
    NamesAskedFor();
    StartIsExact();
    var st0 := Start();
    LockTaken(st0, "shutdown", "delay", pipes);
    var st1 := Create(st0, "shutdown", "delay", pipes).0;
    LockTaken(st1, "sleep", "delay", pipes);
    NextId(st0, "shutdown", "delay", pipes);
    var st2 := Create(st1, "sleep", "delay", pipes).0;
    NothingToFire(NoAction(), NewChanges(st0, st1), true);
    NothingToFire(NoAction(), NewChanges(st1, st2), true);
    assert CoreLegal(es[..0]) && CoreRun(es[..0]) == Core(st0, NoAction());
    assert CoreLegal(es[..1]) && CoreRun(es[..1]) == Core(st1, NoAction());
    assert CoreLegal(es[..2]) && CoreRun(es[..2]) == Core(st2, NoAction());
    c := CoreRun(es);
    assert Count(st0, Slot(Block, Shutdown)) == 0 && Count(st0, Slot(Delay, Shutdown)) == 0 by { NothingCounted(); }
    assert Count(st0, Slot(Delay, Suspend)) == 0 by { NothingCounted(); }
  }

  lemma NothingCounted()
    ensures forall slot :: Count(Start(), slot) == 0
  {
  }

  /** When the lock on sleep is released the shutdown is carried out, though the lock that
      holds it up has not been. */
  lemma FiresForTheOtherKind(kind: Kind, context: nat, pipes: Pipes, ok: bool)
    requires AllGoesWell(pipes) && kind in {Restart, Stop}
    ensures var es, e := Waiting(kind, context, pipes), Locking(PipeClosed(1), ok);
      && CoreLegal(es) && CoreLegal(es + [e])
      && var (before, after) := (CoreRun(es), CoreRun(es + [e])); var action := Action(kind, context, true);
      && before.actions.timer == Some(action)
      && after.actions == Actions(None, 0, None, before.actions.trace
           + [Command(action), Replied(action, ok), Prepared(ForShutdown, false)])
      && Live(after.locks.locks, Slot(Delay, Shutdown)) == 1
  {
    hide ActionInv, CoreStep, Waiting, Wf, Live, Count;
    var es, e := Waiting(kind, context, pipes), Locking(PipeClosed(1), ok);
    var c := WaitingRun(kind, context, pipes);
    EveryRunKeepsActions(es);
    assert (es + [e])[..|es|] == es;
    FiresWithSleepLock(c, 1, ok);
    LiveConcat([c.locks.locks[0]], [c.locks.locks[1]], Slot(Delay, Shutdown));
    assert c.locks.locks == [c.locks.locks[0]] + [c.locks.locks[1]];
    OneLock([c.locks.locks[0]], Slot(Delay, Shutdown));
    OneLock([c.locks.locks[1]], Slot(Delay, Shutdown));
  }

  lemma LockingStep(c: Core, event: InhibitSpec.Event, ok: bool)
    ensures CoreStep(c, Locking(event, ok)).locks == InhibitSpec.Step(c.locks, event)
  {
  }

  /** A block lock on shutdown taken from the start. */
  function Blocking(pipes: Pipes): seq<CoreEvent> {
    [Locking(LockRequested("shutdown", "block", pipes), true)]
  }

  /** While it is held a restart or a stop is refused, and sleep is not. */
  lemma BlockedRestart(kind: Kind, context: nat, pipes: Pipes)
    requires AllGoesWell(pipes)
    ensures var es := Blocking(pipes) + [ActionRequested(kind, context)];
      && CoreLegal(es)
      && CoreRun(es).actions ==
         if kind == Restart || kind == Stop then Actions(None, 0, None, [Refused(context, BlockedByLock)])
         else
           var action := Action(kind, context, false);
           Actions(Some(action), 2000, None, [Accepted(action), Prepared(ForSleep, true)])
  {
    hide Create, ParseWhat, Wf, Count, NewChanges, Request;
    var es, e := Blocking(pipes), ActionRequested(kind, context);
    assert (es + [e])[..1] == es && es[..0] == [];
    NamesAskedFor();
    StartIsExact();
    NothingCounted();
    var st := Create(Start(), "shutdown", "block", pipes).0;
    LockTaken(Start(), "shutdown", "block", pipes);
    NothingToFire(NoAction(), NewChanges(Start(), st), true);
    assert CoreLegal(es[..0]) && CoreRun(es[..0]) == Core(Start(), NoAction());
    assert CoreLegal(es) && CoreRun(es) == Core(st, NoAction());
    if kind == Restart || kind == Stop {
      ShutdownsAnswered(NoAction(), st, kind, context);
    } else {
      SleepsAnswered(NoAction(), st, kind, context);
    }
  }
}
