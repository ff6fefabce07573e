/** The lock and lock-manager objects of ck-inhibit.c and ck-inhibit-manager.c, updated in
    place and proved against InhibitSpec. */
module Inhibit {
  import opened Lists
  import opened Text
  import opened InhibitSpec

  class Inhibit {
    const id: nat
    var mode: Mode
    var inhibitors: set<What>  // the events flagged
    var pipeOpen: bool
    ghost var held: bool       // the client's end of the pipe is open
    var path: Option<string>
    var connected: bool        // the manager's handler is attached

    ghost function View(): Lock
      reads this
    {
      Lock(id, mode, inhibitors, pipeOpen, held, path)
    }

    constructor (id: nat)
      ensures this.id == id && View() == Lock(id, Invalid, {}, false, false, None) && connected
    {
      this.id, mode, inhibitors, pipeOpen, held, path, connected := id, Invalid, {}, false, false, None, true;
    }

    /** parse_inhibitors_string: true when at least one event was flagged */
    method ParseInhibitorsString(what: string) returns (flagged: bool)
      modifies this`inhibitors
      ensures inhibitors == old(inhibitors) + ParseWhat(what)
      ensures flagged == (ParseWhat(what) != {})
    {
      var tokens := Split(what);
      flagged := false;
      var i := 0;
      while i < |tokens| && tokens[i] != ""
        invariant i <= |tokens|
        invariant inhibitors + TokenEvents(tokens[i..]) == old(inhibitors) + ParseWhat(what)
        invariant (flagged || TokenEvents(tokens[i..]) != {}) == (ParseWhat(what) != {})
      {
        assert tokens[i..][1..] == tokens[i + 1..];
        var e := TokenEvent(tokens[i]);
        if e.Some? {
          inhibitors := inhibitors + {e.value};
          flagged := true;
        }
        i := i + 1;
      }
      assert TokenEvents(tokens[i..]) == {};
    }

    /** ck_inhibit_create_lock up to the point where the signals go out */
    method Prepare(what: string, modeText: string, pipes: Pipes) returns (reply: CreateReply)
      requires View() == Lock(id, Invalid, {}, false, false, None)
      modifies this`mode, this`inhibitors, this`pipeOpen, this`held, this`path
      ensures (View(), reply) == NewLock(id, what, modeText, pipes)
    {
      if !pipes.baseDir {
        return General;
      }
      path := pipes.path;
      var flagged := ParseInhibitorsString(what);
      assert inhibitors == ParseWhat(what);
      if !flagged {
        return InvalidInput;
      }
      mode := ParseMode(modeText);
      if mode == Invalid {
        return InvalidInput;
      }
      if path.None? {
        return OutOfMemory;
      }
      if !pipes.opens {
        return General;
      }
      pipeOpen := true;
      if !pipes.client {
        return General;
      }
      held := true;
      return Created(id);
    }
  }

  function Row(mode: Mode): (r: nat)
    ensures r < 3
  {
    match mode case Invalid => 0 case Block => 1 case Delay => 2
  }

  function Column(what: What): (c: nat)
    ensures c < 7
  {
    match what
    case Shutdown => 0
    case Suspend => 1
    case Idle => 2
    case PowerKey => 3
    case SuspendKey => 4
    case HibernateKey => 5
    case LidSwitch => 6
  }

  class InhibitManager {
    var inhibitList: seq<Inhibit>
    const inhibitors: array2<int>
    var nextId: nat
    var emitted: seq<Changed>  // the changed-event signals sent, oldest first
    ghost var model: Inhibitors

    ghost predicate Counts()
      reads this, inhibitors
    {
      && emitted == model.changes
      && inhibitors.Length0 == 3 && inhibitors.Length1 == 7
      && forall slot: Slot :: inhibitors[Row(slot.mode), Column(slot.what)] == Count(model, slot)
    }

    ghost predicate Lists()
      reads this, inhibitList
    {
      && nextId == model.nextId
      && |inhibitList| == |model.locks|
      && forall i :: 0 <= i < |inhibitList| ==>
           inhibitList[i].connected && inhibitList[i].View() == model.locks[i]
    }

    ghost predicate Valid()
      reads this, inhibitors, inhibitList
    {
      Wf(model) && Counts() && Lists()
    }

    constructor ()
      ensures Valid() && model == Start() && fresh(inhibitors)
    {
      inhibitList := [];
      inhibitors := new int[3, 7]((i, j) => 0);
      nextId, emitted := 0, [];
      model := Start();
    }

    /** get_inhibit_status */
    method GetInhibitStatus(slot: Slot) returns (inhibited: bool)
      requires Valid()
      ensures inhibited == Inhibited(model, slot)
    {
      return inhibitors[Row(slot.mode), Column(slot.what)] > 0;
    }

    /** cb_changed_event with enabled set; the change announced is recorded in the model */
    method CountUp(slot: Slot)
      requires Counts()
      modifies this`model, this`emitted, inhibitors
      ensures Counts() && model == Enable(old(model), slot)
    {
      inhibitors[Row(slot.mode), Column(slot.what)] := inhibitors[Row(slot.mode), Column(slot.what)] + 1;
      if inhibitors[Row(slot.mode), Column(slot.what)] == 1 {
        emitted := emitted + [Changed(slot, true)];
      }
      model := Enable(model, slot);
      forall s: Slot ensures inhibitors[Row(s.mode), Column(s.what)] == Count(model, s) {
        assert s == slot || Row(s.mode) != Row(slot.mode) || Column(s.what) != Column(slot.what);
      }
    }

    /** emit_initial_inhibit_signals */
    method EmitInitial(inhibit: Inhibit)
      requires Counts()
      modifies this`model, this`emitted, inhibitors
      ensures Counts() && model == EnableAll(old(model), inhibit.mode, InOrder(inhibit.inhibitors))
    {
      hide Enable, InOrder;
      var events := InOrder(inhibit.inhibitors);
      ghost var goal := EnableAll(model, inhibit.mode, events);
      for i := 0 to |events|
        invariant Counts()
        invariant EnableAll(model, inhibit.mode, events[i..]) == goal
      {
        assert events[i..][1..] == events[i + 1..];
        CountUp(Slot(inhibit.mode, events[i]));
      }
    }

    lemma EnableAllLocks(st: Inhibitors, m: Mode, events: seq<What>)
      ensures var r := EnableAll(st, m, events); r.locks == st.locks && r.nextId == st.nextId
      decreases |events|
    {
      if events != [] {
        EnableAllLocks(Enable(st, Slot(m, events[0])), m, events[1..]);
      }
    }

    /** ck_inhibit_manager_create_lock: whatever came of it, the lock is listed. */
    method CreateLock(what: string, modeText: string, pipes: Pipes) returns (reply: CreateReply)
      requires Valid()
      modifies this, inhibitors
      ensures Valid()
      ensures (model, reply) == Create(old(model), what, modeText, pipes)
      ensures |inhibitList| == |old(inhibitList)| + 1 && inhibitList[..|old(inhibitList)|] == old(inhibitList)
      ensures fresh(inhibitList[|old(inhibitList)|])
    {
      hide NewLock, EnableAll, InOrder, ParseWhat, Live, Wf, Holds;
      var inhibit := new Inhibit(nextId);
      reply := inhibit.Prepare(what, modeText, pipes);
      CreateKeeps(model, what, modeText, pipes);
      NewLockShape(nextId, what, modeText, pipes);
      if reply.Created? {
        EmitInitial(inhibit);
        EnableAllLocks(old(model), inhibit.mode, InOrder(inhibit.inhibitors));
      }
      Append(inhibit);
    }

    method Append(inhibit: Inhibit)
      requires Counts() && Lists() && inhibit.connected && inhibit.id == nextId
      modifies this`inhibitList, this`model, this`nextId
      ensures Counts() && Lists() && inhibitList == old(inhibitList) + [inhibit]
      ensures model == old(model).(locks := old(model).locks + [inhibit.View()], nextId := old(nextId) + 1)
    {
      inhibitList := inhibitList + [inhibit];
      nextId := nextId + 1;
      model := model.(locks := model.locks + [inhibit.View()], nextId := nextId);
      assert forall s: Slot :: Count(model, s) == Count(old(model), s);
    }

    // ----- release

    method FindPathless() returns (i: nat)
      requires Lists()
      ensures i == FirstWithoutPath(model.locks) && i <= |inhibitList|
    {
      i := 0;
      while i < |inhibitList| && inhibitList[i].path.Some?
        invariant i <= |inhibitList|
        invariant forall j :: 0 <= j < i ==> model.locks[j].path.Some?
      {
        assert model.locks[i].path == inhibitList[i].path;
        i := i + 1;
      }
      if i < |inhibitList| {
        assert model.locks[i].path == inhibitList[i].path;
      }
      FirstIs(model.locks, i);
    }

    lemma FirstIs(locks: seq<Lock>, i: nat)
      requires i <= |locks| && (forall j :: 0 <= j < i ==> locks[j].path.Some?) && (i < |locks| ==> locks[i].path.None?)
      ensures FirstWithoutPath(locks) == i
    {
    }

    /** ck_inhibit_manager_remove_lock as cb_changed_event calls it, with a path already
        freed. Closing the pipe of the lock it finds changes nothing, the pipe of a lock
        without a path being closed. */
    method RemovePathlessLock()
      requires Counts() && Lists() && Wf(model)
      modifies this`inhibitList, this`model, inhibitList
      ensures Counts() && Lists()
      ensures model == old(model).(locks := RemovePathless(old(model).locks))
      ensures forall l :: l in inhibitList ==> l in old(inhibitList)
      ensures forall l :: l in old(inhibitList) ==> l.View() == old(l.View()) && l.connected == (l in inhibitList)
    {
      hide FirstWithoutPath;
      var i := FindPathless();
      if i < |inhibitList| {
        Unlist(i);
      }
    }

    lemma ListedOnce(i: nat)
      requires Lists() && Wf(model) && i < |inhibitList|
      ensures forall j :: 0 <= j < |inhibitList| && j != i ==> inhibitList[j] != inhibitList[i]
    {
      assert forall j :: 0 <= j < |inhibitList| ==> inhibitList[j].View() == model.locks[j];
    }

    method Unlist(i: nat)
      requires Counts() && Lists() && Wf(model) && i < |inhibitList|
      modifies this`inhibitList, this`model, inhibitList
      ensures Counts() && Lists()
      ensures model == old(model).(locks := RemoveAt(old(model).locks, i))
      ensures forall l :: l in inhibitList ==> l in old(inhibitList)
      ensures forall l :: l in old(inhibitList) ==> l.View() == old(l.View()) && l.connected == (l in inhibitList)
    {
      var lock := inhibitList[i];
      ListedOnce(i);
      lock.connected := false;
      inhibitList := inhibitList[..i] + inhibitList[i + 1..];
      assert lock !in inhibitList;
      assert forall l :: l in old(inhibitList) && l != lock ==> l in inhibitList;
      model := model.(locks := RemoveAt(model.locks, i));
      assert Counts();
      assert forall j :: 0 <= j < |inhibitList| ==> inhibitList[j].View() == model.locks[j];
      assert Lists();
    }

    /** cb_changed_event with enabled clear */
    method CountDown(slot: Slot)
      requires Valid()
      modifies this`inhibitList, this`model, this`emitted, inhibitors, inhibitList
      ensures Valid() && model == Disable(old(model), slot)
      ensures forall l :: l in inhibitList ==> l in old(inhibitList)
      ensures forall l :: l in old(inhibitList) ==> l.View() == old(l.View()) && l.connected == (l in inhibitList)
    {
      hide Live, RemovePathless;
      DisableKeeps(model, slot, slot);
      inhibitors[Row(slot.mode), Column(slot.what)] := inhibitors[Row(slot.mode), Column(slot.what)] - 1;
      if inhibitors[Row(slot.mode), Column(slot.what)] == 0 {
        emitted := emitted + [Changed(slot, false)];
      }
      ghost var n := Count(model, slot) - 1;
      model := model.(counters := model.counters[slot := n],
                      changes := if n == 0 then model.changes + [Changed(slot, false)] else model.changes);
      forall s: Slot ensures inhibitors[Row(s.mode), Column(s.what)] == Count(model, s) {
        assert s == slot || Row(s.mode) != Row(slot.mode) || Column(s.what) != Column(slot.what);
      }
      RemovePathlessLock();
    }

    /** emit_final_uninhibit_signals: the signals of a lock no longer connected reach nobody. */
    method EmitFinal(inhibit: Inhibit, events: seq<What>)
      requires Valid() && inhibit in inhibitList
      modifies this`inhibitList, this`model, this`emitted, inhibitors, inhibitList
      ensures Valid() && model == DisableAll(old(model), inhibit.id, old(inhibit.mode), events)
    {
      hide Disable, Wf;
      ghost var goal := DisableAll(model, inhibit.id, inhibit.mode, events);
      SameIdSameLock(inhibit);
      for i := 0 to |events|
        invariant Valid() && (forall l :: l in inhibitList ==> l in old(inhibitList))
        invariant inhibit.View() == old(inhibit.View())
        invariant inhibit.connected == (inhibit in inhibitList)
        invariant DisableAll(model, inhibit.id, inhibit.mode, events[i..]) == goal
      {
        assert events[i..][1..] == events[i + 1..];
        ListedIsInList(inhibit);
        if !inhibit.connected {
          return;
        }
        assert forall j :: 0 <= j < |inhibitList| ==>
                 inhibitList[j] in inhibitList && inhibitList[j] in old(inhibitList);
        CountDown(Slot(inhibit.mode, events[i]));
      }
    }

    lemma SameIdSameLock(inhibit: Inhibit)
      requires Valid() && inhibit in inhibitList
      ensures forall l :: l in inhibitList && l.id == inhibit.id ==> l == inhibit
    {
      var i :| 0 <= i < |inhibitList| && inhibitList[i] == inhibit;
      forall l | l in inhibitList && l.id == inhibit.id ensures l == inhibit {
        var j :| 0 <= j < |inhibitList| && inhibitList[j] == l;
        assert model.locks[i].id == model.locks[j].id;
      }
    }

    lemma ListedIsInList(inhibit: Inhibit)
      requires Valid()
      requires forall l :: l in inhibitList && l.id == inhibit.id ==> l == inhibit
      ensures inhibit in inhibitList <==> Listed(model.locks, inhibit.id)
    {
      if inhibit in inhibitList {
        var i :| 0 <= i < |inhibitList| && inhibitList[i] == inhibit;
        assert model.locks[i].id == inhibit.id;
      }
      if Listed(model.locks, inhibit.id) {
        var i :| 0 <= i < |model.locks| && model.locks[i].id == inhibit.id;
        assert inhibitList[i] in inhibitList && inhibitList[i].id == inhibit.id;
      }
    }

    /** close_named_pipe, when the last holder of the pipe has closed it. All flags are
        cleared before the first signal goes out instead of one by one. */
    method CloseNamedPipe(i: nat)
      requires Valid() && i < |inhibitList|
      modifies this`inhibitList, this`model, this`emitted, inhibitors, inhibitList
      ensures Valid() && model == Release(old(model), i)
    {
      hide Live, DisableAll, InOrder;
      var inhibit := inhibitList[i];
      assert inhibit.View() == model.locks[i];
      if !inhibit.pipeOpen {
        return;
      }
      var events := InOrder(inhibit.inhibitors);
      forall j | 0 <= j < |inhibitList| && j != i ensures inhibitList[j] != inhibit {
        assert model.locks[j].id != model.locks[i].id;
      }
      inhibit.pipeOpen, inhibit.held, inhibit.path, inhibit.inhibitors := false, false, None, {};
      model := model.(locks := model.locks[i := inhibit.View()]);
      assert inhibit.View() == Closed(old(model).locks[i]);
      assert forall s: Slot :: Count(model, s) == Count(old(model), s);
      ghost var before := model;
      EmitFinal(inhibit, events);
      assert model == DisableAll(before, old(model).locks[i].id, old(model).locks[i].mode, events);
    }
  }
}
