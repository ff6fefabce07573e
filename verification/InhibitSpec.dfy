/** Inhibit locks and the table that counts them (ck-inhibit.c, ck-inhibit-manager.c),
    on values. */
module InhibitSpec {
  import opened Lists
  import opened Text

  datatype What = Shutdown | Suspend | Idle | PowerKey | SuspendKey | HibernateKey | LidSwitch
  datatype Mode = Invalid | Block | Delay
  datatype Slot = Slot(mode: Mode, what: What)

  /** A lock in the manager's list. pipeOpen is the daemon's end of its pipe, held the
      client's. Without a path the pipe is closed. */
  datatype Lock = Lock(id: nat, mode: Mode, events: set<What>, pipeOpen: bool, held: bool, path: Option<string>)

  /** A change the manager announces: the slot became inhibited, or no longer is. */
  datatype Changed = Changed(slot: Slot, enabled: bool)

  datatype Inhibitors = Inhibitors(counters: map<Slot, int>, locks: seq<Lock>, nextId: nat, changes: seq<Changed>)

  function Count(st: Inhibitors, slot: Slot): int {
    if slot in st.counters then st.counters[slot] else 0
  }

  /** get_inhibit_status */
  predicate Inhibited(st: Inhibitors, slot: Slot) { Count(st, slot) > 0 }

  function Start(): Inhibitors { Inhibitors(map[], [], 0, []) }

  lemma SomeEvent(events: set<What>)
    requires events != {}
    ensures Shutdown in events || Suspend in events || Idle in events || PowerKey in events
         || SuspendKey in events || HibernateKey in events || LidSwitch in events
  {
    var x :| x in events;
    match x {
      case Shutdown => case Suspend => case Idle => case PowerKey =>
      case SuspendKey => case HibernateKey => case LidSwitch =>
    }
  }

  /** The event that comes first in the order in which they are looked at everywhere. */
  function First(events: set<What>): (e: What)
    requires events != {}
    ensures e in events
  {
    if Shutdown in events then Shutdown
    else if Suspend in events then Suspend
    else if Idle in events then Idle
    else if PowerKey in events then PowerKey
    else if SuspendKey in events then SuspendKey
    else if HibernateKey in events then HibernateKey
    else
      SomeEvent(events);
      LidSwitch
  }

  /** The events of a lock in the order their signals are emitted. */
  function InOrder(events: set<What>): (es: seq<What>)
    ensures |es| == |events|
  {
    if events == {} then []
    else var e := First(events); [e] + InOrder(events - {e})
  }

  // ----- parsing

  function TokenEvent(token: string): Option<What> {
    if token == "shutdown" then Some(Shutdown)
    else if token == "sleep" then Some(Suspend)
    else if token == "idle" then Some(Idle)
    else if token == "handle-power-key" then Some(PowerKey)
    else if token == "handle-suspend-key" then Some(SuspendKey)
    else if token == "handle-hibernate-key" then Some(HibernateKey)
    else if token == "handle-lid-switch" then Some(LidSwitch)
    else None
  }

  /** The text before the first colon, and the text after it if there is one. */
  function Cut(s: string): (r: (string, Option<string>))
    ensures r.1.Some? ==> |r.1.value| < |s|
  {
    if s == [] then ([], None)
    else if s[0] == ':' then ([], Some(s[1..]))
    else var r := Cut(s[1..]); ([s[0]] + r.0, r.1)
  }

  /** g_strsplit (what, ":", 0) */
  function Split(s: string): seq<string>
    decreases |s|
  {
    if s == [] then []
    else
      var (head, tail) := Cut(s);
      if tail.None? then [head] else [head] + SplitRest(tail.value)
  }

  /** After a colon even an empty remainder is a token. */
  function SplitRest(s: string): seq<string>
    decreases |s|
  {
    var (head, tail) := Cut(s);
    if tail.None? then [head] else [head] + SplitRest(tail.value)
  }

  /** The token loop stops at the first empty token and skips unknown ones. */
  function TokenEvents(tokens: seq<string>): set<What> {
    if tokens == [] || tokens[0] == "" then {}
    else
      (match TokenEvent(tokens[0]) case None => {} case Some(e) => {e}) + TokenEvents(tokens[1..])
  }

  function ParseWhat(what: string): set<What> { TokenEvents(Split(what)) }

  function ParseMode(mode: string): Mode {
    if mode == "block" then Block else if mode == "delay" then Delay else Invalid
  }

  // ----- creating a lock

  /** What the file system answers: whether the base directory is there, the unique path
      (none on failure), whether the pipe could be made and the daemon's end opened, and
      whether the client's end could. */
  datatype Pipes = Pipes(baseDir: bool, path: Option<string>, opens: bool, client: bool)

  datatype CreateReply = Created(id: nat) | General | InvalidInput | OutOfMemory

  /** cb_changed_event, enabling */
  function Enable(st: Inhibitors, slot: Slot): Inhibitors {
    var n := Count(st, slot) + 1;
    st.(counters := st.counters[slot := n],
        changes := if n == 1 then st.changes + [Changed(slot, true)] else st.changes)
  }

  function EnableAll(st: Inhibitors, mode: Mode, events: seq<What>): Inhibitors
    decreases |events|
  {
    if events == [] then st else EnableAll(Enable(st, Slot(mode, events[0])), mode, events[1..])
  }

  /** The lock as ck_inhibit_create_lock leaves it, and the answer. When only the client's
      end cannot be opened the request fails with the daemon's end still open. */
  function NewLock(id: nat, what: string, mode: string, pipes: Pipes): (Lock, CreateReply) {
    var events, m := ParseWhat(what), ParseMode(mode);
    if !pipes.baseDir then (Lock(id, Invalid, {}, false, false, None), General)
    else if events == {} then (Lock(id, Invalid, {}, false, false, pipes.path), InvalidInput)
    else if m == Invalid then (Lock(id, Invalid, events, false, false, pipes.path), InvalidInput)
    else if pipes.path.None? then (Lock(id, m, events, false, false, None), OutOfMemory)
    else if !pipes.opens then (Lock(id, m, events, false, false, pipes.path), General)
    else if !pipes.client then (Lock(id, m, events, true, false, pipes.path), General)
    else (Lock(id, m, events, true, true, pipes.path), Created(id))
  }

  /** ck_inhibit_manager_create_lock: a lock that failed is listed like any other, because
      only -1 counts as failure there and the errors are other numbers. */
  function Create(st: Inhibitors, what: string, mode: string, pipes: Pipes): (Inhibitors, CreateReply) {
    var (lock, reply) := NewLock(st.nextId, what, mode, pipes);
    var st1 := if lock.held then EnableAll(st, lock.mode, InOrder(lock.events)) else st;
    (st1.(locks := st1.locks + [lock], nextId := st.nextId + 1), reply)
  }

  // ----- releasing a lock

  function FirstWithoutPath(locks: seq<Lock>): (i: nat)
    ensures i <= |locks|
    ensures forall j :: 0 <= j < i ==> locks[j].path.Some?
    ensures i < |locks| ==> locks[i].path.None?
  {
    if locks == [] || locks[0].path.None? then 0
    else
      var r := FirstWithoutPath(locks[1..]);
      assert forall j :: 1 <= j < 1 + r ==> locks[j] == locks[1..][j - 1];
      1 + r
  }

  /** ck_inhibit_manager_remove_lock as cb_changed_event calls it: the path handed over has
      been freed by then, so it takes the first lock without a path off the list. */
  function RemovePathless(locks: seq<Lock>): seq<Lock> {
    var i := FirstWithoutPath(locks);
    if i < |locks| then RemoveAt(locks, i) else locks
  }

  /** cb_changed_event, disabling */
  function Disable(st: Inhibitors, slot: Slot): Inhibitors {
    var n := Count(st, slot) - 1;
    st.(counters := st.counters[slot := n],
        changes := if n == 0 then st.changes + [Changed(slot, false)] else st.changes,
        locks := RemovePathless(st.locks))
  }

  predicate Listed(locks: seq<Lock>, id: nat) {
    exists i :: 0 <= i < |locks| && locks[i].id == id
  }

  /** emit_final_uninhibit_signals: a lock taken off the list has lost its handler, so the
      signals still to come reach nobody. */
  function DisableAll(st: Inhibitors, id: nat, mode: Mode, events: seq<What>): Inhibitors
    decreases |events|
  {
    if events == [] || !Listed(st.locks, id) then st
    else DisableAll(Disable(st, Slot(mode, events[0])), id, mode, events[1..])
  }

  function Closed(lock: Lock): Lock {
    lock.(pipeOpen := false, held := false, path := None, events := {})
  }

  /** close_named_pipe on the lock at position i */
  function Release(st: Inhibitors, i: nat): Inhibitors
    requires i < |st.locks|
  {
    var lock := st.locks[i];
    if !lock.pipeOpen then st
    else DisableAll(st.(locks := st.locks[i := Closed(lock)]), lock.id, lock.mode, InOrder(lock.events))
  }

  // ----- locks held

  predicate Holds(lock: Lock, slot: Slot) {
    lock.held && lock.mode == slot.mode && slot.what in lock.events
  }

  /** The number of locks held by their clients that name the slot. */
  function Live(locks: seq<Lock>, slot: Slot): nat {
    if locks == [] then 0 else (if Holds(locks[0], slot) then 1 else 0) + Live(locks[1..], slot)
  }

  predicate LockOk(lock: Lock) {
    && (lock.held ==> lock.pipeOpen)
    && (lock.pipeOpen ==> lock.path.Some? && lock.events != {})
  }

  ghost predicate Wf(st: Inhibitors) {
    && (forall i :: 0 <= i < |st.locks| ==> st.locks[i].id < st.nextId)
    && (forall i, j :: 0 <= i < j < |st.locks| ==> st.locks[i].id != st.locks[j].id)
    && (forall i :: 0 <= i < |st.locks| ==> LockOk(st.locks[i]))
  }

  /** How far the counter of a slot exceeds the locks held on it. */
  function Excess(st: Inhibitors, slot: Slot): int {
    Count(st, slot) - Live(st.locks, slot)
  }

  /** No counter is below the number of locks held; in particular none is negative. */
  ghost predicate Covered(st: Inhibitors) {
    forall slot :: Excess(st, slot) >= 0
  }

  ghost predicate Exact(st: Inhibitors) {
    forall slot :: Excess(st, slot) == 0
  }

  lemma {:induction false} LiveConcat(a: seq<Lock>, b: seq<Lock>, slot: Slot)
    ensures Live(a + b, slot) == Live(a, slot) + Live(b, slot)
  {
    if a == [] {
      assert a + b == b;
    } else {
      assert (a + b)[1..] == a[1..] + b;
      LiveConcat(a[1..], b, slot);
    }
  }

  lemma LiveSplit(locks: seq<Lock>, i: nat, slot: Slot)
    requires i < |locks|
    ensures Live(locks, slot) == Live(RemoveAt(locks, i), slot) + (if Holds(locks[i], slot) then 1 else 0)
  {
    LiveConcat(locks[..i], locks[i + 1..], slot);
    assert locks == locks[..i] + locks[i..] && locks[i..][1..] == locks[i + 1..];
    LiveConcat(locks[..i], locks[i..], slot);
  }

  lemma LiveUpdate(locks: seq<Lock>, i: nat, lock: Lock, slot: Slot)
    requires i < |locks|
    ensures Live(locks[i := lock], slot) ==
            Live(locks, slot) - (if Holds(locks[i], slot) then 1 else 0) + (if Holds(lock, slot) then 1 else 0)
  {
    LiveSplit(locks, i, slot);
    LiveSplit(locks[i := lock], i, slot);
    assert RemoveAt(locks[i := lock], i) == RemoveAt(locks, i);
  }

  lemma {:induction false} Emitted(events: set<What>, e: What)
    ensures e in InOrder(events) <==> e in events
  {
    if events != {} {
      Emitted(events - {First(events)}, e);
    }
  }

  lemma {:induction false} EmittedOnce(events: set<What>)
    ensures Distinct(InOrder(events))
  {
    if events != {} {
      var e := First(events);
      EmittedOnce(events - {e});
      Emitted(events - {e}, e);
      var rest := InOrder(events - {e});
      assert InOrder(events) == [e] + rest && e !in rest;
    }
  }

  // ----- creation

  lemma {:induction false} EnableAllCounts(st: Inhibitors, mode: Mode, events: seq<What>)
    requires Distinct(events)
    ensures var r := EnableAll(st, mode, events);
      && r.locks == st.locks && r.nextId == st.nextId
      && forall slot :: Count(r, slot) ==
           Count(st, slot) + (if slot.mode == mode && slot.what in events then 1 else 0)
    decreases |events|
  {
    if events != [] {
      EnableAllCounts(Enable(st, Slot(mode, events[0])), mode, events[1..]);
      assert forall e :: e in events <==> e == events[0] || e in events[1..];
    }
  }

  lemma NewLockShape(id: nat, what: string, mode: string, pipes: Pipes)
    ensures var (lock, reply) := NewLock(id, what, mode, pipes);
      && lock.id == id && LockOk(lock) && (reply.Created? <==> lock.held)
      && (lock.pipeOpen ==> lock.mode == ParseMode(mode) != Invalid && lock.events == ParseWhat(what))
      && lock.events <= ParseWhat(what)
  {
  }

  /** Creating a lock adds exactly one to each slot it holds, and nothing if it failed. */
  lemma CreateKeeps(st: Inhibitors, what: string, mode: string, pipes: Pipes)
    requires Wf(st)
    ensures var (r, reply) := Create(st, what, mode, pipes);
      && Wf(r) && |r.locks| == |st.locks| + 1 && r.locks[..|st.locks|] == st.locks
      && (forall slot :: Excess(r, slot) == Excess(st, slot))
      && (reply.Created? <==> r.locks[|st.locks|].held)
  {
    hide NewLock, EnableAll, InOrder, Live;
    NewLockShape(st.nextId, what, mode, pipes);
    var lock := NewLock(st.nextId, what, mode, pipes).0;
    if lock.held {
      EmittedOnce(lock.events);
      forall e ensures e in InOrder(lock.events) <==> e in lock.events {
        Emitted(lock.events, e);
      }
      EnableAllCounts(st, lock.mode, InOrder(lock.events));
    }
    AppendKeeps(st, if lock.held then EnableAll(st, lock.mode, InOrder(lock.events)) else st, lock);
  }

  lemma AppendKeeps(st: Inhibitors, st1: Inhibitors, lock: Lock)
    requires Wf(st) && lock.id == st.nextId && LockOk(lock)
    requires st1.locks == st.locks
    requires forall slot :: Count(st1, slot) == Count(st, slot) + (if Holds(lock, slot) then 1 else 0)
    ensures var r := st1.(locks := st1.locks + [lock], nextId := st.nextId + 1);
      Wf(r) && forall slot :: Excess(r, slot) == Excess(st, slot)
  {
    var r := st1.(locks := st1.locks + [lock], nextId := st.nextId + 1);
    forall slot ensures Excess(r, slot) == Excess(st, slot) {
      LiveConcat(st.locks, [lock], slot);
      assert Live([lock], slot) == if Holds(lock, slot) then 1 else 0;
      assert Count(r, slot) == Count(st1, slot);
    }
  }

  // ----- release

  /** The locks without a path ahead of position i: failed ones, or released ones that an
      earlier failed one kept in the list. */
  function PathlessBefore(locks: seq<Lock>, i: nat): nat
    requires i <= |locks|
  {
    if i == 0 then 0 else PathlessBefore(locks, i - 1) + (if locks[i - 1].path.None? then 1 else 0)
  }

  lemma {:induction false} PathlessIsFirst(locks: seq<Lock>, p: nat)
    requires p < |locks| && locks[p].path.None?
    ensures var f := FirstWithoutPath(locks);
      && f <= p && (f == p <==> PathlessBefore(locks, p) == 0)
  {
    var f := FirstWithoutPath(locks);
    NonePathless(locks, f);
    if f < p {
      SomePathless(locks, f, p);
    }
  }

  lemma {:induction false} NonePathless(locks: seq<Lock>, n: nat)
    requires n <= |locks| && forall j :: 0 <= j < n ==> locks[j].path.Some?
    ensures PathlessBefore(locks, n) == 0
  {
    if n > 0 { NonePathless(locks, n - 1); }
  }

  lemma {:induction false} SomePathless(locks: seq<Lock>, f: nat, p: nat)
    requires f < p <= |locks| && locks[f].path.None?
    ensures PathlessBefore(locks, p) > 0
  {
    if f < p - 1 { SomePathless(locks, f, p - 1); }
  }

  lemma {:induction false} PathlessShift(locks: seq<Lock>, f: nat, p: nat)
    requires f < p <= |locks| && locks[f].path.None?
    ensures PathlessBefore(RemoveAt(locks, f), p - 1) == PathlessBefore(locks, p) - 1
    decreases p
  {
    var less := RemoveAt(locks, f);
    if p - 1 == f {
      PathlessSame(locks, less, f);
    } else {
      PathlessShift(locks, f, p - 1);
      assert less[p - 2] == locks[p - 1];
    }
  }

  lemma {:induction false} PathlessSame(a: seq<Lock>, b: seq<Lock>, n: nat)
    requires n <= |a| && n <= |b| && a[..n] == b[..n]
    ensures PathlessBefore(a, n) == PathlessBefore(b, n)
  {
    if n > 0 {
      assert a[n - 1] == a[..n][n - 1] && b[n - 1] == b[..n][n - 1];
      assert a[..n - 1] == a[..n][..n - 1] && b[..n - 1] == b[..n][..n - 1];
      PathlessSame(a, b, n - 1);
    }
  }

  lemma RemovePathlessKeeps(st: Inhibitors, slot: Slot)
    requires Wf(st)
    ensures Live(RemovePathless(st.locks), slot) == Live(st.locks, slot)
    ensures Wf(st.(locks := RemovePathless(st.locks)))
  {
    var i := FirstWithoutPath(st.locks);
    if i < |st.locks| {
      LiveSplit(st.locks, i, slot);
      var less := RemoveAt(st.locks, i);
      assert forall j :: 0 <= j < |less| ==> less[j] == st.locks[if j < i then j else j + 1];
    }
  }

  lemma DisableKeeps(st: Inhibitors, slot: Slot, s: Slot)
    requires Wf(st)
    ensures var r := Disable(st, slot);
      && Wf(r) && r.locks == RemovePathless(st.locks)
      && Live(r.locks, s) == Live(st.locks, s)
      && Count(r, s) == Count(st, s) - (if s == slot then 1 else 0)
  {
    RemovePathlessKeeps(st, s);
  }

  /** Taking the first pathless lock off the list takes the one at p off it exactly when
      none is ahead of it; otherwise p moves up by one, with one fewer ahead. */
  lemma RemovePathlessAt(st: Inhibitors, p: nat)
    requires Wf(st) && p < |st.locks| && st.locks[p].path.None?
    ensures var less, z := RemovePathless(st.locks), PathlessBefore(st.locks, p);
      if z == 0 then !Listed(less, st.locks[p].id)
      else 0 < p <= |less| && less[p - 1] == st.locks[p] && PathlessBefore(less, p - 1) == z - 1
  {
    hide PathlessBefore, FirstWithoutPath;
    PathlessIsFirst(st.locks, p);
    var f := FirstWithoutPath(st.locks);
    var less := RemoveAt(st.locks, f);
    if f < p {
      PathlessShift(st.locks, f, p);
      assert less[p - 1] == st.locks[p];
    } else {
      forall j | 0 <= j < |less| ensures less[j].id != st.locks[p].id {
        assert less[j] == st.locks[if j < f then j else j + 1];
      }
    }
  }

  /** e is one of the first n of es. */
  predicate Among(es: seq<What>, n: nat, e: What) {
    es != [] && n > 0 && (es[0] == e || Among(es[1..], n - 1, e))
  }

  lemma {:induction false} AmongIsMember(es: seq<What>, n: nat, e: What)
    requires Among(es, n, e)
    ensures e in es
  {
    if es[0] != e {
      AmongIsMember(es[1..], n - 1, e);
    }
  }

  lemma {:induction false} MemberIsAmong(es: seq<What>, n: nat, e: What)
    requires e in es && |es| <= n
    ensures Among(es, n, e)
  {
    if es[0] != e {
      MemberIsAmong(es[1..], n - 1, e);
    }
  }

  lemma {:induction false} LaterIsNotAmong(es: seq<What>, n: nat)
    requires Distinct(es) && n < |es|
    ensures !Among(es, n, es[n])
  {
    if n > 0 {
      LaterIsNotAmong(es[1..], n - 1);
    }
  }

  lemma {:induction false} DisableAllKeeps(st: Inhibitors, id: nat, mode: Mode, events: seq<What>, slot: Slot)
    requires Wf(st)
    ensures var r := DisableAll(st, id, mode, events); Wf(r) && Live(r.locks, slot) == Live(st.locks, slot)
    decreases |events|
  {
    if events != [] && Listed(st.locks, id) {
      DisableKeeps(st, Slot(mode, events[0]), slot);
      DisableAllKeeps(Disable(st, Slot(mode, events[0])), id, mode, events[1..], slot);
    }
  }

  /** The first final signal of the lock at position p, already closed, and the rest. */
  lemma FirstSignal(st: Inhibitors, p: nat, mode: Mode, events: seq<What>, slot: Slot) returns (st1: Inhibitors)
    requires Wf(st) && p < |st.locks| && st.locks[p].path.None? && events != []
    ensures Wf(st1)
    ensures DisableAll(st, st.locks[p].id, mode, events) == DisableAll(st1, st.locks[p].id, mode, events[1..])
    ensures Count(st1, slot) == Count(st, slot) - (if slot.mode == mode && slot.what == events[0] then 1 else 0)
    ensures PathlessBefore(st.locks, p) == 0 ==> !Listed(st1.locks, st.locks[p].id)
    ensures PathlessBefore(st.locks, p) > 0 ==>
      && 0 < p <= |st1.locks| && st1.locks[p - 1] == st.locks[p]
      && PathlessBefore(st1.locks, p - 1) == PathlessBefore(st.locks, p) - 1
  {
    st1 := Disable(st, Slot(mode, events[0]));
    DisableKeeps(st, Slot(mode, events[0]), slot);
    RemovePathlessAt(st, p);
    assert Listed(st.locks, st.locks[p].id);
  }

  /** Emitting all of them: only the first PathlessBefore + 1 reach the table. */
  lemma {:induction false} DisableAllExactly(st: Inhibitors, p: nat, mode: Mode, events: seq<What>, slot: Slot)
    requires Wf(st) && p < |st.locks| && st.locks[p].path.None? && Distinct(events)
    ensures Count(DisableAll(st, st.locks[p].id, mode, events), slot) == Count(st, slot)
           - (if slot.mode == mode && Among(events, PathlessBefore(st.locks, p) + 1, slot.what) then 1 else 0)
    decreases |events|
  {
    hide PathlessBefore, Wf, Among, DisableAll, Count, Listed, Distinct;
    AmongUnfolded(events, PathlessBefore(st.locks, p) + 1, slot.what);
    if events == [] {
      NothingToDisable(st, st.locks[p].id, mode, events);
    } else {
      var z := PathlessBefore(st.locks, p);
      var st1 := FirstSignal(st, p, mode, events, slot);
      DistinctTail(events);
      if z > 0 {
        DisableAllExactly(st1, p - 1, mode, events[1..], slot);
        if Among(events[1..], z, slot.what) {
          AmongIsMember(events[1..], z, slot.what);
        }
      } else {
        NothingToDisable(st1, st.locks[p].id, mode, events[1..]);
        AmongUnfolded(events[1..], 0, slot.what);
      }
    }
  }

  lemma NothingToDisable(st: Inhibitors, id: nat, mode: Mode, events: seq<What>)
    requires events == [] || !Listed(st.locks, id)
    ensures DisableAll(st, id, mode, events) == st
  {
  }

  lemma AmongUnfolded(es: seq<What>, n: nat, e: What)
    ensures Among(es, n, e) <==> es != [] && n > 0 && (es[0] == e || Among(es[1..], n - 1, e))
  {
  }

  lemma DistinctTail(es: seq<What>)
    requires es != [] && Distinct(es)
    ensures Distinct(es[1..]) && es[0] !in es[1..]
  {
  }

  /** The final signal of lock i for this slot still reaches the table. */
  predicate Reached(st: Inhibitors, i: nat, slot: Slot)
    requires i < |st.locks|
  {
    && slot.mode == st.locks[i].mode
    && Among(InOrder(st.locks[i].events), PathlessBefore(st.locks, i) + 1, slot.what)
  }

  /** The release of lock i does not reach the table for this slot, though the lock holds it. */
  predicate Missed(st: Inhibitors, i: nat, slot: Slot)
    requires i < |st.locks|
  {
    Holds(st.locks[i], slot) && !Reached(st, i, slot)
  }

  /** The release of lock i takes off the table for this slot what it never added. */
  predicate Overdrawn(st: Inhibitors, i: nat, slot: Slot)
    requires i < |st.locks|
  {
    !st.locks[i].held && Reached(st, i, slot)
  }

  /** How far the release of lock i moves the counter of the slot away from the number of
      locks held. */
  function Drift(st: Inhibitors, i: nat, slot: Slot): int
    requires i < |st.locks|
  {
    if Missed(st, i, slot) then 1 else if Overdrawn(st, i, slot) then -1 else 0
  }

  /** Closing the pipe, before any signal is emitted. */
  lemma Closing(st: Inhibitors, i: nat, slot: Slot) returns (st1: Inhibitors)
    requires Wf(st) && i < |st.locks| && st.locks[i].pipeOpen
    ensures Wf(st1) && i < |st1.locks| && st1.locks[i].path.None? && st1.locks[i].id == st.locks[i].id
    ensures Release(st, i) == DisableAll(st1, st.locks[i].id, st.locks[i].mode, InOrder(st.locks[i].events))
    ensures PathlessBefore(st1.locks, i) == PathlessBefore(st.locks, i)
    ensures Excess(st1, slot) == Excess(st, slot) + (if Holds(st.locks[i], slot) then 1 else 0)
  {
    var lock := st.locks[i];
    st1 := st.(locks := st.locks[i := Closed(lock)]);
    LiveUpdate(st.locks, i, Closed(lock), slot);
    PathlessSame(st.locks, st1.locks, i);
  }

  lemma ReleaseExactlyAt(st: Inhibitors, i: nat, slot: Slot)
    requires Wf(st) && i < |st.locks| && st.locks[i].pipeOpen
    ensures Wf(Release(st, i))
    ensures Excess(Release(st, i), slot) == Excess(st, slot) + Drift(st, i, slot)
  {
    hide Live, DisableAll, InOrder, PathlessBefore, Among, Release;
    var lock, es := st.locks[i], InOrder(st.locks[i].events);
    var st1 := Closing(st, i, slot);
    EmittedOnce(lock.events);
    Emitted(lock.events, slot.what);
    DisableAllKeeps(st1, lock.id, lock.mode, es, slot);
    DisableAllExactly(st1, i, lock.mode, es, slot);
    if Among(es, PathlessBefore(st.locks, i) + 1, slot.what) {
      AmongIsMember(es, PathlessBefore(st.locks, i) + 1, slot.what);
    }
  }

  /** Releasing a lock leaves one too many on exactly the slots it misses, and one too few
      on exactly those it overdraws. */
  lemma ReleaseExactly(st: Inhibitors, i: nat)
    requires Wf(st) && i < |st.locks| && st.locks[i].pipeOpen
    ensures Wf(Release(st, i))
    ensures forall slot :: Excess(Release(st, i), slot) == Excess(st, slot) + Drift(st, i, slot)
  {
    ReleaseExactlyAt(st, i, Slot(Delay, Shutdown));
    forall slot ensures Excess(Release(st, i), slot) == Excess(st, slot) + Drift(st, i, slot) {
      ReleaseExactlyAt(st, i, slot);
    }
  }

  /** The first event of an open lock always reaches the table. */
  lemma FirstIsReached(st: Inhibitors, i: nat) returns (slot: Slot)
    requires Wf(st) && i < |st.locks| && st.locks[i].pipeOpen
    ensures Reached(st, i, slot)
  {
    assert LockOk(st.locks[i]);
    slot := Slot(st.locks[i].mode, InOrder(st.locks[i].events)[0]);
  }

  /** The table stays as exact as it was if and only if the client had the lock, and the
      lock names no more events than there are pathless locks ahead of it, and one. */
  lemma ReleaseExactIff(st: Inhibitors, i: nat)
    requires Wf(st) && i < |st.locks| && st.locks[i].pipeOpen
    ensures (forall slot :: Excess(Release(st, i), slot) == Excess(st, slot)) <==> Fits(st, i)
  {
    hide Release, Excess, Wf;
    ReleaseExactly(st, i);
    var lock, n := st.locks[i], PathlessBefore(st.locks, i) + 1;
    var es := InOrder(lock.events);
    if !lock.held {
      var slot := FirstIsReached(st, i);
      assert Excess(Release(st, i), slot) != Excess(st, slot);
    } else if |es| <= n {
      forall slot ensures !Missed(st, i, slot) {
        Emitted(lock.events, slot.what);
        if Holds(lock, slot) {
          MemberIsAmong(es, n, slot.what);
        }
      }
    } else {
      var slot := Slot(lock.mode, es[n]);
      EmittedOnce(lock.events);
      LaterIsNotAmong(es, n);
      Emitted(lock.events, es[n]);
      assert Missed(st, i, slot);
      assert Excess(Release(st, i), slot) != Excess(st, slot);
    }
  }

  predicate Fits(st: Inhibitors, i: nat)
    requires i < |st.locks|
  {
    st.locks[i].held && |st.locks[i].events| <= PathlessBefore(st.locks, i) + 1
  }

  // ----- runs

  datatype Event =
    | LockRequested(what: string, mode: string, pipes: Pipes)
    | PipeClosed(at: nat)

  function Step(st: Inhibitors, e: Event): Inhibitors {
    match e
    case LockRequested(what, mode, pipes) => Create(st, what, mode, pipes).0
    case PipeClosed(at) => if at < |st.locks| then Release(st, at) else st
  }

  function RunFrom(st: Inhibitors, es: seq<Event>): Inhibitors {
    if es == [] then st else Step(RunFrom(st, es[..|es| - 1]), es[|es| - 1])
  }

  function Run(es: seq<Event>): Inhibitors { RunFrom(Start(), es) }

  /** The event is the release of a lock whose pipe is open. */
  predicate Releases(st: Inhibitors, e: Event) {
    e.PipeClosed? && e.at < |st.locks| && st.locks[e.at].pipeOpen
  }

  /** The kernel reports no hang-up of a pipe whose other end nobody has opened. */
  predicate AllHeld(st: Inhibitors, es: seq<Event>) {
    es == [] ||
    var n := |es| - 1;
    AllHeld(st, es[..n])
    && (Releases(RunFrom(st, es[..n]), es[n]) ==> RunFrom(st, es[..n]).locks[es[n].at].held)
  }

  predicate AllFit(st: Inhibitors, es: seq<Event>) {
    es == [] ||
    var n := |es| - 1;
    AllFit(st, es[..n])
    && (Releases(RunFrom(st, es[..n]), es[n]) ==> Fits(RunFrom(st, es[..n]), es[n].at))
  }

  lemma QuietStep(st: Inhibitors, e: Event)
    requires e.PipeClosed? && !Releases(st, e)
    ensures Step(st, e) == st
  {
  }

  /** How one step moves each counter against the number of locks held. */
  lemma StepExactly(st: Inhibitors, e: Event)
    requires Wf(st)
    ensures Wf(Step(st, e))
    ensures !Releases(st, e) ==> forall slot :: Excess(Step(st, e), slot) == Excess(st, slot)
    ensures Releases(st, e) ==> forall slot :: Excess(Step(st, e), slot) == Excess(st, slot) + Drift(st, e.at, slot)
  {
    hide Create, Release, Excess, Wf, Drift;
    match e {
      case LockRequested(what, mode, pipes) => CreateKeeps(st, what, mode, pipes);
      case PipeClosed(at) =>
        if Releases(st, e) {
          ReleaseExactly(st, at);
        } else {
          QuietStep(st, e);
        }
    }
  }

  lemma {:induction false} EveryRunIsWf(st: Inhibitors, es: seq<Event>)
    requires Wf(st)
    ensures Wf(RunFrom(st, es))
  {
    hide Wf, Step;
    if es != [] {
      EveryRunIsWf(st, es[..|es| - 1]);
      StepExactly(RunFrom(st, es[..|es| - 1]), es[|es| - 1]);
    }
  }

  /** In a run that releases no lock but those held, no counter comes nearer to the number
      of locks held. */
  lemma {:induction false} ExcessStays(st: Inhibitors, es: seq<Event>, slot: Slot)
    requires Wf(st) && AllHeld(st, es)
    ensures Wf(RunFrom(st, es)) && Excess(RunFrom(st, es), slot) >= Excess(st, slot)
  {
    hide Wf, Step, Excess, Missed, Reached;
    if es != [] {
      ExcessStays(st, es[..|es| - 1], slot);
      StepExactly(RunFrom(st, es[..|es| - 1]), es[|es| - 1]);
    }
  }

  lemma StartIsExact()
    ensures Wf(Start()) && Exact(Start())
  {
  }

  /** So none is ever below it, and none is negative. */
  lemma EveryRunIsCovered(es: seq<Event>)
    requires AllHeld(Start(), es)
    ensures Wf(Run(es)) && Covered(Run(es))
  {
    hide RunFrom, Excess, Wf;
    StartIsExact();
    ExcessStays(Start(), es, Slot(Block, Idle));
    forall slot ensures Excess(Run(es), slot) >= 0 {
      ExcessStays(Start(), es, slot);
    }
  }

  /** A live lock is never overlooked: whatever it holds is inhibited. */
  lemma EveryLiveLockInhibits(es: seq<Event>, i: nat, slot: Slot)
    requires AllHeld(Start(), es)
    requires i < |Run(es).locks| && Holds(Run(es).locks[i], slot)
    ensures Inhibited(Run(es), slot)
  {
    hide RunFrom, AllHeld, Live;
    EveryRunIsCovered(es);
    LiveSplit(Run(es).locks, i, slot);
    assert Excess(Run(es), slot) >= 0;
  }

  // ----- exactly when the table is right

  /** Every slot the release takes down has a count left over from an earlier release. */
  ghost predicate Drawable(st: Inhibitors, i: nat)
    requires i < |st.locks|
  {
    forall slot :: Overdrawn(st, i, slot) ==> Count(st, slot) > Live(st.locks, slot)
  }

  ghost predicate AllDrawable(st: Inhibitors, es: seq<Event>) {
    es == [] ||
    var n := |es| - 1;
    AllDrawable(st, es[..n])
    && (Releases(RunFrom(st, es[..n]), es[n]) ==> Drawable(RunFrom(st, es[..n]), es[n].at))
  }

  ghost predicate CoveredThroughout(st: Inhibitors, es: seq<Event>) {
    Covered(RunFrom(st, es)) && (es != [] ==> CoveredThroughout(st, es[..|es| - 1]))
  }

  ghost predicate ExactThroughout(st: Inhibitors, es: seq<Event>) {
    Exact(RunFrom(st, es)) && (es != [] ==> ExactThroughout(st, es[..|es| - 1]))
  }

  lemma CoveredStep(st: Inhibitors, e: Event)
    requires Wf(st) && Covered(st)
    ensures Covered(Step(st, e)) <==> (Releases(st, e) ==> Drawable(st, e.at))
  {
    hide Step, Wf, Reached, Live, Count;
    StepExactly(st, e);
    if Releases(st, e) {
      assert forall slot :: Excess(st, slot) == Count(st, slot) - Live(st.locks, slot);
      if Covered(Step(st, e)) {
        forall slot | Overdrawn(st, e.at, slot) ensures Count(st, slot) > Live(st.locks, slot) {
          assert Excess(Step(st, e), slot) >= 0;
        }
      }
    }
  }

  /** No counter falls below the number of locks held, all through a run, if and only if
      every lock released was held, or had only events with a count left over. */
  lemma {:induction false} CoveredThroughoutIff(st: Inhibitors, es: seq<Event>)
    requires Wf(st) && Covered(st)
    ensures CoveredThroughout(st, es) <==> AllDrawable(st, es)
  {
    hide Wf, Covered, Drawable, Step, Releases;
    if es != [] {
      CoveredThroughoutIff(st, es[..|es| - 1]);
      EveryRunIsWf(st, es[..|es| - 1]);
      if CoveredThroughout(st, es[..|es| - 1]) {
        CoveredStep(RunFrom(st, es[..|es| - 1]), es[|es| - 1]);
      }
    }
  }

  lemma ExactStep(st: Inhibitors, e: Event)
    requires Wf(st) && Exact(st)
    ensures Exact(Step(st, e)) <==> (Releases(st, e) ==> Fits(st, e.at))
  {
    hide Wf, Fits, Excess, Missed, Overdrawn;
    StepExactly(st, e);
    if Releases(st, e) {
      ReleaseExactIff(st, e.at);
      assert Step(st, e) == Release(st, e.at);
    }
  }

  /** The table equals the locks held all through a run if and only if every lock released
      was held and names no more events than there are pathless locks ahead of it, and one. */
  lemma {:induction false} ExactThroughoutIff(st: Inhibitors, es: seq<Event>)
    requires Wf(st) && Exact(st)
    ensures ExactThroughout(st, es) <==> AllFit(st, es)
  {
    hide Wf, Exact, Fits, Step, Releases;
    if es != [] {
      ExactThroughoutIff(st, es[..|es| - 1]);
      EveryRunIsWf(st, es[..|es| - 1]);
      if ExactThroughout(st, es[..|es| - 1]) {
        ExactStep(RunFrom(st, es[..|es| - 1]), es[|es| - 1]);
      }
    }
  }

  /** What a run of held locks loses it never gets back: the table is right at its end if
      and only if it was right throughout. */
  lemma {:induction false} ExactRunIff(es: seq<Event>)
    requires AllHeld(Start(), es)
    ensures Exact(Run(es)) <==> AllFit(Start(), es)
  {
    hide Wf, Fits, Step, Excess, Missed, Overdrawn;
    StartIsExact();
    ExactThroughoutIff(Start(), es);
    if es != [] {
      var st, e := Run(es[..|es| - 1]), es[|es| - 1];
      ExactRunIff(es[..|es| - 1]);
      EveryRunIsCovered(es[..|es| - 1]);
      if Exact(Run(es)) {
        StepExactly(st, e);
        forall slot ensures Excess(st, slot) == 0 {
          assert Excess(Run(es), slot) >= Excess(st, slot) by { StepRaises(st, e, slot); }
        }
        ExactStep(st, e);
      }
    }
  }

  lemma StepRaises(st: Inhibitors, e: Event, slot: Slot)
    requires Wf(st) && (Releases(st, e) ==> st.locks[e.at].held)
    ensures Excess(Step(st, e), slot) >= Excess(st, slot)
  {
    hide Wf, Step, Excess, Reached;
    StepExactly(st, e);
  }

  predicate SingleEvents(es: seq<Event>) {
    forall i :: 0 <= i < |es| && es[i].LockRequested? ==> |ParseWhat(es[i].what)| <= 1
  }

  ghost predicate SingleLocks(st: Inhibitors) {
    forall i :: 0 <= i < |st.locks| ==> |st.locks[i].events| <= 1
  }

  lemma {:induction false} DisableAllKeepsSingle(st: Inhibitors, id: nat, mode: Mode, events: seq<What>)
    requires SingleLocks(st)
    ensures SingleLocks(DisableAll(st, id, mode, events))
    decreases |events|
  {
    if events != [] && Listed(st.locks, id) {
      var st1 := Disable(st, Slot(mode, events[0]));
      var f := FirstWithoutPath(st.locks);
      assert forall j :: 0 <= j < |st1.locks| ==> st1.locks[j] in st.locks;
      DisableAllKeepsSingle(st1, id, mode, events[1..]);
    }
  }

  lemma StepKeepsSingle(st: Inhibitors, e: Event)
    requires Wf(st) && SingleLocks(st) && (e.LockRequested? ==> |ParseWhat(e.what)| <= 1)
    ensures SingleLocks(Step(st, e))
  {
    match e {
      case LockRequested(what, mode, pipes) =>
        CreateKeeps(st, what, mode, pipes);
        NewLockShape(st.nextId, what, mode, pipes);
      case PipeClosed(at) =>
        if Releases(st, e) {
          var lock := st.locks[at];
          var st1 := st.(locks := st.locks[at := Closed(lock)]);
          assert SingleLocks(st1);
          DisableAllKeepsSingle(st1, lock.id, lock.mode, InOrder(lock.events));
        }
    }
  }

  lemma {:induction false} SingleEventsFit(es: seq<Event>)
    requires SingleEvents(es) && AllHeld(Start(), es)
    ensures var st := Run(es); Wf(st) && SingleLocks(st) && AllFit(Start(), es)
  {
    hide Step, Wf;
    if es == [] {
      StartIsExact();
    } else {
      var st := Run(es[..|es| - 1]);
      SingleEventsFit(es[..|es| - 1]);
      StepKeepsSingle(st, es[|es| - 1]);
      EveryRunIsWf(Start(), es) by { StartIsExact(); }
    }
  }

  /** In particular, when every request names at most one known event. */
  lemma SingleEventRunsAreExact(es: seq<Event>)
    requires SingleEvents(es) && AllHeld(Start(), es)
    ensures Exact(Run(es))
  {
    SingleEventsFit(es);
    ExactRunIff(es);
  }

  /** A slot missed by a release reads as inhibited for ever after, whatever is requested
      and released later: its counter stays above the number of locks held. */
  lemma MissedStaysInhibited(st: Inhibitors, i: nat, slot: Slot, es: seq<Event>)
    requires Wf(st) && Covered(st) && i < |st.locks| && st.locks[i].pipeOpen && Missed(st, i, slot)
    requires AllHeld(Release(st, i), es)
    ensures var r := RunFrom(Release(st, i), es);
      Inhibited(r, slot) && Count(r, slot) > Live(r.locks, slot)
  {
    hide Release, Reached, Live, RunFrom, AllHeld;
    ReleaseExactlyAt(st, i, slot);
    assert Excess(st, slot) >= 0;
    ExcessStays(Release(st, i), es, slot);
  }

  /** Releasing a lock takes it, and no other lock, out of the number held. */
  lemma ReleaseOthers(st: Inhibitors, at: nat, slot: Slot)
    requires Wf(st) && at < |st.locks| && st.locks[at].pipeOpen
    ensures Live(Release(st, at).locks, slot) == Live(st.locks, slot) - (if Holds(st.locks[at], slot) then 1 else 0)
  {
    hide DisableAll, InOrder, Live;
    var lock := st.locks[at];
    var st1 := Closing(st, at, slot);
    LiveUpdate(st.locks, at, Closed(lock), slot);
    DisableAllKeeps(st.(locks := st.locks[at := Closed(lock)]), lock.id, lock.mode, InOrder(lock.events), slot);
  }

  // ----- names

  /** The name ck_inhibit_get_what prints for an event. */
  function EventName(e: What): string {
    match e
    case Shutdown => "shutdown"
    case Suspend => "suspend"
    case Idle => "idle"
    case PowerKey => "handle-power-key"
    case SuspendKey => "handle-suspend-key"
    case HibernateKey => "handle-hibernate-key"
    case LidSwitch => "handle-lid-switch"
  }

  function JoinNames(events: seq<What>): string {
    if events == [] then ""
    else if |events| == 1 then EventName(events[0])
    else EventName(events[0]) + ":" + JoinNames(events[1..])
  }

  /** ck_inhibit_get_what; "" stands for NULL */
  function GetWhat(events: set<What>): string { JoinNames(InOrder(events)) }

  predicate NoColon(s: string) { forall i :: 0 <= i < |s| ==> s[i] != ':' }

  lemma {:induction false} CutAt(head: string, tail: string)
    requires NoColon(head)
    ensures Cut(head + ":" + tail) == (head, Some(tail))
  {
    var s := head + ":" + tail;
    if head == [] {
      assert s[1..] == tail;
    } else {
      CutAt(head[1..], tail);
      assert s[1..] == head[1..] + ":" + tail;
      assert [head[0]] + head[1..] == head;
    }
  }

  lemma {:induction false} CutNone(s: string)
    requires NoColon(s)
    ensures Cut(s) == (s, None)
  {
    if s != [] {
      CutNone(s[1..]);
      assert [s[0]] + s[1..] == s;
    }
  }

  lemma NameFacts(e: What)
    ensures EventName(e) != "" && NoColon(EventName(e))
    ensures TokenEvent(EventName(e)) == if e == Suspend then None else Some(e)
  {
  }

  function Names(events: seq<What>): seq<string> {
    if events == [] then [] else [EventName(events[0])] + Names(events[1..])
  }

  lemma {:induction false} SplitNames(events: seq<What>)
    requires events != []
    ensures JoinNames(events) != ""
    ensures Split(JoinNames(events)) == SplitRest(JoinNames(events)) == Names(events)
  {
    hide EventName, NoColon, Cut;
    var name := EventName(events[0]);
    NameFacts(events[0]);
    if |events| == 1 {
      CutNone(name);
      assert Names(events[1..]) == [];
    } else {
      CutAt(name, JoinNames(events[1..]));
      SplitNames(events[1..]);
    }
  }

  lemma {:induction false} NamesParse(events: seq<What>)
    ensures forall e :: e in TokenEvents(Names(events)) <==> e in events && e != Suspend
  {
    hide EventName, TokenEvent, NoColon;
    if events != [] {
      NameFacts(events[0]);
      NamesParse(events[1..]);
      assert Names(events)[1..] == Names(events[1..]);
    }
  }

  /** What a lock is listed as reads back as what it inhibits, sleep excepted: it is asked
      for as "sleep" and listed as "suspend", a name the parser does not know. */
  lemma ListedNamesReadBack(events: set<What>)
    ensures ParseWhat(GetWhat(events)) == events - {Suspend}
    ensures GetWhat({Suspend}) == "suspend"
  {
    hide EventName, TokenEvent, Cut, Split, JoinNames, TokenEvents, Names;
    var es := InOrder(events);
    forall e ensures e in es <==> e in events {
      Emitted(events, e);
    }
    if es == [] {
      NothingListed();
    } else {
      SplitNames(es);
    }
    NamesParse(es);
    SleepListed();
  }

  lemma SleepListed()
    ensures GetWhat({Suspend}) == "suspend"
  {
    var es: set<What> := {Suspend};
    assert First(es) == Suspend && es - {Suspend} == {};
    assert InOrder(es - {Suspend}) == [];
    assert InOrder(es) == [Suspend] + InOrder(es - {Suspend});
  }

  lemma NothingListed()
    ensures Split(JoinNames([])) == Names([])
  {
  }

  // ----- the words of a request

  function Joined(tokens: seq<string>): string
    requires tokens != []
  {
    if |tokens| == 1 then tokens[0] else tokens[0] + ":" + Joined(tokens[1..])
  }

  /** The names a request may use. */
  predicate Named(token: string, e: What) {
    || (e == Shutdown && token == "shutdown")
    || (e == Suspend && token == "sleep")
    || (e == Idle && token == "idle")
    || (e == PowerKey && token == "handle-power-key")
    || (e == SuspendKey && token == "handle-suspend-key")
    || (e == HibernateKey && token == "handle-hibernate-key")
    || (e == LidSwitch && token == "handle-lid-switch")
  }

  ghost predicate TokensOf(what: string, tokens: seq<string>) {
    tokens != [] && what == Joined(tokens) && forall i :: 0 <= i < |tokens| ==> NoColon(tokens[i])
  }

  /** Every text falls into tokens at its colons, in one way. */
  lemma {:induction false} TokensExist(what: string)
    ensures TokensOf(what, SplitRest(what))
    decreases |what|
  {
    var (head, tail) := Cut(what);
    CutParts(what);
    if tail.Some? {
      TokensExist(tail.value);
      assert SplitRest(what)[1..] == SplitRest(tail.value);
    }
  }

  lemma {:induction false} CutParts(s: string)
    ensures var (head, tail) := Cut(s);
      NoColon(head) && s == if tail.None? then head else head + ":" + tail.value
  {
    if s != [] && s[0] != ':' {
      CutParts(s[1..]);
    }
  }

  lemma {:induction false} SplitJoined(what: string, tokens: seq<string>)
    requires TokensOf(what, tokens)
    ensures SplitRest(what) == tokens
    decreases |tokens|
  {
    hide Cut, NoColon;
    if |tokens| == 1 {
      CutNone(what);
    } else {
      SplitJoined(Joined(tokens[1..]), tokens[1..]);
      CutAt(tokens[0], Joined(tokens[1..]));
    }
  }

  /** The events asked for are those the tokens name, as far as the first empty token. */
  lemma ParsedExactly(what: string, tokens: seq<string>, e: What)
    requires TokensOf(what, tokens)
    ensures e in ParseWhat(what) <==>
      exists i :: 0 <= i < |tokens| && Named(tokens[i], e) && forall j :: 0 <= j <= i ==> tokens[j] != ""
  {
    hide TokenEvents, Named, Cut;
    SplitJoined(what, tokens);
    TokensExactly(tokens, e);
    if what == "" {
      assert SplitRest(what) == [""] by { CutNone(what); }
      assert TokenEvents([]) == {} by { NoTokens(); }
    }
  }

  lemma NoTokens()
    ensures TokenEvents([]) == {}
  {
  }

  lemma {:induction false} TokensExactly(tokens: seq<string>, e: What)
    ensures e in TokenEvents(tokens) <==>
      exists i :: 0 <= i < |tokens| && Named(tokens[i], e) && forall j :: 0 <= j <= i ==> tokens[j] != ""
  {
    hide TokenEvent, Named;
    if tokens != [] && tokens[0] != "" {
      var rest := tokens[1..];
      TokensExactly(rest, e);
      TokenNamed(tokens[0], e);
      if i :| 0 <= i < |rest| && Named(rest[i], e) && forall j :: 0 <= j <= i ==> rest[j] != "" {
        assert Named(tokens[i + 1], e) && forall j :: 1 <= j <= i + 1 ==> tokens[j] == rest[j - 1];
      }
      if i :| 0 <= i < |tokens| && Named(tokens[i], e) && forall j :: 0 <= j <= i ==> tokens[j] != "" {
        if i > 0 {
          assert Named(rest[i - 1], e) && forall j :: 0 <= j <= i - 1 ==> rest[j] == tokens[j + 1];
        }
      }
    }
  }

  lemma TokenNamed(token: string, e: What)
    ensures TokenEvent(token) == Some(e) <==> Named(token, e)
  {
  }

  function Rank(e: What): nat {
    match e
    case Shutdown => 0
    case Suspend => 1
    case Idle => 2
    case PowerKey => 3
    case SuspendKey => 4
    case HibernateKey => 5
    case LidSwitch => 6
  }

  /** The signals of a lock go out in a fixed order, one for each of its events. */
  lemma {:induction false} EmittedInOrder(events: set<What>)
    ensures var es := InOrder(events);
      && (forall e :: e in es <==> e in events)
      && forall i, j :: 0 <= i < j < |es| ==> Rank(es[i]) < Rank(es[j])
  {
    hide First, Rank;
    if events != {} {
      var first, rest := First(events), InOrder(events - {First(events)});
      EmittedInOrder(events - {first});
      forall e | e in events - {first} ensures Rank(first) < Rank(e) {
        FirstIsLeast(events, e);
      }
      assert forall j :: 0 <= j < |rest| ==> rest[j] in rest;
    }
  }

  lemma FirstIsLeast(events: set<What>, e: What)
    requires e in events && e != First(events)
    ensures Rank(First(events)) < Rank(e)
  {
  }

  /** How a request for a lock is answered, and what is listed for it: the names and the
      mode are looked at first, then the pipe. A client's end that cannot be opened leaves
      a lock that nobody holds with its pipe open. */
  lemma CreateAnswered(st: Inhibitors, what: string, mode: string, pipes: Pipes)
    requires Wf(st)
    ensures var (r, reply) := Create(st, what, mode, pipes);
      var events := ParseWhat(what);
      var understood := events != {} && mode in {"block", "delay"};
      && reply == (if !pipes.baseDir then General
                   else if !understood then InvalidInput
                   else if pipes.path == None then OutOfMemory
                   else if !pipes.opens || !pipes.client then General
                   else Created(st.nextId))
      && r.nextId == st.nextId + 1 && |r.locks| == |st.locks| + 1 && r.locks[..|st.locks|] == st.locks
      && var lock := r.locks[|st.locks|];
         && lock.id == st.nextId
         && (if reply.Created? then
               lock == Lock(st.nextId, if mode == "block" then Block else Delay, events, true, true, pipes.path)
             else
               && !lock.held && lock.pipeOpen ==
                  (pipes.baseDir && understood && pipes.path.Some? && pipes.opens && !pipes.client))
  {
    hide ParseWhat, EnableAll, InOrder, Wf;
    CreateKeeps(st, what, mode, pipes);
    ListedLast(st, what, mode, pipes);
    NextId(st, what, mode, pipes);
  }

  lemma NextId(st: Inhibitors, what: string, mode: string, pipes: Pipes)
    ensures Create(st, what, mode, pipes).0.nextId == st.nextId + 1
  {
    hide NewLock;
  }

  // ----- runs that go wrong

  predicate AllGoesWell(pipes: Pipes) {
    pipes.baseDir && pipes.path.Some? && pipes.opens && pipes.client
  }

  /** A request that succeeds, its names being known ones. */
  lemma LockTaken(st: Inhibitors, what: string, mode: string, pipes: Pipes)
    requires Wf(st) && AllGoesWell(pipes) && ParseWhat(what) != {} && ParseMode(mode) != Invalid
    ensures var (r, reply) := Create(st, what, mode, pipes);
      var lock := Lock(st.nextId, ParseMode(mode), ParseWhat(what), true, true, pipes.path);
      && Wf(r) && reply.Created? && r.locks == st.locks + [lock]
      && forall slot :: Count(r, slot) == Count(st, slot) + (if Holds(lock, slot) then 1 else 0)
  {
    hide ParseWhat, EnableAll, InOrder, Live, Wf;
    CreateKeeps(st, what, mode, pipes);
    var r := Create(st, what, mode, pipes).0;
    var lock := Lock(st.nextId, ParseMode(mode), ParseWhat(what), true, true, pipes.path);
    assert NewLock(st.nextId, what, mode, pipes).0 == lock;
    assert r.locks == st.locks + [lock] by { ListedLast(st, what, mode, pipes); }
    forall slot ensures Count(r, slot) == Count(st, slot) + (if Holds(lock, slot) then 1 else 0) {
      assert Excess(r, slot) == Excess(st, slot);
      LiveConcat(st.locks, [lock], slot);
      OneLock([lock], slot);
    }
  }

  lemma ListedLast(st: Inhibitors, what: string, mode: string, pipes: Pipes)
    requires Wf(st)
    ensures Create(st, what, mode, pipes).0.locks == st.locks + [NewLock(st.nextId, what, mode, pipes).0]
  {
    hide NewLock, ParseWhat;
    var lock := NewLock(st.nextId, what, mode, pipes).0;
    EmittedOnce(lock.events);
    EnableAllCounts(st, lock.mode, InOrder(lock.events));
  }

  lemma OneLock(locks: seq<Lock>, slot: Slot)
    requires |locks| == 1
    ensures Live(locks, slot) == if Holds(locks[0], slot) then 1 else 0
  {
    assert locks[1..] == [];
  }

  lemma RunOfOne(e: Event)
    ensures Run([e]) == Step(Start(), e)
  {
    assert [] + [e] == [e] && Run([]) == Start();
    RunOneMore([], e);
  }

  lemma RunOneMore(es: seq<Event>, e: Event)
    ensures Run(es + [e]) == Step(Run(es), e)
  {
    assert (es + [e])[..|es|] == es;
  }

  /** What the names asked for stand for. */
  lemma NamesAskedFor()
    ensures ParseWhat("shutdown:idle") == {Shutdown, Idle} && ParseWhat("idle") == {Idle}
    ensures ParseWhat("shutdown") == {Shutdown} && ParseWhat("sleep") == {Suspend}
  {
    hide Split, TokenEvents;
    assert TokenEvent("idle") == Some(Idle);
    assert TokenEvent("shutdown") == Some(Shutdown);
    assert TokenEvent("sleep") == Some(Suspend);
    OneName("idle");
    OneName("shutdown");
    OneName("sleep");
    TwoNames("shutdown", "idle");
    assert "shutdown" + ":" + "idle" == "shutdown:idle";
  }

  lemma OneName(a: string)
    requires a != "" && NoColon(a)
    ensures Split(a) == [a] && TokenEvents([a]) == match TokenEvent(a) case None => {} case Some(e) => {e}
  {
    CutNone(a);
    assert [a][1..] == [];
  }

  lemma TwoNames(a: string, b: string)
    requires a != "" && NoColon(a) && b != "" && NoColon(b)
    ensures ParseWhat(a + ":" + b) == ParseWhat(a) + ParseWhat(b)
  {
    CutAt(a, b);
    CutNone(b);
    OneName(a);
    OneName(b);
    assert ([a] + [b])[1..] == [b];
  }

  /** The smallest run in which a slot is missed: one lock on two events is taken and
      released. No lock is held any more, and the second event is still inhibited. */
  lemma TwoEventLockLeaks(pipes: Pipes)
    requires AllGoesWell(pipes)
    ensures var st := Run([LockRequested("shutdown:idle", "block", pipes), PipeClosed(0)]);
      Inhibited(st, Slot(Block, Idle)) && Live(st.locks, Slot(Block, Idle)) == 0
  {
    hide Release, Live, ParseWhat, Create, Reached;
    var e := LockRequested("shutdown:idle", "block", pipes);
    NamesAskedFor();
    StartIsExact();
    LockTaken(Start(), "shutdown:idle", "block", pipes);
    RunOfOne(e);
    RunOneMore([e], PipeClosed(0));
    assert [e] + [PipeClosed(0)] == [e, PipeClosed(0)];
    var st, slot := Run([e]), Slot(Block, Idle);
    OneLock(st.locks, slot);
    SecondIsMissed(st);
    ReleaseExactlyAt(st, 0, slot);
    ReleaseOthers(st, 0, slot);
  }

  lemma SecondIsMissed(st: Inhibitors)
    requires |st.locks| > 0 && st.locks[0].events == {Shutdown, Idle}
    ensures !Reached(st, 0, Slot(Block, Idle))
  {
    var es: set<What> := {Shutdown, Idle};
    var rest := es - {Shutdown};
    assert First(es) == Shutdown && rest == {Idle};
    assert InOrder(es) == [Shutdown] + InOrder(rest);
    AmongUnfolded(InOrder(es), 1, Idle);
    AmongUnfolded(InOrder(es)[1..], 0, Idle);
    assert PathlessBefore(st.locks, 0) == 0;
  }

  /** The smallest run in which a counter goes negative: the client's end of a lock cannot
      be opened, and the daemon's, left open, is hung up. A lock then taken on the same
      event is held without inhibiting it. */
  lemma AbandonedLockUnderflows(failing: Pipes, pipes: Pipes)
    requires failing.baseDir && failing.path.Some? && failing.opens && !failing.client && AllGoesWell(pipes)
    ensures var asked, hangUp := LockRequested("idle", "block", failing), PipeClosed(0);
      var st, again := Run([asked, hangUp]), Run([asked, hangUp, LockRequested("idle", "block", pipes)]);
      && Count(st, Slot(Block, Idle)) == -1
      && Live(again.locks, Slot(Block, Idle)) == 1 && !Inhibited(again, Slot(Block, Idle))
  {
    hide Release, Live, ParseWhat, Create, Reached, Wf;
    var asked, hangUp, slot := LockRequested("idle", "block", failing), PipeClosed(0), Slot(Block, Idle);
    NamesAskedFor();
    StartIsExact();
    RunOfOne(asked);
    RunOneMore([asked], hangUp);
    assert [asked] + [hangUp] == [asked, hangUp];
    ListedLast(Start(), "idle", "block", failing);
    CreateKeeps(Start(), "idle", "block", failing);
    var st0, st := Run([asked]), Run([asked, hangUp]);
    OnlyIsReached(st0);
    ReleaseExactlyAt(st0, 0, slot);
    ReleaseOthers(st0, 0, slot);
    OneLock(st0.locks, slot);
    RunOneMore([asked, hangUp], LockRequested("idle", "block", pipes));
    assert [asked, hangUp] + [LockRequested("idle", "block", pipes)]
        == [asked, hangUp, LockRequested("idle", "block", pipes)];
    LockTaken(st, "idle", "block", pipes);
    LiveConcat(st.locks, [Lock(st.nextId, Block, {Idle}, true, true, pipes.path)], slot);
    OneLock([Lock(st.nextId, Block, {Idle}, true, true, pipes.path)], slot);
  }

  lemma OnlyIsReached(st: Inhibitors)
    requires |st.locks| > 0 && st.locks[0].events == {Idle} && st.locks[0].mode == Block
    ensures Reached(st, 0, Slot(Block, Idle))
  {
    var es: set<What> := {Idle};
    assert First(es) == Idle;
    assert InOrder(es)[0] == Idle;
  }

  // ----- announcements

  /** What was last announced for a slot; nothing counts as not inhibited. */
  function Level(changes: seq<Changed>, slot: Slot): bool {
    if changes == [] then false
    else
      var last := changes[|changes| - 1];
      if last.slot == slot then last.enabled else Level(changes[..|changes| - 1], slot)
  }

  /** Every announcement changes what was announced before. */
  ghost predicate Alternates(changes: seq<Changed>) {
    changes == [] ||
    var n := |changes| - 1;
    Alternates(changes[..n]) && changes[n].enabled != Level(changes[..n], changes[n].slot)
  }

  /** What is announced is what get_inhibit_status answers. */
  ghost predicate AnnouncesStatus(st: Inhibitors) {
    Alternates(st.changes) && forall slot :: Level(st.changes, slot) == Inhibited(st, slot)
  }

  lemma {:induction false} EnableAllAnnounces(st: Inhibitors, mode: Mode, events: seq<What>)
    requires AnnouncesStatus(st)
    ensures AnnouncesStatus(EnableAll(st, mode, events))
    decreases |events|
  {
    if events != [] {
      var st1 := Enable(st, Slot(mode, events[0]));
      assert st1.changes != st.changes ==> st1.changes[..|st.changes|] == st.changes;
      EnableAllAnnounces(st1, mode, events[1..]);
    }
  }

  lemma {:induction false} DisableAllAnnounces(st: Inhibitors, id: nat, mode: Mode, events: seq<What>)
    requires AnnouncesStatus(st)
    ensures AnnouncesStatus(DisableAll(st, id, mode, events))
    decreases |events|
  {
    if events != [] && Listed(st.locks, id) {
      var st1 := Disable(st, Slot(mode, events[0]));
      assert st1.changes != st.changes ==> st1.changes[..|st.changes|] == st.changes;
      DisableAllAnnounces(st1, id, mode, events[1..]);
    }
  }

  /** In every run the announcements for a slot strictly alternate, and the last one is
      what the status query answers. */
  lemma {:induction false} EveryRunAnnouncesStatus(es: seq<Event>)
    ensures AnnouncesStatus(Run(es))
  {
    if es != [] {
      EveryRunAnnouncesStatus(es[..|es| - 1]);
      StepAnnouncesStatus(Run(es[..|es| - 1]), es[|es| - 1]);
    }
  }

  lemma StepAnnouncesStatus(st: Inhibitors, e: Event)
    requires AnnouncesStatus(st)
    ensures AnnouncesStatus(Step(st, e))
  {
    hide Level, Alternates;
    match e {
      case LockRequested(what, mode, pipes) =>
        var lock := NewLock(st.nextId, what, mode, pipes).0;
        EnableAllAnnounces(st, lock.mode, InOrder(lock.events));
      case PipeClosed(at) =>
        if at < |st.locks| {
          var lock := st.locks[at];
          DisableAllAnnounces(st.(locks := st.locks[at := Closed(lock)]), lock.id, lock.mode, InOrder(lock.events));
        }
    }
  }

  // ----- what one step announces

  /** The changes announced between two states of the manager. */
  function NewChanges(before: Inhibitors, after: Inhibitors): seq<Changed> {
    if |before.changes| <= |after.changes| then after.changes[|before.changes|..] else []
  }

  ghost predicate DropsToZero(before: Inhibitors, after: Inhibitors, slot: Slot) {
    Count(before, slot) == 1 && Count(after, slot) == 0
  }

  lemma {:induction false} EnableAllChanges(st: Inhibitors, mode: Mode, events: seq<What>, slot: Slot)
    ensures var r := EnableAll(st, mode, events);
      && st.changes <= r.changes && Count(r, slot) >= Count(st, slot)
      && Changed(slot, false) !in NewChanges(st, r)
    decreases |events|
  {
    hide NewChanges, Enable;
    NothingNew(st);
    if events != [] {
      var st1 := Enable(st, Slot(mode, events[0]));
      OneEnabled(st, Slot(mode, events[0]), slot);
      EnableAllChanges(st1, mode, events[1..], slot);
      ChangesInTurn(st, st1, EnableAll(st, mode, events));
    }
  }

  lemma OneEnabled(st: Inhibitors, slot0: Slot, slot: Slot)
    ensures var st1 := Enable(st, slot0);
      st.changes <= st1.changes && Count(st1, slot) >= Count(st, slot) && Changed(slot, false) !in NewChanges(st, st1)
  {
  }

  /** Signals for other events leave a slot's counter alone. */
  lemma {:induction false} DisableAllElsewhere(st: Inhibitors, id: nat, mode: Mode, events: seq<What>, slot: Slot)
    requires slot.mode != mode || slot.what !in events
    ensures var r := DisableAll(st, id, mode, events);
      && st.changes <= r.changes && Count(r, slot) == Count(st, slot)
      && Changed(slot, false) !in NewChanges(st, r)
    decreases |events|
  {
    hide RemovePathless, Listed, NewChanges;
    NothingNew(st);
    if events != [] && Listed(st.locks, id) {
      var st1 := Disable(st, Slot(mode, events[0]));
      var r := DisableAll(st, id, mode, events);
      DisableAllElsewhere(st1, id, mode, events[1..], slot);
      ChangesInTurn(st, st1, r);
      OneDisabled(st, Slot(mode, events[0]), slot);
    }
  }

  lemma NothingNew(st: Inhibitors)
    ensures NewChanges(st, st) == []
  {
  }

  lemma ChangesInTurn(st: Inhibitors, st1: Inhibitors, r: Inhibitors)
    requires st.changes <= st1.changes <= r.changes
    ensures NewChanges(st, r) == NewChanges(st, st1) + NewChanges(st1, r) && st.changes <= r.changes
  {
  }

  lemma OneDisabled(st: Inhibitors, slot0: Slot, slot: Slot)
    ensures var st1 := Disable(st, slot0);
      && st.changes <= st1.changes
      && NewChanges(st, st1) == (if Count(st, slot0) == 1 then [Changed(slot0, false)] else [])
      && Count(st1, slot) == Count(st, slot) - (if slot == slot0 then 1 else 0)
  {
    hide RemovePathless;
  }

  /** A slot is announced as no longer inhibited exactly when its counter goes from one to
      zero. */
  lemma {:induction false} DisableAllChanges(st: Inhibitors, id: nat, mode: Mode, events: seq<What>, slot: Slot)
    requires Distinct(events)
    ensures var r := DisableAll(st, id, mode, events);
      && st.changes <= r.changes
      && (Changed(slot, false) in NewChanges(st, r) <==> DropsToZero(st, r, slot))
    decreases |events|
  {
    hide RemovePathless;
    if events != [] && Listed(st.locks, id) {
      var slot0 := Slot(mode, events[0]);
      var st1 := Disable(st, slot0);
      var r := DisableAll(st, id, mode, events);
      if slot == slot0 {
        assert slot.what !in events[1..];
        DisableAllElsewhere(st1, id, mode, events[1..], slot);
      } else {
        DisableAllChanges(st1, id, mode, events[1..], slot);
      }
      assert NewChanges(st, r) == NewChanges(st, st1) + NewChanges(st1, r);
    }
  }

  lemma StepChanges(st: Inhibitors, e: Event, slot: Slot)
    ensures st.changes <= Step(st, e).changes
    ensures Changed(slot, false) in NewChanges(st, Step(st, e)) <==> DropsToZero(st, Step(st, e), slot)
  {
    hide DisableAll, EnableAll, InOrder;
    match e {
      case LockRequested(what, mode, pipes) =>
        var lock := NewLock(st.nextId, what, mode, pipes).0;
        EnableAllChanges(st, lock.mode, InOrder(lock.events), slot);
      case PipeClosed(at) =>
        if at < |st.locks| {
          var lock := st.locks[at];
          var st1 := st.(locks := st.locks[at := Closed(lock)]);
          EmittedOnce(lock.events);
          DisableAllChanges(st1, lock.id, lock.mode, InOrder(lock.events), slot);
          assert Count(st1, slot) == Count(st, slot);
        }
    }
  }
}
