/** The manager object of ck-manager.c, updated in place: its tables of sessions, seats and
    leaders, the idle hint and the pending system action. Each method is proved against its
    function in ManagerSpec or ActionSpec over the state of all objects together. */
module Manager {
  import opened Text
  import opened Console
  import opened SessionSpec
  import opened SeatSpec
  import opened InhibitSpec
  import opened ActionSpec
  import opened Ids
  import opened ManagerSpec
  import ManagerEvents
  import opened Session
  import opened Seat
  import opened SystemActions

  lemma BootedIsPartitioned(platform: Platform, vt: nat)
    ensures Tables(Booted(platform, vt))
  {
    assert SeatOk(Booted(platform, vt), SEAT0);
  }

  /** The tables with the session listed, not yet on a seat. */
  function Entered(m: ManagerState, ssid: Id, info: SessionInfo, saysLocal: bool, peer: Option<Id>,
      created: bool): ManagerState {
    var dir := DirOf(m.sessions, peer);
    m.(sessions := m.sessions[ssid := WithDir(NewSession(info, saysLocal), dir, created)],
       dirs := if dir.None? && created then m.dirs + {info.uid} else m.dirs)
  }

  /** m2 is m with the session listed, and its seat, sid, made if need be. */
  ghost predicate Seated(m: ManagerState, ssid: Id, info: SessionInfo, saysLocal: bool, created: bool,
                          peer: Option<Id>, sid: Id, next: nat, m2: ManagerState)
  {
    var m1 := Entered(m, ssid, info, saysLocal, peer, created);
    if GoesToSeat0(m, info, saysLocal) then m2 == m1 && sid == SEAT0
    else
      && m2 == m1.(seats := m1.seats[sid := SeatState(Dynamic, {}, None)], seatSerial := next)
      && m.seatSerial < SIGN_BIT && IsFresh(SEAT_PREFIX, 0, m.seatSerial, m.seats.Keys, sid, next)
  }

  lemma SeatedWorld(m: ManagerState, ssid: Id, o: Opening, m2: ManagerState, seat: SeatState)
    requires Seated(m, ssid, o.info, o.saysLocal, o.created, o.peer, o.seatId, o.seatNext, m2)
    requires o.seatId in m2.seats && ssid in m2.sessions
    ensures SeatIdFor(m, o) == o.seatId && m2.sessions[ssid] == Opened(m, o)
    ensures Attach(WorldOf(m2, o.seatId), ssid, m2.sessions[ssid], o.seatId) == Attached(m, ssid, o)
    ensures m2 == m.(
      sessions := m2.sessions, seats := m2.seats,
      seatSerial := if GoesToSeat0(m, o.info, o.saysLocal) then m.seatSerial else o.seatNext,
      dirs := if MakesDir(m, o) then m.dirs + {o.info.uid} else m.dirs)
    ensures m2.seats[o.seatId := seat] == m.seats[o.seatId := seat]
  {
    hide IsFresh, NewSession, DirOf, OnLocalConsole;
    var s := Opened(m, o).(reg := Opened(m, o).reg.(seatId := Some(o.seatId)));
    Overwritten(m.sessions, m2.sessions, ssid, Opened(m, o), s);
    Overwritten(m.seats, m2.seats, o.seatId, SeatState(Dynamic, {}, None), seat);
  }

  lemma Overwritten<K, V>(before: map<K, V>, between: map<K, V>, k: K, v: V, w: V)
    requires between == before || between == before[k := v]
    ensures between[k := w] == before[k := w]
  {
  }

  /** Listing, seating and attaching a session is opening it. */
  lemma OpenedByParts(m: ManagerState, ssid: Id, o: Opening, m2: ManagerState, r: World)
    requires Partition(m) && ssid !in m.sessions && m.seatSerial < SIGN_BIT && IsPeer(m.sessions, o.info.uid, o.peer)
    requires Seated(m, ssid, o.info, o.saysLocal, o.created, o.peer, o.seatId, o.seatNext, m2)
    requires o.seatId in m2.seats && ssid in m2.sessions
    requires IsUpdate(Attach(WorldOf(m2, o.seatId), ssid, m2.sessions[ssid], o.seatId), o.found, o.kernel, r)
    ensures CanOpen(m, ssid, o) && ssid in r.store
    ensures var t := PutWorld(m2, o.seatId, r);
      t.(sessions := SetLocal(t.sessions, ssid, o.isLocal)) == OpenTables(m, ssid, o)
  {
    hide MaybeUpdate, LooksUp, GoesToSeat0, IsFresh, Partition, IsPeer, Opened, MakesDir, SeatIdFor, SeatFor,
         Entered, SetLocal, Attach;
    SeatedWorld(m, ssid, o, m2, r.seat);
    PartitionWf(m);
    AttachedKeys(m, ssid, o);
    KeepsKeys(Attached(m, ssid, o), o.found, o.kernel);
  }

  lemma AttachedKeys(m: ManagerState, ssid: Id, o: Opening)
    ensures ssid in Attached(m, ssid, o).store && Attached(m, ssid, o).vt == m.vt
  {
  }

  lemma KeepsKeys(w: World, found: Option<Id>, kernel: Kernel)
    requires w.seat.kind == Static && w.seat.active.Some? ==> w.seat.active.value in w.store
    requires w.seat.kind == Static && found.Some? ==> found.value in w.store
    ensures MaybeUpdate(w, found, kernel).store.Keys == w.store.Keys
  {
    hide SessionSpec.SetActive;
  }

  lemma OnNoSeat(m: ManagerState, ssid: Id)
    requires Partition(m) && ssid !in m.sessions
    ensures forall sid :: sid in m.seats ==> ssid !in m.seats[sid].members
  {
    forall sid | sid in m.seats ensures ssid !in m.seats[sid].members {
      assert SeatOk(m, sid);
    }
  }

  lemma ValuesOfMore<K, V>(m: map<K, V>, k: K, v: V)
    requires k !in m
    ensures m[k := v].Values == m.Values + {v}
  {
    var t := m[k := v];
    forall x | x in m.Values ensures x in t.Values {
      var j :| j in m && m[j] == x;
      assert t[j] == x;
    }
    assert t[k] == v;
  }

  ghost function Objects(m: Manager, sessions: Table, seats: map<Id, Seat>, devices: set<Device>): set<object> {
    {m} + sessions.Values + devices + seats.Values
  }

  lemma OneMoreSession(m: Manager, sessions: Table, seats: map<Id, Seat>, devices: set<Device>, session: Session)
    requires session.id !in sessions
    ensures Objects(m, sessions[session.id := session], seats, devices) ==
      Objects(m, sessions, seats, devices) + {session}
  {
    ValuesOfMore(sessions, session.id, session);
  }

  lemma OneMoreSeat(m: Manager, sessions: Table, seats: map<Id, Seat>, devices: set<Device>, seat: Seat)
    requires seat.id !in seats
    ensures Objects(m, sessions, seats[seat.id := seat], devices) == Objects(m, sessions, seats, devices) + {seat}
  {
    ValuesOfMore(seats, seat.id, seat);
  }

  lemma FewerObjects(m: Manager, sessions: Table, seats: map<Id, Seat>, devices: set<Device>,
                     sessions': Table, seats': map<Id, Seat>, devices': set<Device>)
    requires sessions'.Values <= sessions.Values && seats'.Values <= seats.Values && devices' <= devices
    ensures Objects(m, sessions', seats', devices') <= Objects(m, sessions, seats, devices)
  {
  }

  lemma SoundWithOneMore(seat: Seat, all: Table, session: Session)
    requires seat.Sound(all) && session.id !in all
    ensures seat.Sound(all[session.id := session])
  {
    if seat.activeSession != null {
      var k :| k in all && all[k] == seat.activeSession;
      assert all[session.id := session][k] == seat.activeSession;
    }
  }

  lemma WithOneMore(all: Table, session: Session)
    requires session.id !in all && session.devices == []
    ensures var t := all[session.id := session];
      && Store(t) == Store(all)[session.id := session.View()] && DevicesOf(t) == DevicesOf(all)
      && (ValidTable(all) && session.Valid() ==> ValidTable(t))
  {
    var t := all[session.id := session];
    assert Store(t).Keys == Store(all).Keys + {session.id};
    forall d | d in DevicesOf(all) ensures d in DevicesOf(t) {
      var k :| k in all && d in all[k].devices;
      assert k in t && t[k] == all[k];
    }
    forall d | d in DevicesOf(t) ensures d in DevicesOf(all) {
      var k :| k in t && d in t[k].devices;
      assert k != session.id && k in all && t[k] == all[k];
    }
  }

  lemma WithOneLess(all: Table, id: Id)
    requires id in all
    ensures var t := all - {id};
      && Store(t) == Store(all) - {id} && DevicesOf(t) <= DevicesOf(all)
      && (ValidTable(all) ==> ValidTable(t))
  {
    var t := all - {id};
    forall d | d in DevicesOf(t) ensures d in DevicesOf(all) {
      var k :| k in t && d in t[k].devices;
      assert k in all && all[k] == t[k];
    }
  }

  /** Leaving the seat, being unlisted, and the two updates that follow are closing. */
  lemma ClosedByParts(m: ManagerState, ssid: Id, c: Closing, sid: Id, r: World, m2: ManagerState, m3: ManagerState)
    requires Partition(m) && ssid in m.sessions && m.sessions[ssid].reg.seatId == Some(sid) && sid in m.seats
    requires IsUpdate(Detach(WorldOf(m, sid), ssid), c.found, c.kernel, r)
    requires m2 == PutWorld(m, sid, r).(
      seats := if m.seats[sid].kind == Dynamic then m.seats - {sid} else m.seats[sid := r.seat])
    requires m3 == UpdateIdle(m2.(sessions := m2.sessions - {ssid}))
    requires IsPeer(m3.sessions, m.sessions[ssid].info.uid, c.peer)
    ensures CanClose(m, ssid, c)
    ensures CloseSession(m, ssid, c) == m3.(
      dirs := if DirOf(m3.sessions, c.peer).None? then m3.dirs - {m.sessions[ssid].info.uid} else m3.dirs)
  {
    hide MaybeUpdate, LooksUp, Partition, UpdateIdle, DirOf, IsPeer;
    UpdateIdleFrame(m2.(sessions := m2.sessions - {ssid}));
    ClosesFrom(m, ssid, sid, c.found, c.kernel, r);
    SamePeer(m.sessions - {ssid}, m3.sessions, m.sessions[ssid].info.uid, c.peer);
    var t := CloseTables(m, ssid, c);
    assert t == m2.(sessions := m2.sessions - {ssid}, dirs := t.dirs);
    IdleIgnoresDirs(m2.(sessions := m2.sessions - {ssid}), t.dirs);
  }

  lemma IdleIgnoresDirs(m: ManagerState, dirs: set<nat>)
    ensures UpdateIdle(m.(dirs := dirs)) == UpdateIdle(m).(dirs := dirs)
  {
  }

  lemma SamePeer(a: map<Id, SessionState>, b: map<Id, SessionState>, uid: nat, peer: Option<Id>)
    requires SameRegistration(a, b) && IsPeer(b, uid, peer)
    ensures IsPeer(a, uid, peer)
  {
  }

  lemma NowOnNoSeat(m: ManagerState, ssid: Id, sid: Id, found: Option<Id>, kernel: Kernel, r: World, m2: ManagerState)
    requires Partition(m) && ssid in m.sessions && m.sessions[ssid].reg.seatId == Some(sid) && sid in m.seats
    requires IsUpdate(Detach(WorldOf(m, sid), ssid), found, kernel, r)
    requires m2.seats == if m.seats[sid].kind == Dynamic then m.seats - {sid} else m.seats[sid := r.seat]
    ensures forall s :: s in m2.seats ==> ssid !in m2.seats[s].members
  {
    hide SessionSpec.SetActive, IsLookup;
    forall s | s in m2.seats ensures ssid !in m2.seats[s].members {
      if s != sid { assert SeatOk(m, s); }
    }
  }

  lemma ClosesFrom(m: ManagerState, ssid: Id, sid: Id, found: Option<Id>, kernel: Kernel, r: World)
    requires Partition(m) && ssid in m.sessions && m.sessions[ssid].reg.seatId == Some(sid) && sid in m.seats
    requires IsUpdate(Detach(WorldOf(m, sid), ssid), found, kernel, r)
    ensures CachesOk(m) && (forall s :: s in m.seats ==> m.seats[s].members <= m.sessions.Keys)
    ensures ssid in m.seats[sid].members && SameRegistration(m.sessions - {ssid}, r.store - {ssid})
    ensures r.seat.kind == m.seats[sid].kind
  {
    hide MaybeUpdate, LooksUp, Partition;
    PartitionWf(m);
    assert Placed(m, ssid) by { IsPlaced(m, ssid); }
    forall s | s in m.seats ensures m.seats[s].members <= m.sessions.Keys {
      assert SeatSpec.Wf(WorldOf(m, s));
    }
    MaybeUpdateFrame(Detach(WorldOf(m, sid), ssid), found, kernel);
  }

  /** What the manager's tables say of one leader and its session. */
  lemma OfLeader(m: ManagerState, cookie: Cookie)
    requires Tables(m) && cookie in m.leaders
    ensures Partition(m) && (m.leaders[cookie].pending ==> m.leaders[cookie].session !in m.sessions)
  {
    assert LeaderOk(m, cookie);
  }

  lemma LeadersKept(m: ManagerState, ssid: Id, o: Opening)
    requires CanOpen(m, ssid, o)
    ensures OpenSession(m, ssid, o).leaders == m.leaders
  {
    hide MaybeUpdate, SetLocal;
  }

  lemma LeadersKeptClosing(m: ManagerState, ssid: Id, c: Closing)
    requires CanClose(m, ssid, c)
    ensures CloseSession(m, ssid, c).leaders == m.leaders
  {
    hide LeaveSeat;
  }

  lemma SwitchedByUpdate(m: ManagerState, e: ManagerEvent, r: World)
    requires Partition(m) && e.VtSwitched? && e.num < UINT_RANGE && e.num != m.vt
    requires SEAT0 in m.seats && IsUpdate(WorldOf(m, SEAT0).(vt := e.num), e.found, e.kernel, r)
    ensures CanHappen(m, e) && Next(m, e) == PutWorld(m.(vt := e.num), SEAT0, r)
  {
    hide ChangeActive, IsLookup;
    PartitionWf(m);
    HasSeat0(m);
    assert SeatSpec.Wf(WorldOf(m, SEAT0));
  }

  ghost predicate CanActivate(w: World, id: Id) {
    id in w.store && (w.seat.active.Some? ==> w.seat.active.value in w.store)
  }

  lemma OnlyStaticActivates(w: World, id: Id, switched: bool, kernel: Kernel, vt: nat)
    requires CanActivate(w, id) && (w.seat.kind == Static ==> w.vt == vt)
    ensures Activate(w.(vt := vt), id, switched, kernel).0 == Activate(w, id, switched, kernel).0.(vt := vt)
    ensures Activate(w.(vt := vt), id, switched, kernel).1 == Activate(w, id, switched, kernel).1
    ensures Activate(w, id, switched, kernel).0.seat == w.seat
  {
    hide SessionSpec.SetActive, Num;
    if w.seat.kind == Static {
      assert w.(vt := vt) == w;
    }
  }

  // ----- the sweep

  /** What is kept of a leader taken off the table: g_ptr_array entries, in order */
  datatype RemoveEntity = RemoveEntity(cookie: Cookie, leader: Leader)

  function CookiesOf(entities: seq<RemoveEntity>): (r: seq<Cookie>)
    ensures |r| == |entities| && forall i :: 0 <= i < |r| ==> r[i] == entities[i].cookie
  {
    seq(|entities|, i requires 0 <= i < |entities| => entities[i].cookie)
  }

  /** g_ptr_array_remove_index_fast at 0: the last entry takes the place of the first. */
  function RemoveFirstFast<T>(s: seq<T>): seq<T>
    requires s != []
  {
    if |s| == 1 then [] else [s[|s| - 1]] + s[1..|s| - 1]
  }

  /** order has been removed from all that way, and left is what remains. */
  ghost predicate Halfway(all: seq<Cookie>, order: seq<Cookie>, left: seq<Cookie>) {
    && |order| + |left| == |all|
    && (forall k :: 0 <= k < |order| ==> order[k] == all[if k == 0 then 0 else |all| - k])
    && (forall j :: 0 <= j < |left| ==> left[j] == all[if j == 0 && |order| > 0 then |all| - |order| else j])
  }

  lemma OneFurther(all: seq<Cookie>, order: seq<Cookie>, left: seq<Cookie>)
    requires Halfway(all, order, left) && left != []
    ensures Halfway(all, order + [left[0]], RemoveFirstFast(left))
  {
  }

  lemma CookiesLeft(entities: seq<RemoveEntity>)
    requires entities != []
    ensures CookiesOf(RemoveFirstFast(entities)) == RemoveFirstFast(CookiesOf(entities))
    ensures forall i :: 0 <= i < |entities| - 1 ==> RemoveFirstFast(entities)[i] in entities
  {
  }

  /** Taken to the end it has removed every entry once. */
  lemma EachOnce(m: ManagerState, service: Sender, all: seq<Cookie>, order: seq<Cookie>)
    requires LeadersOf(m, service, all) && Halfway(all, order, [])
    ensures LeadersOf(m, service, order) && (set c | c in order) == (set c | c in all)
  {
    forall c ensures c in order <==> c in all {
      if c in all {
        var i :| 0 <= i < |all| && all[i] == c;
        assert order[if i == 0 then 0 else |all| - i] == c;
      }
    }
  }

  lemma SweepSnoc(m: ManagerState, leaders: map<Cookie, Leader>, order: seq<Cookie>, closings: seq<Closing>,
      cookie: Cookie, c: Closing)
    requires (forall k :: k in order ==> k in leaders) && cookie in leaders && CanSweep(m, leaders, order, closings)
    requires var b := Sweep(m, leaders, order, closings);
      leaders[cookie].session in b.sessions ==> CanClose(b, leaders[cookie].session, c)
    ensures CanSweep(m, leaders, order + [cookie], closings + [c])
    ensures var b := Sweep(m, leaders, order, closings);
      Sweep(m, leaders, order + [cookie], closings + [c])
      == if leaders[cookie].session in b.sessions then CloseSession(b, leaders[cookie].session, c) else b
  {
    hide CanClose, CloseSession;
    assert (order + [cookie])[..|order|] == order && (closings + [c])[..|order|] == closings;
  }

  lemma SweepStart(m: ManagerState, leaders: map<Cookie, Leader>)
    ensures CanSweep(m, leaders, [], []) && Sweep(m, leaders, [], []) == m
  {
  }

  lemma HalfwayStart(all: seq<Cookie>)
    ensures Halfway(all, [], all)
  {
  }

  lemma Swept(m: ManagerState, m1: ManagerState, service: Sender, all: seq<Cookie>, order: seq<Cookie>,
      closings: seq<Closing>)
    requires Tables(m) && LeadersOf(m, service, order) && (set c | c in order) == (set c | c in all)
    requires m1 == WithoutLeaders(m, all) && CanSweep(m1, m.leaders, order, closings)
    ensures CanHappen(m, PeerGone(service, order, closings))
    ensures Next(m, PeerGone(service, order, closings)) == Sweep(m1, m.leaders, order, closings)
    ensures Tables(Sweep(m1, m.leaders, order, closings))
  {
    hide CanSweep, Sweep, Tables;
    assert WithoutLeaders(m, order) == m1;
    SweepRemovesExactly(m, PeerGone(service, order, closings));
  }

  lemma PartitionOf(m: ManagerState)
    requires Tables(m)
    ensures Partition(m)
  {
  }

  lemma SamePartitionWithout(m: ManagerState, order: seq<Cookie>)
    requires Partition(m)
    ensures Partition(WithoutLeaders(m, order))
  {
    SamePartition(m, WithoutLeaders(m, order));
  }

  /** The VT matters to a static seat only. */
  lemma OnlyStaticFollows(w: World, found: Option<Id>, kernel: Kernel, r: World, vt: nat)
    requires IsUpdate(w, found, kernel, r) && (w.seat.kind == Static ==> w.vt == vt && r.vt == vt)
    ensures IsUpdate(w.(vt := vt), found, kernel, r.(vt := vt))
  {
    hide ChangeActive, IsLookup;
    if w.seat.kind == Static {
      assert w.(vt := vt) == w && r.(vt := vt) == r;
    }
  }

  class Manager {
    const platform: Platform
    var vt: nat  // the VT monitor's number, shared with the static seat
    var sessions: Table
    var seats: map<Id, Seat>
    var leaders: map<Cookie, Leader>
    var sessionSerial: nat
    var seatSerial: nat
    var systemIdleHint: bool
    const systemActions: SystemActions
    ghost var dirs: set<nat>
    ghost var idleSent: seq<bool>

    ghost function SeatStates(): map<Id, SeatState>
      reads this`seats, seats.Values
    {
      map sid | sid in seats :: seats[sid].State()
    }

    ghost function View(): ManagerState
      reads this, sessions.Values, DevicesOf(sessions), seats.Values, systemActions, systemActions.inhibitManager
    {
      ManagerState(platform, vt, Store(sessions), SeatStates(), leaders, sessionSerial, seatSerial,
                   dirs, systemIdleHint, idleSent, systemActions.View())
    }

    /** Every seat is listed under its own id and holds sessions of the table. */
    ghost predicate SeatsValid()
      reads this`sessions, this`seats, this`vt, seats.Values
    {
      forall sid :: sid in seats ==> SeatValid(sid)
    }

    ghost predicate SeatValid(sid: Id)
      requires sid in seats
      reads this`sessions, this`seats, this`vt, seats.Values
    {
      && seats[sid].id == sid && seats[sid].platform == platform && seats[sid].Sound(sessions)
      && (sid == SEAT0 ==> seats[sid].vt == vt)
    }

    /** The objects are in order, each by itself and in its table. */
    ghost predicate Ok()
      reads this, sessions.Values, seats.Values
    {
      && ValidTable(sessions) && SeatsValid()
      && vt < UINT_RANGE && 1 <= sessionSerial < SIGN_BIT && seatSerial < SIGN_BIT
    }

    ghost predicate LocksOk()
      reads systemActions, systemActions.inhibitManager, systemActions.inhibitManager.inhibitors,
            systemActions.inhibitManager.inhibitList
    {
      systemActions.Valid()
    }

    ghost predicate Valid()
      reads this, sessions.Values, DevicesOf(sessions), seats.Values,
            systemActions, systemActions.inhibitManager, systemActions.inhibitManager.inhibitors,
            systemActions.inhibitManager.inhibitList
    {
      Ok() && LocksOk() && Tables(View())
    }

    /** Everything opening and closing sessions may change. */
    ghost function Footprint(): set<object>
      reads this`sessions, this`seats, sessions.Values
    {
      Objects(this, sessions, seats, DevicesOf(sessions))
    }

    lemma InFootprint()
      ensures this in Footprint() && sessions.Values <= Footprint() && seats.Values <= Footprint()
      ensures DevicesOf(sessions) <= Footprint()
    {
    }

    /** The manager once the primary seat has been loaded. */
    constructor (platform: Platform, vt: nat)
      requires vt < UINT_RANGE
      ensures Valid() && View() == Booted(platform, vt)
    {
      hide Tables, SystemActions.Valid;
      var seat0 := new Seat(SEAT0, Static, platform, vt);
      var actions := new SystemActions();
      this.platform, this.vt := platform, vt;
      sessions, leaders, sessionSerial, seatSerial := map[], map[], 1, 1;
      seats, systemActions, systemIdleHint := map[SEAT0 := seat0], actions, true;
      dirs, idleSent := {}, [];
      new;
      assert seats[SEAT0] == seat0 && SeatValid(SEAT0);
      assert Store(sessions) == map[] && SeatStates() == map[SEAT0 := SeatState(Static, {}, None)];
      BootedIsPartitioned(platform, vt);
    }

    // ----- the system idle hint

    /** The search for a session that is not idle. */
    method AnyBusy() returns (busy: bool)
      ensures busy == !AllIdle(Store(sessions))
    {
      busy := false;
      var rest := sessions.Keys;
      while rest != {} && !busy
        invariant rest <= sessions.Keys
        invariant busy ==> exists id :: id in sessions && !sessions[id].reg.idle
        invariant !busy ==> forall id :: id in sessions && id !in rest ==> sessions[id].reg.idle
        decreases |rest|
      {
        var id :| id in rest;
        busy := !sessions[id].reg.idle;
        rest := rest - {id};
      }
      assert forall id :: id in sessions ==> Store(sessions)[id].reg.idle == sessions[id].reg.idle;
    }

    /** manager_set_system_idle_hint */
    method SetSystemIdleHint(idle: bool)
      requires systemActions.Valid()
      modifies this`systemIdleHint, this`idleSent
      ensures systemIdleHint == (idle && !Inhibited(systemActions.inhibitManager.model, Slot(Block, InhibitSpec.Idle)))
      ensures idleSent ==
        if systemIdleHint == old(systemIdleHint) then old(idleSent) else old(idleSent) + [systemIdleHint]
    {
      var blocked := systemActions.inhibitManager.GetInhibitStatus(Slot(Block, InhibitSpec.Idle));
      var hint := idle && !blocked;
      if systemIdleHint != hint {
        systemIdleHint := hint;
        idleSent := idleSent + [hint];
      }
    }

    /** manager_update_system_idle_hint */
    method UpdateSystemIdleHint()
      requires systemActions.Valid()
      modifies this`systemIdleHint, this`idleSent
      ensures View() == UpdateIdle(old(View()))
    {
      hide AllIdle, InhibitSpec.Wf, Inhibited, ActionInv, Session.View, SeatStates;
      var busy := AnyBusy();
      assert Store(sessions) == old(Store(sessions));
      SetSystemIdleHint(!busy);
      assert Store(sessions) == old(Store(sessions));
    }

    // ----- opening

    /** get_runtime_dir_for_user */
    method GetRuntimeDirForUser(uid: nat) returns (dir: Option<string>, ghost peer: Option<Id>)
      ensures IsPeer(Store(sessions), uid, peer) && dir == DirOf(Store(sessions), peer)
    {
      var rest := sessions.Keys;
      while rest != {}
        invariant rest <= sessions.Keys
        invariant forall id :: id in sessions && id !in rest ==> sessions[id].info.uid != uid
        decreases |rest|
      {
        var id :| id in rest;
        if sessions[id].info.uid == uid {
          return sessions[id].reg.runtimeDir, Some(id);
        }
        rest := rest - {id};
      }
      return None, None;
    }

    /** find_seat_for_session */
    function FindSeatForSession(info: SessionInfo, local: bool): Seat?
      reads this`seats
    {
      if OnLocalConsole(info, local) && SEAT0 in seats then seats[SEAT0] else null
    }

    /** generate_seat_id */
    method GenerateSeatId() returns (sid: Id)
      requires seatSerial < SIGN_BIT && |seats.Keys| < Period(0)
      modifies this`seatSerial
      ensures IsFresh(SEAT_PREFIX, 0, old(seatSerial), seats.Keys, sid, seatSerial) && seatSerial < SIGN_BIT
      ensures sid !in seats
    {
      sid, seatSerial := GenerateId(SEAT_PREFIX, 0, seatSerial, seats.Keys);
    }

    method InsertSeat(seat: Seat)
      requires SeatsValid() && seat.id !in seats && seat.platform == platform && seat.vt == vt && seat.Sound(sessions)
      modifies this`seats
      ensures SeatsValid() && seats == old(seats)[seat.id := seat]
      ensures SeatStates() == old(SeatStates())[seat.id := seat.State()]
    {
      seats := seats[seat.id := seat];
      forall sid | sid in seats ensures SeatValid(sid) {
        assert sid != seat.id ==> old(SeatValid(sid));
      }
    }

    /** A seat made under a new id. */
    method MakeSeat(kind: SeatKind) returns (seat: Seat)
      requires seatSerial < SIGN_BIT && |seats.Keys| < Period(0) && vt < UINT_RANGE
      modifies this`seatSerial
      ensures fresh(seat) && seat.id !in seats && seat.platform == platform && seat.vt == vt && seat.Sound(sessions)
      ensures IsFresh(SEAT_PREFIX, 0, old(seatSerial), seats.Keys, seat.id, seatSerial) && seatSerial < SIGN_BIT
      ensures seat.State() == SeatState(kind, {}, None)
    {
      hide IsFresh;
      var sid := GenerateSeatId();
      seat := new Seat(sid, kind, platform, vt);
    }

    /** add_new_seat, the seat's registration on the bus succeeding */
    method AddNewSeat(kind: SeatKind) returns (seat: Seat)
      requires ValidTable(sessions) && SeatsValid()
      requires seatSerial < SIGN_BIT && |seats.Keys| < Period(0) && vt < UINT_RANGE
      modifies this`seats, this`seatSerial
      ensures ValidTable(sessions) && SeatsValid() && fresh(seat) && seat.id !in old(seats)
      ensures seats == old(seats)[seat.id := seat] && seat.vt == vt
      ensures IsFresh(SEAT_PREFIX, 0, old(seatSerial), old(seats).Keys, seat.id, seatSerial) && seatSerial < SIGN_BIT
      ensures seat.State() == SeatState(kind, {}, None)
      ensures Store(sessions) == old(Store(sessions))
      ensures SeatStates() == old(SeatStates())[seat.id := seat.State()]
    {
      hide IsFresh, Session.Valid, SeatValid;
      seat := MakeSeat(kind);
      assert Store(sessions) == old(Store(sessions));
      assert SeatStates() == old(SeatStates());
      InsertSeat(seat);
    }

    /** The directory of a user about to get a session: the one in use, or one that
        ck_generate_runtime_dir_for_user makes, if it can. */
    method ProvideRuntimeDir(uid: nat, created: bool) returns (dir: Option<string>, ghost peer: Option<Id>)
      modifies this`dirs
      ensures IsPeer(old(Store(sessions)), uid, peer)
      ensures var found := DirOf(old(Store(sessions)), peer);
        && dir == (if found.Some? then found else if created then Some(RunDir(uid)) else None)
        && dirs == if found.None? && created then old(dirs) + {uid} else old(dirs)
    {
      hide IsPeer, DirOf;
      dir, peer := GetRuntimeDirForUser(uid);
      assert Store(sessions) == old(Store(sessions));
      if dir.None? && created {
        dirs := dirs + {uid};
        dir := Some(RunDir(uid));
      }
    }

    method Insert(session: Session)
      requires ValidTable(sessions) && SeatsValid() && session.Valid() && session.id !in sessions
      requires session.devices == []
      modifies this`sessions
      ensures ValidTable(sessions) && SeatsValid()
      ensures sessions == old(sessions)[session.id := session] && DevicesOf(sessions) == old(DevicesOf(sessions))
      ensures Store(sessions) == old(Store(sessions))[session.id := session.View()]
    {
      WithOneMore(sessions, session);
      forall sid | sid in seats ensures seats[sid].Sound(sessions[session.id := session]) {
        assert SeatValid(sid);
        SoundWithOneMore(seats[sid], sessions, session);
      }
      sessions := sessions[session.id := session];
      forall sid | sid in seats ensures SeatValid(sid) {
        assert old(SeatValid(sid));
      }
    }

    static method MakeSession(ssid: Id, info: SessionInfo, saysLocal: bool, dir: Option<string>)
        returns (session: Session)
      ensures fresh(session) && session.Valid() && session.id == ssid && session.info == info && session.devices == []
      ensures session.View() == NewSession(info, saysLocal).(reg := Registration(false, saysLocal, None, dir))
    {
      session := new Session(ssid, info, saysLocal);
      session.SetRegistration(dir, saysLocal);
    }

    /** The session made, the user's directory found or made. */
    method PrepareSession(ssid: Id, info: SessionInfo, saysLocal: bool, created: bool)
        returns (session: Session, ghost peer: Option<Id>)
      modifies this`dirs
      ensures fresh(session) && session.Valid() && session.id == ssid && session.info == info && session.devices == []
      ensures IsPeer(old(Store(sessions)), info.uid, peer)
      ensures var dir := DirOf(old(Store(sessions)), peer);
        && session.View() == WithDir(NewSession(info, saysLocal), dir, created)
        && dirs == if dir.None? && created then old(dirs) + {info.uid} else old(dirs)
    {
      hide IsPeer, DirOf;
      var dir;
      dir, peer := ProvideRuntimeDir(info.uid, created);
      session := MakeSession(ssid, info, saysLocal, dir);
    }

    /** The session listed. */
    method ListSession(ssid: Id, info: SessionInfo, saysLocal: bool, created: bool)
        returns (session: Session, ghost peer: Option<Id>)
      requires ValidTable(sessions) && SeatsValid() && ssid !in sessions
      modifies this`sessions, this`dirs
      ensures ValidTable(sessions) && SeatsValid()
      ensures fresh(session) && session.id == ssid && session.info == info
      ensures sessions == old(sessions)[ssid := session] && DevicesOf(sessions) == old(DevicesOf(sessions))
      ensures IsPeer(old(Store(sessions)), info.uid, peer)
      ensures SeatStates() == old(SeatStates())
      ensures var dir := DirOf(old(Store(sessions)), peer);
        && Store(sessions) == old(Store(sessions))[ssid := WithDir(NewSession(info, saysLocal), dir, created)]
        && dirs == if dir.None? && created then old(dirs) + {info.uid} else old(dirs)
    {
      hide IsPeer, DirOf, WithDir, NewSession, Session.Valid, SeatValid;
      session, peer := PrepareSession(ssid, info, saysLocal, created);
      assert Store(sessions) == old(Store(sessions));
      Insert(session);
    }

    /** The same, in terms of the whole state. */
    method EnterSession(ssid: Id, info: SessionInfo, saysLocal: bool, created: bool)
        returns (session: Session, ghost peer: Option<Id>)
      requires Ok() && LocksOk() && ssid !in sessions
      modifies Footprint()
      ensures Ok() && LocksOk() && fresh(session) && Footprint() == old(Footprint()) + {session}
      ensures session in sessions.Values && session.id == ssid && session.info == info && seats == old(seats)
      ensures IsPeer(old(View()).sessions, info.uid, peer)
      ensures View() == Entered(old(View()), ssid, info, saysLocal, peer, created)
    {
      hide IsPeer, DirOf, WithDir, NewSession, ValidTable, SeatsValid, SystemActions.Valid, Objects;
      InFootprint();
      session, peer := ListSession(ssid, info, saysLocal, created);
      assert sessions[ssid] == session;
      OneMoreSession(this, old(sessions), seats, DevicesOf(sessions), session);
    }

    method AddTo(seat: Seat, session: Session, kernel: Kernel) returns (found: Session?)
      requires ValidTable(sessions) && SeatsValid() && session in sessions.Values
      requires seat in seats.Values && session.id !in seat.sessions
      modifies seat`activeSession, seat`sessions, sessions.Values, DevicesOf(sessions)
      ensures ValidTable(sessions) && SeatsValid()
      ensures forall k :: k in sessions ==> sessions[k].devices == old(sessions[k].devices)
      ensures IsUpdate(Attach(old(seat.View(sessions)), session.id, old(session.View()), seat.id), IdOf(found), kernel,
                       seat.View(sessions))
      ensures SeatStates() == old(SeatStates())[seat.id := seat.State()]
    {
      hide IsUpdate, Attach;
      assert SeatValid(seat.id);
      found := seat.AddSession(sessions, session, kernel);
      forall sid | sid in seats
        ensures SeatValid(sid) && (sid != seat.id ==> seats[sid].State() == old(seats[sid].State()))
      {
        assert old(SeatValid(sid));
      }
    }

    /** The same, in terms of the whole state. */
    method ProvideNewSeat() returns (seat: Seat)
      requires Ok() && LocksOk() && |seats.Keys| < Period(0)
      modifies Footprint()
      ensures Ok() && LocksOk() && fresh(seat) && Footprint() == old(Footprint()) + {seat} && sessions == old(sessions)
      ensures seat.id in seats && seats[seat.id] == seat && seat.vt == vt
      ensures IsFresh(SEAT_PREFIX, 0, old(seatSerial), old(seats).Keys, seat.id, seatSerial)
      ensures View() ==
        old(View()).(seats := old(View()).seats[seat.id := SeatState(Dynamic, {}, None)], seatSerial := seatSerial)
    {
      hide IsFresh, ValidTable, SeatsValid, SystemActions.Valid, Store, Seat.State, Period, Objects;
      InFootprint();
      seat := AddNewSeat(Dynamic);
      assert DevicesOf(sessions) == old(DevicesOf(sessions));
      OneMoreSeat(this, sessions, old(seats), DevicesOf(sessions), seat);
    }

    lemma SeatWorld(seat: Seat)
      requires SeatsValid() && seat.id in seats && seats[seat.id] == seat
      ensures seat.id in SeatStates() && seat.View(sessions).(vt := vt) == WorldOf(View(), seat.id)
    {
      assert SeatValid(seat.id);
    }

    /** The same, in terms of the whole state. */
    method AttachTo(seat: Seat, session: Session, kernel: Kernel) returns (found: Session?, ghost r: World)
      requires Ok() && LocksOk() && session in sessions.Values
      requires seat.id in seats && seats[seat.id] == seat && seat.vt == vt && session.id !in seat.sessions
      modifies Footprint()
      ensures Ok() && LocksOk() && Footprint() == old(Footprint()) && sessions == old(sessions) && seats == old(seats)
      ensures seat.id in old(View()).seats && session.id in old(View()).sessions
      ensures IsUpdate(Attach(WorldOf(old(View()), seat.id), session.id, old(View()).sessions[session.id], seat.id),
                       IdOf(found), kernel, r)
      ensures View() == PutWorld(old(View()), seat.id, r)
    {
      hide IsUpdate, SeatsValid, ValidTable, Attach, SystemActions.Valid, Store, SeatStates, Objects;
      InFootprint();
      SeatWorld(seat);
      Listed(session);
      found := AddTo(seat, session, kernel);
      r := seat.View(sessions);
      assert DevicesOf(sessions) == old(DevicesOf(sessions));
    }

    lemma Listed(session: Session)
      requires ValidTable(sessions) && session in sessions.Values
      ensures session.id in sessions && sessions[session.id] == session
      ensures session.id in Store(sessions) && session.View() == Store(sessions)[session.id]
    {
    }

    /** ck_session_set_is_local, seen from the table */
    method MarkInTable(session: Session, isLocal: bool)
      requires ValidTable(sessions) && session in sessions.Values
      modifies session`reg
      ensures ValidTable(sessions) && session.id in sessions
      ensures Store(sessions) == SetLocal(old(Store(sessions)), session.id, isLocal)
    {
      Listed(session);
      session.SetRegistration(session.reg.runtimeDir, isLocal);
      forall k | k in sessions && k != session.id ensures sessions[k].View() == old(sessions[k].View()) {
        assert sessions[k] != session;
      }
    }

    /** The same, in terms of the whole state. */
    method MarkLocal(session: Session, isLocal: bool)
      requires Ok() && LocksOk() && session in sessions.Values
      modifies Footprint()
      ensures Ok() && LocksOk() && Footprint() == old(Footprint()) && sessions == old(sessions) && seats == old(seats)
      ensures session.id in old(View()).sessions
      ensures View() == old(View()).(sessions := SetLocal(old(View()).sessions, session.id, isLocal))
    {
      hide SeatsValid, SystemActions.Valid, ValidTable, Store, Objects;
      InFootprint();
      Listed(session);
      MarkInTable(session, isLocal);
      assert DevicesOf(sessions) == old(DevicesOf(sessions));
      assert SeatStates() == old(SeatStates());
    }

    method RefreshIdleHint()
      requires Ok() && LocksOk()
      modifies Footprint()
      ensures Ok() && LocksOk() && Footprint() == old(Footprint()) && sessions == old(sessions) && seats == old(seats)
      ensures View() == UpdateIdle(old(View()))
    {
      hide SeatValid, UpdateIdle, SystemActions.Valid, Objects;
      InFootprint();
      UpdateSystemIdleHint();
      assert DevicesOf(sessions) == old(DevicesOf(sessions));
    }

    lemma ViewFields()
      requires Ok()
      ensures vt < UINT_RANGE && seatSerial < SIGN_BIT && 1 <= sessionSerial < SIGN_BIT
      ensures var m := View();
        && m.sessions.Keys == sessions.Keys && m.seats.Keys == seats.Keys && m.leaders == leaders
        && m.sessionSerial == sessionSerial && m.seatSerial == seatSerial && m.vt == vt
    {
    }

    lemma SessionFields(id: Id)
      requires Ok() && id in sessions
      ensures sessions[id] in sessions.Values && sessions[id].id == id && id in View().sessions
      ensures sessions[id].info == View().sessions[id].info && sessions[id].reg == View().sessions[id].reg
    {
    }

    lemma NoSeatLists(ssid: Id)
      requires Ok() && forall sid :: sid in View().seats ==> ssid !in View().seats[sid].members
      ensures forall sid :: sid in seats ==> ssid !in seats[sid].sessions
    {
      forall sid | sid in seats ensures ssid !in seats[sid].sessions {
        assert sid in View().seats && View().seats[sid] == seats[sid].State();
      }
    }

    /** What a seat holds, in terms of the whole state. */
    lemma SeatFields(sid: Id)
      requires Ok() && sid in seats
      ensures sid in View().seats && seats[sid].kind == View().seats[sid].kind
      ensures seats[sid].id == sid && sid in View().seats && seats[sid].sessions.Keys == View().seats[sid].members
      ensures sid == SEAT0 ==> seats[sid].vt == vt
    {
      assert SeatValid(sid);
    }

    /** The seat found for a session, or a new one; and the seats' serial afterwards. */
    method SeatForSession(info: SessionInfo, saysLocal: bool) returns (seat: Seat, ghost next: nat)
      requires Ok() && LocksOk() && |seats.Keys| < Period(0)
      modifies Footprint()
      ensures Ok() && LocksOk() && sessions == old(sessions)
      ensures Footprint() == old(Footprint()) || (fresh(seat) && Footprint() == old(Footprint()) + {seat})
      ensures seat.id in seats && seats[seat.id] == seat && seat.vt == vt
      ensures var m := old(View());
        if GoesToSeat0(m, info, saysLocal) then View() == m && seat.id == SEAT0
        else
          && View() == m.(seats := m.seats[seat.id := SeatState(Dynamic, {}, None)], seatSerial := next)
          && m.seatSerial < SIGN_BIT && IsFresh(SEAT_PREFIX, 0, m.seatSerial, m.seats.Keys, seat.id, next)
    {
      hide Ok, LocksOk, View, Footprint, OnLocalConsole, IsFresh;
      ViewFields();
      var found := FindSeatForSession(info, saysLocal);
      if found == null {
        seat := ProvideNewSeat();
      } else {
        SeatFields(SEAT0);
        seat := found;
      }
      next := seatSerial;
    }

    /** The first half of open_session_for_leader: the session is listed and has a seat to
        go to. */
    method ListAndSeat(ssid: Id, info: SessionInfo, saysLocal: bool, created: bool)
        returns (session: Session, seat: Seat, ghost peer: Option<Id>, ghost next: nat)
      requires Ok() && LocksOk() && Partition(View()) && ssid !in sessions && |seats.Keys| < Period(0)
      modifies Footprint()
      ensures Ok() && LocksOk() && fresh(Footprint() - old(Footprint()))
      ensures session in sessions.Values && session.id == ssid
      ensures seat.id in seats && seats[seat.id] == seat && seat.vt == vt && ssid !in seat.sessions
      ensures IsPeer(old(View()).sessions, info.uid, peer)
      ensures Seated(old(View()), ssid, info, saysLocal, created, peer, seat.id, next, View())
    {
      hide Ok, LocksOk, View, Footprint, OnLocalConsole, IsFresh, Partition, IsPeer, WithDir, NewSession, DirOf;
      ghost var m := View();
      ViewFields();
      OnNoSeat(m, ssid);
      session, peer := EnterSession(ssid, info, saysLocal, created);
      ViewFields();
      seat, next := SeatForSession(info, saysLocal);
      ViewFields();
      SeatFields(seat.id);
    }

    /** open_session_for_leader. What the method comes upon and decides is returned as the
        ghost o. */
    method OpenSessionForLeader(ssid: Id, info: SessionInfo, saysLocal: bool, isLocal: bool, created: bool,
        kernel: Kernel)
        returns (ghost o: Opening)
      requires Ok() && LocksOk() && Partition(View()) && ssid !in sessions && |seats.Keys| < Period(0)
      modifies Footprint()
      ensures Ok() && LocksOk() && fresh(Footprint() - old(Footprint()))
      ensures o.info == info && o.saysLocal == saysLocal && o.isLocal == isLocal && o.created == created
      ensures o.kernel == kernel
      ensures CanOpen(old(View()), ssid, o)
      ensures View() == OpenSession(old(View()), ssid, o)
      ensures ssid in View().sessions
      ensures View().sessions[ssid].reg.seatId == Some("seat0") <==>
        && saysLocal && info.remoteHostName == "" && info.vtnr > 0
        && (|| (info.x11Display != "" && info.x11DisplayDevice != "")
            || (info.x11Display == "" && info.x11DisplayDevice == "" && info.displayDevice != ""))
    {
      hide Ok, LocksOk, View, Footprint, Partition, CanOpen, OpenTables, UpdateIdle, IsUpdate, Attach, SetLocal,
           IsPeer, Seated;
      ghost var m := View();
      ViewFields();
      var session, seat;
      ghost var peer, next, r;
      session, seat, peer, next := ListAndSeat(ssid, info, saysLocal, created);
      ghost var m2 := View();
      var found;
      found, r := AttachTo(seat, session, kernel);
      o := Opening(info, saysLocal, isLocal, peer, created, seat.id, next, IdOf(found), kernel);
      OpenedByParts(m, ssid, o, m2, r);
      MarkLocal(session, isLocal);
      RefreshIdleHint();
      ManagerEvents.SeatChosenExactly(m, ssid, o);
    }

    // ----- closing

    method RemoveFrom(seat: Seat, session: Session, kernel: Kernel) returns (found: Session?)
      requires ValidTable(sessions) && SeatsValid() && session in sessions.Values
      requires seat in seats.Values && session.id in seat.sessions
      modifies seat`activeSession, seat`sessions, sessions.Values, DevicesOf(sessions)
      ensures ValidTable(sessions) && SeatsValid()
      ensures forall k :: k in sessions ==> sessions[k].devices == old(sessions[k].devices)
      ensures IsUpdate(Detach(old(seat.View(sessions)), session.id), IdOf(found), kernel, seat.View(sessions))
      ensures SeatStates() == old(SeatStates())[seat.id := seat.State()]
    {
      hide IsUpdate, Detach;
      assert SeatValid(seat.id);
      var removed;
      removed, found := seat.RemoveSession(sessions, session, kernel);
      forall sid | sid in seats
        ensures SeatValid(sid) && (sid != seat.id ==> seats[sid].State() == old(seats[sid].State()))
      {
        assert old(SeatValid(sid));
      }
    }

    /** The same, in terms of the whole state. */
    method DetachFrom(seat: Seat, session: Session, kernel: Kernel) returns (found: Session?, ghost r: World)
      requires Ok() && LocksOk() && session in sessions.Values
      requires seat.id in seats && seats[seat.id] == seat && session.id in seat.sessions
      requires seat.kind == Static ==> seat.vt == vt
      modifies Footprint()
      ensures Ok() && LocksOk() && Footprint() == old(Footprint()) && sessions == old(sessions) && seats == old(seats)
      ensures seat.id in old(View()).seats
      ensures IsUpdate(Detach(WorldOf(old(View()), seat.id), session.id), IdOf(found), kernel, r)
      ensures View() == PutWorld(old(View()), seat.id, r)
    {
      hide IsUpdate, SeatsValid, ValidTable, SystemActions.Valid, Store, SeatStates, Objects;
      InFootprint();
      SeatWorld(seat);
      ghost var w := seat.View(sessions);
      found := RemoveFrom(seat, session, kernel);
      r := seat.View(sessions).(vt := vt);
      assert DevicesOf(sessions) == old(DevicesOf(sessions));
      OnlyStaticFollows(Detach(w, session.id), IdOf(found), kernel, seat.View(sessions), vt);
    }

    method DropSeat(sid: Id)
      requires SeatsValid() && sid in seats
      modifies this`seats
      ensures SeatsValid() && seats == old(seats) - {sid} && SeatStates() == old(SeatStates()) - {sid}
    {
      seats := seats - {sid};
      forall other | other in seats ensures SeatValid(other) {
        assert old(SeatValid(other));
      }
    }

    /** remove_seat */
    method RemoveSeat(seat: Seat)
      requires Ok() && LocksOk() && seat.id in seats && seats[seat.id] == seat
      modifies Footprint()
      ensures Ok() && LocksOk() && Footprint() <= old(Footprint()) && sessions == old(sessions)
      ensures seats == old(seats) - {seat.id}
      ensures View() == old(View()).(seats := old(View()).seats - {seat.id})
    {
      hide SeatsValid, SystemActions.Valid, Objects;
      InFootprint();
      DropSeat(seat.id);
      assert Store(sessions) == old(Store(sessions)) && DevicesOf(sessions) == old(DevicesOf(sessions));
      assert seats.Values <= old(seats).Values;
      FewerObjects(this, sessions, old(seats), DevicesOf(sessions), sessions, seats, DevicesOf(sessions));
    }

    method DropSession(id: Id)
      requires ValidTable(sessions) && SeatsValid() && id in sessions
      requires forall sid :: sid in seats ==> id !in seats[sid].sessions
      modifies this`sessions
      ensures ValidTable(sessions) && SeatsValid() && sessions == old(sessions) - {id}
      ensures Store(sessions) == old(Store(sessions)) - {id} && DevicesOf(sessions) <= old(DevicesOf(sessions))
    {
      WithOneLess(sessions, id);
      sessions := sessions - {id};
      forall sid | sid in seats ensures SeatValid(sid) {
        assert old(SeatValid(sid));
        var seat := seats[sid];
        assert seat.activeSession != null ==> sessions[seat.activeSession.id] == seat.activeSession;
      }
      assert Store(sessions) == old(Store(sessions)) - {id};
    }

    /** The session stolen from the table. */
    method Unlist(session: Session)
      requires Ok() && LocksOk() && session in sessions.Values
      requires forall sid :: sid in seats ==> session.id !in seats[sid].sessions
      modifies Footprint()
      ensures Ok() && LocksOk() && Footprint() <= old(Footprint()) && seats == old(seats)
      ensures sessions == old(sessions) - {session.id}
      ensures View() == old(View()).(sessions := old(View()).sessions - {session.id})
    {
      hide SystemActions.Valid, ValidTable, SeatsValid, Objects;
      InFootprint();
      Listed(session);
      DropSession(session.id);
      assert SeatStates() == old(SeatStates());
      assert sessions.Values <= old(sessions).Values;
      FewerObjects(this, old(sessions), seats, old(DevicesOf(sessions)), sessions, seats, DevicesOf(sessions));
    }

    /** ck_remove_runtime_dir_for_user, when none of the user's sessions names one any more */
    method FreeRuntimeDir(uid: nat) returns (ghost peer: Option<Id>)
      modifies this`dirs
      ensures IsPeer(old(Store(sessions)), uid, peer)
      ensures dirs == if DirOf(old(Store(sessions)), peer).None? then old(dirs) - {uid} else old(dirs)
    {
      hide IsPeer, DirOf;
      var dir;
      dir, peer := GetRuntimeDirForUser(uid);
      assert Store(sessions) == old(Store(sessions));
      if dir.None? {
        dirs := dirs - {uid};
      }
    }

    /** The same, in terms of the whole state. */
    method DropRuntimeDir(uid: nat) returns (ghost peer: Option<Id>)
      requires Ok() && LocksOk()
      modifies Footprint()
      ensures Ok() && LocksOk() && Footprint() == old(Footprint()) && sessions == old(sessions) && seats == old(seats)
      ensures IsPeer(old(View()).sessions, uid, peer)
      ensures View() == old(View()).(
        dirs := if DirOf(old(View()).sessions, peer).None? then old(View()).dirs - {uid} else old(View()).dirs)
    {
      hide IsPeer, DirOf, SeatValid, SystemActions.Valid, Objects;
      InFootprint();
      peer := FreeRuntimeDir(uid);
      assert Store(sessions) == old(Store(sessions));
      assert DevicesOf(sessions) == old(DevicesOf(sessions));
    }

    /** remove_session_for_cookie, for a leader whose session is listed. What the method
        comes upon is returned as the ghost c. */
    method RemoveSessionForCookie(ssid: Id, kernel: Kernel) returns (ghost c: Closing)
      requires Ok() && LocksOk() && Partition(View()) && ssid in sessions
      modifies Footprint()
      ensures Ok() && LocksOk() && Footprint() <= old(Footprint()) && c.kernel == kernel
      ensures CanClose(old(View()), ssid, c)
      ensures View() == CloseSession(old(View()), ssid, c)
    {
      hide Ok, LocksOk, View, Footprint, Partition, CanClose, CloseSession, UpdateIdle, IsUpdate, Detach, IsPeer, DirOf;
      ghost var m := View();
      var session := sessions[ssid];
      SessionFields(ssid);
      IsPlaced(m, ssid);
      var uid, seatId := session.info.uid, session.reg.seatId;
      var found: Session? := null;
      ghost var r: World;
      ViewFields();
      if seatId.Some? && seatId.value in seats {
        var seat := seats[seatId.value];
        SeatFields(seatId.value);
        KindIs(m, seatId.value);
        found, r := DetachFrom(seat, session, kernel);
        if seat.kind == Dynamic {
          RemoveSeat(seat);
        }
      }
      ghost var m2 := View();
      NowOnNoSeat(m, ssid, seatId.value, IdOf(found), kernel, r, m2);
      NoSeatLists(ssid);
      Unlist(session);
      RefreshIdleHint();
      ghost var m3 := View();
      ghost var peer := DropRuntimeDir(uid);
      c := Closing(IdOf(found), peer, kernel);
      ClosedByParts(m, ssid, c, seatId.value, r, m2, m3);
    }

    // ----- leaders

    method SetLeaders(table: map<Cookie, Leader>)
      requires Ok() && LocksOk()
      modifies Footprint()
      ensures Ok() && LocksOk() && Footprint() == old(Footprint()) && sessions == old(sessions) && seats == old(seats)
      ensures View() == old(View()).(leaders := table)
    {
      hide SeatValid, SystemActions.Valid, Session.Valid, Objects;
      InFootprint();
      leaders := table;
      assert Store(sessions) == old(Store(sessions));
    }

    method SetSerial(serial: nat)
      requires Ok() && LocksOk() && 1 <= serial < SIGN_BIT
      modifies Footprint()
      ensures Ok() && LocksOk() && Footprint() == old(Footprint()) && sessions == old(sessions) && seats == old(seats)
      ensures leaders == old(leaders) && View() == old(View()).(sessionSerial := serial)
    {
      hide SeatValid, SystemActions.Valid, Session.Valid, Objects;
      InFootprint();
      sessionSerial := serial;
      assert Store(sessions) == old(Store(sessions));
    }

    /** The draw of generate_session_id, which then moves the serial on. */
    method DrawSessionId() returns (ssid: Id, next: nat)
      requires Ok() && LocksOk() && |sessions.Keys| < Period(1)
      ensures Ok() && LocksOk() && Footprint() == old(Footprint()) && View() == old(View())
      ensures IsFresh(SESSION_PREFIX, 1, sessionSerial, sessions.Keys, ssid, next) && 1 <= next < SIGN_BIT
    {
      hide IsFresh, SeatValid, SystemActions.Valid, Session.Valid;
      ssid, next := GenerateId(SESSION_PREFIX, 1, sessionSerial, sessions.Keys);
    }

    /** The first half of opening a session for a caller: an id is drawn and the leader
        listed under its cookie, its parameters still to be collected. */
    method CreateSessionForSender(cookie: Cookie, service: Sender, uid: nat, pid: nat) returns (ghost e: ManagerEvent)
      requires Valid() && cookie !in leaders && |sessions.Keys| < Period(1)
      modifies Footprint()
      ensures e.Asked? && e.cookie == cookie && e.service == service && e.uid == uid && e.pid == pid
      ensures CanHappen(old(View()), e) && View() == Next(old(View()), e)
      ensures Valid() <==> NotReused(old(View()), e)
    {
      hide Ok, LocksOk, View, Footprint, IsFresh, Tables, NotReused;
      ghost var m := View();
      ViewFields();
      var ssid, next := DrawSessionId();
      e := Asked(cookie, service, uid, pid, ssid, next);
      SetSerial(next);
      SetLeaders(leaders[cookie := Leader(ssid, service, uid, pid, true)]);
      NextKeepsTables(m, e);
    }

    /** The second half: the leader's parameters have been collected. */
    method CollectParameters(cookie: Cookie, info: SessionInfo, saysLocal: bool, isLocal: bool, created: bool,
        kernel: Kernel)
        returns (ghost e: ManagerEvent)
      requires Valid() && cookie in leaders && leaders[cookie].pending && |seats.Keys| < Period(0)
      modifies Footprint()
      ensures Valid() && fresh(Footprint() - old(Footprint()))
      ensures e.Collected? && e.cookie == cookie && e.opening.info == info && e.opening.saysLocal == saysLocal
      ensures e.opening.isLocal == isLocal && e.opening.created == created && e.opening.kernel == kernel
      ensures CanHappen(old(View()), e) && View() == Next(old(View()), e)
    {
      hide Ok, LocksOk, View, Footprint, Tables, CanOpen, OpenSession, Partition;
      ghost var m := View();
      ViewFields();
      OfLeader(m, cookie);
      ghost var o := OpenSessionForLeader(leaders[cookie].session, info, saysLocal, isLocal, created, kernel);
      ViewFields();
      LeadersKept(m, m.leaders[cookie].session, o);
      SetLeaders(leaders[cookie := leaders[cookie].(pending := false)]);
      e := Collected(cookie, o);
      NextKeepsTables(m, e);
    }

    /** dbus_close_session, for a caller whose uid and pid are known; false is an error reply. */
    method Close(cookie: Cookie, uid: nat, pid: nat, kernel: Kernel) returns (closed: bool, ghost e: ManagerEvent)
      requires Valid()
      modifies Footprint()
      ensures Valid() && Footprint() <= old(Footprint())
      ensures e.CloseCalled? && e.cookie == cookie && e.uid == uid && e.pid == pid && e.closing.kernel == kernel
      ensures CanHappen(old(View()), e) && View() == Next(old(View()), e)
      ensures closed == (Owns(old(View()), cookie, uid, pid) && SessionForCookie(old(View()), cookie).Some?)
    {
      hide Ok, LocksOk, View, Footprint, Tables, CanClose, ManagerSpec.CloseSession, Partition;
      ghost var m := View();
      ViewFields();
      e := CloseCalled(cookie, uid, pid, Closing(None, None, kernel));
      if cookie !in leaders || leaders[cookie].uid != uid || leaders[cookie].pid != pid {
        return false, e;
      }
      var ssid := leaders[cookie].session;
      if ssid !in sessions {
        return false, e;
      }
      OfLeader(m, cookie);
      ghost var c := RemoveSessionForCookie(ssid, kernel);
      ViewFields();
      LeadersKeptClosing(m, ssid, c);
      SetLeaders(leaders - {cookie});
      e := CloseCalled(cookie, uid, pid, c);
      NextKeepsTables(m, e);
      closed := true;
    }

    /** g_hash_table_foreach_steal with remove_leader_for_connection, in hash order */
    static method StealFor(table: map<Cookie, Leader>, service: Sender) returns (entities: seq<RemoveEntity>)
      ensures forall i, j :: 0 <= i < j < |entities| ==> entities[i].cookie != entities[j].cookie
      ensures forall i :: 0 <= i < |entities| ==>
                entities[i].cookie in table && entities[i].leader == table[entities[i].cookie]
      ensures forall c :: c in CookiesOf(entities) <==> c in table && table[c].service == service
    {
      entities := [];
      var rest := table.Keys;
      while rest != {}
        invariant rest <= table.Keys
        invariant forall i, j :: 0 <= i < j < |entities| ==> entities[i].cookie != entities[j].cookie
        invariant forall i :: 0 <= i < |entities| ==> entities[i].cookie in table && entities[i].cookie !in rest
                                                      && entities[i].leader == table[entities[i].cookie]
        invariant forall c :: c in CookiesOf(entities) <==> c in table && c !in rest && table[c].service == service
        decreases |rest|
      {
        var c :| c in rest;
        if table[c].service == service {
          ghost var before := CookiesOf(entities);
          entities := entities + [RemoveEntity(c, table[c])];
          assert CookiesOf(entities) == before + [c];
        }
        rest := rest - {c};
      }
    }

    method LeadersFor(service: Sender) returns (entities: seq<RemoveEntity>)
      requires Ok() && LocksOk()
      ensures Ok() && LocksOk() && Footprint() == old(Footprint()) && View() == old(View())
      ensures LeadersOf(View(), service, CookiesOf(entities))
      ensures forall i :: 0 <= i < |entities| ==>
                entities[i].cookie in leaders && entities[i].leader == leaders[entities[i].cookie]
    {
      hide SeatValid, SystemActions.Valid, Session.Valid;
      entities := StealFor(leaders, service);
    }

    /** destroy_entity: the leader's session, if it is listed, is closed. */
    method DestroyEntity(ssid: Id, kernel: Kernel) returns (ghost c: Closing)
      requires Ok() && LocksOk() && Partition(View())
      modifies Footprint()
      ensures Ok() && LocksOk() && Footprint() <= old(Footprint())
      ensures var m := old(View());
        if ssid in m.sessions then CanClose(m, ssid, c) && View() == CloseSession(m, ssid, c) && Partition(View())
        else View() == m
    {
      hide Ok, LocksOk, View, Footprint, Partition, CanClose, CloseSession;
      ghost var m := View();
      ViewFields();
      c := Closing(None, None, kernel);
      if ssid in sessions {
        c := RemoveSessionForCookie(ssid, kernel);
        CloseKeepsPartition(m, ssid, c);
      }
    }

    /** The leaders of a bus name taken off the table. */
    method StealLeaders(service: Sender) returns (entities: seq<RemoveEntity>)
      requires Ok() && LocksOk() && Partition(View())
      modifies Footprint()
      ensures Ok() && LocksOk() && Partition(View()) && Footprint() == old(Footprint())
      ensures LeadersOf(old(View()), service, CookiesOf(entities))
      ensures forall i :: 0 <= i < |entities| ==>
                entities[i].cookie in old(View()).leaders
                  && entities[i].leader == old(View()).leaders[entities[i].cookie]
      ensures View() == WithoutLeaders(old(View()), CookiesOf(entities))
    {
      hide Ok, LocksOk, View, Footprint, Partition, LeadersOf;
      ghost var m := View();
      entities := LeadersFor(service);
      ViewFields();
      SetLeaders(leaders - set i | 0 <= i < |entities| :: entities[i].cookie);
      SamePartitionWithout(m, CookiesOf(entities));
      assert (set i | 0 <= i < |entities| :: entities[i].cookie) == (set c | c in CookiesOf(entities));
    }

    /** remove_sessions_for_connection: each entry is destroyed as it leaves the array,
        which ends up empty. */
    method RemoveSessionsForConnection(service: Sender, kernel: Kernel) returns (ghost e: ManagerEvent)
      requires Valid()
      modifies Footprint()
      ensures Valid() && Footprint() <= old(Footprint())
      ensures e.PeerGone? && e.service == service && CanHappen(old(View()), e) && View() == Next(old(View()), e)
    {
      hide Ok, LocksOk, View, Footprint, Tables, CanClose, CloseSession, Partition, CanSweep, Sweep, Halfway,
           LeadersOf, WithoutLeaders;
      ghost var m := View();
      PartitionOf(m);
      var entities := StealLeaders(service);
      ghost var all, m1 := CookiesOf(entities), View();
      ghost var order: seq<Cookie>, closings: seq<Closing> := [], [];
      SweepStart(m1, m.leaders);
      HalfwayStart(all);
      var n := |entities|;
      while n > 0
        invariant |entities| == n
        invariant forall i :: 0 <= i < n ==>
                    entities[i].cookie in m.leaders && entities[i].leader == m.leaders[entities[i].cookie]
        invariant Ok() && LocksOk() && Partition(View()) && Footprint() <= old(Footprint())
        invariant Halfway(all, order, CookiesOf(entities))
        invariant (forall c :: c in order ==> c in m.leaders) && CanSweep(m1, m.leaders, order, closings)
        invariant View() == Sweep(m1, m.leaders, order, closings)
      {
        n := n - 1;
        ghost var c := DestroyEntity(entities[0].leader.session, kernel);
        SweepSnoc(m1, m.leaders, order, closings, entities[0].cookie, c);
        OneFurther(all, order, CookiesOf(entities));
        CookiesLeft(entities);
        order, closings := order + [entities[0].cookie], closings + [c];
        entities := RemoveFirstFast(entities);
      }
      assert entities == [];
      EachOnce(m, service, all, order);
      e := PeerGone(service, order, closings);
      Swept(m, m1, service, all, order, closings);
    }

    // ----- activation and VT changes

    /** ck_seat_activate_session, seen from the tables */
    method ActivateIn(seat: Seat, session: Session, switched: bool, kernel: Kernel) returns (reply: ActivateReply)
      requires ValidTable(sessions) && SeatsValid() && session in sessions.Values
      requires seat.id in seats && seats[seat.id] == seat
      modifies sessions.Values, DevicesOf(sessions)
      ensures ValidTable(sessions) && SeatsValid() && SeatStates() == old(SeatStates())
      ensures forall k :: k in sessions ==> sessions[k].devices == old(sessions[k].devices)
      ensures CanActivate(old(seat.View(sessions)), session.id)
      ensures (seat.View(sessions), reply) == Activate(old(seat.View(sessions)), session.id, switched, kernel)
    {
      hide Activate;
      assert SeatValid(seat.id);
      reply := seat.ActivateSession(sessions, session, switched, kernel);
    }

    /** The same, in terms of the whole state. */
    method ActivateOn(seat: Seat, session: Session, switched: bool, kernel: Kernel) returns (reply: ActivateReply)
      requires Ok() && LocksOk() && session in sessions.Values
      requires seat.id in seats && seats[seat.id] == seat
      requires seat.kind == Static ==> seat.vt == vt
      modifies Footprint()
      ensures Ok() && LocksOk() && Footprint() == old(Footprint())
      ensures seat.id in old(View()).seats && CanActivate(WorldOf(old(View()), seat.id), session.id)
      ensures var (w, r) := Activate(WorldOf(old(View()), seat.id), session.id, switched, kernel);
        reply == r && View() == PutWorld(old(View()), seat.id, w)
    {
      hide SeatsValid, Activate, SystemActions.Valid, ValidTable, Store, Objects;
      InFootprint();
      SeatWorld(seat);
      ghost var w := seat.View(sessions);
      reply := ActivateIn(seat, session, switched, kernel);
      OnlyStaticActivates(w, session.id, switched, kernel, vt);
      assert DevicesOf(sessions) == old(DevicesOf(sessions));
    }

    /** dbus_activate_session_on_seat; None stands for the two "invalid" error replies. The
        manager does not ask whether the session is attached to the seat. */
    method ActivateSessionOnSeat(id: Id, seatId: Id, switched: bool, kernel: Kernel)
        returns (reply: Option<ActivateReply>)
      requires Valid()
      modifies Footprint()
      ensures Valid() && Footprint() == old(Footprint())
      ensures reply.None? <==> id !in old(View()).sessions || seatId !in old(View()).seats
      ensures var e := ActivateCalled(id, seatId, switched, kernel);
        if id in old(View()).sessions then CanHappen(old(View()), e) && View() == Next(old(View()), e)
        else View() == old(View())
    {
      hide Ok, LocksOk, View, Footprint, Tables, Partition, Activate, CanActivate;
      ghost var m := View();
      ViewFields();
      if id !in sessions {
        return None;
      }
      PartitionOf(m);
      PartitionWf(m);
      ghost var e := ActivateCalled(id, seatId, switched, kernel);
      if seatId !in seats {
        return None;
      }
      SessionFields(id);
      SeatFields(seatId);
      KindIs(m, seatId);
      var r := ActivateOn(seats[seatId], sessions[id], switched, kernel);
      NextKeepsTables(m, e);
      return Some(r);
    }

    /** active_vt_changed, seen from the tables */
    method FollowVt(seat0: Seat, num: nat, kernel: Kernel) returns (found: Session?)
      requires ValidTable(sessions) && SeatsValid()
      requires SEAT0 in seats && seat0 == seats[SEAT0] && seat0.kind == Static && num < UINT_RANGE && num != vt
      modifies this`vt, seat0`activeSession, seat0`vt, sessions.Values, DevicesOf(sessions)
      ensures ValidTable(sessions) && SeatsValid() && vt == num
      ensures forall k :: k in sessions ==> sessions[k].devices == old(sessions[k].devices)
      ensures SeatStates() == old(SeatStates())[SEAT0 := seat0.State()]
      ensures IsUpdate(old(seat0.View(sessions)).(vt := num), IdOf(found), kernel, seat0.View(sessions))
    {
      hide IsUpdate, Session.Valid, Session.View;
      assert SeatValid(SEAT0);
      vt := num;
      assert Store(sessions) == old(Store(sessions));
      found := seat0.ActiveVtChanged(sessions, num, kernel);
      forall sid | sid in seats
        ensures SeatValid(sid) && (sid != SEAT0 ==> seats[sid].State() == old(seats[sid].State()))
      {
        assert old(SeatValid(sid));
      }
    }

    /** The same, in terms of the whole state. */
    method FollowVtOn(seat0: Seat, num: nat, kernel: Kernel) returns (found: Session?, ghost r: World)
      requires Ok() && LocksOk()
      requires SEAT0 in seats && seat0 == seats[SEAT0] && seat0.kind == Static && num < UINT_RANGE && num != vt
      modifies Footprint()
      ensures Ok() && LocksOk() && Footprint() == old(Footprint()) && SEAT0 in old(View()).seats
      ensures IsUpdate(WorldOf(old(View()), SEAT0).(vt := num), IdOf(found), kernel, r)
      ensures View() == PutWorld(old(View()).(vt := num), SEAT0, r)
    {
      hide IsUpdate, SeatsValid, ValidTable, SystemActions.Valid, Store, SeatStates, Objects;
      InFootprint();
      SeatFields(SEAT0);
      SeatWorld(seat0);
      found := FollowVt(seat0, num, kernel);
      r := seat0.View(sessions);
      assert DevicesOf(sessions) == old(DevicesOf(sessions));
    }

    /** active_vt_changed, for the static seat */
    method ActiveVtChanged(num: nat, kernel: Kernel) returns (ghost e: ManagerEvent)
      requires Valid() && num < UINT_RANGE && num != vt
      modifies Footprint()
      ensures Valid() && Footprint() == old(Footprint())
      ensures e.VtSwitched? && e.num == num && e.kernel == kernel
      ensures CanHappen(old(View()), e) && View() == Next(old(View()), e)
    {
      hide Ok, LocksOk, View, Footprint, Tables, Partition, IsUpdate;
      ghost var m := View();
      ViewFields();
      PartitionOf(m);
      PartitionWf(m);
      HasSeat0(m);
      SeatFields(SEAT0);
      ghost var r;
      var found;
      found, r := FollowVtOn(seats[SEAT0], num, kernel);
      e := VtSwitched(num, IdOf(found), kernel);
      SwitchedByUpdate(m, e, r);
      NextKeepsTables(m, e);
    }

    // ----- a session's own idle hint

    method HintInTable(session: Session, uid: nat, idle: bool) returns (reply: Reply)
      requires ValidTable(sessions) && session in sessions.Values
      modifies session`reg
      ensures ValidTable(sessions) && session.id in old(Store(sessions))
      ensures var (s, r) := SetIdleHint(old(Store(sessions))[session.id], uid, idle);
        reply == r && Store(sessions) == old(Store(sessions))[session.id := s]
    {
      Listed(session);
      reply := session.SetIdleHint(uid, idle);
      forall k | k in sessions && k != session.id ensures sessions[k].View() == old(sessions[k].View()) {
        assert sessions[k] != session;
      }
    }

    /** The same, in terms of the whole state. */
    method HintOn(session: Session, uid: nat, idle: bool) returns (reply: Reply)
      requires Ok() && LocksOk() && session in sessions.Values
      modifies Footprint()
      ensures Ok() && LocksOk() && Footprint() == old(Footprint()) && sessions == old(sessions)
      ensures session.id in old(View()).sessions
      ensures var (s, r) := SetIdleHint(old(View()).sessions[session.id], uid, idle);
        reply == r && View() == old(View()).(sessions := old(View()).sessions[session.id := s])
    {
      hide SeatsValid, SystemActions.Valid, ValidTable, Store, SetIdleHint, Objects;
      InFootprint();
      reply := HintInTable(session, uid, idle);
      assert DevicesOf(sessions) == old(DevicesOf(sessions));
      assert SeatStates() == old(SeatStates());
    }

    /** dbus_set_idle_hint of a session, with the manager listening to its change */
    method SetSessionIdleHint(id: Id, uid: nat, idle: bool) returns (reply: Reply)
      requires Valid() && id in sessions
      modifies Footprint()
      ensures Valid() && Footprint() == old(Footprint())
      ensures CanHappen(old(View()), ToSession(id, IdleHinted(uid, idle)))
      ensures View() == Next(old(View()), ToSession(id, IdleHinted(uid, idle)))
      ensures reply == SetIdleHint(old(View()).sessions[id], uid, idle).1
    {
      hide Ok, LocksOk, View, Footprint, Tables, UpdateIdle;
      ghost var m := View();
      SessionFields(id);
      var session := sessions[id];
      var before := session.reg.idle;
      reply := HintOn(session, uid, idle);
      SessionFields(id);
      if session.reg.idle != before {
        RefreshIdleHint();
      }
      NextKeepsTables(m, ToSession(id, IdleHinted(uid, idle)));
    }
  }
}
