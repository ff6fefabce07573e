/** The manager's tables (ck-manager.c) on values: sessions, seats and leaders, the runtime
    directories and the system idle hint, over the sessions, seats, locks and delayed
    actions of the other modules. One event is one step of the daemon's main loop. */
module ManagerSpec {
  import opened Text
  import opened Console
  import opened SessionSpec
  import opened SeatSpec
  import opened InhibitSpec
  import opened ActionSpec
  import opened Ids

  type Cookie = string

  /** A session leader. pending until its parameters have been collected, once, and the
      session has been opened or refused. */
  datatype Leader = Leader(session: Id, service: Sender, uid: nat, pid: nat, pending: bool)

  datatype ManagerState = ManagerState(
    platform: Platform, vt: nat,
    sessions: map<Id, SessionState>, seats: map<Id, SeatState>, leaders: map<Cookie, Leader>,
    sessionSerial: nat, seatSerial: nat,
    dirs: set<nat>,
    idleHint: bool, idleSent: seq<bool>,
    core: Core)

  const SEAT0 := "seat0"
  const SESSION_PREFIX := "Session"
  const SEAT_PREFIX := "seat"

  /** What opening a session depends on besides the tables: its parameters, whether they
      and the check of the login session say it is local, the session the search for the
      user's directory comes upon, whether a directory can be made, the id a new seat
      would get, and what the seat's lookup finds. */
  datatype Opening = Opening(
    info: SessionInfo, saysLocal: bool, isLocal: bool,
    peer: Option<Id>, created: bool, seatId: Id, seatNext: nat,
    found: Option<Id>, kernel: Kernel)

  datatype Closing = Closing(found: Option<Id>, peer: Option<Id>, kernel: Kernel)

  function WorldOf(m: ManagerState, sid: Id): World
    requires sid in m.seats
  {
    World(m.platform, m.vt, m.seats[sid], m.sessions)
  }

  function PutWorld(m: ManagerState, sid: Id, w: World): ManagerState {
    m.(sessions := w.store, seats := m.seats[sid := w.seat])
  }

  /** The caches a seat update relies on point into the session table. */
  ghost predicate CachesOk(m: ManagerState) {
    forall sid :: sid in m.seats && m.seats[sid].active.Some? ==> m.seats[sid].active.value in m.sessions
  }

  // ----- idle hint

  predicate AllIdle(sessions: map<Id, SessionState>) {
    forall id :: id in sessions ==> sessions[id].reg.idle
  }

  predicate IdleBlocked(m: ManagerState) {
    Inhibited(m.core.locks, Slot(Block, InhibitSpec.Idle))
  }

  /** manager_update_system_idle_hint and manager_set_system_idle_hint */
  function UpdateIdle(m: ManagerState): ManagerState {
    var hint := AllIdle(m.sessions) && !IdleBlocked(m);
    if hint == m.idleHint then m else m.(idleHint := hint, idleSent := m.idleSent + [hint])
  }

  // ----- runtime directories

  /** peer is a session get_runtime_dir_for_user may come upon. */
  ghost predicate IsPeer(sessions: map<Id, SessionState>, uid: nat, peer: Option<Id>) {
    match peer
    case None => forall id :: id in sessions ==> sessions[id].info.uid != uid
    case Some(id) => id in sessions && sessions[id].info.uid == uid
  }

  function DirOf(sessions: map<Id, SessionState>, peer: Option<Id>): Option<string> {
    if peer.Some? && peer.value in sessions then sessions[peer.value].reg.runtimeDir else None
  }

  /** get_rundir, which prints the user's number as a signed one */
  function RunDir(uid: nat): string { "/run/user/" + Signed(AsSigned(uid)) }

  // ----- opening a session

  /** A local X11 or text session on a VT. */
  predicate OnLocalConsole(info: SessionInfo, local: bool) {
    var x11 := info.x11Display != "" && info.x11DisplayDevice != "" && info.remoteHostName == "" && local;
    var text := info.x11Display == "" && info.x11DisplayDevice == "" && info.displayDevice != ""
                && info.remoteHostName == "" && local;
    (x11 || text) && info.vtnr > 0
  }

  /** find_seat_for_session */
  predicate GoesToSeat0(m: ManagerState, info: SessionInfo, local: bool) {
    OnLocalConsole(info, local) && SEAT0 in m.seats
  }

  function SeatIdFor(m: ManagerState, o: Opening): Id {
    if GoesToSeat0(m, o.info, o.saysLocal) then SEAT0 else o.seatId
  }

  /** The session as listed, before it is attached. */
  function Opened(m: ManagerState, o: Opening): SessionState {
    WithDir(NewSession(o.info, o.saysLocal), DirOf(m.sessions, o.peer), o.created)
  }

  /** The user's directory, if the sessions have one, else the one made, if it was. */
  function WithDir(s: SessionState, dir: Option<string>, created: bool): SessionState {
    s.(reg := s.reg.(runtimeDir := if dir.Some? then dir else if created then Some(RunDir(s.info.uid)) else None))
  }

  /** The seat found or made for it, the session not yet attached. */
  function SeatFor(m: ManagerState, o: Opening): SeatState {
    if GoesToSeat0(m, o.info, o.saysLocal) then m.seats[SEAT0] else SeatState(Dynamic, {}, None)
  }

  /** The seat's world with the session attached. */
  function Attached(m: ManagerState, ssid: Id, o: Opening): World {
    Attach(World(m.platform, m.vt, SeatFor(m, o), m.sessions), ssid, Opened(m, o), SeatIdFor(m, o))
  }

  /** A directory is made when the user's sessions have none. */
  predicate MakesDir(m: ManagerState, o: Opening) {
    DirOf(m.sessions, o.peer).None? && o.created
  }

  function SetLocal(sessions: map<Id, SessionState>, ssid: Id, isLocal: bool): map<Id, SessionState>
    requires ssid in sessions
  {
    sessions[ssid := sessions[ssid].(reg := sessions[ssid].reg.(isLocal := isLocal))]
  }

  ghost predicate CanOpen(m: ManagerState, ssid: Id, o: Opening) {
    && CachesOk(m)
    && IsPeer(m.sessions, o.info.uid, o.peer)
    && m.seatSerial < SIGN_BIT
    && (!GoesToSeat0(m, o.info, o.saysLocal) ==>
          IsFresh(SEAT_PREFIX, 0, m.seatSerial, m.seats.Keys, o.seatId, o.seatNext))
    && var w := Attached(m, ssid, o);
       w.seat.members <= w.store.Keys && LooksUp(w, m.vt, o.found)
  }

  /** The tables with the session in them, the idle hint not yet updated. */
  ghost function OpenTables(m: ManagerState, ssid: Id, o: Opening): ManagerState
    requires CanOpen(m, ssid, o)
  {
    var w := MaybeUpdate(Attached(m, ssid, o), o.found, o.kernel);
    m.(sessions := SetLocal(w.store, ssid, o.isLocal),
       seats := m.seats[SeatIdFor(m, o) := w.seat],
       seatSerial := if GoesToSeat0(m, o.info, o.saysLocal) then m.seatSerial else o.seatNext,
       dirs := if MakesDir(m, o) then m.dirs + {o.info.uid} else m.dirs)
  }

  /** open_session_for_leader */
  ghost function OpenSession(m: ManagerState, ssid: Id, o: Opening): ManagerState
    requires CanOpen(m, ssid, o)
  {
    UpdateIdle(OpenTables(m, ssid, o))
  }

  // ----- closing a session

  ghost predicate CanClose(m: ManagerState, ssid: Id, c: Closing)
  {
    && CachesOk(m) && ssid in m.sessions
    && (forall sid :: sid in m.seats ==> m.seats[sid].members <= m.sessions.Keys)
    && IsPeer(m.sessions - {ssid}, m.sessions[ssid].info.uid, c.peer)
    && forall sid :: (sid in m.seats && m.sessions[ssid].reg.seatId == Some(sid) && ssid in m.seats[sid].members) ==>
         LooksUp(Detach(WorldOf(m, sid), ssid), m.vt, c.found)
  }

  /** The sessions and the seats once the session's seat has let it go; a dynamic seat goes
      with it. */
  ghost function LeaveSeat(m: ManagerState, ssid: Id, c: Closing): (map<Id, SessionState>, map<Id, SeatState>)
    requires CanClose(m, ssid, c)
  {
    var seatId := m.sessions[ssid].reg.seatId;
    if seatId.None? || seatId.value !in m.seats then (m.sessions, m.seats)
    else
      var sid := seatId.value;
      var w := WorldOf(m, sid);
      var w1 := if ssid in w.seat.members then MaybeUpdate(Detach(w, ssid), c.found, c.kernel) else w;
      (w1.store, if w.seat.kind == Dynamic then m.seats - {sid} else m.seats[sid := w1.seat])
  }

  /** The tables without the session, the idle hint not yet updated. */
  ghost function CloseTables(m: ManagerState, ssid: Id, c: Closing): ManagerState
    requires CanClose(m, ssid, c)
  {
    var (sessions, seats) := LeaveSeat(m, ssid, c);
    var left := sessions - {ssid};
    m.(sessions := left, seats := seats,
       dirs := if DirOf(left, c.peer).None? then m.dirs - {m.sessions[ssid].info.uid} else m.dirs)
  }

  /** remove_session_for_cookie, the leader's session being listed */
  ghost function CloseSession(m: ManagerState, ssid: Id, c: Closing): ManagerState
    requires CanClose(m, ssid, c)
  {
    UpdateIdle(CloseTables(m, ssid, c))
  }

  // ----- events

  /** ActivateCalled is ActivateSession and ActivateSessionOnSeat: the manager does not ask
      whether the session is attached to the seat named. */
  datatype ManagerEvent =
    | Asked(cookie: Cookie, service: Sender, uid: nat, pid: nat, ssid: Id, next: nat)
    | Collected(cookie: Cookie, opening: Opening)
    | NotCollected(cookie: Cookie)
    | CloseCalled(cookie: Cookie, uid: nat, pid: nat, closing: Closing)
    | PeerGone(service: Sender, order: seq<Cookie>, closings: seq<Closing>)
    | ToSession(id: Id, event: SessionSpec.Event)
    | VtSwitched(num: nat, found: Option<Id>, kernel: Kernel)
    | ActivateCalled(id: Id, seatId: Id, switched: bool, kernel: Kernel)
    | ToCore(core: CoreEvent)

  /** paranoia_check_is_cookie_owner */
  predicate Owns(m: ManagerState, cookie: Cookie, uid: nat, pid: nat) {
    cookie in m.leaders && m.leaders[cookie].uid == uid && m.leaders[cookie].pid == pid
  }

  /** The leaders of one bus name, each once, in some order. */
  ghost predicate LeadersOf(m: ManagerState, service: Sender, order: seq<Cookie>) {
    && (forall i, j :: 0 <= i < j < |order| ==> order[i] != order[j])
    && (forall c :: c in order <==> c in m.leaders && m.leaders[c].service == service)
  }

  /** Each of the leaders, already off the table, has its session closed if it has one. */
  ghost predicate CanSweep(m: ManagerState, leaders: map<Cookie, Leader>, order: seq<Cookie>, closings: seq<Closing>)
    requires forall c :: c in order ==> c in leaders
    decreases |order|, 0
  {
    |closings| == |order| &&
    (order == [] ||
     var n := |order| - 1;
     assert forall c :: c in order[..n] ==> c in order;
     CanSweep(m, leaders, order[..n], closings[..n]) &&
     var before := Sweep(m, leaders, order[..n], closings[..n]);
     var ssid := leaders[order[n]].session;
     (ssid in before.sessions ==> CanClose(before, ssid, closings[n])))
  }

  ghost function Sweep(m: ManagerState, leaders: map<Cookie, Leader>, order: seq<Cookie>,
      closings: seq<Closing>): ManagerState
    requires forall c :: c in order ==> c in leaders
    requires CanSweep(m, leaders, order, closings)
    decreases |order|, 1
  {
    if order == [] then m
    else
      var n := |order| - 1;
      assert order[n] in order && forall c :: c in order[..n] ==> c in order;
      var before := Sweep(m, leaders, order[..n], closings[..n]);
      var ssid := leaders[order[n]].session;
      if ssid in before.sessions then CloseSession(before, ssid, closings[n]) else before
  }

  function WithoutLeaders(m: ManagerState, order: seq<Cookie>): ManagerState {
    m.(leaders := m.leaders - set c | c in order)
  }

  ghost predicate CanHappen(m: ManagerState, e: ManagerEvent) {
    match e
    case Asked(cookie, service, uid, pid, ssid, next) =>
      && cookie !in m.leaders && 1 <= m.sessionSerial < SIGN_BIT && |m.sessions.Keys| < Period(1)
      && IsFresh(SESSION_PREFIX, 1, m.sessionSerial, m.sessions.Keys, ssid, next)
    case Collected(cookie, opening) =>
      cookie in m.leaders && m.leaders[cookie].pending && CanOpen(m, m.leaders[cookie].session, opening)
    case NotCollected(cookie) => cookie in m.leaders && m.leaders[cookie].pending
    case CloseCalled(cookie, uid, pid, closing) =>
      Owns(m, cookie, uid, pid) && m.leaders[cookie].session in m.sessions ==>
        CanClose(m, m.leaders[cookie].session, closing)
    case PeerGone(service, order, closings) =>
      LeadersOf(m, service, order) && CanSweep(WithoutLeaders(m, order), m.leaders, order, closings)
    case ToSession(id, event) =>
      id in m.sessions && !(event.Activation? && event.active) && SessionSpec.Enabled(m.sessions[id], event)
    case VtSwitched(num, found, _) =>
      && SEAT0 in m.seats && m.seats[SEAT0].kind == Static && num < UINT_RANGE && num != m.vt && CachesOk(m)
      && m.seats[SEAT0].members <= m.sessions.Keys && LooksUp(WorldOf(m, SEAT0).(vt := num), num, found)
    case ActivateCalled(id, _, _, _) => id in m.sessions && CachesOk(m)
    case ToCore(event) => CoreEnabled(m.core, event)
  }

  ghost function Next(m: ManagerState, e: ManagerEvent): ManagerState
    requires CanHappen(m, e)
  {
    match e
    case Asked(cookie, service, uid, pid, ssid, next) =>
      m.(leaders := m.leaders[cookie := Leader(ssid, service, uid, pid, true)], sessionSerial := next)
    case Collected(cookie, opening) =>
      var leader := m.leaders[cookie];
      OpenSession(m, leader.session, opening).(leaders := m.leaders[cookie := leader.(pending := false)])
    case NotCollected(cookie) =>
      m.(leaders := m.leaders[cookie := m.leaders[cookie].(pending := false)])
    case CloseCalled(cookie, uid, pid, closing) =>
      if Owns(m, cookie, uid, pid) && m.leaders[cookie].session in m.sessions then
        CloseSession(m, m.leaders[cookie].session, closing).(leaders := m.leaders - {cookie})
      else m
    case PeerGone(service, order, closings) =>
      Sweep(WithoutLeaders(m, order), m.leaders, order, closings)
    case ToSession(id, event) =>
      var s := SessionSpec.Step(m.sessions[id], event);
      var m1 := m.(sessions := m.sessions[id := s]);
      if s.reg.idle == m.sessions[id].reg.idle then m1 else UpdateIdle(m1)
    case VtSwitched(num, found, kernel) =>
      PutWorld(m.(vt := num), SEAT0, ChangeActive(WorldOf(m, SEAT0).(vt := num), found, kernel))
    case ActivateCalled(id, seatId, switched, kernel) =>
      if seatId !in m.seats then m
      else PutWorld(m, seatId, Activate(WorldOf(m, seatId), id, switched, kernel).0)
    case ToCore(event) => m.(core := CoreStep(m.core, event))
  }

  /** The daemon once the primary seat has been loaded and nobody has logged in. */
  function Booted(platform: Platform, vt: nat): ManagerState {
    ManagerState(platform, vt, map[], map[SEAT0 := SeatState(Static, {}, None)], map[], 1, 1, {}, true, [],
                 Core(Start(), NoAction()))
  }

  // ----- frames

  /** Changing the active session touches no session's registration and no seat's members. */
  lemma ChangeActiveFrame(w: World, found: Option<Id>, kernel: Kernel)
    requires w.seat.active.Some? ==> w.seat.active.value in w.store
    requires found.Some? ==> found.value in w.store
    ensures var r := ChangeActive(w, found, kernel);
      && SameRegistration(r.store, w.store)
      && r.seat == w.seat.(active := found) && r.vt == w.vt && r.platform == w.platform
      && forall id :: id in w.store && w.seat.active != Some(id) && found != Some(id) ==> r.store[id] == w.store[id]
  {
    hide Drop, Grant;
    DropFrame(w, kernel);
    GrantFrame(if w.seat.active == found then w else Drop(w, kernel), found, kernel);
  }

  lemma DropFrame(w: World, kernel: Kernel)
    requires w.seat.active.Some? ==> w.seat.active.value in w.store
    ensures var r := Drop(w, kernel);
      && SameRegistration(r.store, w.store) && r == w.(store := r.store)
      && forall id :: id in w.store && w.seat.active != Some(id) ==> r.store[id] == w.store[id]
  {
    hide SetActive;
    if w.seat.active.Some? {
      SetActiveFrame(w.store[w.seat.active.value], false, kernel);
    }
  }

  lemma GrantFrame(w: World, found: Option<Id>, kernel: Kernel)
    requires found.Some? ==> found.value in w.store
    ensures var r := Grant(w, found, kernel);
      && SameRegistration(r.store, w.store)
      && r.seat == w.seat.(active := found) && r.vt == w.vt && r.platform == w.platform
      && forall id :: id in w.store && found != Some(id) ==> r.store[id] == w.store[id]
  {
    hide SetActive;
    if found.Some? {
      SetActiveFrame(w.store[found.value], true, kernel);
    }
  }

  lemma SetActiveFrame(s: SessionState, active: bool, kernel: Kernel)
    ensures SetActive(s, active, true, kernel).reg == s.reg && SetActive(s, active, true, kernel).info == s.info
  {
  }

  ghost predicate SameRegistration(a: map<Id, SessionState>, b: map<Id, SessionState>) {
    a.Keys == b.Keys && forall id :: id in a ==> a[id].reg == b[id].reg && a[id].info == b[id].info
  }

  lemma ActivateKeepsRegistration(w: World, id: Id, switched: bool, kernel: Kernel)
    requires w.seat.active.Some? ==> w.seat.active.value in w.store
    requires id in w.store
    ensures var r := Activate(w, id, switched, kernel).0; SameRegistration(r.store, w.store) && r.seat == w.seat
  {
    hide SetActive, Num, Preferred, Yield, SameRegistration;
    YieldKeepsRegistration(w, id, kernel);
    var w1 := Yield(w, id, kernel);
    SetActiveFrame(w1.store[id], true, kernel);
    PutKeepsRegistration(w1, id, SetActive(w1.store[id], true, true, kernel), w.store);
  }

  lemma YieldKeepsRegistration(w: World, id: Id, kernel: Kernel)
    requires w.seat.active.Some? ==> w.seat.active.value in w.store
    ensures var r := Yield(w, id, kernel);
      r.seat == w.seat && r.store.Keys == w.store.Keys && SameRegistration(r.store, w.store)
    ensures SameRegistration(w.store, w.store)
  {
    hide Drop;
    DropFrame(w, kernel);
  }

  lemma PutKeepsRegistration(w: World, id: Id, s: SessionState, store: map<Id, SessionState>)
    requires id in w.store && s.reg == w.store[id].reg && s.info == w.store[id].info && SameRegistration(w.store, store)
    ensures SameRegistration(Put(w, id, s).store, store)
  {
  }

  lemma UpdateIdleFrame(m: ManagerState)
    ensures UpdateIdle(m) == m.(idleHint := UpdateIdle(m).idleHint, idleSent := UpdateIdle(m).idleSent)
  {
  }

  // ----- the tables agree

  /** Each session is on exactly one seat, the one it names; seat0 is the static seat and
      every other seat is dynamic and holds exactly one session. */
  ghost predicate Partition(m: ManagerState) {
    && SEAT0 in m.seats
    && (forall sid :: sid in m.seats ==> SeatOk(m, sid))
    && (forall id :: id in m.sessions ==> Placed(m, id))
  }

  ghost predicate SeatOk(m: ManagerState, sid: Id)
    requires sid in m.seats
  {
    var seat := m.seats[sid];
    && (seat.kind == Static <==> sid == SEAT0)
    && (forall id :: id in seat.members ==> id in m.sessions && m.sessions[id].reg.seatId == Some(sid))
    && (seat.active.Some? ==> seat.active.value in seat.members)
    && (seat.kind == Dynamic ==> seat.active.None? && exists id :: seat.members == {id})
  }

  ghost predicate Placed(m: ManagerState, id: Id)
    requires id in m.sessions
  {
    var seatId := m.sessions[id].reg.seatId;
    seatId.Some? && seatId.value in m.seats && id in m.seats[seatId.value].members
  }

  lemma PartitionWf(m: ManagerState)
    requires Partition(m)
    ensures CachesOk(m) && forall sid :: sid in m.seats ==> SeatSpec.Wf(WorldOf(m, sid))
  {
    forall sid | sid in m.seats ensures SeatSpec.Wf(WorldOf(m, sid)) {
      assert SeatOk(m, sid);
    }
  }

  lemma IsPlaced(m: ManagerState, id: Id)
    requires Partition(m) && id in m.sessions
    ensures Placed(m, id)
  {
  }

  lemma HasSeat0(m: ManagerState)
    requires Partition(m)
    ensures SEAT0 in m.seats && m.seats[SEAT0].kind == Static
  {
    assert SeatOk(m, SEAT0);
  }

  lemma KindIs(m: ManagerState, sid: Id)
    requires Partition(m) && sid in m.seats
    ensures m.seats[sid].kind == Static <==> sid == SEAT0
  {
    assert SeatOk(m, sid);
  }

  /** Following the VT touches no registration and only the seat's cache, which ends up
      among its members. */
  lemma MaybeUpdateFrame(w: World, found: Option<Id>, kernel: Kernel)
    requires w.seat.members <= w.store.Keys && LooksUp(w, w.vt, found)
    requires w.seat.active.Some? ==> w.seat.kind == Static && w.seat.active.value in w.store
    ensures w.seat.kind == Static && found.Some? ==> found.value in w.store
    ensures var r := MaybeUpdate(w, found, kernel);
      && SameRegistration(r.store, w.store)
      && r.seat == w.seat.(active := r.seat.active)
      && (r.seat.active.Some? ==> r.seat.kind == Static && r.seat.active.value in r.seat.members)
      && forall id :: id in w.store && id !in w.seat.members && w.seat.active != Some(id) ==> r.store[id] == w.store[id]
  {
    hide ChangeActive, Candidates;
    if w.seat.kind == Static {
      FoundInMembers(w, found);
      ChangeActiveFrame(w, found, kernel);
    }
  }

  lemma FoundInMembers(w: World, found: Option<Id>)
    requires w.seat.members <= w.store.Keys && w.seat.kind == Static && LooksUp(w, w.vt, found)
    ensures found.Some? ==> found.value in w.seat.members
  {
  }

  /** What an opened session's seat and table entry look like. */
  lemma OpenShape(m: ManagerState, ssid: Id, o: Opening) returns (sid: Id, seat: SeatState)
    requires Partition(m) && CanOpen(m, ssid, o) && ssid !in m.sessions
    ensures sid == SeatIdFor(m, o) && (sid == SEAT0 || sid !in m.seats)
    ensures seat.members == (if sid in m.seats then m.seats[sid].members else {}) + {ssid}
    ensures seat.kind == if sid == SEAT0 then Static else Dynamic
    ensures seat.active.Some? ==> seat.kind == Static && seat.active.value in seat.members
    ensures var r := OpenSession(m, ssid, o);
      && r.seats == m.seats[sid := seat] && r.leaders == m.leaders && r.sessionSerial == m.sessionSerial
      && r.platform == m.platform && r.vt == m.vt && r.core == m.core
      && r.dirs == (if MakesDir(m, o) then m.dirs + {o.info.uid} else m.dirs)
      && r.sessions.Keys == m.sessions.Keys + {ssid}
      && SameRegistration(r.sessions - {ssid}, m.sessions)
      && r.sessions[ssid].info == o.info
      && r.sessions[ssid].reg == Registration(false, o.isLocal, Some(sid), Opened(m, o).reg.runtimeDir)
  {
    hide MaybeUpdate, GoesToSeat0, LooksUp, UpdateIdle, Opened, IsFresh, MakesDir, SetLocal, Partition,
         SameRegistration;
    var w := Attached(m, ssid, o);
    sid := SeatIdFor(m, o);
    ChosenSeat(m, o);
    MaybeUpdateFrame(w, o.found, o.kernel);
    OpenedFrame(m, o);
    var w1 := MaybeUpdate(w, o.found, o.kernel);
    seat := w1.seat;
    ListedAs(m.sessions, Opened(m, o).(reg := Opened(m, o).reg.(seatId := Some(sid))), w1.store, ssid, o.isLocal);
    UpdateIdleFrame(OpenTables(m, ssid, o));
  }

  lemma ListedAs(sessions: map<Id, SessionState>, s: SessionState, store: map<Id, SessionState>, ssid: Id,
      isLocal: bool)
    requires ssid !in sessions && SameRegistration(store, sessions[ssid := s])
    ensures ssid in store
    ensures var r := SetLocal(store, ssid, isLocal);
      && r.Keys == sessions.Keys + {ssid} && SameRegistration(r - {ssid}, sessions)
      && r[ssid].info == s.info && r[ssid].reg == s.reg.(isLocal := isLocal)
  {
  }

  /** A session goes to seat0 or to a seat whose id is new. */
  lemma ChosenSeat(m: ManagerState, o: Opening)
    requires Partition(m) && m.seatSerial < SIGN_BIT
    requires !GoesToSeat0(m, o.info, o.saysLocal) ==>
      IsFresh(SEAT_PREFIX, 0, m.seatSerial, m.seats.Keys, o.seatId, o.seatNext)
    ensures var sid, seat := SeatIdFor(m, o), SeatFor(m, o);
      && (sid == SEAT0 || sid !in m.seats)
      && seat.members == (if sid in m.seats then m.seats[sid].members else {})
      && seat.kind == (if sid == SEAT0 then Static else Dynamic)
      && (seat.active.Some? ==> seat.kind == Static && seat.active.value in m.sessions)
  {
    assert SeatOk(m, SEAT0);
  }

  lemma OpenedFrame(m: ManagerState, o: Opening)
    ensures Opened(m, o).info == o.info
    ensures Opened(m, o).reg == Registration(false, o.saysLocal, None, Opened(m, o).reg.runtimeDir)
  {
  }

  /** Opening a session under an id not in use. */
  lemma OpenKeepsPartition(m: ManagerState, ssid: Id, o: Opening)
    requires Partition(m) && CanOpen(m, ssid, o) && ssid !in m.sessions
    ensures Partition(OpenSession(m, ssid, o))
  {
    hide OpenSession, CanOpen, SeatIdFor, Opened, MakesDir, GoesToSeat0, Partition;
    var sid, seat := OpenShape(m, ssid, o);
    PartitionWith(m, OpenSession(m, ssid, o), ssid, sid, seat);
  }

  lemma PartitionWith(m: ManagerState, r: ManagerState, ssid: Id, sid: Id, seat: SeatState)
    requires Partition(m) && ssid !in m.sessions && (sid == SEAT0 || sid !in m.seats)
    requires seat.members == (if sid in m.seats then m.seats[sid].members else {}) + {ssid}
    requires seat.kind == if sid == SEAT0 then Static else Dynamic
    requires seat.active.Some? ==> seat.kind == Static && seat.active.value in seat.members
    requires r.seats == m.seats[sid := seat] && r.sessions.Keys == m.sessions.Keys + {ssid}
    requires SameRegistration(r.sessions - {ssid}, m.sessions) && r.sessions[ssid].reg.seatId == Some(sid)
    ensures Partition(r)
  {
    assert forall id :: id in m.sessions ==> id in r.sessions - {ssid} && r.sessions[id].reg == m.sessions[id].reg;
    forall other | other in r.seats ensures SeatOk(r, other) {
      assert other in m.seats ==> SeatOk(m, other);
      assert sid != SEAT0 ==> seat.members == {ssid};
    }
    forall id | id in r.sessions ensures Placed(r, id) {
      assert id != ssid ==> Placed(m, id);
    }
  }

  /** What is left of a session's seat when it leaves. */
  lemma LeaveShape(m: ManagerState, ssid: Id, c: Closing) returns (sid: Id, seat: SeatState)
    requires Partition(m) && CanClose(m, ssid, c)
    ensures ssid in m.sessions
    ensures m.sessions[ssid].reg.seatId == Some(sid) && sid in m.seats && ssid in m.seats[sid].members
    ensures seat.members == m.seats[sid].members - {ssid} && seat.kind == m.seats[sid].kind
    ensures seat.active.Some? ==> seat.kind == Static && seat.active.value in seat.members
    ensures var (sessions, seats) := LeaveSeat(m, ssid, c);
      && SameRegistration(sessions, m.sessions) && UnchangedOff(sessions, m.sessions, m.seats[sid].members)
      && seats == if seat.kind == Dynamic then m.seats - {sid} else m.seats[sid := seat]
  {
    hide MaybeUpdate, LooksUp, IsPeer, SameRegistration, Partition;
    sid := SeatOfSession(m, ssid);
    var w := Detach(WorldOf(m, sid), ssid);
    assert LooksUp(w, w.vt, c.found);
    MaybeUpdateFrame(w, c.found, c.kernel);
    seat := MaybeUpdate(w, c.found, c.kernel).seat;
  }

  /** The sessions not among these are as they were. */
  ghost predicate UnchangedOff(r: map<Id, SessionState>, m: map<Id, SessionState>, ids: set<Id>) {
    forall id :: id in m && id in r && id !in ids ==> r[id] == m[id]
  }

  lemma SeatOfSession(m: ManagerState, ssid: Id) returns (sid: Id)
    requires Partition(m) && ssid in m.sessions
    ensures m.sessions[ssid].reg.seatId == Some(sid) && sid in m.seats && ssid in m.seats[sid].members
    ensures SeatSpec.Wf(WorldOf(m, sid))
  {
    assert Placed(m, ssid);
    sid := m.sessions[ssid].reg.seatId.value;
    assert SeatOk(m, sid);
  }

  lemma CloseShape(m: ManagerState, ssid: Id, c: Closing) returns (sid: Id, seat: SeatState)
    requires Partition(m) && CanClose(m, ssid, c)
    ensures ssid in m.sessions && m.sessions[ssid].reg.seatId == Some(sid) && sid in m.seats
    ensures ssid in m.seats[sid].members
    ensures seat.members == m.seats[sid].members - {ssid} && seat.kind == m.seats[sid].kind
    ensures seat.active.Some? ==> seat.kind == Static && seat.active.value in seat.members
    ensures var r := CloseSession(m, ssid, c);
      && r.sessions.Keys == m.sessions.Keys - {ssid} && SameRegistration(r.sessions, m.sessions - {ssid})
      && UnchangedOff(r.sessions, m.sessions, m.seats[sid].members)
      && r.seats == (if seat.kind == Dynamic then m.seats - {sid} else m.seats[sid := seat])
      && r.leaders == m.leaders && r.sessionSerial == m.sessionSerial && r.seatSerial == m.seatSerial
      && r.platform == m.platform && r.vt == m.vt && r.core == m.core
      && r.dirs == if DirOf(r.sessions, c.peer).None? then m.dirs - {m.sessions[ssid].info.uid} else m.dirs
  {
    hide LeaveSeat, UpdateIdle, CanClose, Partition;
    sid, seat := LeaveShape(m, ssid, c);
    UpdateIdleFrame(CloseTables(m, ssid, c));
  }

  /** Closing a session strands no other: a dynamic seat is dropped with its only one. */
  lemma CloseKeepsPartition(m: ManagerState, ssid: Id, c: Closing)
    requires Partition(m) && CanClose(m, ssid, c)
    ensures Partition(CloseSession(m, ssid, c))
  {
    hide CloseSession, CanClose, Partition;
    var sid, seat := CloseShape(m, ssid, c);
    PartitionWithout(m, CloseSession(m, ssid, c), ssid, sid, seat);
  }

  lemma PartitionWithout(m: ManagerState, r: ManagerState, ssid: Id, sid: Id, seat: SeatState)
    requires Partition(m) && sid in m.seats && ssid in m.seats[sid].members && ssid in m.sessions
    requires m.sessions[ssid].reg.seatId == Some(sid)
    requires seat.members == m.seats[sid].members - {ssid} && seat.kind == m.seats[sid].kind
    requires seat.active.Some? ==> seat.kind == Static && seat.active.value in seat.members
    requires r.seats == if seat.kind == Dynamic then m.seats - {sid} else m.seats[sid := seat]
    requires r.sessions.Keys == m.sessions.Keys - {ssid} && SameRegistration(r.sessions, m.sessions - {ssid})
    ensures Partition(r)
  {
    assert SeatOk(m, sid) && SeatOk(m, SEAT0);
    forall other | other in r.seats ensures SeatOk(r, other) {
      assert SeatOk(m, other);
    }
    forall id | id in r.sessions ensures Placed(r, id) {
      assert Placed(m, id);
    }
  }

  // ----- cookies and session ids

  /** Leaders have sessions of their own; a listed session has a leader; a leader whose
      session is still to be opened finds its id unused. */
  ghost predicate Cookies(m: ManagerState) {
    && (forall c1, c2 :: c1 in m.leaders && c2 in m.leaders && m.leaders[c1].session == m.leaders[c2].session ==>
          c1 == c2)
    && (forall id :: id in m.sessions ==> exists c :: c in m.leaders && m.leaders[c].session == id)
    && (forall c :: c in m.leaders ==> LeaderOk(m, c))
    && 1 <= m.sessionSerial < SIGN_BIT
  }

  ghost predicate LeaderOk(m: ManagerState, c: Cookie)
    requires c in m.leaders
  {
    m.leaders[c].pending ==> m.leaders[c].session !in m.sessions
  }

  ghost predicate Tables(m: ManagerState) { Partition(m) && Cookies(m) }

  /** No id is drawn that a leader still has: only the session table is asked. */
  predicate NotReused(m: ManagerState, e: ManagerEvent) {
    e.Asked? ==> forall c :: c in m.leaders ==> m.leaders[c].session != e.ssid
  }

  lemma AskKeepsTablesExactly(m: ManagerState, e: ManagerEvent)
    requires Tables(m) && e.Asked? && CanHappen(m, e)
    ensures Tables(Next(m, e)) <==> NotReused(m, e)
  {
    hide Cookies, Partition;
    var r := Next(m, e);
    DrawnSerial(m.sessionSerial, m.sessions.Keys, e.ssid, e.next);
    SamePartition(m, r);
    OneMoreLeader(m, r, e.cookie, e.ssid);
  }

  lemma DrawnSerial(serial: nat, table: set<Id>, id: Id, next: nat)
    requires 1 <= serial < SIGN_BIT && IsFresh(SESSION_PREFIX, 1, serial, table, id, next)
    ensures 1 <= next < SIGN_BIT && id !in table
  {
  }

  lemma OneMoreLeader(m: ManagerState, r: ManagerState, cookie: Cookie, ssid: Id)
    requires Cookies(m) && cookie !in m.leaders && r.sessions == m.sessions && ssid !in m.sessions
    requires cookie in r.leaders && r.leaders == m.leaders[cookie := r.leaders[cookie]]
    requires r.leaders[cookie].session == ssid && 1 <= r.sessionSerial < SIGN_BIT
    ensures Cookies(r) <==> forall c :: c in m.leaders ==> m.leaders[c].session != ssid
  {
    assert forall c :: c in m.leaders ==> c in r.leaders && r.leaders[c] == m.leaders[c] && LeaderOk(m, c);
    forall id | id in r.sessions ensures exists c :: c in r.leaders && r.leaders[c].session == id {
      var c :| c in m.leaders && m.leaders[c].session == id;
      assert c in r.leaders && r.leaders[c].session == id;
    }
  }

  // ----- before the serial comes round

  /** The id was made from a serial handed out before this one. */
  ghost predicate Issued(id: Id, serial: nat) {
    exists k: nat :: 1 <= k < serial && id == SESSION_PREFIX + Decimal(k)
  }

  ghost predicate AllIssued(m: ManagerState) {
    1 <= m.sessionSerial < SIGN_BIT && forall c :: c in m.leaders ==> Issued(m.leaders[c].session, m.sessionSerial)
  }

  /** The serial does not come round in this step. */
  predicate BeforeWrap(m: ManagerState, e: ManagerEvent) {
    e.Asked? ==> e.next > m.sessionSerial
  }

  /** Before the serial comes round, an id just drawn has never been issued. */
  lemma DrawnIsNew(serial: nat, table: set<Id>, id: Id, next: nat)
    requires 1 <= serial < next && serial < SIGN_BIT && |table| < Period(1)
    requires IsFresh(SESSION_PREFIX, 1, serial, table, id, next)
    ensures next < SIGN_BIT && Issued(id, next) && !Issued(id, serial) && id !in table
  {
    var n: nat :| n <= |table| && FoundAt(SESSION_PREFIX, 1, serial, table, id, next, n);
    NthOnCycle(1, serial, n);
    var k := Nth(1, serial, n);
    assert next == NextSerial(1, k);
    assert id == SESSION_PREFIX + Decimal(k);
    forall j: nat | 1 <= j < serial ensures id != SESSION_PREFIX + Decimal(j) {
      if id == SESSION_PREFIX + Decimal(j) {
        assert id[|SESSION_PREFIX|..] == Decimal(j) && id[|SESSION_PREFIX|..] == Decimal(k);
        DecimalInjective(j, k);
      }
    }
  }

  lemma IssuedLater(id: Id, serial: nat, next: nat)
    requires Issued(id, serial) && serial <= next
    ensures Issued(id, next)
  {
    var k: nat :| 1 <= k < serial && id == SESSION_PREFIX + Decimal(k);
    assert 1 <= k < next;
  }

  /** Until the serial comes round no id is reused. */
  lemma BeforeWrapNotReused(m: ManagerState, e: ManagerEvent)
    requires AllIssued(m) && CanHappen(m, e) && BeforeWrap(m, e)
    ensures NotReused(m, e) && AllIssued(Next(m, e))
  {
    hide Issued, IsFresh, CanOpen, OpenSession, CanClose, CloseSession, CanSweep, Sweep, ChangeActive, Activate,
         CoreStep, SessionSpec.Step, LooksUp, CachesOk, AllIdle, IdleBlocked;
    match e {
      case Asked(_, _, _, _, ssid, next) =>
        DrawnIsNew(m.sessionSerial, m.sessions.Keys, ssid, next);
        forall c | c in m.leaders ensures Issued(m.leaders[c].session, next) {
          IssuedLater(m.leaders[c].session, m.sessionSerial, next);
        }
      case Collected(cookie, opening) => OpenKeepsSerial(m, m.leaders[cookie].session, opening);
      case CloseCalled(cookie, uid, pid, closing) =>
        if Owns(m, cookie, uid, pid) && m.leaders[cookie].session in m.sessions {
          CloseKeepsLeaders(m, m.leaders[cookie].session, closing);
        }
      case PeerGone(_, order, closings) => SweepKeepsLeaders(WithoutLeaders(m, order), m.leaders, order, closings);
      case _ =>
    }
  }

  lemma OpenKeepsSerial(m: ManagerState, ssid: Id, o: Opening)
    requires CanOpen(m, ssid, o)
    ensures OpenSession(m, ssid, o).sessionSerial == m.sessionSerial
  {
    hide MaybeUpdate, AllIdle, IdleBlocked, GoesToSeat0, SetLocal;
  }

  lemma CloseKeepsLeaders(m: ManagerState, ssid: Id, c: Closing)
    requires CanClose(m, ssid, c)
    ensures var r := CloseSession(m, ssid, c);
      r.leaders == m.leaders && r.sessionSerial == m.sessionSerial && r.core == m.core
  {
    hide LeaveSeat, AllIdle, IdleBlocked;
  }

  lemma {:induction false} SweepKeepsLeaders(m: ManagerState, leaders: map<Cookie, Leader>, order: seq<Cookie>,
      closings: seq<Closing>)
    requires (forall c :: c in order ==> c in leaders) && CanSweep(m, leaders, order, closings)
    ensures var r := Sweep(m, leaders, order, closings);
      r.leaders == m.leaders && r.sessionSerial == m.sessionSerial && r.core == m.core
    decreases |order|
  {
    hide CloseSession, CanClose;
    if order != [] {
      var n := |order| - 1;
      assert order[n] in order && forall c :: c in order[..n] ==> c in order;
      SweepKeepsLeaders(m, leaders, order[..n], closings[..n]);
      var before := Sweep(m, leaders, order[..n], closings[..n]);
      if leaders[order[n]].session in before.sessions {
        CloseKeepsLeaders(before, leaders[order[n]].session, closings[n]);
      }
    }
  }

  // ----- the events that open and close

  lemma CollectKeepsTables(m: ManagerState, e: ManagerEvent)
    requires Tables(m) && e.Collected? && CanHappen(m, e)
    ensures Tables(Next(m, e))
  {
    hide OpenSession, CanOpen, Opened, MakesDir, Partition, GoesToSeat0, Cookies, SameRegistration, SeatIdFor;
    var leader := m.leaders[e.cookie];
    assert LeaderOk(m, e.cookie) by { LeaderIsOk(m, e.cookie); }
    var sid, seat := OpenShape(m, leader.session, e.opening);
    OpenKeepsPartition(m, leader.session, e.opening);
    var o := OpenSession(m, leader.session, e.opening);
    var r := Next(m, e);
    assert r == o.(leaders := r.leaders);
    SamePartition(o, r);
    NoLongerPending(m, r, e.cookie);
  }

  lemma LeaderIsOk(m: ManagerState, cookie: Cookie)
    requires Cookies(m) && cookie in m.leaders
    ensures LeaderOk(m, cookie)
  {
  }

  /** A leader's parameters have been collected, its session opened or refused. */
  lemma NoLongerPending(m: ManagerState, r: ManagerState, cookie: Cookie)
    requires Cookies(m) && cookie in m.leaders && r.sessionSerial == m.sessionSerial
    requires r.leaders == m.leaders[cookie := m.leaders[cookie].(pending := false)]
    requires r.sessions.Keys == m.sessions.Keys || r.sessions.Keys == m.sessions.Keys + {m.leaders[cookie].session}
    ensures Cookies(r)
  {
    forall c | c in r.leaders ensures LeaderOk(r, c) { assert LeaderOk(m, c); }
    forall id | id in r.sessions ensures exists c :: c in r.leaders && r.leaders[c].session == id {
      var c :| c in m.leaders && m.leaders[c].session == id;
      assert c in r.leaders && r.leaders[c].session == id;
    }
  }

  lemma SamePartition(m: ManagerState, r: ManagerState)
    requires Partition(m) && r.sessions.Keys == m.sessions.Keys && r.seats.Keys == m.seats.Keys
    requires forall id :: id in m.sessions ==> r.sessions[id].reg.seatId == m.sessions[id].reg.seatId
    requires forall sid :: sid in m.seats ==>
      && r.seats[sid] == m.seats[sid].(active := r.seats[sid].active)
      && (r.seats[sid].active == m.seats[sid].active
          || (sid == SEAT0 && (r.seats[sid].active.Some? ==> r.seats[sid].active.value in r.seats[sid].members)))
    ensures Partition(r)
  {
    forall sid | sid in r.seats ensures SeatOk(r, sid) { assert SeatOk(m, sid); }
    forall id | id in r.sessions ensures Placed(r, id) { assert Placed(m, id); }
  }

  lemma SameCookies(m: ManagerState, r: ManagerState)
    requires Cookies(m) && r.leaders == m.leaders && r.sessionSerial == m.sessionSerial
    requires r.sessions.Keys == m.sessions.Keys
    ensures Cookies(r)
  {
    forall c | c in r.leaders ensures LeaderOk(r, c) { assert LeaderOk(m, c); }
  }

  lemma NotCollectedKeepsTables(m: ManagerState, e: ManagerEvent)
    requires Tables(m) && e.NotCollected? && CanHappen(m, e)
    ensures Tables(Next(m, e))
  {
    hide Partition, Cookies;
    SamePartition(m, Next(m, e));
    NoLongerPending(m, Next(m, e), e.cookie);
  }

  lemma CloseKeepsTables(m: ManagerState, e: ManagerEvent)
    requires Tables(m) && e.CloseCalled? && CanHappen(m, e)
    ensures Tables(Next(m, e))
  {
    hide CloseSession, CanClose, Partition, Cookies, SameRegistration;
    if Owns(m, e.cookie, e.uid, e.pid) && m.leaders[e.cookie].session in m.sessions {
      var ssid := m.leaders[e.cookie].session;
      var sid, seat := CloseShape(m, ssid, e.closing);
      CloseKeepsPartition(m, ssid, e.closing);
      var o := CloseSession(m, ssid, e.closing);
      var r := Next(m, e);
      assert r == o.(leaders := r.leaders) && r.leaders == m.leaders - {e.cookie};
      SamePartition(o, r);
      LeadersLeft(m, r, {e.cookie});
    }
  }

  /** Leaders taken off the table together with their sessions leave the others in order. */
  lemma LeadersLeft(m: ManagerState, r: ManagerState, gone: set<Cookie>)
    requires Cookies(m) && r.leaders == m.leaders - gone && r.sessionSerial == m.sessionSerial
    requires r.sessions.Keys == m.sessions.Keys - (set c | c in gone && c in m.leaders :: m.leaders[c].session)
    ensures Cookies(r)
  {
    forall c | c in r.leaders ensures LeaderOk(r, c) { assert LeaderOk(m, c); }
    forall id | id in r.sessions ensures exists c :: c in r.leaders && r.leaders[c].session == id {
      var c :| c in m.leaders && m.leaders[c].session == id;
      assert c in r.leaders && r.leaders[c].session == id;
    }
  }

  // ----- the sweep when a bus name vanishes

  function SessionsOf(leaders: map<Cookie, Leader>, order: seq<Cookie>): set<Id> {
    set c | c in order && c in leaders :: leaders[c].session
  }

  /** The sweep closes exactly the sessions of the leaders it was given. */
  lemma {:induction false} SweepShape(m: ManagerState, leaders: map<Cookie, Leader>, order: seq<Cookie>,
      closings: seq<Closing>)
    requires Partition(m) && (forall c :: c in order ==> c in leaders) && CanSweep(m, leaders, order, closings)
    ensures var r := Sweep(m, leaders, order, closings);
      && Partition(r)
      && r.sessions.Keys == m.sessions.Keys - SessionsOf(leaders, order)
      && SameRegistration(r.sessions, m.sessions - SessionsOf(leaders, order))
      && r.leaders == m.leaders && r.sessionSerial == m.sessionSerial && r.core == m.core
      && r.platform == m.platform && r.vt == m.vt
    decreases |order|
  {
    hide CloseSession, CanClose, Partition;
    if order == [] {
      assert SessionsOf(leaders, order) == {};
    } else {
      var n := |order| - 1;
      assert order[n] in order && forall c :: c in order[..n] ==> c in order;
      assert order == order[..n] + [order[n]];
      SweepShape(m, leaders, order[..n], closings[..n]);
      var before := Sweep(m, leaders, order[..n], closings[..n]);
      var ssid := leaders[order[n]].session;
      assert SessionsOf(leaders, order) == SessionsOf(leaders, order[..n]) + {ssid};
      if ssid in before.sessions {
        CloseKeepsPartition(before, ssid, closings[n]);
        var sid, seat := CloseShape(before, ssid, closings[n]);
      }
    }
  }

  predicate OnSeat0(m: ManagerState, id: Id)
    requires id in m.sessions
  {
    m.sessions[id].reg.seatId == Some(SEAT0)
  }

  /** Closing a session touches at most the sessions it shares seat0 with. */
  lemma CloseTouches(m: ManagerState, ssid: Id, c: Closing)
    requires Partition(m) && CanClose(m, ssid, c)
    ensures ssid in m.sessions && CloseSession(m, ssid, c).sessions.Keys == m.sessions.Keys - {ssid}
    ensures forall id :: id in m.sessions && id != ssid && !(OnSeat0(m, id) && OnSeat0(m, ssid)) ==>
              CloseSession(m, ssid, c).sessions[id] == m.sessions[id]
  {
    hide CloseSession, CanClose, Partition, SameRegistration;
    var sid, seat := CloseShape(m, ssid, c);
    forall id | id in m.sessions && id != ssid && !(OnSeat0(m, id) && OnSeat0(m, ssid))
      ensures id !in m.seats[sid].members
    {
      NotBeside(m, sid, ssid, id);
    }
  }

  lemma NotBeside(m: ManagerState, sid: Id, ssid: Id, id: Id)
    requires Partition(m) && sid in m.seats && ssid in m.seats[sid].members && id in m.sessions && id != ssid
    requires ssid in m.sessions && !(OnSeat0(m, id) && OnSeat0(m, ssid))
    ensures id !in m.seats[sid].members
  {
    assert SeatOk(m, sid);
  }

  /** The sweep touches at most the sessions on seat0, and those only if it closes one there. */
  lemma {:induction false} SweepTouches(m: ManagerState, leaders: map<Cookie, Leader>, order: seq<Cookie>,
      closings: seq<Closing>, id: Id)
    requires Partition(m) && (forall c :: c in order ==> c in leaders) && CanSweep(m, leaders, order, closings)
    requires id in m.sessions && id !in SessionsOf(leaders, order)
    requires OnSeat0(m, id) ==> forall x :: x in SessionsOf(leaders, order) && x in m.sessions ==> !OnSeat0(m, x)
    ensures var r := Sweep(m, leaders, order, closings); id in r.sessions && r.sessions[id] == m.sessions[id]
    decreases |order|
  {
    hide CloseSession, CanClose, Partition;
    if order != [] {
      var n := |order| - 1;
      assert order[n] in order && forall c :: c in order[..n] ==> c in order;
      assert SessionsOf(leaders, order[..n]) <= SessionsOf(leaders, order);
      SweepTouches(m, leaders, order[..n], closings[..n], id);
      SweepShape(m, leaders, order[..n], closings[..n]);
      var before := Sweep(m, leaders, order[..n], closings[..n]);
      var ssid := leaders[order[n]].session;
      assert ssid in SessionsOf(leaders, order);
      if ssid in before.sessions {
        CloseTouches(before, ssid, closings[n]);
      }
    }
  }

  /** The session has a leader of this bus name. */
  ghost predicate LedFrom(m: ManagerState, id: Id, service: Sender) {
    exists c :: c in m.leaders && m.leaders[c].service == service && m.leaders[c].session == id
  }

  /** After a bus name has vanished no leader of that name is left and no session of such a
      leader; every other leader and every other session is, registered as it was, and
      unchanged altogether unless it shares seat0 with one that was closed. */
  lemma SweepRemovesExactly(m: ManagerState, e: ManagerEvent)
    requires Tables(m) && e.PeerGone? && CanHappen(m, e)
    ensures var r := Next(m, e);
      && Tables(r)
      && (forall c :: c in r.leaders <==> c in m.leaders && m.leaders[c].service != e.service)
      && (forall c :: c in r.leaders ==> r.leaders[c] == m.leaders[c])
      && (forall id :: id in r.sessions <==> id in m.sessions && !LedFrom(m, id, e.service))
      && (forall id :: id in r.sessions ==>
            r.sessions[id].reg == m.sessions[id].reg && r.sessions[id].info == m.sessions[id].info)
      && (forall id :: id in r.sessions && (OnSeat0(m, id) ==> !LeavesSeat0(m, e.service)) ==>
            r.sessions[id] == m.sessions[id])
  {
    SweepRemoves(m, e);
    forall id | id in Next(m, e).sessions && (OnSeat0(m, id) ==> !LeavesSeat0(m, e.service))
      ensures Next(m, e).sessions[id] == m.sessions[id]
    {
      SweepSpares(m, e, id);
    }
  }

  /** A session of seat0 has a leader of this bus name. */
  ghost predicate LeavesSeat0(m: ManagerState, service: Sender) {
    exists id :: id in m.sessions && OnSeat0(m, id) && LedFrom(m, id, service)
  }

  lemma SweepSpares(m: ManagerState, e: ManagerEvent, id: Id)
    requires Tables(m) && e.PeerGone? && CanHappen(m, e) && id in m.sessions && !LedFrom(m, id, e.service)
    requires OnSeat0(m, id) ==> !LeavesSeat0(m, e.service)
    ensures id in Next(m, e).sessions && Next(m, e).sessions[id] == m.sessions[id]
  {
    hide Sweep, CanSweep, Partition;
    var m1 := WithoutLeaders(m, e.order);
    SamePartition(m, m1);
    forall x | x in SessionsOf(m.leaders, e.order) ensures LedFrom(m, x, e.service) {
      var c :| c in e.order && c in m.leaders && m.leaders[c].session == x;
    }
    SweepTouches(m1, m.leaders, e.order, e.closings, id);
  }

  lemma SweepRemoves(m: ManagerState, e: ManagerEvent)
    requires Tables(m) && e.PeerGone? && CanHappen(m, e)
    ensures var r := Next(m, e);
      && Tables(r)
      && (forall c :: c in r.leaders <==> c in m.leaders && m.leaders[c].service != e.service)
      && (forall c :: c in r.leaders ==> r.leaders[c] == m.leaders[c])
      && (forall id :: id in r.sessions <==> id in m.sessions && !LedFrom(m, id, e.service))
      && (forall id :: id in r.sessions ==>
            r.sessions[id].reg == m.sessions[id].reg && r.sessions[id].info == m.sessions[id].info)
  {
    hide Sweep, CanSweep, Partition;
    var m1 := WithoutLeaders(m, e.order);
    assert Partition(m1) by { SamePartition(m, m1); }
    SweepShape(m1, m.leaders, e.order, e.closings);
    var r := Next(m, e);
    var gone := set c | c in e.order;
    assert SessionsOf(m.leaders, e.order) == set c | c in gone && c in m.leaders :: m.leaders[c].session;
    LeadersLeft(m, r, gone);
    forall id | id in m.sessions
      ensures id in SessionsOf(m.leaders, e.order) <==> LedFrom(m, id, e.service)
    {
      if c :| c in m.leaders && m.leaders[c].service == e.service && m.leaders[c].session == id {
        assert c in e.order;
      }
    }
  }

  // ----- the other events

  lemma SessionEventKeepsTables(m: ManagerState, e: ManagerEvent)
    requires Tables(m) && e.ToSession? && CanHappen(m, e)
    ensures Tables(Next(m, e))
  {
    hide SessionSpec.Step, AllIdle, IdleBlocked, Partition, Cookies;
    StepFrame(m.sessions[e.id], e.event);
    var s := SessionSpec.Step(m.sessions[e.id], e.event);
    var r := Next(m, e);
    assert r.sessions == m.sessions[e.id := s];
    SamePartition(m, r);
    SameCookies(m, r);
  }

  lemma VtKeepsTables(m: ManagerState, e: ManagerEvent)
    requires Tables(m) && e.VtSwitched? && CanHappen(m, e)
    ensures Tables(Next(m, e))
  {
    hide ChangeActive, Cookies, Candidates, Partition;
    var w := WorldOf(m, SEAT0).(vt := e.num);
    FoundInMembers(w, e.found);
    ChangeActiveFrame(w, e.found, e.kernel);
    var r := Next(m, e);
    SamePartition(m, r);
    SameCookies(m, r);
  }

  lemma ActivateKeepsTables(m: ManagerState, e: ManagerEvent)
    requires Tables(m) && e.ActivateCalled? && CanHappen(m, e)
    ensures Tables(Next(m, e))
  {
    hide Activate, Cookies, Partition;
    if e.seatId in m.seats {
      PartitionWf(m);
      ActivateKeepsRegistration(WorldOf(m, e.seatId), e.id, e.switched, e.kernel);
      var r := Next(m, e);
      assert r.seats == m.seats;
      SamePartition(m, r);
      SameCookies(m, r);
    }
  }

  lemma CoreKeepsTables(m: ManagerState, e: ManagerEvent)
    requires Tables(m) && e.ToCore? && CanHappen(m, e)
    ensures Tables(Next(m, e))
  {
    hide Cookies, Partition, CoreStep, CoreEnabled;
    SamePartition(m, Next(m, e));
    SameCookies(m, Next(m, e));
  }

  /** Every event keeps the three tables in agreement, unless it draws an id that a leader
      still has, and then it does not. */
  lemma NextKeepsTables(m: ManagerState, e: ManagerEvent)
    requires Tables(m) && CanHappen(m, e)
    ensures Tables(Next(m, e)) <==> NotReused(m, e)
  {
    hide Tables, CanHappen, Next;
    match e {
      case Asked(_, _, _, _, _, _) => AskKeepsTablesExactly(m, e);
      case Collected(_, _) => CollectKeepsTables(m, e);
      case NotCollected(_) => NotCollectedKeepsTables(m, e);
      case CloseCalled(_, _, _, _) => CloseKeepsTables(m, e);
      case PeerGone(_, _, _) => SweepRemoves(m, e);
      case ToSession(_, _) => SessionEventKeepsTables(m, e);
      case VtSwitched(_, _, _) => VtKeepsTables(m, e);
      case ActivateCalled(_, _, _, _) => ActivateKeepsTables(m, e);
      case ToCore(_) => CoreKeepsTables(m, e);
    }
  }

  // ----- looking a session up by its cookie

  /** dbus_get_session_for_cookie */
  function SessionForCookie(m: ManagerState, cookie: Cookie): Option<Id> {
    if cookie in m.leaders && m.leaders[cookie].session in m.sessions then Some(m.leaders[cookie].session) else None
  }

  /** The event ends what was opened under the cookie. */
  predicate Ends(m: ManagerState, e: ManagerEvent, cookie: Cookie)
    requires cookie in m.leaders
  {
    || (e.CloseCalled? && e.cookie == cookie && Owns(m, cookie, e.uid, e.pid))
    || (e.PeerGone? && e.service == m.leaders[cookie].service)
  }

  /** From the step that opens it to the step that ends it, and only then, the lookup by
      cookie finds the session opened under that cookie. */
  lemma CookieFindsItsSession(m: ManagerState, e: ManagerEvent, cookie: Cookie)
    requires Tables(m) && CanHappen(m, e) && cookie in m.leaders
    ensures e.Collected? && e.cookie == cookie ==>
      SessionForCookie(m, cookie).None? && SessionForCookie(Next(m, e), cookie) == Some(m.leaders[cookie].session)
    ensures !(e.Collected? && e.cookie == cookie) && !Ends(m, e, cookie) ==>
      SessionForCookie(Next(m, e), cookie) == SessionForCookie(m, cookie)
    ensures Ends(m, e, cookie) && SessionForCookie(m, cookie).Some? ==> SessionForCookie(Next(m, e), cookie).None?
  {
    hide Tables, CanHappen, Next;
    match e {
      case Asked(_, _, _, _, _, _) => QuietKeepsCookie(m, e, cookie);
      case Collected(_, _) => CollectedFinds(m, e, cookie);
      case CloseCalled(_, _, _, _) => ClosedFinds(m, e, cookie);
      case PeerGone(_, _, _) => SweptFinds(m, e, cookie);
      case _ => QuietKeepsCookie(m, e, cookie);
    }
  }

  lemma OthersDiffer(m: ManagerState, c1: Cookie, c2: Cookie)
    requires Cookies(m) && c1 in m.leaders && c2 in m.leaders && c1 != c2
    ensures m.leaders[c1].session != m.leaders[c2].session
  {
  }

  lemma CollectedFinds(m: ManagerState, e: ManagerEvent, cookie: Cookie)
    requires Tables(m) && e.Collected? && CanHappen(m, e) && cookie in m.leaders
    ensures if e.cookie == cookie
      then SessionForCookie(m, cookie).None? && SessionForCookie(Next(m, e), cookie) == Some(m.leaders[cookie].session)
      else SessionForCookie(Next(m, e), cookie) == SessionForCookie(m, cookie)
  {
    hide OpenSession, CanOpen, Opened, MakesDir, Partition, SameRegistration, Cookies, SeatIdFor;
    assert LeaderOk(m, e.cookie) by { LeaderIsOk(m, e.cookie); }
    var sid, seat := OpenShape(m, m.leaders[e.cookie].session, e.opening);
    if e.cookie != cookie {
      OthersDiffer(m, e.cookie, cookie);
    }
  }

  lemma ClosedFinds(m: ManagerState, e: ManagerEvent, cookie: Cookie)
    requires Tables(m) && e.CloseCalled? && CanHappen(m, e) && cookie in m.leaders
    ensures Ends(m, e, cookie) && SessionForCookie(m, cookie).Some? ==> SessionForCookie(Next(m, e), cookie).None?
    ensures !Ends(m, e, cookie) ==> SessionForCookie(Next(m, e), cookie) == SessionForCookie(m, cookie)
  {
    hide CloseSession, CanClose, Partition, SameRegistration, Cookies;
    if Owns(m, e.cookie, e.uid, e.pid) && m.leaders[e.cookie].session in m.sessions {
      var sid, seat := CloseShape(m, m.leaders[e.cookie].session, e.closing);
      if e.cookie != cookie {
        OthersDiffer(m, e.cookie, cookie);
      }
    }
  }

  lemma SweptFinds(m: ManagerState, e: ManagerEvent, cookie: Cookie)
    requires Tables(m) && e.PeerGone? && CanHappen(m, e) && cookie in m.leaders
    ensures if Ends(m, e, cookie) then SessionForCookie(Next(m, e), cookie).None?
      else SessionForCookie(Next(m, e), cookie) == SessionForCookie(m, cookie)
  {
    hide CanHappen, Next, Partition;
    SweepRemoves(m, e);
    var id := m.leaders[cookie].session;
    assert LedFrom(m, id, e.service) ==> m.leaders[cookie].service == e.service;
  }

  predicate Quiet(e: ManagerEvent) { !e.Collected? && !e.CloseCalled? && !e.PeerGone? }

  /** The sessions listed, their users and their directories. */
  ghost predicate SameListed(r: ManagerState, m: ManagerState) {
    && r.sessions.Keys == m.sessions.Keys && r.dirs == m.dirs
    && forall id :: id in m.sessions ==>
         r.sessions[id].info == m.sessions[id].info && r.sessions[id].reg.runtimeDir == m.sessions[id].reg.runtimeDir
  }

  lemma SessionEventKeepsListed(m: ManagerState, e: ManagerEvent)
    requires CanHappen(m, e) && e.ToSession?
    ensures SameListed(Next(m, e), m)
  {
    hide SessionSpec.Step, AllIdle, IdleBlocked;
    StepFrame(m.sessions[e.id], e.event);
  }

  lemma ActivateKeepsListed(m: ManagerState, e: ManagerEvent)
    requires CanHappen(m, e) && e.ActivateCalled?
    ensures SameListed(Next(m, e), m) && SameRegistration(Next(m, e).sessions, m.sessions)
  {
    hide Activate;
    if e.seatId in m.seats {
      ActivateKeepsRegistration(WorldOf(m, e.seatId), e.id, e.switched, e.kernel);
    }
  }

  lemma VtKeepsListed(m: ManagerState, e: ManagerEvent)
    requires CanHappen(m, e) && e.VtSwitched?
    ensures SameListed(Next(m, e), m) && SameRegistration(Next(m, e).sessions, m.sessions)
  {
    hide ChangeActive, Candidates;
    var w := WorldOf(m, SEAT0).(vt := e.num);
    FoundInMembers(w, e.found);
    ChangeActiveFrame(w, e.found, e.kernel);
  }

  /** The events that open and close nothing keep the sessions listed. */
  lemma QuietKeepsListed(m: ManagerState, e: ManagerEvent)
    requires CanHappen(m, e) && Quiet(e)
    ensures SameListed(Next(m, e), m)
  {
    hide CoreStep, IsFresh;
    match e {
      case ToSession(_, _) => SessionEventKeepsListed(m, e);
      case ActivateCalled(_, _, _, _) => ActivateKeepsListed(m, e);
      case VtSwitched(_, _, _) => VtKeepsListed(m, e);
      case _ =>
    }
  }

  lemma QuietKeepsCookie(m: ManagerState, e: ManagerEvent, cookie: Cookie)
    requires Tables(m) && CanHappen(m, e) && cookie in m.leaders && Quiet(e)
    ensures SessionForCookie(Next(m, e), cookie) == SessionForCookie(m, cookie)
  {
    hide ChangeActive, Activate, SessionSpec.Step, AllIdle, IdleBlocked, Candidates, Cookies, Partition, CoreStep,
         IsFresh;
    QuietKeepsListed(m, e);
  }

  // ----- runtime directories

  /** All sessions of a user name the user's one directory, and it exists exactly while
      the user has a session: the lifetime the XDG Base Directory Specification asks for. */
  ghost predicate Dirs(m: ManagerState) {
    && (forall id :: id in m.sessions ==> m.sessions[id].reg.runtimeDir == Some(RunDir(m.sessions[id].info.uid)))
    && (forall uid :: uid in m.dirs <==> HasSession(m.sessions, uid))
  }

  ghost predicate HasSession(sessions: map<Id, SessionState>, uid: nat) {
    exists id :: id in sessions && sessions[id].info.uid == uid
  }

  lemma StillListed(before: map<Id, SessionState>, after: map<Id, SessionState>, ssid: Id)
    requires ssid !in before && after.Keys == before.Keys + {ssid} && SameRegistration(after - {ssid}, before)
    ensures forall id :: id in before ==>
              id in after && after[id].reg == before[id].reg && after[id].info == before[id].info
  {
    forall id | id in before
      ensures id in after && after[id].reg == before[id].reg && after[id].info == before[id].info
    {
      assert id in after - {ssid};
    }
  }

  /** The session opened is given a directory: its user has one, or one can be made. */
  predicate GivesDir(m: ManagerState, o: Opening) {
    DirOf(m.sessions, o.peer).Some? || o.created
  }

  lemma OpenKeepsDirsExactly(m: ManagerState, ssid: Id, o: Opening)
    requires Partition(m) && CanOpen(m, ssid, o) && ssid !in m.sessions && Dirs(m)
    ensures Dirs(OpenSession(m, ssid, o)) <==> GivesDir(m, o)
  {
    hide OpenSession, Partition, GoesToSeat0, Attached, SeatIdFor, LooksUp, IsFresh, Dirs, IsPeer, SameRegistration;
    var sid, seat := OpenShape(m, ssid, o);
    if GivesDir(m, o) {
      DirsWith(m, OpenSession(m, ssid, o), ssid, o);
    } else {
      NoDirGiven(OpenSession(m, ssid, o), ssid);
    }
  }

  lemma NoDirGiven(r: ManagerState, ssid: Id)
    requires ssid in r.sessions && r.sessions[ssid].reg.runtimeDir.None?
    ensures !Dirs(r)
  {
  }

  lemma DirsWith(m: ManagerState, r: ManagerState, ssid: Id, o: Opening)
    requires Dirs(m) && GivesDir(m, o) && IsPeer(m.sessions, o.info.uid, o.peer) && ssid !in m.sessions
    requires r.sessions.Keys == m.sessions.Keys + {ssid} && SameRegistration(r.sessions - {ssid}, m.sessions)
    requires r.sessions[ssid].info == o.info && r.sessions[ssid].reg.runtimeDir == Opened(m, o).reg.runtimeDir
    requires r.dirs == if MakesDir(m, o) then m.dirs + {o.info.uid} else m.dirs
    ensures Dirs(r)
  {
    StillListed(m.sessions, r.sessions, ssid);
    assert Opened(m, o).reg.runtimeDir == Some(RunDir(o.info.uid));
    forall uid ensures uid in r.dirs <==> HasSession(r.sessions, uid) {
      if HasSession(m.sessions, uid) {
        var id :| id in m.sessions && m.sessions[id].info.uid == uid;
        assert id in r.sessions && r.sessions[id].info.uid == uid;
      }
      if uid == o.info.uid {
        assert ssid in r.sessions && r.sessions[ssid].info.uid == uid;
      } else if HasSession(r.sessions, uid) {
        var id :| id in r.sessions && r.sessions[id].info.uid == uid;
        assert id in m.sessions && m.sessions[id].info.uid == uid;
      }
    }
  }

  lemma CloseKeepsDirs(m: ManagerState, ssid: Id, c: Closing)
    requires Partition(m) && CanClose(m, ssid, c) && Dirs(m)
    ensures Dirs(CloseSession(m, ssid, c))
  {
    hide CloseSession, Partition, Dirs, LooksUp, IsPeer, SameRegistration, UnchangedOff;
    var sid, seat := CloseShape(m, ssid, c);
    DirsWithout(m, CloseSession(m, ssid, c), ssid, c.peer);
  }

  lemma DirsWithout(m: ManagerState, r: ManagerState, ssid: Id, peer: Option<Id>)
    requires Dirs(m) && ssid in m.sessions && IsPeer(m.sessions - {ssid}, m.sessions[ssid].info.uid, peer)
    requires SameRegistration(r.sessions, m.sessions - {ssid})
    requires r.dirs == if DirOf(r.sessions, peer).None? then m.dirs - {m.sessions[ssid].info.uid} else m.dirs
    ensures Dirs(r)
  {
    var gone := m.sessions[ssid].info.uid;
    forall uid ensures uid in r.dirs <==> HasSession(r.sessions, uid) {
      if HasSession(r.sessions, uid) {
        var id :| id in r.sessions && r.sessions[id].info.uid == uid;
        assert id in m.sessions && m.sessions[id].info.uid == uid;
        assert id in m.sessions - {ssid};
      } else if HasSession(m.sessions, uid) {
        var id :| id in m.sessions && m.sessions[id].info.uid == uid;
        assert id != ssid ==> id in r.sessions && r.sessions[id].info.uid == uid;
      }
      if peer.Some? {
        assert peer.value in m.sessions - {ssid} && r.sessions[peer.value].info.uid == gone;
      }
    }
  }

  /** Closing a session does right by the user's directory, whatever failed before, if and
      only if the session come upon has been given a directory itself. */
  lemma CloseDirExact(m: ManagerState, ssid: Id, c: Closing)
    requires Partition(m) && CanClose(m, ssid, c) && m.sessions[ssid].info.uid in m.dirs
    ensures var r, uid := CloseSession(m, ssid, c), m.sessions[ssid].info.uid;
      (uid in r.dirs <==> HasSession(r.sessions, uid))
      <==> (c.peer.Some? ==> m.sessions[c.peer.value].reg.runtimeDir.Some?)
  {
    hide CloseSession, Partition;
    var sid, seat := CloseShape(m, ssid, c);
    var r, uid := CloseSession(m, ssid, c), m.sessions[ssid].info.uid;
    match c.peer {
      case Some(id) => assert id in r.sessions && r.sessions[id].info.uid == uid;
      case None =>
        forall id | id in r.sessions ensures r.sessions[id].info.uid != uid {
          assert id in m.sessions - {ssid};
        }
    }
  }

  lemma SameListedKeepsDirs(r: ManagerState, m: ManagerState)
    requires SameListed(r, m)
    ensures Dirs(r) <==> Dirs(m)
  {
    forall uid ensures HasSession(r.sessions, uid) <==> HasSession(m.sessions, uid) {
      if id :| id in m.sessions && m.sessions[id].info.uid == uid {
        assert id in r.sessions && r.sessions[id].info.uid == uid;
      }
      if id :| id in r.sessions && r.sessions[id].info.uid == uid {
        assert id in m.sessions && m.sessions[id].info.uid == uid;
      }
    }
  }

  lemma {:induction false} SweepKeepsDirs(m: ManagerState, leaders: map<Cookie, Leader>, order: seq<Cookie>,
      closings: seq<Closing>)
    requires Partition(m) && (forall c :: c in order ==> c in leaders) && CanSweep(m, leaders, order, closings)
    requires Dirs(m)
    ensures Dirs(Sweep(m, leaders, order, closings))
    decreases |order|
  {
    hide CloseSession, CanClose, Partition, Dirs;
    if order != [] {
      var n := |order| - 1;
      assert order[n] in order && forall c :: c in order[..n] ==> c in order;
      SweepKeepsDirs(m, leaders, order[..n], closings[..n]);
      SweepShape(m, leaders, order[..n], closings[..n]);
      var before := Sweep(m, leaders, order[..n], closings[..n]);
      if leaders[order[n]].session in before.sessions {
        CloseKeepsDirs(before, leaders[order[n]].session, closings[n]);
      }
    }
  }

  /** Every event keeps the directories as they should be, unless it opens a session that
      is given none, and then it does not. */
  lemma NextKeepsDirs(m: ManagerState, e: ManagerEvent)
    requires Tables(m) && CanHappen(m, e) && Dirs(m)
    ensures Dirs(Next(m, e)) <==> (e.Collected? ==> GivesDir(m, e.opening))
  {
    hide Dirs, CloseSession, CanClose, OpenSession, CanOpen, Sweep, CanSweep, Partition;
    match e {
      case Collected(cookie, opening) =>
        assert LeaderOk(m, cookie);
        OpenKeepsDirsExactly(m, m.leaders[cookie].session, opening);
        SameListedKeepsDirs(Next(m, e), OpenSession(m, m.leaders[cookie].session, opening));
      case CloseCalled(cookie, uid, pid, closing) =>
        if Owns(m, cookie, uid, pid) && m.leaders[cookie].session in m.sessions {
          CloseKeepsDirs(m, m.leaders[cookie].session, closing);
          SameListedKeepsDirs(Next(m, e), CloseSession(m, m.leaders[cookie].session, closing));
        }
      case PeerGone(service, order, closings) =>
        var m1 := WithoutLeaders(m, order);
        SamePartition(m, m1);
        SameListedKeepsDirs(m1, m);
        SweepKeepsDirs(m1, m.leaders, order, closings);
      case _ =>
        QuietKeepsListed(m, e);
        SameListedKeepsDirs(Next(m, e), m);
    }
  }
}
