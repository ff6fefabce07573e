/** What the manager's events do, said in the fields of its tables: where a session goes, who
    may end it, what becomes of the seats, the directories and the idle hint. */
module ManagerEvents {
  import opened Text
  import opened Console
  import opened SessionSpec
  import opened SeatSpec
  import opened InhibitSpec
  import opened ManagerSpec
  import opened ManagerSafety
  import Runs = ManagerRuns
  import opened Ids

  // ----- opening

  /** A session opened goes to seat0 exactly if it is local, names no other host, is on a
      virtual terminal, and either has both an X11 display and its device or has neither
      and a display device. Any other gets a dynamic seat of its own. */
  lemma SeatChosenExactly(m: ManagerState, ssid: Id, o: Opening)
    requires Partition(m) && CanOpen(m, ssid, o) && ssid !in m.sessions
    ensures var r := OpenSession(m, ssid, o);
      var onConsole :=
        && o.saysLocal && o.info.remoteHostName == "" && o.info.vtnr > 0
        && (|| (o.info.x11Display != "" && o.info.x11DisplayDevice != "")
            || (o.info.x11Display == "" && o.info.x11DisplayDevice == "" && o.info.displayDevice != ""));
      && ssid in r.sessions
      && (r.sessions[ssid].reg.seatId == Some("seat0") <==> onConsole)
      && (onConsole ==> r.seats == m.seats["seat0" :=
            SeatState(Static, m.seats["seat0"].members + {ssid}, o.found)])
      && (!onConsole ==>
            && o.seatId !in m.seats && r.sessions[ssid].reg.seatId == Some(o.seatId)
            && r.seats == m.seats[o.seatId := SeatState(Dynamic, {ssid}, None)])
  {
    hide OpenSession, CanOpen, Opened, SameRegistration, MakesDir, Partition;
    var sid, seat := OpenShape(m, ssid, o);
    HasSeat0(m);
    SeatOpened(m, ssid, o);
    assert OpenSession(m, ssid, o).seats[sid] == seat;
    if GoesToSeat0(m, o.info, o.saysLocal) {
      assert seat == SeatState(Static, m.seats["seat0"].members + {ssid}, o.found);
    } else {
      assert sid == o.seatId && seat == SeatState(Dynamic, {ssid}, None);
    }
  }

  lemma SeatOpened(m: ManagerState, ssid: Id, o: Opening)
    requires Partition(m) && CanOpen(m, ssid, o) && ssid !in m.sessions
    ensures var r, sid := OpenSession(m, ssid, o), SeatIdFor(m, o);
      && sid in r.seats
      && r.seats[sid].active == if GoesToSeat0(m, o.info, o.saysLocal) then o.found else None
    ensures !GoesToSeat0(m, o.info, o.saysLocal) ==> o.seatId !in m.seats
  {
    hide MaybeUpdate, GoesToSeat0, LooksUp, UpdateIdle, Opened, MakesDir, SetLocal, Partition, SameRegistration;
    ChosenSeat(m, o);
    HasSeat0(m);
    var w := Attached(m, ssid, o);
    MaybeUpdateFrame(w, o.found, o.kernel);
    UpdateIdleFrame(OpenTables(m, ssid, o));
    CacheTurned(w, o.found, o.kernel);
  }

  lemma CacheTurned(w: World, found: Option<Id>, kernel: Kernel)
    requires w.seat.kind == Static && w.seat.active.Some? ==> w.seat.active.value in w.store
    requires w.seat.kind == Static && found.Some? ==> found.value in w.store
    ensures var r := MaybeUpdate(w, found, kernel);
      && r == w.(seat := r.seat, store := r.store)
      && r.seat.active == if w.seat.kind == Static then found else w.seat.active
  {
    hide SetActive;
  }

  /** The user's directory: the one the session come upon has, else the one made. */
  function DirGiven(m: ManagerState, o: Opening): Option<string> {
    if o.peer.Some? && o.peer.value in m.sessions && m.sessions[o.peer.value].reg.runtimeDir.Some? then
      m.sessions[o.peer.value].reg.runtimeDir
    else if o.created then Some(RunDir(o.info.uid))
    else None
  }

  /** The session as it is listed first: nothing has happened to it. */
  function ListedFirst(m: ManagerState, o: Opening, seatId: Id): SessionState {
    SessionState(o.info, None, [], false, false, [], Registration(false, o.saysLocal, Some(seatId), DirGiven(m, o)))
  }

  /** The sessions after an opening: the new one is inactive, without a controller and not
      idle, and belongs to the user and the seat; seat0 then turns to the session for its
      VT, and on a dynamic seat nothing more happens. What the login session was found to be
      is noted on it last. */
  lemma OpenedExactly(m: ManagerState, ssid: Id, o: Opening, seatId: Id)
    requires Partition(m) && InvIn(m.sessions) && CanOpen(m, ssid, o) && ssid !in m.sessions
    requires OpenSession(m, ssid, o).sessions[ssid].reg.seatId == Some(seatId)
    ensures var r, listed := OpenSession(m, ssid, o), ListedFirst(m, o, seatId);
      && r.sessions[ssid].reg == listed.reg.(isLocal := o.isLocal)
      && var sessions := r.sessions[ssid := r.sessions[ssid].(reg := listed.reg)];
         if seatId == "seat0" then
           var seat := m.seats["seat0"].(members := m.seats["seat0"].members + {ssid});
           HandedOver(World(m.platform, m.vt, seat, m.sessions[ssid := listed]), o.found, o.kernel,
                      World(m.platform, m.vt, r.seats["seat0"], sessions))
         else sessions == m.sessions[ssid := listed]
  {
    hide CanOpen, OpenSession, HandedOver, GoesToSeat0, Partition, InvIn, Inv, ListedFirst, ChangeActive, LooksUp,
         Opened, SeatFor, SameRegistration, MakesDir;
    var sid, seat := OpenShape(m, ssid, o);
    HasSeat0(m);
    var w, w1 := OpenedIn(m, ssid, o);
    NewIsListed(m, o, seatId);
    ChosenFor(m, ssid, o);
    if seatId == SEAT0 {
      WorldInv(m, w, ssid);
      ChangesNow(w, o.found, o.kernel);
    } else {
      assert w1 == w;
    }
  }

  lemma ChangesNow(w: World, found: Option<Id>, kernel: Kernel)
    requires w.seat.kind == Static && InvIn(w.store)
    requires w.seat.active.Some? ==> w.seat.active.value in w.store
    requires found.Some? ==> found.value in w.store
    ensures HandedOver(w, found, kernel, MaybeUpdate(w, found, kernel))
  {
    hide HandedOver, ChangeActive, Inv;
    ChangeHandsOver(w, found, kernel);
  }

  lemma ChosenFor(m: ManagerState, ssid: Id, o: Opening)
    requires Partition(m) && CanOpen(m, ssid, o)
    ensures var sid := SeatIdFor(m, o);
      && SeatFor(m, o) == (if sid == SEAT0 then m.seats[SEAT0] else SeatState(Dynamic, {}, None))
  {
    hide LooksUp;
    HasSeat0(m);
    ChosenSeat(m, o);
  }

  lemma NewIsListed(m: ManagerState, o: Opening, seatId: Id)
    ensures var s := Opened(m, o); s.(reg := s.reg.(seatId := Some(seatId))) == ListedFirst(m, o, seatId)
    ensures ListedFirst(m, o, seatId).reg ==
      Registration(false, o.saysLocal, Some(seatId), Opened(m, o).reg.runtimeDir)
    ensures Inv(ListedFirst(m, o, seatId))
  {
  }

  /** The seat's world before it turns and after. */
  lemma OpenedIn(m: ManagerState, ssid: Id, o: Opening) returns (w: World, w1: World)
    requires Partition(m) && CanOpen(m, ssid, o) && ssid !in m.sessions
    ensures var r, sid, s := OpenSession(m, ssid, o), SeatIdFor(m, o), Opened(m, o);
      && w == World(m.platform, m.vt, SeatFor(m, o).(members := SeatFor(m, o).members + {ssid}),
                    m.sessions[ssid := s.(reg := s.reg.(seatId := Some(sid)))])
      && w.seat.members <= w.store.Keys && LooksUp(w, m.vt, o.found)
      && (w.seat.kind == Static && w.seat.active.Some? ==> w.seat.active.value in w.store)
      && (w.seat.kind == Static && o.found.Some? ==> o.found.value in w.store)
      && w1 == MaybeUpdate(w, o.found, o.kernel)
      && sid in r.seats && ssid in r.sessions
      && w1 == World(m.platform, m.vt, r.seats[sid], r.sessions[ssid := r.sessions[ssid].(reg := w.store[ssid].reg)])
  {
    hide MaybeUpdate, GoesToSeat0, LooksUp, UpdateIdle, Opened, MakesDir, Partition, SetLocal, SameRegistration;
    ChosenSeat(m, o);
    HasSeat0(m);
    w := Attached(m, ssid, o);
    MaybeUpdateFrame(w, o.found, o.kernel);
    UpdateIdleFrame(OpenTables(m, ssid, o));
    w1 := MaybeUpdate(w, o.found, o.kernel);
    Unset(w.store, w1.store, ssid, o.isLocal);
    CacheTurned(w, o.found, o.kernel);
  }

  lemma Unset(before: map<Id, SessionState>, store: map<Id, SessionState>, ssid: Id, isLocal: bool)
    requires ssid in before && SameRegistration(store, before)
    ensures ssid in store
    ensures var r := SetLocal(store, ssid, isLocal); ssid in r && store == r[ssid := r[ssid].(reg := before[ssid].reg)]
  {
  }

  lemma WorldInv(m: ManagerState, w: World, ssid: Id)
    requires InvIn(m.sessions) && w.store.Keys == m.sessions.Keys + {ssid} && Inv(w.store[ssid])
    requires forall id :: id in m.sessions && id != ssid ==> w.store[id] == m.sessions[id]
    ensures InvIn(w.store)
  {
  }

  // ----- directories

  /** Every user has a directory of his own: "/run/user/1000", say, and below zero the numbers
      of 2^31 and more. */
  lemma DirsDiffer(u: nat, v: nat)
    requires u < 0x1_0000_0000 && v < 0x1_0000_0000
    ensures RunDir(u) == RunDir(v) ==> u == v
    ensures RunDir(u) ==
      if u < 0x8000_0000 then "/run/user/" + Decimal(u) else "/run/user/" + ("-" + Decimal(0x1_0000_0000 - u))
  {
    assert RunDir(u)[10..] == Signed(AsSigned(u)) && RunDir(v)[10..] == Signed(AsSigned(v));
    if RunDir(u) == RunDir(v) {
      SignedInjective(AsSigned(u), AsSigned(v));
    }
  }

  /** Whether the session come upon has a directory. */
  predicate PeerHasDir(sessions: map<Id, SessionState>, peer: Option<Id>) {
    peer.Some? && peer.value in sessions && sessions[peer.value].reg.runtimeDir.Some?
  }

  /** Opening makes the user's directory if none of the user's sessions come upon has it and
      it can be made; closing removes it unless the one come upon among those left has it. */
  lemma DirsExactly(m: ManagerState, ssid: Id, o: Opening, c: Closing)
    requires Partition(m)
    ensures CanOpen(m, ssid, o) && ssid !in m.sessions ==>
      OpenSession(m, ssid, o).dirs == m.dirs + if !PeerHasDir(m.sessions, o.peer) && o.created then {o.info.uid} else {}
    ensures CanClose(m, ssid, c) ==>
      CloseSession(m, ssid, c).dirs ==
        m.dirs - if PeerHasDir(m.sessions, c.peer) then {} else {m.sessions[ssid].info.uid}
  {
    hide OpenSession, CloseSession, CanOpen, CanClose, Partition, GoesToSeat0, Opened, LooksUp, IsFresh;
    if CanOpen(m, ssid, o) && ssid !in m.sessions {
      var sid, seat := OpenShape(m, ssid, o);
    }
    if CanClose(m, ssid, c) {
      var sid, seat := CloseShape(m, ssid, c);
      PeerIsLeft(m, ssid, c);
      assert forall id :: id in CloseSession(m, ssid, c).sessions ==> id in m.sessions - {ssid};
    }
  }

  lemma PeerIsLeft(m: ManagerState, ssid: Id, c: Closing)
    requires CanClose(m, ssid, c)
    ensures c.peer.Some? ==> c.peer.value in m.sessions && c.peer.value != ssid
  {
  }

  // ----- ending a session

  /** A leader's session is ended by the process that asked for it and by no other: the
      leader goes, and the session with it; a dynamic seat goes too, and seat0 turns to the
      session for its VT. */
  lemma ClosedExactly(m: ManagerState, e: ManagerEvent)
    requires Partition(m) && InvIn(m.sessions) && e.CloseCalled? && CanHappen(m, e)
    ensures var r := Next(m, e);
      if e.cookie in m.leaders && m.leaders[e.cookie].uid == e.uid && m.leaders[e.cookie].pid == e.pid
         && m.leaders[e.cookie].session in m.sessions
      then
        var ssid := m.leaders[e.cookie].session;
        && r.leaders == m.leaders - {e.cookie} && m.sessions[ssid].reg.seatId.Some?
        && var sid := m.sessions[ssid].reg.seatId.value;
           && sid in m.seats
           && if sid == "seat0" then
                exists w1 ::
                  && HandedOver(WithoutMember(m, ssid), e.closing.found, e.closing.kernel, w1)
                  && r.sessions == w1.store - {ssid} && r.seats == m.seats["seat0" := w1.seat]
              else r.sessions == m.sessions - {ssid} && r.seats == m.seats - {sid}
      else r == m
  {
    hide HandedOver, InvIn, CloseSession, CanClose, Partition, Inv;
    if Owns(m, e.cookie, e.uid, e.pid) && m.leaders[e.cookie].session in m.sessions {
      var ssid := m.leaders[e.cookie].session;
      var sid, w1 := ClosedIn(m, ssid, e.closing);
      HasSeat0(m);
      KindIs(m, sid);
    }
  }

  /** seat0 with the session no longer listed. */
  function WithoutMember(m: ManagerState, ssid: Id): World
    requires "seat0" in m.seats
  {
    World(m.platform, m.vt, m.seats["seat0"].(members := m.seats["seat0"].members - {ssid}), m.sessions)
  }

  lemma ClosedIn(m: ManagerState, ssid: Id, c: Closing) returns (sid: Id, w1: World)
    requires Partition(m) && InvIn(m.sessions) && CanClose(m, ssid, c)
    ensures SEAT0 in m.seats && ssid in m.sessions && m.sessions[ssid].reg.seatId == Some(sid) && sid in m.seats
    ensures var r := CloseSession(m, ssid, c);
      if sid == SEAT0 then
        && HandedOver(WithoutMember(m, ssid), c.found, c.kernel, w1)
        && r.sessions == w1.store - {ssid} && r.seats == m.seats[SEAT0 := w1.seat]
      else r.sessions == m.sessions - {ssid} && r.seats == m.seats - {sid}
  {
    hide HandedOver, InvIn, MaybeUpdate, LooksUp, IsPeer, Partition, UpdateIdle, Inv;
    HasSeat0(m);
    sid := SeatOfSession(m, ssid);
    KindIs(m, sid);
    var w := Detach(WorldOf(m, sid), ssid);
    assert LooksUp(w, w.vt, c.found);
    MaybeUpdateFrame(w, c.found, c.kernel);
    UpdateIdleFrame(CloseTables(m, ssid, c));
    w1 := MaybeUpdate(w, c.found, c.kernel);
    if sid == SEAT0 {
      ChangesNow(w, c.found, c.kernel);
    } else {
      StaysSo(w, c.found, c.kernel);
    }
  }

  lemma StaysSo(w: World, found: Option<Id>, kernel: Kernel)
    requires w.seat.kind == Dynamic
    ensures MaybeUpdate(w, found, kernel) == w
  {
  }

  /** A request for a session is noted as it was made, under an id no session listed has,
      made from a number. */
  lemma AskedExactly(m: ManagerState, e: ManagerEvent)
    requires e.Asked? && CanHappen(m, e)
    ensures var r := Next(m, e);
      && r.leaders == m.leaders[e.cookie := Leader(e.ssid, e.service, e.uid, e.pid, true)]
      && e.cookie !in m.leaders && e.ssid !in m.sessions
      && r == m.(leaders := r.leaders, sessionSerial := r.sessionSerial)
    ensures exists k: nat :: e.ssid == "Session" + Decimal(k)
    ensures "Session" + Decimal(m.sessionSerial) !in m.sessions ==> e.ssid == "Session" + Decimal(m.sessionSerial)
  {
    hide IsFresh;
    FreshForm("Session", 1, m.sessionSerial, m.sessions.Keys, e.ssid, e.next);
  }

  // ----- the idle hint

  /** The hint after an event that opens or ends a session or changes one's hint: set exactly
      if every session is idle and no lock blocks it; a signal is sent exactly if it has
      changed. No other event touches it. */
  ghost predicate HintAfter(m: ManagerState, r: ManagerState) {
    && r.idleHint == ((forall id :: id in r.sessions ==> r.sessions[id].reg.idle)
                      && Count(m.core.locks, Slot(Block, InhibitSpec.Idle)) <= 0)
    && r.idleSent == if r.idleHint == m.idleHint then m.idleSent else m.idleSent + [r.idleHint]
  }

  lemma HintUpdated(m: ManagerState, m1: ManagerState)
    requires m1.core == m.core && m1.idleHint == m.idleHint && m1.idleSent == m.idleSent
    ensures HintAfter(m, UpdateIdle(m1))
  {
    hide Count;
  }

  lemma HintExactly(m: ManagerState, e: ManagerEvent)
    requires CanHappen(m, e) && !e.PeerGone?
    ensures var r := Next(m, e);
      if e.Collected? || (e.CloseCalled? && r.leaders != m.leaders)
         || (e.ToSession? && r.sessions[e.id].reg.idle != m.sessions[e.id].reg.idle)
      then HintAfter(m, r)
      else r.idleHint == m.idleHint && r.idleSent == m.idleSent
  {
    hide HintAfter, UpdateIdle, OpenTables, CloseTables, CanOpen, CanClose, IsFresh, SessionSpec.Step, Activate,
         ChangeActive, LooksUp, CachesOk;
    match e {
      case Collected(cookie, o) =>
        var ssid := m.leaders[cookie].session;
        Runs.OpenTablesHint(m, ssid, o);
        HintUpdated(m, OpenTables(m, ssid, o));
        HintOfTables(m, Next(m, e), OpenSession(m, ssid, o));
      case CloseCalled(cookie, uid, pid, c) =>
        if Owns(m, cookie, uid, pid) && m.leaders[cookie].session in m.sessions {
          var ssid := m.leaders[cookie].session;
          Runs.CloseTablesHint(m, ssid, c);
          HintUpdated(m, CloseTables(m, ssid, c));
          HintOfTables(m, Next(m, e), CloseSession(m, ssid, c));
        }
      case ToSession(id, event) =>
        var m1 := m.(sessions := m.sessions[id := SessionSpec.Step(m.sessions[id], event)]);
        HintUpdated(m, m1);
        UpdateIdleFrame(m1);
      case _ =>
    }
  }

  lemma HintOfTables(m: ManagerState, r: ManagerState, o: ManagerState)
    requires HintAfter(m, o) && r.sessions == o.sessions && r.idleHint == o.idleHint && r.idleSent == o.idleSent
    ensures HintAfter(m, r)
  {
  }

  // ----- the seats' turn

  /** A VT switch turns seat0 to the session for the new number and touches nothing else. */
  lemma VtSwitchedExactly(m: ManagerState, e: ManagerEvent)
    requires Partition(m) && InvIn(m.sessions) && e.VtSwitched? && CanHappen(m, e)
    ensures var r := Next(m, e);
      && r == m.(vt := e.num, sessions := r.sessions, seats := m.seats["seat0" := r.seats["seat0"]])
      && "seat0" in r.seats
      && HandedOver(World(m.platform, e.num, m.seats["seat0"], m.sessions), e.found, e.kernel,
                    World(m.platform, e.num, r.seats["seat0"], r.sessions))
  {
    hide HandedOver, ChangeActive, Inv, LooksUp;
    var w := WorldOf(m, SEAT0).(vt := e.num);
    LooksUpFinds(w, e.num, e.found);
    ChangeHandsOver(w, e.found, e.kernel);
    CacheTurned(w, e.found, e.kernel);
  }

  lemma LooksUpFinds(w: World, num: nat, found: Option<Id>)
    requires w.seat.kind == Static && w.seat.members <= w.store.Keys && LooksUp(w, num, found)
    ensures found.Some? ==> found.value in w.seat.members
  {
  }

  /** A call to activate a session is passed to the seat named, if there is one, and that
      seat alone is asked. */
  lemma ActivateCalledExactly(m: ManagerState, e: ManagerEvent)
    requires Partition(m) && InvIn(m.sessions) && e.ActivateCalled? && CanHappen(m, e)
    ensures var r := Next(m, e);
      if e.seatId !in m.seats then r == m
      else
        && r == m.(sessions := r.sessions)
        && exists reply ::
             ActivatedAs(WorldOf(m, e.seatId), e.id, e.switched, e.kernel,
                         WorldOf(m, e.seatId).(store := r.sessions), reply)
  {
    hide ActivatedAs, Activate, Inv, Next, CanHappen, Partition;
    ActivateNext(m, e);
    if e.seatId in m.seats {
      var w := WorldOf(m, e.seatId);
      ActivationExactly(w, e.id, e.switched, e.kernel);
      SameWorld(w, e.id, e.switched, e.kernel);
    }
  }

  lemma ActivateNext(m: ManagerState, e: ManagerEvent)
    requires e.ActivateCalled? && CanHappen(m, e)
    ensures e.id in m.sessions && CachesOk(m)
    ensures Next(m, e) ==
      if e.seatId !in m.seats then m
      else PutWorld(m, e.seatId, Activate(WorldOf(m, e.seatId), e.id, e.switched, e.kernel).0)
  {
    hide Activate;
  }

  lemma SameWorld(w: World, id: Id, switched: bool, kernel: Kernel)
    requires w.seat.active.Some? ==> w.seat.active.value in w.store
    requires id in w.store
    ensures var r := Activate(w, id, switched, kernel).0; r == w.(store := r.store)
  {
    hide SetActive, Num;
  }

  /** What is passed on to a session or to the locks and system actions changes that session
      or those alone, the idle hint excepted; a leader whose parameters could not be had is
      no longer pending. */
  lemma PassedOnExactly(m: ManagerState, e: ManagerEvent)
    requires CanHappen(m, e)
    ensures var r := Next(m, e);
      && (e.ToSession? ==>
            r == m.(sessions := m.sessions[e.id := SessionSpec.Step(m.sessions[e.id], e.event)],
                    idleHint := r.idleHint, idleSent := r.idleSent))
      && (e.ToCore? ==> r == m.(core := ActionSpec.CoreStep(m.core, e.core)))
      && (e.NotCollected? ==> r == m.(leaders := m.leaders[e.cookie := m.leaders[e.cookie].(pending := false)]))
  {
    hide SessionSpec.Step, ActionSpec.CoreStep, UpdateIdle;
    if e.ToSession? {
      UpdateIdleFrame(m.(sessions := m.sessions[e.id := SessionSpec.Step(m.sessions[e.id], e.event)]));
    }
  }

  // ----- a login on the console

  /** A user logs in on console 1, in text mode. */
  function ConsoleOpening(found: Option<Id>, kernel: Kernel): Opening {
    Opening(SessionInfo(1000, "/dev/tty1", "", "", "", 1, ""), true, true, None, true, "", 0, found, kernel)
  }

  function ConsoleLogin(found: Option<Id>, kernel: Kernel): seq<ManagerEvent> {
    [Asked("c", ":1.7", 1000, 42, "Session1", 2), Collected("c", ConsoleOpening(found, kernel))]
  }

  /** The daemon with that session on seat0, active. */
  function LoggedIn(): ManagerState {
    ManagerState(
      Linux, 1,
      map["Session1" := SessionState(
            ConsoleOpening(None, {}).info, None, [], true, false, [ActiveChanged(true)],
            Registration(false, true, Some("seat0"), Some("/run/user/1000")))],
      map["seat0" := SeatState(Static, {"Session1"}, Some("Session1"))],
      map["c" := Leader("Session1", ":1.7", 1000, 42, false)],
      2, 1, {1000}, false, [false], Booted(Linux, 1).core)
  }

  /** From the start, with the VT on console 1, the session is found and made active; nothing
      else can be found. */
  lemma ConsoleLoginIsActive(found: Option<Id>, kernel: Kernel)
    ensures Runs.Legal(Booted(Linux, 1), ConsoleLogin(found, kernel)) <==> found == Some("Session1")
    ensures found == Some("Session1") ==> Runs.Run(Booted(Linux, 1), ConsoleLogin(found, kernel)) == LoggedIn()
  {
    hide CanHappen, Next, Runs.Legal, Runs.Run;
    var m, es := Booted(Linux, 1), ConsoleLogin(found, kernel);
    var w := AsksAtOnce();
    TwoEvents(m, es[0], es[1]);
    assert es == [es[0], es[1]];
    ConsoleFound(found, kernel);
    if found == Some("Session1") {
      ConsoleOpened(kernel);
    }
  }

  function Waiting(): ManagerState {
    Booted(Linux, 1).(leaders := map["c" := Leader("Session1", ":1.7", 1000, 42, true)], sessionSerial := 2)
  }

  lemma AsksAtOnce() returns (w: ManagerState)
    ensures var m, e := Booted(Linux, 1), Asked("c", ":1.7", 1000, 42, "Session1", 2);
      CanHappen(m, e) && w == Next(m, e) == Waiting()
  {
    var m := Booted(Linux, 1);
    assert Decimal(1) == "1";
    assert FoundAt("Session", 1, 1, m.sessions.Keys, "Session1", 2, 0);
    w := Next(m, Asked("c", ":1.7", 1000, 42, "Session1", 2));
  }

  /** seat0's world with the session on it, before it is found. */
  function WaitingSeat0(): World {
    World(Linux, 1, SeatState(Static, {"Session1"}, None),
          map["Session1" := SessionState(
                ConsoleOpening(None, {}).info, None, [], false, false, [],
                Registration(false, true, Some("seat0"), Some("/run/user/1000")))])
  }

  lemma ConsoleAttached(found: Option<Id>, kernel: Kernel)
    ensures var w, o := Waiting(), ConsoleOpening(found, kernel);
      GoesToSeat0(w, o.info, o.saysLocal) && Attached(w, "Session1", o) == WaitingSeat0() && MakesDir(w, o)
  {
    var w, o := Waiting(), ConsoleOpening(found, kernel);
    assert RunDir(1000) == "/run/user/1000" by {
      assert Decimal(1000) == "1000" by { assert Decimal(10) == "10"; }
      assert "/run/user/" + "1000" == "/run/user/1000";
    }
    assert Attached(w, "Session1", o).store == WaitingSeat0().store;
    assert Attached(w, "Session1", o).seat == WaitingSeat0().seat;
  }

  lemma ConsoleFound(found: Option<Id>, kernel: Kernel)
    ensures CanHappen(Waiting(), Collected("c", ConsoleOpening(found, kernel))) <==> found == Some("Session1")
  {
    hide IsLookup, GoesToSeat0, Attached;
    var w := WaitingSeat0();
    ConsoleAttached(found, kernel);
    LookupExactly(w.store, w.seat.members, "/dev/tty1", found);
    assert DeviceAt(w, 1) == Some("/dev/tty1") by {
      assert Decimal(1) == "1" && "/dev/tty" + "1" == "/dev/tty1";
    }
    assert w.store["Session1"].info.displayDevice == "/dev/tty1";
  }

  lemma ConsoleOpened(kernel: Kernel)
    requires CanHappen(Waiting(), Collected("c", ConsoleOpening(Some("Session1"), kernel)))
    ensures Next(Waiting(), Collected("c", ConsoleOpening(Some("Session1"), kernel))) == LoggedIn()
  {
    hide CanOpen, GoesToSeat0, Attached, MakesDir, LooksUp, MaybeUpdate, SetLocal, UpdateIdle;
    var o := ConsoleOpening(Some("Session1"), kernel);
    ConsoleAttached(o.found, kernel);
    ConsoleTurned(kernel);
    var r := OpenTables(Waiting(), "Session1", o);
    assert r == Waiting().(sessions := LoggedIn().sessions, seats := LoggedIn().seats, dirs := {1000});
    BusyHint(r);
  }

  lemma ConsoleTurned(kernel: Kernel)
    ensures var w1 := MaybeUpdate(WaitingSeat0(), Some("Session1"), kernel);
      && w1.seat == LoggedIn().seats["seat0"]
      && SetLocal(w1.store, "Session1", true) == w1.store == LoggedIn().sessions
  {
    var w, s := WaitingSeat0(), LoggedIn().sessions["Session1"];
    assert SetActive(w.store["Session1"], true, true, kernel) == s;
    assert MaybeUpdate(w, Some("Session1"), kernel).store == w.store["Session1" := s] == LoggedIn().sessions;
  }

  lemma BusyHint(r: ManagerState)
    requires "Session1" in r.sessions && !r.sessions["Session1"].reg.idle && r.idleHint && r.idleSent == []
    ensures UpdateIdle(r) == r.(idleHint := false, idleSent := [false])
  {
  }

  lemma TwoEvents(m: ManagerState, e1: ManagerEvent, e2: ManagerEvent)
    requires CanHappen(m, e1)
    ensures Runs.Legal(m, [e1, e2]) <==> CanHappen(Next(m, e1), e2)
    ensures CanHappen(Next(m, e1), e2) ==> Runs.Run(m, [e1, e2]) == Next(Next(m, e1), e2)
  {
    hide CanHappen, Next;
    var es := [e1, e2];
    assert es[..1] == [e1] && es[..1][..0] == [];
    assert Runs.Legal(m, es[..1]) && Runs.Run(m, es[..1]) == Next(m, e1);
  }
}
