/** Runs of the daemon, from its start, that break what it is meant to keep: a session
    activated on a seat it is not attached to, a directory removed under a session, and a
    session id given to two leaders. */
module ManagerFailures {
  import opened Text
  import opened Console
  import opened SessionSpec
  import opened SeatSpec
  import opened ManagerSpec
  import opened ManagerSafety
  import Runs = ManagerRuns
  import opened Ids

  function SessionId(k: nat): Id { SESSION_PREFIX + Decimal(k) }

  function SeatId(k: nat): Id { SEAT_PREFIX + Decimal(k) }

  /** A user logged in from another host, who names console 1. */
  function Remote(): SessionInfo { SessionInfo(1000, LinuxName(1), "", "", "example.org", 1, "") }

  function RemoteOpening(k: nat, peer: Option<Id>, created: bool): Opening {
    Opening(Remote(), false, false, peer, created, SeatId(k), k + 1, None, {})
  }

  /** The user logs in for the k-th time. */
  function LogIn(cookie: Cookie, k: nat, peer: Option<Id>, created: bool): seq<ManagerEvent> {
    [Asked(cookie, ":1.7", 1000, 42, SessionId(k), k + 1), Collected(cookie, RemoteOpening(k, peer, created))]
  }

  /** All made from a number below k. */
  ghost predicate Numbered(ids: set<Id>, prefix: string, k: nat) {
    forall id :: id in ids ==> exists j: nat :: j < k && id == prefix + Decimal(j)
  }

  function LeaderIds(m: ManagerState): set<Id> { set c | c in m.leaders :: m.leaders[c].session }

  /** The tables after k - 1 logins. */
  ghost predicate Before(m: ManagerState, k: nat) {
    && Tables(m) && 1 <= k < 10 && m.sessionSerial == k && m.seatSerial == k
    && Numbered(m.sessions.Keys, SESSION_PREFIX, k) && |m.sessions.Keys| <= k
    && Numbered(LeaderIds(m), SESSION_PREFIX, k) && Numbered(m.seats.Keys, SEAT_PREFIX, k)
  }

  lemma NumbersDiffer(prefix: string, j: nat, k: nat)
    requires j != k
    ensures prefix + Decimal(j) != prefix + Decimal(k)
  {
    assert (prefix + Decimal(j))[|prefix|..] == Decimal(j) && (prefix + Decimal(k))[|prefix|..] == Decimal(k);
    if Decimal(j) == Decimal(k) {
      DecimalInjective(j, k);
    }
  }

  lemma NextIsFree(ids: set<Id>, prefix: string, k: nat)
    requires Numbered(ids, prefix, k)
    ensures prefix + Decimal(k) !in ids
  {
    forall j: nat | j < k ensures prefix + Decimal(j) != prefix + Decimal(k) {
      NumbersDiffer(prefix, j, k);
    }
  }

  lemma OneMoreNumber(ids: set<Id>, more: set<Id>, prefix: string, k: nat)
    requires Numbered(ids, prefix, k) && more <= ids + {prefix + Decimal(k)}
    ensures Numbered(more, prefix, k + 1)
  {
    forall id | id in more ensures exists j: nat :: j < k + 1 && id == prefix + Decimal(j) {
      if id in ids {
        var j: nat :| j < k && id == prefix + Decimal(j);
        assert j < k + 1;
      }
    }
  }

  lemma NextIdsAreFree(m: ManagerState, k: nat)
    requires Before(m, k)
    ensures SessionId(k) !in m.sessions && SeatId(k) !in m.seats
    ensures forall c :: c in m.leaders ==> m.leaders[c].session != SessionId(k)
  {
    hide Numbered, Tables;
    NextIsFree(m.sessions.Keys, SESSION_PREFIX, k);
    NextIsFree(LeaderIds(m), SESSION_PREFIX, k);
    NextIsFree(m.seats.Keys, SEAT_PREFIX, k);
    assert forall c :: c in m.leaders ==> m.leaders[c].session in LeaderIds(m);
  }

  lemma FirstTry(prefix: string, first: nat, serial: nat, table: set<string>)
    requires first <= serial < SIGN_BIT && first <= 1 && prefix + Decimal(serial) !in table
    ensures IsFresh(prefix, first, serial, table, prefix + Decimal(serial), NextSerial(first, serial))
  {
    assert FoundAt(prefix, first, serial, table, prefix + Decimal(serial), NextSerial(first, serial), 0);
  }

  lemma AskedNow(m: ManagerState, cookie: Cookie, k: nat) returns (r: ManagerState)
    requires Before(m, k) && cookie !in m.leaders
    ensures var e := Asked(cookie, ":1.7", 1000, 42, SessionId(k), k + 1);
      CanHappen(m, e) && r == Next(m, e) && NotReused(m, e)
    ensures Tables(r) && r.leaders[cookie] == Leader(SessionId(k), ":1.7", 1000, 42, true)
    ensures r == m.(leaders := m.leaders[cookie := r.leaders[cookie]], sessionSerial := k + 1)
  {
    hide Tables, IsFresh;
    var e := Asked(cookie, ":1.7", 1000, 42, SessionId(k), k + 1);
    NextIdsAreFree(m, k);
    FirstTry(SESSION_PREFIX, 1, k, m.sessions.Keys);
    NextKeepsTables(m, e);
    r := Next(m, e);
  }

  /** A remote login opens a session on a dynamic seat of its own, under the next ids. */
  lemma LogsIn(m: ManagerState, es: seq<ManagerEvent>, cookie: Cookie, k: nat, peer: Option<Id>, created: bool)
      returns (w: ManagerState, r: ManagerState)
    requires Runs.Legal(m, es) && Before(Runs.Run(m, es), k) && cookie !in Runs.Run(m, es).leaders && k < 9
    requires IsPeer(Runs.Run(m, es).sessions, 1000, peer)
    ensures w == Runs.Run(m, es) && Runs.Legal(m, es + LogIn(cookie, k, peer, created))
    ensures r == Runs.Run(m, es + LogIn(cookie, k, peer, created))
    ensures Runs.NeverReuses(m, es) ==> Runs.NeverReuses(m, es + LogIn(cookie, k, peer, created))
    ensures Runs.NeverStrays(m, es) ==> Runs.NeverStrays(m, es + LogIn(cookie, k, peer, created))
    ensures Entered(w, r, cookie, k, peer, created)
  {
    hide Tables, CanHappen, Next, NotReused, Strays, IsPeer, Before, CanOpen;
    w := Runs.Run(m, es);
    var asked, e := LogIn(cookie, k, peer, created)[0], LogIn(cookie, k, peer, created)[1];
    var w1 := AskedNow(w, cookie, k);
    CollectsNow(w, w1, cookie, k, peer, created);
    r := Next(w1, e);
    OneMore(m, es, asked);
    OneMore(m, es + [asked], e);
    NotAnActivation(w, asked);
    NotAnActivation(w1, e);
    assert es + [asked] + [e] == es + LogIn(cookie, k, peer, created);
  }

  lemma NotAnActivation(m: ManagerState, e: ManagerEvent)
    requires !e.ActivateCalled?
    ensures !Strays(m, e) && (!e.Asked? ==> NotReused(m, e))
  {
  }

  lemma OneMore(m: ManagerState, es: seq<ManagerEvent>, e: ManagerEvent)
    requires Runs.Legal(m, es) && CanHappen(Runs.Run(m, es), e)
    ensures Runs.Legal(m, es + [e]) && Runs.Run(m, es + [e]) == Next(Runs.Run(m, es), e)
    ensures Runs.NeverReuses(m, es + [e]) <==> Runs.NeverReuses(m, es) && NotReused(Runs.Run(m, es), e)
    ensures Runs.NeverStrays(m, es + [e]) <==> Runs.NeverStrays(m, es) && !Strays(Runs.Run(m, es), e)
  {
    hide CanHappen, Next, NotReused, Strays;
    assert (es + [e])[..|es|] == es;
  }

  /** What a remote login leaves behind. */
  ghost predicate Entered(m: ManagerState, r: ManagerState, cookie: Cookie, k: nat, peer: Option<Id>, created: bool) {
    && Before(r, k + 1) && Seated(m, r, k, peer, created)
    && r.leaders == m.leaders[cookie := Leader(SessionId(k), ":1.7", 1000, 42, false)]
  }

  ghost predicate Seated(m: ManagerState, r: ManagerState, k: nat, peer: Option<Id>, created: bool) {
    var id, dir := SessionId(k), DirOf(m.sessions, peer);
    && r.platform == m.platform && r.vt == m.vt
    && r.sessions.Keys == m.sessions.Keys + {id} && id !in m.sessions && SameRegistration(r.sessions - {id}, m.sessions)
    && r.sessions[id].info == Remote() && r.sessions[id].reg.seatId == Some(SeatId(k))
    && r.sessions[id].reg.runtimeDir == (if dir.Some? then dir else if created then Some(RunDir(1000)) else None)
    && SEAT0 in m.seats && SEAT0 in r.seats && r.seats[SEAT0] == m.seats[SEAT0]
    && r.seats.Keys == m.seats.Keys + {SeatId(k)} && SeatId(k) != SEAT0
    && r.dirs == if dir.None? && created then m.dirs + {1000} else m.dirs
  }

  lemma CollectsNow(m: ManagerState, w: ManagerState, cookie: Cookie, k: nat, peer: Option<Id>, created: bool)
    requires Before(m, k) && k < 9 && IsPeer(m.sessions, 1000, peer) && Tables(w)
    requires w == m.(leaders := m.leaders[cookie := Leader(SessionId(k), ":1.7", 1000, 42, true)],
        sessionSerial := k + 1)
    ensures var e := Collected(cookie, RemoteOpening(k, peer, created));
      CanHappen(w, e) && Entered(m, Next(w, e), cookie, k, peer, created)
  {
    hide Tables, CanOpen, OpenSession, IsPeer, Before, Seated, RemoteOpening, SessionId, SeatId, CanHappen, Next,
         LeaderIds, NotReused;
    var id, o, e := SessionId(k), RemoteOpening(k, peer, created), Collected(cookie, RemoteOpening(k, peer, created));
    SerialOf(m, k);
    NextIdsAreFree(m, k);
    OpensNow(w, k, peer, created);
    var r := CollectedNow(w, cookie, o);
    SeatedAsWell(m, w, OpenSession(w, id, o), r, k, peer, created);
    NextKeepsTables(w, e);
    assert NotReused(w, e) by { NotAnActivation(w, e); }
    LeaderAdded(m, r, cookie, k);
    KeysOfSeated(m, r, k, peer, created);
    BeforeNext(m, r, cookie, k);
  }

  lemma CollectedNow(w: ManagerState, cookie: Cookie, o: Opening) returns (r: ManagerState)
    requires cookie in w.leaders && w.leaders[cookie].pending && CanOpen(w, w.leaders[cookie].session, o)
    ensures CanHappen(w, Collected(cookie, o)) && r == Next(w, Collected(cookie, o))
    ensures r == OpenSession(w, w.leaders[cookie].session, o).(
      leaders := w.leaders[cookie := w.leaders[cookie].(pending := false)])
  {
    hide CanOpen, OpenSession;
    r := Next(w, Collected(cookie, o));
  }

  lemma LeaderAdded(m: ManagerState, r: ManagerState, cookie: Cookie, k: nat)
    requires r.leaders == m.leaders[cookie := Leader(SessionId(k), ":1.7", 1000, 42, false)]
    ensures LeaderIds(r) <= LeaderIds(m) + {SessionId(k)}
  {
    hide SessionId;
  }

  /** Leaders and the session serial do not matter for it. */
  lemma SeatedAsWell(m: ManagerState, w: ManagerState, o: ManagerState, r: ManagerState, k: nat, peer: Option<Id>,
      created: bool)
    requires Seated(w, o, k, peer, created)
    requires w == m.(leaders := w.leaders, sessionSerial := w.sessionSerial) && r == o.(leaders := r.leaders)
    ensures Seated(m, r, k, peer, created)
  {
    hide SameRegistration, DirOf, SessionId, SeatId;
  }

  lemma KeysOfSeated(m: ManagerState, r: ManagerState, k: nat, peer: Option<Id>, created: bool)
    requires Seated(m, r, k, peer, created)
    ensures r.sessions.Keys == m.sessions.Keys + {SessionId(k)} && r.seats.Keys == m.seats.Keys + {SeatId(k)}
  {
    hide SameRegistration, DirOf, SessionId, SeatId;
  }

  lemma TablesPartition(m: ManagerState)
    requires Tables(m)
    ensures Partition(m) && SEAT0 in m.seats && CachesOk(m)
  {
    PartitionWf(m);
  }

  lemma CanOpenNow(w: ManagerState, id: Id, k: nat, peer: Option<Id>, created: bool)
    requires Partition(w) && IsPeer(w.sessions, 1000, peer) && w.seatSerial == k < 9 && SeatId(k) !in w.seats
    ensures var o := RemoteOpening(k, peer, created); CanOpen(w, id, o) && !GoesToSeat0(w, o.info, o.saysLocal)
  {
    hide Partition, IsFresh, IsPeer, LooksUp, LinuxName;
    var o := RemoteOpening(k, peer, created);
    PartitionWf(w);
    FirstTry(SEAT_PREFIX, 0, k, w.seats.Keys);
    Anything(Attached(w, id, o), w.vt, o.found);
  }

  lemma OpensNow(w: ManagerState, k: nat, peer: Option<Id>, created: bool)
    requires Tables(w) && IsPeer(w.sessions, 1000, peer) && w.seatSerial == k < 9 && 0 < k
    requires SeatId(k) !in w.seats && SessionId(k) !in w.sessions
    ensures var id, o := SessionId(k), RemoteOpening(k, peer, created);
      && CanOpen(w, id, o) && Seated(w, OpenSession(w, id, o), k, peer, created)
      && OpenSession(w, id, o).seatSerial == k + 1 && OpenSession(w, id, o).sessionSerial == w.sessionSerial
  {
    hide Tables, CanOpen, IsPeer, LinuxName, OpenSession, SameRegistration, GoesToSeat0, SessionId, RunDir;
    var id, o := SessionId(k), RemoteOpening(k, peer, created);
    TablesPartition(w);
    CanOpenNow(w, id, k, peer, created);
    NewSerial(w, id, o);
    var sid, seat := OpenShape(w, id, o);
    NumbersDiffer(SEAT_PREFIX, 0, k);
    assert SEAT0 == SeatId(0);
  }

  lemma Anything(w: World, num: nat, found: Option<Id>)
    requires w.seat.members <= w.store.Keys && w.seat.kind == Dynamic
    ensures LooksUp(w, num, found)
  {
  }

  lemma SerialOf(m: ManagerState, k: nat)
    requires Before(m, k)
    ensures m.seatSerial == k && m.sessionSerial == k && Tables(m) && 1 <= k < 10
  {
  }

  lemma NewSerial(m: ManagerState, ssid: Id, o: Opening)
    requires CanOpen(m, ssid, o) && !GoesToSeat0(m, o.info, o.saysLocal)
    ensures OpenSession(m, ssid, o).seatSerial == o.seatNext
  {
    hide MaybeUpdate, AllIdle, IdleBlocked, SetLocal, GoesToSeat0;
  }

  lemma BeforeNext(m: ManagerState, r: ManagerState, cookie: Cookie, k: nat)
    requires Before(m, k) && k < 9 && Tables(r) && r.sessionSerial == k + 1 && r.seatSerial == k + 1
    requires r.sessions.Keys == m.sessions.Keys + {SessionId(k)} && r.seats.Keys == m.seats.Keys + {SeatId(k)}
    requires LeaderIds(r) <= LeaderIds(m) + {SessionId(k)}
    ensures Before(r, k + 1)
  {
    hide Tables, Numbered, LeaderIds;
    OneMoreNumber(m.sessions.Keys, r.sessions.Keys, SESSION_PREFIX, k);
    OneMoreNumber(LeaderIds(m), LeaderIds(r), SESSION_PREFIX, k);
    OneMoreNumber(m.seats.Keys, r.seats.Keys, SEAT_PREFIX, k);
  }

  lemma BootedBefore(vt: nat)
    requires vt < UINT_RANGE
    ensures Before(Booted(Linux, vt), 1)
  {
    Runs.BootedIsRight(Linux, vt);
    assert SEAT0 == SeatId(0);
  }

  /** The session of a remote login, on a seat of its own, is activated on seat0, whose VT
      is on the console it names. */
  function ForeignActivation(kernel: Kernel): seq<ManagerEvent> {
    LogIn("c", 1, None, true) + [ActivateCalled(SessionId(1), SEAT0, true, kernel)]
  }

  /** It is answered "already active" and left active on a dynamic seat, which should never
      have an active session. */
  lemma ForeignActivationBreaks(kernel: Kernel)
    ensures var m, es := Booted(Linux, 1), ForeignActivation(kernel);
      && Runs.Legal(m, es) && Runs.NeverReuses(m, es)
      && var r := Runs.Run(m, es);
         && SessionId(1) in r.sessions && r.sessions[SessionId(1)].active
         && r.sessions[SessionId(1)].reg.seatId == Some(SeatId(1)) && SeatId(1) in r.seats
         && r.seats[SeatId(1)].kind == Dynamic && !AllSafe(r)
  {
    hide Tables, AllSafe, Runs.Run, Runs.Legal, Runs.NeverReuses, Runs.NeverStrays, CanHappen, Next, Strays, LogIn;
    var m, es, id := Booted(Linux, 1), LogIn("c", 1, None, true), SessionId(1);
    Runs.BootedIsRight(Linux, 1);
    BootedBefore(1);
    assert Runs.Legal(m, []) && Runs.Run(m, []) == m && Runs.NeverReuses(m, [])
      && Runs.NeverStrays(m, []) by { Nothing(m); }
    var w0, w := LogsIn(m, [], "c", 1, None, true);
    assert [] + es == es;
    Runs.RunStaysSafe(m, es);
    var e := ActivateCalled(id, SEAT0, true, kernel);
    StraysFromElsewhere(w, e);
    OneMore(m, es, e);
    assert NotReused(w, e);
  }

  lemma Nothing(m: ManagerState)
    ensures Runs.Legal(m, []) && Runs.Run(m, []) == m && Runs.NeverReuses(m, []) && Runs.NeverStrays(m, [])
  {
  }

  lemma StraysFromElsewhere(w: ManagerState, e: ManagerEvent)
    requires Tables(w) && AllSafe(w) && w.platform == Linux && w.vt == 1 && e.ActivateCalled? && e.seatId == SEAT0
    requires e.id in w.sessions && w.sessions[e.id].info == Remote() && SEAT0 in w.seats && w.seats[SEAT0].active.None?
    requires w.sessions[e.id].reg.seatId == Some(SeatId(1)) && SeatId(1) in w.seats && SeatId(1) != SEAT0
    ensures CanHappen(w, e) && Strays(w, e)
    ensures var r := Next(w, e);
      && e.id in r.sessions && r.sessions[e.id].active && r.sessions[e.id].reg.seatId == Some(SeatId(1))
      && SeatId(1) in r.seats && r.seats[SeatId(1)].kind == Dynamic && !AllSafe(r)
  {
    hide Activate, Safe, Partition, Cookies, LinuxName, LinuxNum, InvIn;
    PartitionWf(w);
    HasSeat0(w);
    KindIs(w, SeatId(1));
    LinuxRoundTrip(1);
    NextKeepsSafe(w, e);
    EverySessionInv(w);
    ActivateTouches(WorldOf(w, SEAT0), e.id, e.switched, e.kernel);
    ActivateKeepsListed(w, e);
  }

  /** A user logs in three times: the first time no directory can be made, the second time
      one is, and the third session is given that. Then the second session is closed, and
      the search comes upon the first. */
  function DirectoryLost(): seq<ManagerEvent> {
    LogIn("a", 1, None, false) + LogIn("b", 2, Some(SessionId(1)), true) + LogIn("c", 3, Some(SessionId(2)), true)
    + [CloseCalled("b", 1000, 42, Closing(None, Some(SessionId(1)), {}))]
  }

  /** The third session is left with a directory that is gone. */
  lemma DirectoryRemovedInUse()
    ensures var m, es := Booted(Linux, 1), DirectoryLost();
      && Runs.Legal(m, es)
      && var r := Runs.Run(m, es);
         && SessionId(3) in r.sessions && r.sessions[SessionId(3)].info.uid == 1000
         && r.sessions[SessionId(3)].reg.runtimeDir == Some(RunDir(1000)) && 1000 !in r.dirs
  {
    hide Runs.Run, Runs.Legal, CanHappen, Next, LogIn, SessionId, SeatId, RunDir, Before;
    var m := Booted(Linux, 1);
    var es, w := ThreeLogins();
    var e := CloseCalled("b", 1000, 42, Closing(None, Some(SessionId(1)), {}));
    IdsDiffer();
    LosesDirectory(w, e);
    OneMore(m, es, e);
  }

  lemma TwoLogins() returns (es: seq<ManagerEvent>, w: ManagerState)
    ensures es == LogIn("a", 1, None, false) + LogIn("b", 2, Some(SessionId(1)), true)
    ensures Runs.Legal(Booted(Linux, 1), es) && w == Runs.Run(Booted(Linux, 1), es) && Before(w, 3)
    ensures w.leaders.Keys == {"a", "b"} && w.leaders["b"] == Leader(SessionId(2), ":1.7", 1000, 42, false)
    ensures w.sessions.Keys == {SessionId(1), SessionId(2)} && SeatId(2) in w.seats && SeatId(2) != SEAT0
    ensures forall id :: id in w.sessions ==> w.sessions[id].info.uid == 1000
    ensures w.sessions[SessionId(1)].reg.runtimeDir.None? && w.sessions[SessionId(2)].reg.seatId == Some(SeatId(2))
    ensures w.sessions[SessionId(2)].reg.runtimeDir == Some(RunDir(1000))
  {
    hide Runs.Run, Runs.Legal, Runs.NeverReuses, Runs.NeverStrays, LogIn, SessionId, SeatId, RunDir, Before, LinuxName;
    var es1, w1 := OneLogin();
    es := es1 + LogIn("b", 2, Some(SessionId(1)), true);
    var w1_, w2 := LogsIn(Booted(Linux, 1), es1, "b", 2, Some(SessionId(1)), true);
    w := w2;
    IdsDiffer();
  }

  lemma OneLogin() returns (es: seq<ManagerEvent>, w: ManagerState)
    ensures es == LogIn("a", 1, None, false)
    ensures Runs.Legal(Booted(Linux, 1), es) && w == Runs.Run(Booted(Linux, 1), es) && Before(w, 2)
    ensures w.leaders.Keys == {"a"} && w.sessions.Keys == {SessionId(1)}
    ensures w.sessions[SessionId(1)].info.uid == 1000 && w.sessions[SessionId(1)].reg.runtimeDir.None?
  {
    hide Runs.Run, Runs.Legal, Runs.NeverReuses, Runs.NeverStrays, LogIn, SessionId, SeatId, RunDir, Before, LinuxName;
    var m := Booted(Linux, 1);
    es := LogIn("a", 1, None, false);
    BootedBefore(1);
    Nothing(m);
    var w0, w1 := LogsIn(m, [], "a", 1, None, false);
    assert [] + es == es;
    w := w1;
  }

  lemma ThreeLogins() returns (es: seq<ManagerEvent>, w: ManagerState)
    ensures es == LogIn("a", 1, None, false) + LogIn("b", 2, Some(SessionId(1)), true)
                  + LogIn("c", 3, Some(SessionId(2)), true)
    ensures Runs.Legal(Booted(Linux, 1), es) && w == Runs.Run(Booted(Linux, 1), es) && Before(w, 4)
    ensures "b" in w.leaders && w.leaders["b"] == Leader(SessionId(2), ":1.7", 1000, 42, false)
    ensures w.sessions.Keys == {SessionId(1), SessionId(2), SessionId(3)} && SeatId(2) in w.seats && SeatId(2) != SEAT0
    ensures forall id :: id in w.sessions ==> w.sessions[id].info.uid == 1000
    ensures w.sessions[SessionId(1)].reg.runtimeDir.None? && w.sessions[SessionId(2)].reg.seatId == Some(SeatId(2))
    ensures w.sessions[SessionId(3)].reg.runtimeDir == Some(RunDir(1000))
  {
    hide Runs.Run, Runs.Legal, Runs.NeverReuses, Runs.NeverStrays, LogIn, SessionId, SeatId, RunDir, Before, LinuxName;
    var es2, w2 := TwoLogins();
    es := es2 + LogIn("c", 3, Some(SessionId(2)), true);
    var w2_, w3 := LogsIn(Booted(Linux, 1), es2, "c", 3, Some(SessionId(2)), true);
    w := w3;
    IdsDiffer();
  }

  lemma IdsDiffer()
    ensures SessionId(1) != SessionId(2) && SessionId(1) != SessionId(3) && SessionId(2) != SessionId(3)
  {
    NumbersDiffer(SESSION_PREFIX, 1, 2);
    NumbersDiffer(SESSION_PREFIX, 1, 3);
    NumbersDiffer(SESSION_PREFIX, 2, 3);
  }

  lemma LosesDirectory(w: ManagerState, e: ManagerEvent)
    requires Before(w, 4) && e == CloseCalled("b", 1000, 42, Closing(None, Some(SessionId(1)), {}))
    requires "b" in w.leaders && w.leaders["b"] == Leader(SessionId(2), ":1.7", 1000, 42, false)
    requires w.sessions.Keys == {SessionId(1), SessionId(2), SessionId(3)}
    requires SessionId(1) != SessionId(2) && SessionId(2) != SessionId(3)
    requires w.sessions[SessionId(1)].info.uid == 1000 && w.sessions[SessionId(1)].reg.runtimeDir.None?
    requires w.sessions[SessionId(2)].info.uid == 1000 && w.sessions[SessionId(2)].reg.seatId == Some(SeatId(2))
    requires SeatId(2) in w.seats && SeatId(2) != SEAT0
    ensures CanHappen(w, e)
    ensures var r := Next(w, e);
      && 1000 !in r.dirs && SessionId(3) in r.sessions
      && r.sessions[SessionId(3)].info == w.sessions[SessionId(3)].info
      && r.sessions[SessionId(3)].reg == w.sessions[SessionId(3)].reg
  {
    hide Before, Tables, Partition, CloseSession, SessionId, SeatId, CanClose, UnchangedOff, CanHappen, Next;
    SerialOf(w, 4);
    TablesPartition(w);
    CanCloseSecond(w, e.closing);
    ClosedNow(w, e);
    var sid, seat := CloseShape(w, SessionId(2), e.closing);
    assert forall id :: id in w.sessions && id != SessionId(2) ==> id in w.sessions - {SessionId(2)};
  }

  lemma ClosedNow(w: ManagerState, e: ManagerEvent)
    requires e.CloseCalled? && Owns(w, e.cookie, e.uid, e.pid) && w.leaders[e.cookie].session in w.sessions
    requires CanClose(w, w.leaders[e.cookie].session, e.closing)
    ensures CanHappen(w, e)
    ensures Next(w, e) == CloseSession(w, w.leaders[e.cookie].session, e.closing).(leaders := w.leaders - {e.cookie})
  {
    hide CanClose, CloseSession;
  }

  lemma CanCloseSecond(w: ManagerState, c: Closing)
    requires Partition(w) && c == Closing(None, Some(SessionId(1)), {}) && SessionId(1) in w.sessions
    requires SessionId(1) != SessionId(2) && w.sessions[SessionId(1)].info.uid == 1000 && SessionId(2) in w.sessions
    requires w.sessions[SessionId(2)].info.uid == 1000 && w.sessions[SessionId(2)].reg.seatId == Some(SeatId(2))
    requires SeatId(2) in w.seats && SeatId(2) != SEAT0
    ensures CanClose(w, SessionId(2), c)
  {
    hide Partition, SessionId, SeatId, LooksUp;
    PartitionWf(w);
    KindIs(w, SeatId(2));
    Anything(Detach(WorldOf(w, SeatId(2)), SessionId(2)), w.vt, None);
  }

  // ----- the session serial comes round

  /** One leader waits with the first id ever drawn, its parameters never collected; the
      serial has got to k. */
  function OneWaiting(k: nat): ManagerState {
    Booted(Linux, 1).(leaders := map["old" := Leader(SessionId(1), ":1", 1000, 42, true)], sessionSerial := k)
  }

  /** A caller asks for a session and its bus name vanishes. */
  function PassBy(k: nat): (es: seq<ManagerEvent>)
    requires 1 <= k < SIGN_BIT
    ensures |es| == 2
  {
    [Asked("new", ":2", 1000, 43, SessionId(k), NextSerial(1, k)), PeerGone(":2", ["new"], [Closing(None, None, {})])]
  }

  lemma AsksNow(m: ManagerState, cookie: Cookie, service: Sender, pid: nat)
    requires m.sessions == map[] && 1 <= m.sessionSerial < SIGN_BIT && cookie !in m.leaders
    ensures CanHappen(m, Asked(cookie, service, 1000, pid, SessionId(m.sessionSerial), NextSerial(1, m.sessionSerial)))
  {
    hide IsFresh;
    FirstTry(SESSION_PREFIX, 1, m.sessionSerial, m.sessions.Keys);
  }

  /** The serial is left one further on, round to 1 after the last. */
  lemma PassesBy(k: nat)
    requires 1 <= k < SIGN_BIT
    ensures CanHappen(OneWaiting(k), PassBy(k)[0])
    ensures var w := Next(OneWaiting(k), PassBy(k)[0]);
      CanHappen(w, PassBy(k)[1]) && Next(w, PassBy(k)[1]) == OneWaiting(NextSerial(1, k))
  {
    hide SessionId, NextSerial;
    var m, asked, gone := OneWaiting(k), PassBy(k)[0], PassBy(k)[1];
    AsksNow(m, "new", ":2", 43);
    var w := Next(m, asked);
    NothingToSweep(w, gone);
    assert w.leaders - (set c | c in gone.order) == m.leaders;
  }

  lemma NothingToSweep(w: ManagerState, gone: ManagerEvent)
    requires gone == PeerGone(":2", ["new"], [Closing(None, None, {})]) && w.sessions == map[]
    requires forall c :: c in ["new"] <==> c in w.leaders && w.leaders[c].service == ":2"
    ensures CanHappen(w, gone) && Next(w, gone) == WithoutLeaders(w, gone.order)
  {
    var without := WithoutLeaders(w, gone.order);
    assert gone.order[..0] == [] && gone.closings[..0] == [];
    assert CanSweep(without, w.leaders, [], []) && Sweep(without, w.leaders, [], []) == without;
  }

  lemma {:induction false} SerialReached(k: nat) returns (es: seq<ManagerEvent>)
    requires 2 <= k < SIGN_BIT
    ensures Runs.Legal(Booted(Linux, 1), es) && Runs.Run(Booted(Linux, 1), es) == OneWaiting(k)
  {
    hide Runs.Legal, Runs.Run, CanHappen, Next, SessionId;
    if k == 2 {
      es := FirstAsked();
    } else {
      var before := SerialReached(k - 1);
      es := OnePassedBy(before, k - 1);
    }
  }

  lemma FirstAsked() returns (es: seq<ManagerEvent>)
    ensures Runs.Legal(Booted(Linux, 1), es) && Runs.Run(Booted(Linux, 1), es) == OneWaiting(2)
  {
    hide Runs.Legal, Runs.Run, SessionId, IsFresh;
    var m := Booted(Linux, 1);
    var e := Asked("old", ":1", 1000, 42, SessionId(1), NextSerial(1, 1));
    Nothing(m);
    AsksNow(m, "old", ":1", 42);
    OneMore(m, [], e);
    es := [] + [e];
  }

  lemma OnePassedBy(before: seq<ManagerEvent>, k: nat) returns (es: seq<ManagerEvent>)
    requires 1 <= k < SIGN_BIT
    requires Runs.Legal(Booted(Linux, 1), before) && Runs.Run(Booted(Linux, 1), before) == OneWaiting(k)
    ensures Runs.Legal(Booted(Linux, 1), es) && Runs.Run(Booted(Linux, 1), es) == OneWaiting(NextSerial(1, k))
  {
    hide Runs.Legal, Runs.Run, CanHappen, Next, SessionId, NextSerial, PassBy, OneWaiting;
    PassesBy(k);
    OneMore(Booted(Linux, 1), before, PassBy(k)[0]);
    OneMore(Booted(Linux, 1), before + [PassBy(k)[0]], PassBy(k)[1]);
    es := before + [PassBy(k)[0]] + [PassBy(k)[1]];
  }

  /** The first id is drawn again, its leader still waiting, and the session opened: the
      tables no longer agree, and the old leader's cookie finds the session of the new. */
  lemma SessionIdReused() returns (es: seq<ManagerEvent>)
    ensures Runs.Legal(Booted(Linux, 1), es) && !Runs.NeverReuses(Booted(Linux, 1), es)
    ensures var r := Runs.Run(Booted(Linux, 1), es);
      && !Tables(r) && "old" in r.leaders && r.leaders["old"].pending
      && SessionForCookie(r, "old") == SessionForCookie(r, "new") == Some(SessionId(1))
  {
    hide Runs.Legal, Runs.Run, Runs.NeverReuses, CanHappen, Next, SessionId, NotReused, Tables, OneWaiting;
    var m, last := Booted(Linux, 1), SIGN_BIT - 1;
    var before := SerialReached(last);
    var around := OnePassedBy(before, last);
    assert NextSerial(1, last) == 1;
    var asked := Asked("new", ":2", 1000, 43, SessionId(1), 2);
    var e := Collected("new", RemoteOpening(1, None, true));
    DrawnAgain(asked, e);
    OneMore(m, around, asked);
    OneMore(m, around + [asked], e);
    es := around + [asked] + [e];
  }

  lemma DrawnAgain(asked: ManagerEvent, e: ManagerEvent)
    requires asked == Asked("new", ":2", 1000, 43, SessionId(1), 2)
    requires e == Collected("new", RemoteOpening(1, None, true))
    ensures CanHappen(OneWaiting(1), asked) && !NotReused(OneWaiting(1), asked)
    ensures var w := Next(OneWaiting(1), asked);
      && CanHappen(w, e)
      && var r := Next(w, e);
         && !Tables(r) && "old" in r.leaders && r.leaders["old"].pending
         && SessionForCookie(r, "old") == SessionForCookie(r, "new") == Some(SessionId(1))
  {
    hide CanOpen, OpenSession, Partition, SessionId, RemoteOpening, IsFresh;
    var m := OneWaiting(1);
    AsksNow(m, "new", ":2", 43);
    assert m.leaders["old"].session == SessionId(1);
    var w := Next(m, asked);
    StartPartition(w);
    CanOpenNow(w, SessionId(1), 1, None, true);
    var sid, seat := OpenShape(w, SessionId(1), e.opening);
    var r := CollectedNow(w, "new", e.opening);
    assert r.leaders["old"].session == r.leaders["new"].session;
  }

  lemma StartPartition(w: ManagerState)
    requires w.sessions == map[] && w.seats == Booted(Linux, 1).seats
    ensures Partition(w) && SeatId(1) !in w.seats && IsPeer(w.sessions, 1000, None)
  {
    assert SeatOk(w, SEAT0);
    NumbersDiffer(SEAT_PREFIX, 0, 1);
    assert SEAT0 == SeatId(0);
  }
}
