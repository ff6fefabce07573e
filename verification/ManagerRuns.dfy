/** What every run of the daemon keeps: the idle hint, exclusivity of each seat, and all
    the invariants together. */
module ManagerRuns {
  import opened Text
  import opened SessionSpec
  import opened SeatSpec
  import opened InhibitSpec
  import opened ActionSpec
  import opened ManagerSpec
  import opened ManagerSafety

  // ----- the system idle hint

  /** The change signals alternate, FALSE first, and the last one is the hint. */
  ghost predicate HintSignals(m: ManagerState) {
    && (forall i :: 0 <= i < |m.idleSent| ==> m.idleSent[i] == (i % 2 == 1))
    && m.idleHint == (|m.idleSent| % 2 == 0)
  }

  ghost predicate HintSound(m: ManagerState) { m.idleHint ==> AllIdle(m.sessions) }

  ghost predicate HintExact(m: ManagerState) { m.idleHint <==> AllIdle(m.sessions) }

  ghost predicate HintOk(m: ManagerState) { HintSignals(m) && HintSound(m) }

  lemma UpdateIdleIsRight(m: ManagerState)
    requires HintSignals(m)
    ensures HintOk(UpdateIdle(m))
    ensures UpdateIdle(m).idleHint == (AllIdle(m.sessions) && !IdleBlocked(m))
  {
  }

  lemma OpenKeepsHint(m: ManagerState, ssid: Id, o: Opening)
    requires CanOpen(m, ssid, o) && HintSignals(m)
    ensures var r := OpenSession(m, ssid, o);
      HintOk(r) && r.core == m.core && (!IdleBlocked(m) ==> HintExact(r))
  {
    hide AllIdle, IdleBlocked, CanOpen, HintOk, HintSignals;
    var m1 := OpenTables(m, ssid, o);
    OpenTablesHint(m, ssid, o);
    HintOnly(m, m1);
    UpdateIdleIsRight(m1);
    ExactByUpdate(m1);
  }

  lemma OpenTablesHint(m: ManagerState, ssid: Id, o: Opening)
    requires CanOpen(m, ssid, o)
    ensures var r := OpenTables(m, ssid, o); r.idleHint == m.idleHint && r.idleSent == m.idleSent && r.core == m.core
  {
    hide MaybeUpdate, SetLocal;
  }

  lemma CloseTablesHint(m: ManagerState, ssid: Id, c: Closing)
    requires CanClose(m, ssid, c)
    ensures var r := CloseTables(m, ssid, c); r.idleHint == m.idleHint && r.idleSent == m.idleSent && r.core == m.core
  {
    hide LeaveSeat;
  }

  lemma HintOnly(m: ManagerState, m1: ManagerState)
    requires m1.idleHint == m.idleHint && m1.idleSent == m.idleSent && m1.core == m.core
    ensures HintSignals(m) ==> HintSignals(m1)
    ensures IdleBlocked(m1) == IdleBlocked(m)
  {
  }

  lemma CloseKeepsHint(m: ManagerState, ssid: Id, c: Closing)
    requires CanClose(m, ssid, c) && HintSignals(m)
    ensures var r := CloseSession(m, ssid, c);
      HintOk(r) && r.core == m.core && (!IdleBlocked(m) ==> HintExact(r))
  {
    hide AllIdle, IdleBlocked, CanClose, HintOk, HintSignals;
    var m1 := CloseTables(m, ssid, c);
    CloseTablesHint(m, ssid, c);
    HintOnly(m, m1);
    UpdateIdleIsRight(m1);
    ExactByUpdate(m1);
  }

  lemma {:induction false} SweepKeepsHint(m: ManagerState, leaders: map<Cookie, Leader>, order: seq<Cookie>,
      closings: seq<Closing>)
    requires (forall c :: c in order ==> c in leaders) && CanSweep(m, leaders, order, closings) && HintOk(m)
    ensures var r := Sweep(m, leaders, order, closings);
      HintOk(r) && r.core == m.core && (HintExact(m) && !IdleBlocked(m) ==> HintExact(r))
    decreases |order|
  {
    hide CloseSession, CanClose, HintOk, HintExact;
    if order != [] {
      var n := |order| - 1;
      assert order[n] in order && forall c :: c in order[..n] ==> c in order;
      SweepKeepsHint(m, leaders, order[..n], closings[..n]);
      var before := Sweep(m, leaders, order[..n], closings[..n]);
      if leaders[order[n]].session in before.sessions {
        assert HintSignals(before) by { SignalsOfHintOk(before); }
        CloseKeepsHint(before, leaders[order[n]].session, closings[n]);
      }
    }
  }

  lemma SignalsOfHintOk(m: ManagerState)
    requires HintOk(m)
    ensures HintSignals(m)
  {
  }

  /** Same sessions, as idle as before, under the same hint. */
  lemma SameHint(r: ManagerState, m: ManagerState)
    requires r.idleHint == m.idleHint && r.idleSent == m.idleSent && r.sessions.Keys == m.sessions.Keys
    requires forall id :: id in m.sessions ==> r.sessions[id].reg.idle == m.sessions[id].reg.idle
    ensures HintOk(r) == HintOk(m) && HintExact(r) == HintExact(m)
  {
  }

  lemma SessionEventKeepsHint(m: ManagerState, e: ManagerEvent)
    requires CanHappen(m, e) && e.ToSession? && HintOk(m)
    ensures HintOk(Next(m, e)) && (HintExact(m) && !IdleBlocked(m) ==> HintExact(Next(m, e)))
  {
    hide SessionSpec.Step, AllIdle, HintOk, HintExact;
    var s := SessionSpec.Step(m.sessions[e.id], e.event);
    var m1 := m.(sessions := m.sessions[e.id := s]);
    if s.reg.idle == m.sessions[e.id].reg.idle {
      SameHint(m1, m);
    } else {
      SignalsOfHintOk(m);
      HintOnly(m, m1);
      UpdateIdleIsRight(m1);
      ExactByUpdate(m1);
    }
  }

  lemma ExactByUpdate(m: ManagerState)
    requires UpdateIdle(m).idleHint == (AllIdle(m.sessions) && !IdleBlocked(m))
    ensures !IdleBlocked(m) ==> HintExact(UpdateIdle(m))
  {
    UpdateIdleFrame(m);
  }

  /** After every step the hint is set only when every session is idle, and if idle is not
      block-inhibited during the step an exact hint stays exact. */
  lemma NextKeepsHint(m: ManagerState, e: ManagerEvent)
    requires CanHappen(m, e) && HintOk(m)
    ensures HintOk(Next(m, e)) && (HintExact(m) && !IdleBlocked(m) ==> HintExact(Next(m, e)))
  {
    hide OpenSession, CanOpen, CloseSession, CanClose, Sweep, CanSweep, HintOk, HintExact,
         ChangeActive, Activate, CoreStep;
    SignalsOfHintOk(m);
    var r := Next(m, e);
    match e {
      case Collected(cookie, opening) =>
        var o := OpenSession(m, m.leaders[cookie].session, opening);
        OpenKeepsHint(m, m.leaders[cookie].session, opening);
        SameHint(r, o);
      case CloseCalled(cookie, uid, pid, closing) =>
        if Owns(m, cookie, uid, pid) && m.leaders[cookie].session in m.sessions {
          var o := CloseSession(m, m.leaders[cookie].session, closing);
          CloseKeepsHint(m, m.leaders[cookie].session, closing);
          SameHint(r, o);
        }
      case PeerGone(service, order, closings) =>
        SameHint(WithoutLeaders(m, order), m);
        HintOnly(m, WithoutLeaders(m, order));
        SweepKeepsHint(WithoutLeaders(m, order), m.leaders, order, closings);
      case ToSession(_, _) => SessionEventKeepsHint(m, e);
      case VtSwitched(_, _, _) =>
        VtKeepsListed(m, e);
        SameHint(r, m);
      case ActivateCalled(_, _, _, _) =>
        ActivateKeepsListed(m, e);
        SameHint(r, m);
      case _ => SameHint(r, m);
    }
  }

  // ----- whole runs of the daemon

  ghost predicate Legal(m: ManagerState, es: seq<ManagerEvent>)
    ensures Legal(m, es) && es != [] ==> Legal(m, es[..|es| - 1])
    decreases |es|, 0
  {
    es == [] || (Legal(m, es[..|es| - 1]) && CanHappen(Run(m, es[..|es| - 1]), es[|es| - 1]))
  }

  ghost function Run(m: ManagerState, es: seq<ManagerEvent>): ManagerState
    requires Legal(m, es)
    decreases |es|, 1
  {
    if es == [] then m else Next(Run(m, es[..|es| - 1]), es[|es| - 1])
  }

  /** No id is drawn that a leader still has. */
  ghost predicate NeverReuses(m: ManagerState, es: seq<ManagerEvent>)
    requires Legal(m, es)
    decreases |es|
  {
    es == [] ||
    var n := |es| - 1;
    NeverReuses(m, es[..n]) && NotReused(Run(m, es[..n]), es[n])
  }

  // ----- the tables

  ghost predicate TablesThroughout(m: ManagerState, es: seq<ManagerEvent>)
    requires Legal(m, es)
    decreases |es|
  {
    Tables(Run(m, es)) && (es != [] ==> TablesThroughout(m, es[..|es| - 1]))
  }

  lemma {:induction false} RunKeepsTables(m: ManagerState, es: seq<ManagerEvent>)
    requires Tables(m) && Legal(m, es) && NeverReuses(m, es)
    ensures Tables(Run(m, es))
    decreases |es|
  {
    hide Tables, CanHappen, Next, NotReused;
    if es != [] {
      RunKeepsTables(m, es[..|es| - 1]);
      NextKeepsTables(Run(m, es[..|es| - 1]), es[|es| - 1]);
    }
  }

  /** In any run the tables agree throughout if and only if no id is drawn that a leader
      still has. */
  lemma {:induction false} TablesAgreeExactly(m: ManagerState, es: seq<ManagerEvent>)
    requires Tables(m) && Legal(m, es)
    ensures TablesThroughout(m, es) <==> NeverReuses(m, es)
    decreases |es|
  {
    hide Tables, CanHappen, Next, NotReused;
    if es != [] {
      TablesAgreeExactly(m, es[..|es| - 1]);
      if NeverReuses(m, es[..|es| - 1]) {
        RunKeepsTables(m, es[..|es| - 1]);
        NextKeepsTables(Run(m, es[..|es| - 1]), es[|es| - 1]);
      }
    }
  }

  ghost predicate NeverWraps(m: ManagerState, es: seq<ManagerEvent>)
    requires Legal(m, es)
    decreases |es|
  {
    es == [] ||
    var n := |es| - 1;
    NeverWraps(m, es[..n]) && BeforeWrap(Run(m, es[..n]), es[n])
  }

  /** None is, in a run in which the serial does not come round. */
  lemma {:induction false} NoReuseBeforeWrap(m: ManagerState, es: seq<ManagerEvent>)
    requires AllIssued(m) && Legal(m, es) && NeverWraps(m, es)
    ensures NeverReuses(m, es) && AllIssued(Run(m, es))
    decreases |es|
  {
    hide CanHappen, Next, NotReused, BeforeWrap, AllIssued;
    if es != [] {
      NoReuseBeforeWrap(m, es[..|es| - 1]);
      BeforeWrapNotReused(Run(m, es[..|es| - 1]), es[|es| - 1]);
    }
  }

  // ----- exclusivity

  /** No activation of the run takes the branch that marks a session active without caching
      it. */
  ghost predicate NeverStrays(m: ManagerState, es: seq<ManagerEvent>)
    requires Legal(m, es)
    decreases |es|
  {
    es == [] ||
    var n := |es| - 1;
    NeverStrays(m, es[..n]) && !Strays(Run(m, es[..n]), es[n])
  }

  ghost predicate SafeThroughout(m: ManagerState, es: seq<ManagerEvent>)
    requires Legal(m, es)
    decreases |es|
  {
    AllSafe(Run(m, es)) && (es != [] ==> SafeThroughout(m, es[..|es| - 1]))
  }

  lemma {:induction false} RunStaysSafe(m: ManagerState, es: seq<ManagerEvent>)
    requires Tables(m) && AllSafe(m) && Legal(m, es) && NeverReuses(m, es) && NeverStrays(m, es)
    ensures AllSafe(Run(m, es))
    decreases |es|
  {
    hide Tables, AllSafe, CanHappen, Next, NotReused, Strays;
    if es != [] {
      RunStaysSafe(m, es[..|es| - 1]);
      RunKeepsTables(m, es[..|es| - 1]);
      NextKeepsSafe(Run(m, es[..|es| - 1]), es[|es| - 1]);
    }
  }

  /** For the whole daemon, over any run, sessions opened and closed on whatever consoles and
      activated on whatever seats: every seat is safe throughout, no session but its cached
      one active, if and only if no activation takes that branch. */
  lemma {:induction false} RunIsSafeExactly(m: ManagerState, es: seq<ManagerEvent>)
    requires Tables(m) && AllSafe(m) && Legal(m, es) && NeverReuses(m, es)
    ensures SafeThroughout(m, es) <==> NeverStrays(m, es)
    decreases |es|
  {
    hide Tables, AllSafe, CanHappen, Next, NotReused, Strays;
    if es != [] {
      var before := es[..|es| - 1];
      RunIsSafeExactly(m, before);
      if NeverStrays(m, before) {
        RunStaysSafe(m, before);
        RunKeepsTables(m, before);
        NextKeepsSafe(Run(m, before), es[|es| - 1]);
      }
    }
  }

  ghost predicate ProperThroughout(m: ManagerState, es: seq<ManagerEvent>)
    requires Legal(m, es)
    decreases |es|
  {
    es == [] ||
    var n := |es| - 1;
    ProperThroughout(m, es[..n]) && ActivatedProperly(Run(m, es[..n]), es[n])
  }

  /** None does when each session is activated on its own seat, those of seat0 while the
      sessions there name distinct consoles. */
  lemma {:induction false} ProperRunNeverStrays(m: ManagerState, es: seq<ManagerEvent>)
    requires Tables(m) && AllSafe(m) && Legal(m, es) && NeverReuses(m, es) && ProperThroughout(m, es)
    ensures NeverStrays(m, es)
    decreases |es|
  {
    hide Partition, Cookies, AllSafe, CanHappen, Next, NotReused, Strays, ActivatedProperly;
    if es != [] {
      var before := es[..|es| - 1];
      ProperRunNeverStrays(m, before);
      RunStaysSafe(m, before);
      RunKeepsTables(m, before);
      ProperNeverStrays(Run(m, before), es[|es| - 1]);
    }
  }

  lemma BootedIsRight(platform: Console.Platform, vt: nat)
    requires vt < UINT_RANGE
    ensures var m := Booted(platform, vt);
      Tables(m) && AllIssued(m) && AllSafe(m) && CacheRight(m) && Dirs(m) && HintOk(m) && HintExact(m)
  {
    var m := Booted(platform, vt);
    assert SeatOk(m, SEAT0);
    NobodyActiveIsSafe(WorldOf(m, SEAT0));
  }

  /** So, from the start, at most one session of the whole daemon is active: the one seat0
      has cached, which is what a lookup for the current VT finds. No other session of any
      seat has an active device or anything granted by the kernel. */
  lemma OneActiveSession(platform: Console.Platform, vt: nat, es: seq<ManagerEvent>)
    requires vt < UINT_RANGE && Legal(Booted(platform, vt), es)
    requires NeverReuses(Booted(platform, vt), es) && NeverStrays(Booted(platform, vt), es)
    ensures var m := Run(Booted(platform, vt), es);
      && SEAT0 in m.seats && SeatSpec.Wf(WorldOf(m, SEAT0)) && Cached(WorldOf(m, SEAT0))
      && forall id :: id in m.sessions && m.seats[SEAT0].active != Some(id) ==>
           !m.sessions[id].active && !SomeActive(m.sessions[id].devices) && NothingGranted(m.sessions[id])
  {
    hide Tables, AllSafe, Run, Legal, NeverReuses, NeverStrays;
    BootedIsRight(platform, vt);
    RunKeepsTables(Booted(platform, vt), es);
    RunStaysSafe(Booted(platform, vt), es);
    OnlyTheCachedOne(Run(Booted(platform, vt), es));
  }

  lemma OnlyTheCachedOne(m: ManagerState)
    requires Tables(m) && AllSafe(m)
    ensures SEAT0 in m.seats && SeatSpec.Wf(WorldOf(m, SEAT0)) && Cached(WorldOf(m, SEAT0))
    ensures forall id :: id in m.sessions && m.seats[SEAT0].active != Some(id) ==>
              !m.sessions[id].active && !SomeActive(m.sessions[id].devices) && NothingGranted(m.sessions[id])
  {
    hide Cookies, LooksUp;
    assert SafeAt(m, SEAT0);
    forall id | id in m.sessions && m.seats[SEAT0].active != Some(id)
      ensures !m.sessions[id].active && !SomeActive(m.sessions[id].devices) && NothingGranted(m.sessions[id])
    {
      assert Placed(m, id);
      var sid := m.sessions[id].reg.seatId.value;
      assert SafeAt(m, sid) && SeatOk(m, sid);
      SafeMeansExclusiveHardware(WorldOf(m, sid));
    }
  }

  /** In any run in which no id is reused, whatever strays, the session seat0 has cached is
      what a lookup for the current VT finds. */
  lemma {:induction false} SeatCacheFollowsLookup(m: ManagerState, es: seq<ManagerEvent>)
    requires Tables(m) && CacheRight(m) && Legal(m, es) && NeverReuses(m, es)
    ensures CacheRight(Run(m, es))
    decreases |es|
  {
    hide Tables, CacheRight, CanHappen, Next, NotReused;
    if es != [] {
      SeatCacheFollowsLookup(m, es[..|es| - 1]);
      RunKeepsTables(m, es[..|es| - 1]);
      NextKeepsCache(Run(m, es[..|es| - 1]), es[|es| - 1]);
    }
  }

  // ----- runtime directories

  /** Each session opened is given a directory, its user's or one that could be made. */
  ghost predicate DirsGiven(m: ManagerState, es: seq<ManagerEvent>)
    requires Legal(m, es)
    decreases |es|
  {
    es == [] ||
    var n := |es| - 1;
    DirsGiven(m, es[..n]) && (es[n].Collected? ==> GivesDir(Run(m, es[..n]), es[n].opening))
  }

  ghost predicate DirsThroughout(m: ManagerState, es: seq<ManagerEvent>)
    requires Legal(m, es)
    decreases |es|
  {
    Dirs(Run(m, es)) && (es != [] ==> DirsThroughout(m, es[..|es| - 1]))
  }

  lemma {:induction false} RunKeepsDirs(m: ManagerState, es: seq<ManagerEvent>)
    requires Tables(m) && Dirs(m) && Legal(m, es) && NeverReuses(m, es) && DirsGiven(m, es)
    ensures Dirs(Run(m, es))
    decreases |es|
  {
    hide Tables, Dirs, CanHappen, Next, NotReused, GivesDir;
    if es != [] {
      var before := es[..|es| - 1];
      RunKeepsDirs(m, before);
      RunKeepsTables(m, before);
      NextKeepsDirs(Run(m, before), es[|es| - 1]);
    }
  }

  /** Over any interleaving of openings and closings, all sessions of a user share one
      directory throughout, which exists exactly while there are any, if and only if each
      is given one. */
  lemma {:induction false} DirsRightExactly(m: ManagerState, es: seq<ManagerEvent>)
    requires Tables(m) && Dirs(m) && Legal(m, es) && NeverReuses(m, es)
    ensures DirsThroughout(m, es) <==> DirsGiven(m, es)
    decreases |es|
  {
    hide Tables, Dirs, CanHappen, Next, NotReused, GivesDir;
    if es != [] {
      var before := es[..|es| - 1];
      DirsRightExactly(m, before);
      if DirsGiven(m, before) {
        RunKeepsDirs(m, before);
        RunKeepsTables(m, before);
        NextKeepsDirs(Run(m, before), es[|es| - 1]);
      }
    }
  }

  // ----- the idle hint over runs

  /** In every run the hint is set only while every session is idle, and its change signals
      alternate and end with it. */
  lemma {:induction false} EveryRunKeepsHint(m: ManagerState, es: seq<ManagerEvent>)
    requires HintOk(m) && Legal(m, es)
    ensures HintOk(Run(m, es))
    decreases |es|
  {
    hide CanHappen, Next, HintOk;
    if es != [] {
      EveryRunKeepsHint(m, es[..|es| - 1]);
      NextKeepsHint(Run(m, es[..|es| - 1]), es[|es| - 1]);
    }
  }

  ghost predicate NeverBlocked(m: ManagerState, es: seq<ManagerEvent>)
    requires Legal(m, es)
    decreases |es|
  {
    !IdleBlocked(Run(m, es)) && (es != [] ==> NeverBlocked(m, es[..|es| - 1]))
  }

  /** While nobody block-inhibits idle it is set exactly when every session is. */
  lemma {:induction false} HintIsExact(m: ManagerState, es: seq<ManagerEvent>)
    requires HintOk(m) && HintExact(m) && Legal(m, es) && NeverBlocked(m, es)
    ensures HintExact(Run(m, es))
    decreases |es|
  {
    hide CanHappen, Next, HintOk, HintExact, IdleBlocked;
    if es != [] {
      HintIsExact(m, es[..|es| - 1]);
      EveryRunKeepsHint(m, es[..|es| - 1]);
      NextKeepsHint(Run(m, es[..|es| - 1]), es[|es| - 1]);
    }
  }

  // ----- sessions by their cookies over runs

  /** No event of the run ends what was opened under the cookie. */
  ghost predicate NotEnded(m: ManagerState, es: seq<ManagerEvent>, cookie: Cookie)
    requires Legal(m, es)
    decreases |es|
  {
    es == [] ||
    var before := Run(m, es[..|es| - 1]);
    NotEnded(m, es[..|es| - 1], cookie) && (cookie in before.leaders ==> !Ends(before, es[|es| - 1], cookie))
  }

  /** A session once opened under a cookie is what the lookup by that cookie finds, until
      it is closed under the cookie or its leader's bus name vanishes. */
  lemma {:induction false} FoundUntilEnded(m: ManagerState, es: seq<ManagerEvent>, cookie: Cookie)
    requires Tables(m) && Legal(m, es) && NeverReuses(m, es) && NotEnded(m, es, cookie)
    requires SessionForCookie(m, cookie).Some?
    ensures SessionForCookie(Run(m, es), cookie) == SessionForCookie(m, cookie)
    decreases |es|
  {
    hide Tables, CanHappen, Next, Ends, NotReused;
    if es != [] {
      var before := es[..|es| - 1];
      FoundUntilEnded(m, before, cookie);
      RunKeepsTables(m, before);
      CookieFindsItsSession(Run(m, before), es[|es| - 1], cookie);
    }
  }

  // ----- locks and system actions over runs

  lemma CoreUntouched(m: ManagerState, e: ManagerEvent)
    requires CanHappen(m, e)
    ensures Next(m, e).core == if e.ToCore? then CoreStep(m.core, e.core) else m.core
  {
    hide OpenSession, CanOpen, CloseSession, CanClose, Sweep, CanSweep, ChangeActive, Activate, CoreStep,
         SessionSpec.Step;
    match e {
      case Collected(cookie, opening) => OpenKeepsCore(m, m.leaders[cookie].session, opening);
      case CloseCalled(cookie, uid, pid, closing) =>
        if Owns(m, cookie, uid, pid) && m.leaders[cookie].session in m.sessions {
          CloseKeepsLeaders(m, m.leaders[cookie].session, closing);
        }
      case PeerGone(service, order, closings) =>
        SweepKeepsLeaders(WithoutLeaders(m, order), m.leaders, order, closings);
      case _ =>
    }
  }

  lemma OpenKeepsCore(m: ManagerState, ssid: Id, o: Opening)
    requires CanOpen(m, ssid, o)
    ensures OpenSession(m, ssid, o).core == m.core
  {
    hide AllIdle, IdleBlocked;
    OpenTablesHint(m, ssid, o);
  }

  /** The part of a run that concerns locks and system actions. */
  function CoreEvents(es: seq<ManagerEvent>): seq<CoreEvent> {
    if es == [] then []
    else
      var n := |es| - 1;
      CoreEvents(es[..n]) + (if es[n].ToCore? then [es[n].core] else [])
  }

  /** It is a run of theirs, whatever else happens in between: all that is proved of those
      runs holds of the daemon's. */
  lemma {:induction false} CoreRunsByItself(platform: Console.Platform, vt: nat, es: seq<ManagerEvent>)
    requires Legal(Booted(platform, vt), es)
    ensures CoreLegal(CoreEvents(es)) && CoreRun(CoreEvents(es)) == Run(Booted(platform, vt), es).core
    decreases |es|
  {
    hide CanHappen, Next, CoreStep, CoreEnabled;
    if es != [] {
      var m, before, e := Booted(platform, vt), es[..|es| - 1], es[|es| - 1];
      CoreRunsByItself(platform, vt, before);
      CoreUntouched(Run(m, before), e);
      if e.ToCore? {
        CoreCan(Run(m, before), e);
        assert (CoreEvents(before) + [e.core])[..|CoreEvents(before)|] == CoreEvents(before);
      } else {
        assert CoreEvents(es) == CoreEvents(before);
      }
    }
  }

  lemma CoreCan(m: ManagerState, e: ManagerEvent)
    requires CanHappen(m, e) && e.ToCore?
    ensures CoreEnabled(m.core, e.core)
  {
  }

  // ----- all together

  /** What every run of the daemon keeps, from its start, each part under no hypotheses but
      its own. */
  lemma EveryRunIsInOrder(platform: Console.Platform, vt: nat, es: seq<ManagerEvent>)
    requires vt < UINT_RANGE && Legal(Booted(platform, vt), es)
    ensures var m := Booted(platform, vt); var r := Run(m, es);
      && HintOk(r) && (NeverBlocked(m, es) ==> HintExact(r))
      && ActionInv(r.core.actions) && InhibitSpec.Wf(r.core.locks) && AnnouncesStatus(r.core.locks)
      && (AllHeld(Start(), LockEvents(CoreEvents(es))) ==> Covered(r.core.locks))
      && (NeverWraps(m, es) ==> NeverReuses(m, es))
      && (TablesThroughout(m, es) <==> NeverReuses(m, es))
      && (NeverReuses(m, es) ==>
            && Tables(r) && CacheRight(r) && (DirsThroughout(m, es) <==> DirsGiven(m, es))
            && (SafeThroughout(m, es) <==> NeverStrays(m, es)))
  {
    hide Tables, AllSafe, CacheRight, Dirs, HintOk, HintExact, ActionInv, AllIssued, InhibitSpec.Wf, Covered,
         AnnouncesStatus, AllHeld, Legal, Run, NeverBlocked, NeverWraps, NeverReuses, TablesThroughout, NeverStrays,
         SafeThroughout, DirsThroughout, DirsGiven, CoreRun, CoreLegal, CoreEvents, LockEvents;
    var m := Booted(platform, vt);
    BootedIsRight(platform, vt);
    EveryRunKeepsHint(m, es);
    if NeverBlocked(m, es) {
      HintIsExact(m, es);
    }
    CoreRunsByItself(platform, vt, es);
    EveryRunKeepsActions(CoreEvents(es));
    EveryRunKeepsLocks(CoreEvents(es));
    if NeverWraps(m, es) {
      NoReuseBeforeWrap(m, es);
    }
    TablesAgreeExactly(m, es);
    if NeverReuses(m, es) {
      RunKeepsTables(m, es);
      SeatCacheFollowsLookup(m, es);
      RunIsSafeExactly(m, es);
      DirsRightExactly(m, es);
    }
  }

  lemma EveryRunKeepsLocks(es: seq<CoreEvent>)
    requires CoreLegal(es)
    ensures InhibitSpec.Wf(CoreRun(es).locks) && AnnouncesStatus(CoreRun(es).locks)
    ensures AllHeld(Start(), LockEvents(es)) ==> Covered(CoreRun(es).locks)
  {
    hide InhibitSpec.Wf, AnnouncesStatus, Covered, AllHeld, CoreRun, CoreLegal;
    LocksRunByThemselves(es);
    StartIsExact();
    EveryRunIsWf(Start(), LockEvents(es));
    EveryRunAnnouncesStatus(LockEvents(es));
    if AllHeld(Start(), LockEvents(es)) {
      EveryRunIsCovered(LockEvents(es));
    }
  }
}
