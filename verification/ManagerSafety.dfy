/** Exclusivity of every seat under the manager's events: which of them keep each seat safe,
    and exactly when an activation does. */
module ManagerSafety {
  import opened Text
  import opened Console
  import opened SessionSpec
  import opened SeatSpec
  import opened ManagerSpec

  ghost predicate SafeAt(m: ManagerState, sid: Id)
    requires sid in m.seats
  {
    Safe(WorldOf(m, sid))
  }

  ghost predicate AllSafe(m: ManagerState) {
    m.vt < UINT_RANGE && forall sid :: sid in m.seats ==> SafeAt(m, sid)
  }

  // ----- frames

  /** Equal but for what the manager and the seat record on it. */
  predicate SameProtocol(s: SessionState, t: SessionState) { t == s.(reg := t.reg) }

  /** A seat whose sessions have not changed stays safe. Only a static seat follows the VT. */
  lemma SafeFrame(w: World, r: World)
    requires Safe(w) && r.seat == w.seat && r.platform == w.platform
    requires r.vt == w.vt || w.seat.kind == Dynamic
    requires w.seat.members <= r.store.Keys
    requires forall id :: id in w.seat.members ==> SameProtocol(w.store[id], r.store[id])
    ensures Safe(r)
  {
    LookupReadsInfo(w.store, r.store, w.seat.members, DeviceAt(w, w.vt), w.seat.active);
  }

  /** Seats share no session. */
  lemma Disjoint(m: ManagerState, a: Id, b: Id)
    requires Partition(m) && a in m.seats && b in m.seats && a != b
    ensures m.seats[a].members !! m.seats[b].members
  {
    assert SeatOk(m, a) && SeatOk(m, b);
  }

  lemma MaybeUpdateTouches(w: World, ids: set<Id>, found: Option<Id>, kernel: Kernel)
    requires w.seat.members <= ids && ids <= w.store.Keys && LooksUp(w, w.vt, found)
    requires w.seat.active.Some? ==> w.seat.kind == Static && w.seat.active.value in ids
    ensures w.seat.kind == Static && found.Some? ==> found.value in w.store
    ensures var r := MaybeUpdate(w, found, kernel);
      && r.platform == w.platform && r.vt == w.vt && r.store.Keys == w.store.Keys
      && forall id :: id in w.store && id !in ids ==> r.store[id] == w.store[id]
  {
    hide ChangeActive, Candidates;
    if w.seat.kind == Static {
      FoundInMembers(w, found);
      ChangeActiveFrame(w, found, kernel);
    }
  }

  // ----- opening

  lemma SafeIsWf(w: World)
    requires Safe(w)
    ensures w.seat.members <= w.store.Keys
    ensures w.seat.active.Some? ==> w.seat.kind == Static && w.seat.active.value in w.seat.members
  {
  }

  function WorldBefore(m: ManagerState, o: Opening): World {
    World(m.platform, m.vt, SeatFor(m, o), m.sessions)
  }

  lemma ChosenSeatIsSafe(m: ManagerState, o: Opening)
    requires Partition(m) && AllSafe(m)
    ensures Safe(WorldBefore(m, o))
  {
    hide GoesToSeat0, Safe, Partition;
    if GoesToSeat0(m, o.info, o.saysLocal) {
      assert SafeAt(m, SEAT0) by { assert SEAT0 in m.seats by { HasSeat0(m); } }
    } else {
      EmptySeatIsSafe(WorldBefore(m, o));
    }
  }

  lemma EmptySeatIsSafe(w: World)
    requires w.seat == SeatState(Dynamic, {}, None)
    ensures Safe(w)
  {
  }

  lemma OpenedIsFresh(m: ManagerState, o: Opening)
    ensures JustOpened(Opened(m, o))
  {
  }

  lemma OpenOnSeat(m: ManagerState, ssid: Id, o: Opening) returns (w1: World)
    requires Partition(m) && CanOpen(m, ssid, o) && ssid !in m.sessions && AllSafe(m)
    ensures w1 == MaybeUpdate(Attached(m, ssid, o), o.found, o.kernel) && Safe(w1)
    ensures w1.platform == m.platform && w1.vt == m.vt && w1.store.Keys == m.sessions.Keys + {ssid}
    ensures forall id :: id in m.sessions && id !in SeatFor(m, o).members ==> w1.store[id] == m.sessions[id]
  {
    hide MaybeUpdate, GoesToSeat0, Partition, SeatIdFor, SeatFor, Opened, Safe, LooksUp, AllSafe, JustOpened, IsPeer,
         Ids.IsFresh;
    ChosenSeatIsSafe(m, o);
    OpenedIsFresh(m, o);
    var w := WorldBefore(m, o);
    SafeIsWf(w);
    var e := Added(ssid, Opened(m, o), SeatIdFor(m, o), o.found, o.kernel);
    AddKeepsSafe(w, e);
    var a := Attached(m, ssid, o);
    MaybeUpdateTouches(a, a.seat.members, o.found, o.kernel);
    w1 := MaybeUpdate(a, o.found, o.kernel);
  }

  /** Opening a session keeps every seat safe, whatever consoles the session names. */
  lemma OpenKeepsSafe(m: ManagerState, ssid: Id, o: Opening)
    requires Partition(m) && CanOpen(m, ssid, o) && ssid !in m.sessions && AllSafe(m)
    ensures AllSafe(OpenSession(m, ssid, o))
  {
    hide MaybeUpdate, Attached, GoesToSeat0, UpdateIdle, Safe, Partition, CanOpen, SeatIdFor, SeatFor, MakesDir;
    var w1 := OpenOnSeat(m, ssid, o);
    UpdateIdleFrame(OpenTables(m, ssid, o));
    var r := OpenSession(m, ssid, o);
    var sid := SeatIdFor(m, o);
    assert r.sessions == SetLocal(w1.store, ssid, o.isLocal) && r.seats == m.seats[sid := w1.seat];
    forall other | other in r.seats ensures SafeAt(r, other) {
      if other == sid {
        SafeIsWf(w1);
        SafeFrame(w1, WorldOf(r, sid));
      } else {
        assert SafeAt(m, other);
        SeatForDisjoint(m, o, other);
        SafeIsWf(WorldOf(m, other));
        OtherSeatSafe(m, r, other, SeatFor(m, o).members);
      }
    }
  }

  lemma SeatForDisjoint(m: ManagerState, o: Opening, other: Id)
    requires Partition(m) && other in m.seats && other != SeatIdFor(m, o)
    ensures m.seats[other].members !! SeatFor(m, o).members
  {
    hide GoesToSeat0;
    if GoesToSeat0(m, o.info, o.saysLocal) {
      Disjoint(m, SEAT0, other);
    }
  }

  /** A seat none of whose sessions is among those touched. */
  lemma OtherSeatSafe(m: ManagerState, r: ManagerState, sid: Id, touched: set<Id>)
    requires sid in m.seats && sid in r.seats && r.seats[sid] == m.seats[sid] && SafeAt(m, sid)
    requires r.platform == m.platform && (r.vt == m.vt || m.seats[sid].kind == Dynamic)
    requires m.seats[sid].members <= m.sessions.Keys && m.sessions.Keys - touched <= r.sessions.Keys
    requires m.seats[sid].members !! touched
    requires forall id :: id in m.sessions && id !in touched ==> SameProtocol(m.sessions[id], r.sessions[id])
    ensures SafeAt(r, sid)
  {
    hide Safe;
    SafeFrame(WorldOf(m, sid), WorldOf(r, sid));
  }

  // ----- closing

  lemma CloseOnSeat(m: ManagerState, ssid: Id, c: Closing) returns (sid: Id, w1: World)
    requires Partition(m) && CanClose(m, ssid, c) && AllSafe(m)
    ensures m.sessions[ssid].reg.seatId == Some(sid) && sid in m.seats && ssid in m.seats[sid].members
    ensures w1 == MaybeUpdate(Detach(WorldOf(m, sid), ssid), c.found, c.kernel) && Safe(w1)
    ensures w1.seat.members == m.seats[sid].members - {ssid}
    ensures w1.platform == m.platform && w1.vt == m.vt && w1.store.Keys == m.sessions.Keys
    ensures forall id :: id in m.sessions && id !in m.seats[sid].members ==> w1.store[id] == m.sessions[id]
  {
    hide MaybeUpdate, Safe, LooksUp, IsPeer;
    assert Placed(m, ssid);
    sid := m.sessions[ssid].reg.seatId.value;
    var w := WorldOf(m, sid);
    assert SafeAt(m, sid);
    SafeIsWf(w);
    RemoveKeepsSafe(w, Removed(ssid, c.found, c.kernel));
    var d := Detach(w, ssid);
    MaybeUpdateTouches(d, w.seat.members, c.found, c.kernel);
    DetachedMembers(d, c.found, c.kernel);
    w1 := MaybeUpdate(d, c.found, c.kernel);
  }

  lemma DetachedMembers(w: World, found: Option<Id>, kernel: Kernel)
    requires w.seat.kind == Static && w.seat.active.Some? ==> w.seat.active.value in w.store
    requires w.seat.kind == Static && found.Some? ==> found.value in w.store
    ensures MaybeUpdate(w, found, kernel).seat.members == w.seat.members
  {
    hide SetActive;
  }

  /** Closing a session keeps every seat left safe. */
  lemma CloseKeepsSafe(m: ManagerState, ssid: Id, c: Closing)
    requires Partition(m) && CanClose(m, ssid, c) && AllSafe(m)
    ensures AllSafe(CloseSession(m, ssid, c))
  {
    hide MaybeUpdate, UpdateIdle, Safe, Partition, CanClose;
    var sid, w1 := CloseOnSeat(m, ssid, c);
    UpdateIdleFrame(CloseTables(m, ssid, c));
    var r := CloseSession(m, ssid, c);
    assert r.sessions == w1.store - {ssid};
    forall other | other in r.seats ensures SafeAt(r, other) {
      if other == sid {
        SafeIsWf(w1);
        SafeFrame(w1, WorldOf(r, sid));
      } else {
        assert SafeAt(m, other);
        Disjoint(m, sid, other);
        SafeIsWf(WorldOf(m, other));
        OtherSeatSafe(m, r, other, m.seats[sid].members);
      }
    }
  }

  lemma {:induction false} SweepKeepsSafe(m: ManagerState, leaders: map<Cookie, Leader>, order: seq<Cookie>,
      closings: seq<Closing>)
    requires Partition(m) && (forall c :: c in order ==> c in leaders) && CanSweep(m, leaders, order, closings)
    requires AllSafe(m)
    ensures AllSafe(Sweep(m, leaders, order, closings))
    decreases |order|
  {
    hide CloseSession, CanClose, Partition, AllSafe;
    if order != [] {
      var n := |order| - 1;
      assert order[n] in order && forall c :: c in order[..n] ==> c in order;
      SweepKeepsSafe(m, leaders, order[..n], closings[..n]);
      SweepShape(m, leaders, order[..n], closings[..n]);
      var before := Sweep(m, leaders, order[..n], closings[..n]);
      if leaders[order[n]].session in before.sessions {
        CloseKeepsSafe(before, leaders[order[n]].session, closings[n]);
      }
    }
  }

  // ----- the other events

  lemma SameSeatsSafe(m: ManagerState, r: ManagerState)
    requires AllSafe(m) && r.sessions == m.sessions && r.seats == m.seats && r.vt == m.vt && r.platform == m.platform
    ensures AllSafe(r)
  {
    hide Safe;
    forall sid | sid in r.seats ensures SafeAt(r, sid) {
      assert SafeAt(m, sid) && WorldOf(r, sid) == WorldOf(m, sid);
    }
  }

  lemma SessionEventKeepsSafe(m: ManagerState, e: ManagerEvent)
    requires Partition(m) && AllSafe(m) && e.ToSession? && CanHappen(m, e)
    ensures AllSafe(Next(m, e))
  {
    hide SessionSpec.Step, Safe, AllIdle, IdleBlocked, Partition, LooksUp;
    var r := Next(m, e);
    var s := SessionSpec.Step(m.sessions[e.id], e.event);
    assert r.sessions == m.sessions[e.id := s] && r.seats == m.seats && r.vt == m.vt && r.platform == m.platform;
    forall sid | sid in r.seats ensures SafeAt(r, sid) {
      assert SafeAt(m, sid);
      SafeIsWf(WorldOf(m, sid));
      if e.id in m.seats[sid].members {
        OnSessionKeepsSafe(WorldOf(m, sid), OnSession(e.id, e.event));
      } else {
        OtherSeatSafe(m, r, sid, {e.id});
      }
    }
  }

  lemma VtKeepsSafe(m: ManagerState, e: ManagerEvent)
    requires Partition(m) && AllSafe(m) && e.VtSwitched? && CanHappen(m, e)
    ensures AllSafe(Next(m, e))
  {
    hide ChangeActive, Safe, LooksUp, Partition;
    var r := Next(m, e);
    var w := WorldOf(m, SEAT0);
    assert SafeAt(m, SEAT0);
    SafeIsWf(w);
    VtFrame(w.(vt := e.num), e.found, e.kernel);
    LooksUpAt(w, e.num, e.found);
    VtChangeKeepsSafe(w, e.num, e.found, e.kernel);
    forall sid | sid in r.seats ensures SafeAt(r, sid) {
      if sid != SEAT0 {
        assert SafeAt(m, sid);
        SafeIsWf(WorldOf(m, sid));
        Disjoint(m, SEAT0, sid);
        KindIs(m, sid);
        OtherSeatSafe(m, r, sid, w.seat.members);
      }
    }
  }

  lemma VtFrame(w: World, found: Option<Id>, kernel: Kernel)
    requires w.seat.members <= w.store.Keys && w.seat.kind == Static && LooksUp(w, w.vt, found)
    requires w.seat.active.Some? ==> w.seat.active.value in w.seat.members
    ensures found.Some? ==> found.value in w.store
    ensures var r := ChangeActive(w, found, kernel);
      && r.platform == w.platform && r.vt == w.vt && r.store.Keys == w.store.Keys
      && forall id :: id in w.store && id !in w.seat.members ==> r.store[id] == w.store[id]
  {
    hide ChangeActive, Candidates;
    FoundInMembers(w, found);
    ChangeActiveFrame(w, found, kernel);
  }

  lemma LooksUpAt(w: World, num: nat, found: Option<Id>)
    requires w.seat.members <= w.store.Keys
    ensures LooksUp(w.(vt := num), num, found) == LooksUp(w, num, found)
  {
  }

  // ----- activation, the manager not asking whose session it is

  ghost predicate InvIn(store: map<Id, SessionState>) { forall x :: x in store ==> Inv(store[x]) }

  /** r's sessions, with the same fixed fields, are inactive where w's are, except for id. */
  ghost predicate ActiveOnlyBut(r: map<Id, SessionState>, w: map<Id, SessionState>, id: Id) {
    r.Keys == w.Keys && forall x :: x in w ==> r[x].info == w[x].info && (x != id && r[x].active ==> w[x].active)
  }

  lemma YieldTouches(w: World, id: Id, kernel: Kernel)
    requires Wf(w) && id in w.store && InvIn(w.store)
    ensures var r := Yield(w, id, kernel);
      && InvIn(r.store) && ActiveOnlyBut(r.store, w.store, id) && (r.store[id].active ==> w.store[id].active)
      && r.seat == w.seat && r.vt == w.vt && r.platform == w.platform
  {
    hide Inv;
    if w.seat.active.Some? {
      SetActiveKeepsInv(w.store[w.seat.active.value], false, true, kernel);
      SetActiveFrame(w.store[w.seat.active.value], false, kernel);
      ForcedOff(w.store[w.seat.active.value], kernel);
    }
  }

  lemma ForcedOff(s: SessionState, kernel: Kernel)
    ensures !SetActive(s, false, true, kernel).active
  {
  }

  /** No session but the one named is activated; the seat's cached session may be
      deactivated. */
  lemma ActivateTouches(w: World, id: Id, switched: bool, kernel: Kernel)
    requires Wf(w) && id in w.store && InvIn(w.store)
    ensures var r := Activate(w, id, switched, kernel).0;
      && InvIn(r.store) && ActiveOnlyBut(r.store, w.store, id)
      && r.seat == w.seat && r.vt == w.vt && r.platform == w.platform
      && (r.store[id].active ==> w.store[id].active || w.seat.active == Some(id) || StrayActivation(w, id))
      && (StrayActivation(w, id) ==> r.store[id].active)
  {
    hide Inv, SetActive, Preferred, Num, Yield, InvIn, ActiveOnlyBut;
    YieldTouches(w, id, kernel);
    var w1 := Yield(w, id, kernel);
    SameIsActiveOnlyBut(w, id);
    assert id in w1.store by { assert ActiveOnlyBut(w1.store, w.store, id); SameKeys(w1.store, w.store, id); }
    ResumeMakesActive(w1.store[id], kernel) by { InvOf(w1.store, id); }
    PutTouches(w, w1, id, SetActive(w1.store[id], true, true, kernel));
  }

  lemma SameIsActiveOnlyBut(w: World, id: Id)
    ensures ActiveOnlyBut(w.store, w.store, id)
  {
  }

  lemma SameKeys(r: map<Id, SessionState>, w: map<Id, SessionState>, id: Id)
    requires ActiveOnlyBut(r, w, id)
    ensures r.Keys == w.Keys
  {
  }

  lemma InvOf(store: map<Id, SessionState>, id: Id)
    requires InvIn(store) && id in store
    ensures Inv(store[id])
  {
  }

  lemma PutTouches(w: World, w1: World, id: Id, s: SessionState)
    requires ActiveOnlyBut(w1.store, w.store, id) && InvIn(w1.store) && id in w1.store
    requires Inv(s) && s.info == w1.store[id].info
    ensures InvIn(Put(w1, id, s).store) && ActiveOnlyBut(Put(w1, id, s).store, w.store, id)
  {
    hide Inv;
  }

  lemma StillSafe(w: World, r: World)
    requires Safe(w) && r.seat == w.seat && r.vt == w.vt && r.platform == w.platform
    requires InvIn(r.store) && w.store.Keys == r.store.Keys
    requires forall x :: x in w.seat.members ==> r.store[x].info == w.store[x].info
    ensures Safe(r) <==> Exclusive(r)
  {
    LookupReadsInfo(w.store, r.store, w.seat.members, DeviceAt(w, w.vt), w.seat.active);
  }

  lemma EverySessionInv(m: ManagerState)
    requires Partition(m) && AllSafe(m)
    ensures InvIn(m.sessions)
  {
    hide Inv;
    forall id | id in m.sessions ensures Inv(m.sessions[id]) {
      assert Placed(m, id);
      assert SafeAt(m, m.sessions[id].reg.seatId.value);
    }
  }

  /** An activation keeps every seat safe exactly when it does not take the branch that
      answers "already active" for a session the seat named has not cached: another session
      of that seat, or one attached to another seat. */
  lemma ActivationIsSafeExactly(m: ManagerState, e: ManagerEvent)
    requires Partition(m) && AllSafe(m) && e.ActivateCalled? && CanHappen(m, e) && e.seatId in m.seats
    ensures AllSafe(Next(m, e)) <==> !StrayActivation(WorldOf(m, e.seatId), e.id)
  {
    hide Activate, Safe, StrayActivation, Partition, InvIn;
    var w := WorldOf(m, e.seatId);
    var r := Next(m, e);
    EverySessionInv(m);
    PartitionWf(m);
    ActivateTouches(w, e.id, e.switched, e.kernel);
    assert r.seats == m.seats;
    forall sid | sid in m.seats
      ensures Wf(WorldOf(r, sid)) && (SafeAt(r, sid) <==> Exclusive(WorldOf(r, sid)))
    {
      assert SafeAt(m, sid) && Wf(WorldOf(m, sid));
      StillSafe(WorldOf(m, sid), WorldOf(r, sid));
    }
    if StrayActivation(w, e.id) {
      StrayBreaks(m, r, e.seatId, e.id);
    } else {
      forall sid | sid in m.seats ensures SafeAt(r, sid) {
        ExclusiveStays(m, r, e.seatId, e.id, sid);
      }
    }
  }

  lemma ExclusiveStays(m: ManagerState, r: ManagerState, named: Id, id: Id, sid: Id)
    requires Partition(m) && AllSafe(m) && sid in m.seats && named in m.seats && id in m.sessions
    requires r.seats == m.seats && ActiveOnlyBut(r.sessions, m.sessions, id) && Wf(WorldOf(r, sid))
    requires r.sessions[id].active ==> m.sessions[id].active || m.seats[named].active == Some(id)
    ensures Exclusive(WorldOf(r, sid))
  {
    assert SafeAt(m, sid) && SafeAt(m, named);
    if sid != named {
      Disjoint(m, sid, named);
    }
  }

  lemma StrayBreaks(m: ManagerState, r: ManagerState, named: Id, id: Id)
    requires Partition(m) && named in m.seats && id in m.sessions && StrayActivation(WorldOf(m, named), id)
    requires r.seats == m.seats && r.sessions.Keys == m.sessions.Keys && r.sessions[id].active
    ensures exists sid :: sid in r.seats && Wf(WorldOf(r, sid)) && !Exclusive(WorldOf(r, sid))
  {
    assert Placed(m, id);
    var own := m.sessions[id].reg.seatId.value;
    assert SeatOk(m, named) && SeatOk(m, own);
    assert WorldOf(r, own).seat.active != Some(id);
    assert Wf(WorldOf(r, own)) && !Exclusive(WorldOf(r, own));
  }

  lemma DynamicNeverStrays(w: World, id: Id)
    requires id in w.store && w.seat.kind == Dynamic
    ensures !StrayActivation(w, id)
  {
  }

  // ----- every event

  /** The activation takes the branch that marks a session active without caching it. */
  predicate Strays(m: ManagerState, e: ManagerEvent) {
    && e.ActivateCalled? && e.seatId in m.seats && e.id in m.sessions
    && StrayActivation(WorldOf(m, e.seatId), e.id)
  }

  /** Every event keeps every seat safe, unless it is an activation that takes that branch,
      and then it does not. */
  lemma NextKeepsSafe(m: ManagerState, e: ManagerEvent)
    requires Tables(m) && CanHappen(m, e) && AllSafe(m)
    ensures AllSafe(Next(m, e)) <==> !Strays(m, e)
  {
    hide OpenSession, CanOpen, CloseSession, CanClose, Sweep, CanSweep, AllSafe, Partition,
         ChangeActive, Activate, ActionSpec.CoreStep, SessionSpec.Step, LooksUp, StrayActivation;
    var r := Next(m, e);
    match e {
      case Collected(cookie, opening) =>
        assert LeaderOk(m, cookie);
        OpenKeepsSafe(m, m.leaders[cookie].session, opening);
        SameSeatsSafe(OpenSession(m, m.leaders[cookie].session, opening), r);
      case CloseCalled(cookie, uid, pid, closing) =>
        if Owns(m, cookie, uid, pid) && m.leaders[cookie].session in m.sessions {
          CloseKeepsSafe(m, m.leaders[cookie].session, closing);
          SameSeatsSafe(CloseSession(m, m.leaders[cookie].session, closing), r);
        }
      case PeerGone(service, order, closings) =>
        var m1 := WithoutLeaders(m, order);
        SamePartition(m, m1);
        SameSeatsSafe(m, m1);
        SweepKeepsSafe(m1, m.leaders, order, closings);
      case ToSession(_, _) => SessionEventKeepsSafe(m, e);
      case VtSwitched(_, _, _) => VtKeepsSafe(m, e);
      case ActivateCalled(_, seatId, _, _) =>
        if seatId in m.seats {
          ActivationIsSafeExactly(m, e);
        }
      case _ => SameSeatsSafe(m, r);
    }
  }

  /** A session is activated on its own seat and, if that is seat0, while the sessions there
      name distinct consoles. */
  ghost predicate ActivatedProperly(m: ManagerState, e: ManagerEvent) {
    e.ActivateCalled? && e.id in m.sessions ==>
      && m.sessions[e.id].reg.seatId == Some(e.seatId)
      && (e.seatId == SEAT0 ==>
            SEAT0 in m.seats && m.seats[SEAT0].members <= m.sessions.Keys && DistinctConsoles(WorldOf(m, SEAT0)))
  }

  /** Such an activation never takes that branch. */
  lemma ProperNeverStrays(m: ManagerState, e: ManagerEvent)
    requires Partition(m) && AllSafe(m) && ActivatedProperly(m, e)
    ensures !Strays(m, e)
  {
    hide Safe, StrayActivation, Partition, DistinctConsoles, Faithful;
    if e.ActivateCalled? && e.id in m.sessions {
      assert e.seatId in m.seats && e.id in m.seats[e.seatId].members by { IsPlaced(m, e.id); }
      var w := WorldOf(m, e.seatId);
      assert SafeAt(m, e.seatId);
      KindIs(m, e.seatId);
      if e.seatId == SEAT0 {
        SafeIsWf(w);
        DistinctConsolesAreFaithful(w);
        FaithfulNeverStrays(w, e.id);
      } else {
        DynamicNeverStrays(w, e.id);
      }
    }
  }

  // ----- the cache of seat0 and the lookup

  /** What seat0 has cached is what a lookup for the current VT finds. */
  ghost predicate CacheRight(m: ManagerState) {
    SEAT0 in m.seats && Wf(WorldOf(m, SEAT0)) && Cached(WorldOf(m, SEAT0))
  }

  /** A seat that has not changed, its sessions with the same fixed fields. */
  lemma CacheFrame(w: World, r: World)
    requires Wf(w) && Cached(w) && r.seat == w.seat && r.platform == w.platform && r.vt == w.vt
    requires w.seat.members <= r.store.Keys
    requires forall id :: id in w.seat.members ==> r.store[id].info == w.store[id].info
    ensures Wf(r) && Cached(r)
  {
    hide IsLookup;
    LookupReadsInfo(w.store, r.store, w.seat.members, DeviceAt(w, w.vt), w.seat.active);
  }

  lemma SameSeat0(m: ManagerState, r: ManagerState)
    requires CacheRight(m) && SEAT0 in r.seats && r.seats[SEAT0] == m.seats[SEAT0]
    requires r.platform == m.platform && r.vt == m.vt && m.seats[SEAT0].members <= r.sessions.Keys
    requires forall id :: id in m.seats[SEAT0].members ==> r.sessions[id].info == m.sessions[id].info
    ensures CacheRight(r)
  {
    hide Cached;
    CacheFrame(WorldOf(m, SEAT0), WorldOf(r, SEAT0));
  }

  lemma OpenKeepsCache(m: ManagerState, ssid: Id, o: Opening)
    requires Partition(m) && CanOpen(m, ssid, o) && ssid !in m.sessions && CacheRight(m)
    ensures CacheRight(OpenSession(m, ssid, o))
  {
    hide MaybeUpdate, GoesToSeat0, UpdateIdle, Partition, Cached, LooksUp, IsPeer, Opened, MakesDir, SameRegistration;
    UpdateIdleFrame(OpenTables(m, ssid, o));
    if GoesToSeat0(m, o.info, o.saysLocal) {
      var w, e := WorldOf(m, SEAT0), Added(ssid, Opened(m, o), SEAT0, o.found, o.kernel);
      OpenedIsFresh(m, o);
      StepKeepsCached(w, e);
      LookingActivity(w, e);
      CacheFrame(SeatSpec.Step(w, e), WorldOf(OpenSession(m, ssid, o), SEAT0));
    } else {
      var sid, seat := OpenShape(m, ssid, o);
      NewSeat(m, o);
      InfoKept(m.sessions, OpenSession(m, ssid, o).sessions, ssid);
      SameSeat0(m, OpenSession(m, ssid, o));
    }
  }

  lemma NewSeat(m: ManagerState, o: Opening)
    requires Partition(m) && !GoesToSeat0(m, o.info, o.saysLocal) && m.seatSerial < Ids.SIGN_BIT
    requires Ids.IsFresh(SEAT_PREFIX, 0, m.seatSerial, m.seats.Keys, o.seatId, o.seatNext)
    ensures SEAT0 in m.seats && SeatIdFor(m, o) != SEAT0
  {
    hide GoesToSeat0;
  }

  lemma InfoKept(before: map<Id, SessionState>, after: map<Id, SessionState>, ssid: Id)
    requires ssid !in before && after.Keys == before.Keys + {ssid} && SameRegistration(after - {ssid}, before)
    ensures forall id :: id in before ==> id in after && after[id].info == before[id].info
  {
    StillListed(before, after, ssid);
  }

  lemma CloseKeepsCache(m: ManagerState, ssid: Id, c: Closing)
    requires Partition(m) && CanClose(m, ssid, c) && CacheRight(m)
    ensures CacheRight(CloseSession(m, ssid, c))
  {
    hide MaybeUpdate, UpdateIdle, Partition, Cached, LooksUp, IsPeer, SameRegistration, UnchangedOff;
    var sid, seat := CloseShape(m, ssid, c);
    var r := CloseSession(m, ssid, c);
    HasSeat0(m);
    if sid == SEAT0 {
      UpdateIdleFrame(CloseTables(m, ssid, c));
      var w, e := WorldOf(m, SEAT0), Removed(ssid, c.found, c.kernel);
      StepKeepsCached(w, e);
      LookingActivity(w, e);
      CacheFrame(SeatSpec.Step(w, e), WorldOf(r, SEAT0));
    } else {
      KindIs(m, sid);
      Disjoint(m, SEAT0, sid);
      InfoLeft(m.sessions, r.sessions, ssid);
      SameSeat0(m, r);
    }
  }

  lemma InfoLeft(before: map<Id, SessionState>, after: map<Id, SessionState>, ssid: Id)
    requires SameRegistration(after, before - {ssid})
    ensures forall id :: id in before && id != ssid ==> id in after && after[id].info == before[id].info
  {
    assert forall id :: id in before && id != ssid ==> id in before - {ssid};
  }

  lemma {:induction false} SweepKeepsCache(m: ManagerState, leaders: map<Cookie, Leader>, order: seq<Cookie>,
      closings: seq<Closing>)
    requires Partition(m) && (forall c :: c in order ==> c in leaders) && CanSweep(m, leaders, order, closings)
    requires CacheRight(m)
    ensures CacheRight(Sweep(m, leaders, order, closings))
    decreases |order|
  {
    hide CloseSession, CanClose, Partition, CacheRight;
    if order != [] {
      var n := |order| - 1;
      assert order[n] in order && forall c :: c in order[..n] ==> c in order;
      SweepKeepsCache(m, leaders, order[..n], closings[..n]);
      SweepShape(m, leaders, order[..n], closings[..n]);
      var before := Sweep(m, leaders, order[..n], closings[..n]);
      if leaders[order[n]].session in before.sessions {
        CloseKeepsCache(before, leaders[order[n]].session, closings[n]);
      }
    }
  }

  lemma VtKeepsCache(m: ManagerState, e: ManagerEvent)
    requires CacheRight(m) && e.VtSwitched? && CanHappen(m, e)
    ensures CacheRight(Next(m, e))
  {
    hide ChangeActive, Cached, LooksUp;
    var w := WorldOf(m, SEAT0);
    LooksUpAt(w, e.num, e.found);
    StepKeepsCached(w, VtChanged(e.num, e.found, e.kernel));
    LookingActivity(w, VtChanged(e.num, e.found, e.kernel));
    assert WorldOf(Next(m, e), SEAT0) == SeatSpec.Step(w, VtChanged(e.num, e.found, e.kernel));
  }

  lemma ActivateKeepsCache(m: ManagerState, e: ManagerEvent)
    requires CacheRight(m) && e.ActivateCalled? && CanHappen(m, e)
    ensures CacheRight(Next(m, e))
  {
    hide Activate, Cached;
    ActivateKeepsListed(m, e);
    if e.seatId in m.seats {
      ActivateKeepsRegistration(WorldOf(m, e.seatId), e.id, e.switched, e.kernel);
    }
    SameSeat0(m, Next(m, e));
  }

  /** Every event keeps the cache right, stray activations too. */
  lemma NextKeepsCache(m: ManagerState, e: ManagerEvent)
    requires Tables(m) && CanHappen(m, e) && CacheRight(m)
    ensures CacheRight(Next(m, e))
  {
    hide OpenSession, CanOpen, CloseSession, CanClose, Sweep, CanSweep, CacheRight, Partition,
         ChangeActive, Activate, ActionSpec.CoreStep, SessionSpec.Step, LooksUp;
    var r := Next(m, e);
    match e {
      case Collected(cookie, opening) =>
        assert LeaderOk(m, cookie);
        OpenKeepsCache(m, m.leaders[cookie].session, opening);
        SameCache(OpenSession(m, m.leaders[cookie].session, opening), r);
      case CloseCalled(cookie, uid, pid, closing) =>
        if Owns(m, cookie, uid, pid) && m.leaders[cookie].session in m.sessions {
          CloseKeepsCache(m, m.leaders[cookie].session, closing);
          SameCache(CloseSession(m, m.leaders[cookie].session, closing), r);
        }
      case PeerGone(service, order, closings) =>
        var m1 := WithoutLeaders(m, order);
        SamePartition(m, m1);
        SameCache(m, m1);
        SweepKeepsCache(m1, m.leaders, order, closings);
      case ToSession(_, _) => SessionEventKeepsCache(m, e);
      case VtSwitched(_, _, _) => VtKeepsCache(m, e);
      case ActivateCalled(_, _, _, _) => ActivateKeepsCache(m, e);
      case _ => SameCache(m, r);
    }
  }

  lemma SameCache(m: ManagerState, r: ManagerState)
    requires CacheRight(m) && r.sessions == m.sessions && r.seats == m.seats && r.vt == m.vt && r.platform == m.platform
    ensures CacheRight(r)
  {
    SameSeat0(m, r);
  }

  lemma SessionEventKeepsCache(m: ManagerState, e: ManagerEvent)
    requires CacheRight(m) && e.ToSession? && CanHappen(m, e)
    ensures CacheRight(Next(m, e))
  {
    hide SessionSpec.Step, AllIdle, IdleBlocked, Cached;
    StepFrame(m.sessions[e.id], e.event);
    SameSeat0(m, Next(m, e));
  }

  lemma NobodyActiveIsSafe(w: World)
    requires Wf(w) && w.seat.active.None? && AllInv(w.store, w.seat.members)
    requires w.seat.kind == Static ==> w.seat.members == {}
    requires forall id :: id in w.seat.members ==> !w.store[id].active
    ensures Safe(w)
  {
  }
}
