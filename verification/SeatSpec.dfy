/** What ck-seat.c does to a seat and the sessions it holds, on values, and the promise
    of README:14: only one session may be active on a seat at a time. */
module SeatSpec {
  import opened Text
  import opened Console
  import opened SessionSpec

  datatype SeatKind = Static | Dynamic

  datatype SeatState = SeatState(kind: SeatKind, members: set<Id>, active: Option<Id>)

  /** A seat, the sessions that exist, and the VT monitor's current number. Sessions are
      shared: the seat holds ids only. */
  datatype World = World(platform: Platform, vt: nat, seat: SeatState, store: map<Id, SessionState>)

  datatype ActivateReply = Activated | NotSupported | Failed

  // ----- the session for a console

  predicate MatchesX11(s: SessionState, device: Option<string>) {
    device == Some(s.info.x11DisplayDevice)
  }

  predicate MatchesDisplay(s: SessionState, device: Option<string>) {
    device == Some(s.info.displayDevice)
  }

  /** The sessions a console belongs to: those with it as X11 display device, or, when
      there are none, those with it as display device. */
  function Candidates(store: map<Id, SessionState>, members: set<Id>, device: Option<string>): set<Id>
    requires members <= store.Keys
  {
    var x11 := set id | id in members && MatchesX11(store[id], device);
    if x11 != {} then x11 else set id | id in members && MatchesDisplay(store[id], device)
  }

  /** found is a possible answer of find_session_for_display_device: none without
      candidates, else a candidate no other is older than (hash order breaks ties). */
  ghost predicate IsLookup(store: map<Id, SessionState>, members: set<Id>, device: Option<string>, found: Option<Id>)
    requires members <= store.Keys
  {
    var ids := Candidates(store, members, device);
    match found
    case None => ids == {}
    case Some(id) => id in ids && forall other :: other in ids ==>
                       StrLe(store[id].info.creationTime, store[other].info.creationTime)
  }

  /** The order of preference, in the sessions' own fields: nothing is found exactly when no
      member names the console; a member with it as X11 display device comes before one with
      it as display device only; and of those that come first the oldest is found. */
  lemma LookupExactly(store: map<Id, SessionState>, members: set<Id>, device: string, found: Option<Id>)
    requires members <= store.Keys
    ensures IsLookup(store, members, Some(device), found) <==>
      match found {
        case None =>
          forall id :: id in members ==>
                         store[id].info.x11DisplayDevice != device && store[id].info.displayDevice != device
        case Some(f) =>
          && f in members
          && if exists id :: id in members && store[id].info.x11DisplayDevice == device then
               && store[f].info.x11DisplayDevice == device
               && forall id :: id in members && store[id].info.x11DisplayDevice == device ==>
                                 StrLe(store[f].info.creationTime, store[id].info.creationTime)
             else
               && store[f].info.displayDevice == device
               && forall id :: id in members && store[id].info.displayDevice == device ==>
                                 StrLe(store[f].info.creationTime, store[id].info.creationTime)
      }
    ensures IsLookup(store, members, None, found) <==> found == None
  {
    hide StrLe;
    var x11 := set id | id in members && MatchesX11(store[id], Some(device));
    assert forall id :: id in x11 <==> id in members && store[id].info.x11DisplayDevice == device;
    var ids := Candidates(store, members, Some(device));
    if x11 == {} {
      assert forall id :: id in ids <==> id in members && store[id].info.displayDevice == device;
    } else {
      assert ids == x11;
    }
    assert Candidates(store, members, None) == {};
  }

  // ----- changing the active session

  function Put(w: World, id: Id, s: SessionState): World {
    w.(store := w.store[id := s])
  }

  /** The first half of a change: the cached session is deactivated by force. */
  function Drop(w: World, kernel: Kernel): World
    requires w.seat.active.Some? ==> w.seat.active.value in w.store
  {
    match w.seat.active
    case None => w
    case Some(old_) => Put(w, old_, SetActive(w.store[old_], false, true, kernel))
  }

  /** The second half: the session found is cached and activated. */
  function Grant(w: World, found: Option<Id>, kernel: Kernel): World
    requires found.Some? ==> found.value in w.store
  {
    var cached := w.(seat := w.seat.(active := found));
    match found
    case None => cached
    case Some(id) => Put(cached, id, SetActive(w.store[id], true, true, kernel))
  }

  /** change_active_session */
  function ChangeActive(w: World, found: Option<Id>, kernel: Kernel): World
    requires w.seat.active.Some? ==> w.seat.active.value in w.store
    requires found.Some? ==> found.value in w.store
  {
    if w.seat.active == found then Grant(w, found, kernel)
    else Grant(Drop(w, kernel), found, kernel)
  }

  /** maybe_update_active_session, given what the lookup for the current VT finds */
  function MaybeUpdate(w: World, found: Option<Id>, kernel: Kernel): World
    requires w.seat.kind == Static && w.seat.active.Some? ==> w.seat.active.value in w.store
    requires w.seat.kind == Static && found.Some? ==> found.value in w.store
  {
    if w.seat.kind != Static then w else ChangeActive(w, found, kernel)
  }

  function Attach(w: World, id: Id, s: SessionState, seatId: Id): World {
    Put(w, id, s.(reg := s.reg.(seatId := Some(seatId)))).(seat := w.seat.(members := w.seat.members + {id}))
  }

  function Detach(w: World, id: Id): World {
    w.(seat := w.seat.(members := w.seat.members - {id}))
  }

  function Preferred(info: SessionInfo): string {
    if info.x11DisplayDevice == "" then info.displayDevice else info.x11DisplayDevice
  }

  /** "Let the old session know it's about to change." */
  function Yield(w: World, id: Id, kernel: Kernel): World
    requires w.seat.active.Some? ==> w.seat.active.value in w.store
  {
    if w.seat.active == Some(id) then w else Drop(w, kernel)
  }

  /** ck_seat_activate_session for an attached session; switched is the outcome of the
      request to the VT driver. */
  function Activate(w: World, id: Id, switched: bool, kernel: Kernel): (World, ActivateReply)
    requires w.seat.active.Some? ==> w.seat.active.value in w.store
    requires id in w.store
  {
    if w.seat.kind != Static then (w, NotSupported)
    else
      match Num(w.platform, Preferred(w.store[id].info))
      case None => (w, Failed)
      case Some(n) =>
        var w1 := Yield(w, id, kernel);
        if n == w.vt then (Put(w1, id, SetActive(w1.store[id], true, true, kernel)), Activated)
        else (w1, if switched then Activated else Failed)
  }

  // ----- runs

  datatype SeatEvent =
    | VtChanged(num: nat, found: Option<Id>, kernel: Kernel)
    | Requested(id: Id, switched: bool, kernel: Kernel)
    | Added(id: Id, session: SessionState, seatId: Id, found: Option<Id>, kernel: Kernel)
    | Removed(id: Id, found: Option<Id>, kernel: Kernel)
    | OnSession(id: Id, event: Event)

  function DeviceAt(w: World, num: nat): Option<string> {
    if num < UINT_RANGE then Name(w.platform, num) else None
  }

  ghost predicate Wf(w: World) {
    && w.seat.members <= w.store.Keys
    && (w.seat.active.Some? ==> w.seat.active.value in w.seat.members)
    && (w.seat.kind == Dynamic ==> w.seat.active.None?)
  }

  /** Only a static seat has a VT monitor to follow. */
  ghost predicate LooksUp(w: World, num: nat, found: Option<Id>)
    requires w.seat.members <= w.store.Keys
  {
    w.seat.kind == Static ==> IsLookup(w.store, w.seat.members, DeviceAt(w, num), found)
  }

  /** r is what maybe_update_active_session makes of w, found being what it comes upon. */
  ghost predicate IsUpdate(w: World, found: Option<Id>, kernel: Kernel, r: World) {
    && w.seat.members <= w.store.Keys && LooksUp(w, w.vt, found)
    && (w.seat.kind == Static && w.seat.active.Some? ==> w.seat.active.value in w.store)
    && (w.seat.kind == Static && found.Some? ==> found.value in w.store)
    && r == MaybeUpdate(w, found, kernel)
  }

  /** Nothing has happened to the session yet. */
  predicate JustOpened(s: SessionState) {
    s.controller.None? && s.devices == [] && !s.active && !s.timerArmed
  }

  /** The event can happen now. The VT monitor reports only changes; a session is added
      under an id not in use; what happens to a session by itself is any step but an
      activation, which only its seat makes. */
  ghost predicate Enabled(w: World, e: SeatEvent)
    requires Wf(w)
  {
    match e
    case VtChanged(num, found, _) =>
      w.seat.kind == Static && num < UINT_RANGE && num != w.vt && LooksUp(w, num, found)
    case Requested(id, _, _) => id in w.seat.members
    case Added(id, session, seatId, found, _) =>
      id !in w.store && JustOpened(session) && LooksUp(Attach(w, id, session, seatId), w.vt, found)
    case Removed(id, found, _) => id in w.seat.members && LooksUp(Detach(w, id), w.vt, found)
    case OnSession(id, event) =>
      id in w.seat.members && !(event.Activation? && event.active) && SessionSpec.Enabled(w.store[id], event)
  }

  ghost function Step(w: World, e: SeatEvent): World
    requires Wf(w) && Enabled(w, e)
  {
    match e
    case VtChanged(num, found, kernel) => ChangeActive(w.(vt := num), found, kernel)
    case Requested(id, switched, kernel) => Activate(w, id, switched, kernel).0
    case Added(id, session, seatId, found, kernel) =>
      MaybeUpdate(Attach(w, id, session, seatId), found, kernel)
    case Removed(id, found, kernel) => MaybeUpdate(Detach(w, id), found, kernel)
    case OnSession(id, event) => Put(w, id, SessionSpec.Step(w.store[id], event))
  }

  /** A static seat's update for a new number is the step of a VT change. */
  lemma UpdateIsVtStep(w: World, num: nat, found: Option<Id>, kernel: Kernel, r: World)
    requires Wf(w) && w.seat.kind == Static && num < UINT_RANGE && num != w.vt
    requires IsUpdate(w.(vt := num), found, kernel, r)
    ensures Enabled(w, VtChanged(num, found, kernel)) && r == Step(w, VtChanged(num, found, kernel))
  {
    hide ChangeActive, IsLookup;
  }

  lemma StepKeepsWf(w: World, e: SeatEvent)
    requires Wf(w) && Enabled(w, e)
    ensures Wf(Step(w, e))
    ensures Step(w, e).seat.kind == w.seat.kind && Step(w, e).platform == w.platform
  {
  }

  // ----- who is resumed and who is paused

  /** From w to r the seat has turned to found: the session found is resumed if it was
      inactive, the one cached before is paused by force if it was active, and every other
      session is left alone. */
  ghost predicate HandedOver(w: World, found: Option<Id>, kernel: Kernel, r: World) {
    && r == w.(seat := w.seat.(active := found), store := r.store) && r.store.Keys == w.store.Keys
    && forall id :: id in w.store ==>
         var s, s1 := w.store[id], r.store[id];
         if found == Some(id) && !s.active then Resumed(s, s1, kernel)
         else if found != Some(id) && w.seat.active == Some(id) && s.active then Paused(s, s1) && !s1.timerArmed
         else s1 == s
  }

  lemma ChangeHandsOver(w: World, found: Option<Id>, kernel: Kernel)
    requires w.seat.active.Some? ==> w.seat.active.value in w.store && Inv(w.store[w.seat.active.value])
    requires found.Some? ==> found.value in w.store && Inv(w.store[found.value])
    ensures HandedOver(w, found, kernel, ChangeActive(w, found, kernel))
  {
    hide Resumed, Paused, SetActive, Inv;
    if found.Some? {
      ActivationResumes(w.store[found.value], true, kernel);
    }
    if w.seat.active.Some? {
      ForcedDeactivationPauses(w.store[w.seat.active.value], kernel);
    }
  }

  /** A VT change turns to the session for the new number. */
  lemma VtChangeHandsOver(w: World, num: nat, found: Option<Id>, kernel: Kernel)
    requires Wf(w) && AllInv(w.store, w.seat.members) && Enabled(w, VtChanged(num, found, kernel))
    ensures HandedOver(w.(vt := num), found, kernel, Step(w, VtChanged(num, found, kernel)))
  {
    hide HandedOver, ChangeActive;
    ChangeHandsOver(w.(vt := num), found, kernel);
  }

  /** A session added is listed and names the seat; one removed is listed no more. A static
      seat then turns to the session for the VT it is on. */
  lemma ListingHandsOver(w: World, e: SeatEvent)
    requires Wf(w) && AllInv(w.store, w.seat.members) && Enabled(w, e) && (e.Added? || e.Removed?)
    ensures
      var members := if e.Added? then w.seat.members + {e.id} else w.seat.members - {e.id};
      var store :=
        if e.Added? then w.store[e.id := e.session.(reg := e.session.reg.(seatId := Some(e.seatId)))] else w.store;
      var w1 := w.(seat := w.seat.(members := members), store := store);
      if w.seat.kind == Dynamic then Step(w, e) == w1 else HandedOver(w1, e.found, e.kernel, Step(w, e))
  {
    hide HandedOver, ChangeActive;
    if w.seat.kind == Static {
      ChangeHandsOver(if e.Added? then Attach(w, e.id, e.session, e.seatId) else Detach(w, e.id), e.found, e.kernel);
    }
  }

  /** From w to r the seat has activated the session: no dynamic seat does it, and none for a
      console that is no terminal. The session cached, if another, is paused by force. If
      the VT is the session's own already it is resumed; if not, only the VT driver is asked,
      and the reply is its. The console is the X11 display device, or the display device if
      there is none. */
  ghost predicate ActivatedAs(w: World, id: Id, switched: bool, kernel: Kernel, r: World, reply: ActivateReply)
    requires id in w.store
  {
    var info := w.store[id].info;
    var num := Num(w.platform, if info.x11DisplayDevice != "" then info.x11DisplayDevice else info.displayDevice);
    if w.seat.kind == Dynamic then r == w && reply == NotSupported
    else if num == None then r == w && reply == Failed
    else
      && r == w.(store := r.store) && r.store.Keys == w.store.Keys
      && (forall other :: other in w.store ==>
            var s, s1 := w.store[other], r.store[other];
            if other == id && num == Some(w.vt) && !s.active then Resumed(s, s1, kernel)
            else if other != id && w.seat.active == Some(other) && s.active then Paused(s, s1) && !s1.timerArmed
            else s1 == s)
      && reply == if num == Some(w.vt) || switched then Activated else Failed
  }

  lemma ActivationExactly(w: World, id: Id, switched: bool, kernel: Kernel)
    requires w.seat.active.Some? ==> w.seat.active.value in w.store && Inv(w.store[w.seat.active.value])
    requires id in w.store && Inv(w.store[id])
    ensures var (r, reply) := Activate(w, id, switched, kernel); ActivatedAs(w, id, switched, kernel, r, reply)
  {
    hide Resumed, Paused, SetActive, Inv, Num;
    ActivationResumes(w.store[id], true, kernel);
    if w.seat.active.Some? {
      ForcedDeactivationPauses(w.store[w.seat.active.value], kernel);
    }
  }

  // ----- exclusivity

  ghost predicate AllInv(store: map<Id, SessionState>, ids: set<Id>)
    requires ids <= store.Keys
  {
    forall id :: id in ids ==> Inv(store[id])
  }

  /** Of the sessions in ids only the cached one can be active. */
  ghost predicate ExclusiveOn(store: map<Id, SessionState>, ids: set<Id>, active: Option<Id>)
    requires ids <= store.Keys
  {
    forall id :: id in ids && store[id].active ==> active == Some(id)
  }

  ghost predicate Exclusive(w: World)
    requires Wf(w)
  {
    ExclusiveOn(w.store, w.seat.members, w.seat.active)
  }

  /** The cache agrees with the lookup for the current VT. */
  ghost predicate Cached(w: World)
    requires Wf(w)
  {
    LooksUp(w, w.vt, w.seat.active)
  }

  ghost predicate Safe(w: World) {
    Wf(w) && AllInv(w.store, w.seat.members) && Exclusive(w) && Cached(w)
  }

  /** In terms of hardware: at most one session is marked active, and a session other than
      the active one has no active device and nothing granted by the kernel. */
  lemma SafeMeansExclusiveHardware(w: World)
    requires Safe(w)
    ensures forall a, b :: a in w.seat.members && b in w.seat.members && w.store[a].active && w.store[b].active ==>
              a == b
    ensures forall id :: id in w.seat.members && w.seat.active != Some(id) ==>
              !w.store[id].active && !SomeActive(w.store[id].devices) && NothingGranted(w.store[id])
  {
  }

  /** A change of the active session hands over in order: after its first half no session
      is active and nothing is granted, and only then is the new session activated. */
  lemma HandoverInOrder(w: World, ids: set<Id>, kernel: Kernel)
    requires w.seat.active.Some? ==> w.seat.active.value in ids
    requires ids <= w.store.Keys && AllInv(w.store, ids) && ExclusiveOn(w.store, ids, w.seat.active)
    ensures var d := Drop(w, kernel);
      && d.store.Keys == w.store.Keys && AllInv(d.store, ids)
      && (forall id :: id in ids ==> !d.store[id].active && NothingGranted(d.store[id]))
      && (forall id :: id in ids ==> d.store[id].info == w.store[id].info)
  {
    if w.seat.active.Some? {
      SetActiveKeepsInv(w.store[w.seat.active.value], false, true, kernel);
    }
  }

  lemma GrantKeeps(w: World, ids: set<Id>, found: Option<Id>, kernel: Kernel)
    requires found.Some? ==> found.value in ids
    requires ids <= w.store.Keys && AllInv(w.store, ids) && ExclusiveOn(w.store, ids, found)
    ensures var r := Grant(w, found, kernel);
      && r.seat == w.seat.(active := found) && r.store.Keys == w.store.Keys && r.vt == w.vt
      && AllInv(r.store, ids) && ExclusiveOn(r.store, ids, found)
      && (found.Some? ==> r.store[found.value].active)
      && (forall id :: id in ids ==> r.store[id].info == w.store[id].info)
  {
    if found.Some? {
      SetActiveKeepsInv(w.store[found.value], true, true, kernel);
    }
  }

  lemma ChangeActiveKeeps(w: World, ids: set<Id>, found: Option<Id>, kernel: Kernel)
    requires w.seat.active.Some? ==> w.seat.active.value in ids
    requires found.Some? ==> found.value in ids
    requires ids <= w.store.Keys && AllInv(w.store, ids) && ExclusiveOn(w.store, ids, w.seat.active)
    ensures var r := ChangeActive(w, found, kernel);
      && r.seat == w.seat.(active := found) && r.store.Keys == w.store.Keys && r.vt == w.vt
      && AllInv(r.store, ids) && ExclusiveOn(r.store, ids, found)
      && (found.Some? ==> r.store[found.value].active)
      && (forall id :: id in ids ==> r.store[id].info == w.store[id].info)
  {
    if w.seat.active == found {
      GrantKeeps(w, ids, found, kernel);
    } else {
      HandoverInOrder(w, ids, kernel);
      GrantKeeps(Drop(w, kernel), ids, found, kernel);
    }
  }

  /** The lookup reads nothing but the sessions' fixed fields. */
  lemma LookupReadsInfo(s1: map<Id, SessionState>, s2: map<Id, SessionState>, members: set<Id>,
      device: Option<string>, found: Option<Id>)
    requires members <= s1.Keys && members <= s2.Keys
    requires forall id :: id in members ==> s1[id].info == s2[id].info
    ensures IsLookup(s1, members, device, found) == IsLookup(s2, members, device, found)
  {
    assert Candidates(s1, members, device) == Candidates(s2, members, device);
  }

  // ----- each event

  /** A VT change, an addition and a removal keep the seat safe, whatever the consoles.
      A session removed is left inactive with nothing granted. */
  lemma VtChangeKeepsSafe(w: World, num: nat, found: Option<Id>, kernel: Kernel)
    requires Safe(w) && Enabled(w, VtChanged(num, found, kernel))
    ensures Safe(Step(w, VtChanged(num, found, kernel)))
  {
    var w1 := w.(vt := num);
    ChangeActiveKeeps(w1, w.seat.members, found, kernel);
    LookupReadsInfo(w1.store, ChangeActive(w1, found, kernel).store, w.seat.members, DeviceAt(w1, num), found);
  }

  lemma AddKeepsSafe(w: World, e: SeatEvent)
    requires Safe(w) && e.Added? && Enabled(w, e)
    ensures Safe(Step(w, e))
  {
    var w1 := Attach(w, e.id, e.session, e.seatId);
    assert Inv(w1.store[e.id]);
    if w.seat.kind == Static {
      ChangeActiveKeeps(w1, w1.seat.members, e.found, e.kernel);
      LookupReadsInfo(w1.store, Step(w, e).store, w1.seat.members, DeviceAt(w1, w.vt), e.found);
    }
  }

  lemma RemoveKeepsSafe(w: World, e: SeatEvent)
    requires Safe(w) && e.Removed? && Enabled(w, e)
    ensures Safe(Step(w, e))
    ensures !Step(w, e).store[e.id].active && NothingGranted(Step(w, e).store[e.id])
  {
    var w1 := Detach(w, e.id);
    if w.seat.kind == Static {
      ChangeActiveKeeps(w1, w.seat.members, e.found, e.kernel);
      LookupReadsInfo(w1.store, Step(w, e).store, w1.seat.members, DeviceAt(w1, w.vt), e.found);
    }
  }

  lemma OnSessionKeepsSafe(w: World, e: SeatEvent)
    requires Safe(w) && e.OnSession? && Enabled(w, e)
    ensures Safe(Step(w, e))
  {
    StepKeepsInv(w.store[e.id], e.event);
    StepFrame(w.store[e.id], e.event);
    LookupReadsInfo(w.store, Step(w, e).store, w.seat.members, DeviceAt(w, w.vt), w.seat.active);
  }

  /** The request is answered with "already active" for a session that is not the cached
      one: the branch that marks a session active without caching it. */
  predicate StrayActivation(w: World, id: Id)
    requires id in w.store
  {
    && w.seat.kind == Static && w.seat.active != Some(id)
    && Num(w.platform, Preferred(w.store[id].info)) == Some(w.vt)
  }

  lemma YieldFrame(w: World, id: Id, kernel: Kernel)
    requires Safe(w) && id in w.seat.members
    ensures var r := Yield(w, id, kernel);
      && r.store.Keys == w.store.Keys && r.seat == w.seat && r.vt == w.vt && r.platform == w.platform
      && AllInv(r.store, w.seat.members)
      && (forall m :: m in w.seat.members ==> r.store[m].info == w.store[m].info)
      && (forall m :: m in w.seat.members && r.store[m].active ==> m == id && w.seat.active == Some(id))
  {
    HandoverInOrder(w, w.seat.members, kernel);
  }

  lemma ResumeMakesActive(s: SessionState, kernel: Kernel)
    requires Inv(s)
    ensures var r := SetActive(s, true, true, kernel); Inv(r) && r.active && r.info == s.info
  {
  }

  lemma ActivateFrame(w: World, id: Id, switched: bool, kernel: Kernel)
    requires Safe(w) && id in w.seat.members
    ensures var r := Activate(w, id, switched, kernel).0;
      && r.store.Keys == w.store.Keys && r.seat == w.seat && r.vt == w.vt && r.platform == w.platform
      && AllInv(r.store, w.seat.members)
      && (forall m :: m in w.seat.members ==> r.store[m].info == w.store[m].info)
      && (forall m :: m in w.seat.members && m != id && r.store[m].active ==> w.store[m].active)
      && (r.store[id].active ==> w.seat.active == Some(id) || StrayActivation(w, id))
      && (StrayActivation(w, id) ==> r.store[id].active)
  {
    YieldFrame(w, id, kernel);
    var w1 := Yield(w, id, kernel);
    ResumeMakesActive(w1.store[id], kernel);
    var r := Activate(w, id, switched, kernel).0;
    if w.seat.kind == Static {
      match Num(w.platform, Preferred(w.store[id].info)) {
        case None => assert r == w;
        case Some(n) =>
          if n == w.vt {
            assert r == Put(w1, id, SetActive(w1.store[id], true, true, kernel));
          } else {
            assert r == w1;
          }
      }
    } else {
      assert r == w;
    }
  }

  /** An activation keeps the seat safe exactly when it does not take that branch. */
  lemma ActivateExact(w: World, id: Id, switched: bool, kernel: Kernel)
    requires Safe(w) && id in w.seat.members
    ensures var r := Activate(w, id, switched, kernel).0;
      && Wf(r) && AllInv(r.store, w.seat.members)
      && (Exclusive(r) <==> !StrayActivation(w, id))
      && (Safe(r) <==> !StrayActivation(w, id))
  {
    ActivateFrame(w, id, switched, kernel);
    var r := Activate(w, id, switched, kernel).0;
    LookupReadsInfo(w.store, r.store, w.seat.members, DeviceAt(w, w.vt), w.seat.active);
  }

  /** A request the VT driver refuses still takes the seat from its active session: none
      is active afterwards, though the cache still names the old one. */
  lemma RefusedActivation(w: World, id: Id, kernel: Kernel)
    requires Safe(w) && id in w.seat.members && w.seat.kind == Static && w.seat.active != Some(id)
    requires Num(w.platform, Preferred(w.store[id].info)).Some?
    requires Num(w.platform, Preferred(w.store[id].info)) != Some(w.vt)
    ensures var (r, reply) := Activate(w, id, false, kernel);
      && reply == Failed && r.seat == w.seat
      && forall m :: m in w.seat.members ==> !r.store[m].active && NothingGranted(r.store[m])
  {
    HandoverInOrder(w, w.seat.members, kernel);
  }

  // ----- consoles

  /** Every session that activation would send to a console is the one, and the only one,
      a lookup for that console can find. */
  ghost predicate Faithful(w: World)
    requires w.seat.members <= w.store.Keys
  {
    forall id, n: nat, found ::
      (id in w.seat.members && n < UINT_RANGE
       && Num(w.platform, Preferred(w.store[id].info)) == Some(n) && LooksUp(w, n, found)) ==> found == Some(id)
  }

  /** The sessions of the seat name pairwise distinct consoles, canonically. */
  ghost predicate DistinctConsoles(w: World)
    requires w.seat.members <= w.store.Keys
  {
    && (forall id :: id in w.seat.members ==> Canonical(w.platform, Preferred(w.store[id].info)))
    && (forall a, b :: a in w.seat.members && b in w.seat.members && a != b ==>
          Consoles(w.store[a].info) !! Consoles(w.store[b].info))
  }

  /** The console devices a session names, in either field. */
  function Consoles(info: SessionInfo): set<string> {
    {info.x11DisplayDevice, info.displayDevice} - {""}
  }

  lemma CanonicalNonEmpty(p: Platform, device: string)
    requires Canonical(p, device)
    ensures device != ""
  {
  }

  lemma DistinctConsolesAreFaithful(w: World)
    requires w.seat.members <= w.store.Keys && w.seat.kind == Static
    requires DistinctConsoles(w)
    ensures Faithful(w)
  {
    forall id, n: nat, found | id in w.seat.members && n < UINT_RANGE
      && Num(w.platform, Preferred(w.store[id].info)) == Some(n) && LooksUp(w, n, found)
      ensures found == Some(id)
    {
      var device := Preferred(w.store[id].info);
      MatchAgreesWithParse(w.platform, device, n);
      CanonicalNonEmpty(w.platform, device);
      assert device in Consoles(w.store[id].info);
      var ids := Candidates(w.store, w.seat.members, Some(device));
      forall other | other in w.seat.members && other != id
        ensures !MatchesX11(w.store[other], Some(device)) && !MatchesDisplay(w.store[other], Some(device))
      {
        assert device !in Consoles(w.store[other].info);
      }
      assert id in ids;
    }
  }

  // ----- every run

  ghost predicate Legal(w: World, es: seq<SeatEvent>)
    requires Wf(w)
    ensures Legal(w, es) && es != [] ==> Legal(w, es[..|es| - 1])
    decreases |es|, 0
  {
    es == [] ||
    var before := es[..|es| - 1];
    Legal(w, before) && Enabled(Run(w, before), es[|es| - 1])
  }

  ghost function Run(w: World, es: seq<SeatEvent>): (r: World)
    requires Wf(w) && Legal(w, es)
    ensures Wf(r) && r.seat.kind == w.seat.kind && r.platform == w.platform
    decreases |es|, 1
  {
    if es == [] then w
    else
      var before := Run(w, es[..|es| - 1]);
      StepKeepsWf(before, es[|es| - 1]);
      Step(before, es[|es| - 1])
  }

  /** An activation on a seat with faithful consoles never takes the stray branch. */
  lemma FaithfulNeverStrays(w: World, id: Id)
    requires Safe(w) && Faithful(w) && id in w.seat.members && w.vt < UINT_RANGE
    ensures !StrayActivation(w, id)
  {
  }

  lemma StepKeepsSafe(w: World, e: SeatEvent)
    requires Safe(w) && Enabled(w, e) && w.vt < UINT_RANGE
    requires e.Requested? ==> !StrayActivation(w, e.id)
    ensures Safe(Step(w, e)) && Step(w, e).vt < UINT_RANGE
  {
    match e {
      case VtChanged(num, found, kernel) => VtChangeKeepsSafe(w, num, found, kernel);
      case Requested(id, switched, kernel) => ActivateExact(w, id, switched, kernel);
      case Added(_, _, _, _, _) => AddKeepsSafe(w, e);
      case Removed(_, _, _) => RemoveKeepsSafe(w, e);
      case OnSession(_, _) => OnSessionKeepsSafe(w, e);
    }
  }

  function EmptySeat(platform: Platform, vt: nat, kind: SeatKind): World {
    World(platform, vt, SeatState(kind, {}, None), map[])
  }

  /** No request of the run takes the branch that marks a session active without caching it. */
  ghost predicate NeverStrays(w: World, es: seq<SeatEvent>)
    requires Wf(w) && Legal(w, es)
    decreases |es|
  {
    es == [] ||
    var n := |es| - 1;
    NeverStrays(w, es[..n]) && (es[n].Requested? ==> !StrayActivation(Run(w, es[..n]), es[n].id))
  }

  ghost predicate ExclusiveThroughout(w: World, es: seq<SeatEvent>)
    requires Wf(w) && Legal(w, es)
    decreases |es|
  {
    Exclusive(Run(w, es)) && (es != [] ==> ExclusiveThroughout(w, es[..|es| - 1]))
  }

  lemma {:induction false} RunStaysSafe(w: World, es: seq<SeatEvent>)
    requires Safe(w) && w.vt < UINT_RANGE && Legal(w, es) && NeverStrays(w, es)
    ensures Safe(Run(w, es)) && Run(w, es).vt < UINT_RANGE
    decreases |es|
  {
    hide AllInv, Exclusive, Cached, Step, Enabled, StrayActivation;
    if es != [] {
      RunStaysSafe(w, es[..|es| - 1]);
      StepKeepsSafe(Run(w, es[..|es| - 1]), es[|es| - 1]);
    }
  }

  /** For any run of a safe seat, sessions coming and going on whatever consoles: no session
      but the cached one is active, throughout, if and only if no request in it takes the
      stray branch. */
  lemma {:induction false} RunIsExclusiveExactly(w: World, es: seq<SeatEvent>)
    requires Safe(w) && w.vt < UINT_RANGE && Legal(w, es)
    ensures ExclusiveThroughout(w, es) <==> NeverStrays(w, es)
    decreases |es|
  {
    hide AllInv, Exclusive, Cached, Step, Enabled, StrayActivation;
    if es == [] {
      SafeIsExclusive(w);
    } else {
      var before, e := es[..|es| - 1], es[|es| - 1];
      RunIsExclusiveExactly(w, before);
      if NeverStrays(w, before) {
        RunStaysSafe(w, before);
        StepExclusiveExactly(Run(w, before), e);
      }
    }
  }

  lemma SafeIsExclusive(w: World)
    requires Safe(w)
    ensures Exclusive(w)
  {
  }

  lemma StepExclusiveExactly(w: World, e: SeatEvent)
    requires Safe(w) && Enabled(w, e) && w.vt < UINT_RANGE
    ensures Wf(Step(w, e)) && (Exclusive(Step(w, e)) <==> (e.Requested? ==> !StrayActivation(w, e.id)))
  {
    hide StrayActivation, Activate, ChangeActive, MaybeUpdate, LooksUp;
    if e.Requested? {
      ActivateExact(w, e.id, e.switched, e.kernel);
    } else {
      StepKeepsSafe(w, e);
    }
  }

  ghost predicate DistinctThroughout(w: World, es: seq<SeatEvent>)
    requires Wf(w) && Legal(w, es)
    decreases |es|
  {
    DistinctConsoles(Run(w, es)) && (es != [] ==> DistinctThroughout(w, es[..|es| - 1]))
  }

  lemma {:induction false} DistinctNeverStrays(w: World, es: seq<SeatEvent>)
    requires Safe(w) && w.seat.kind == Static && w.vt < UINT_RANGE && Legal(w, es) && DistinctThroughout(w, es)
    ensures NeverStrays(w, es)
    decreases |es|
  {
    hide AllInv, Exclusive, Cached, Step, LooksUp, StrayActivation, DistinctConsoles, Faithful;
    if es != [] {
      var before, e := es[..|es| - 1], es[|es| - 1];
      DistinctNeverStrays(w, before);
      RunStaysSafe(w, before);
      DistinctConsolesAreFaithful(Run(w, before));
      if e.Requested? {
        FaithfulNeverStrays(Run(w, before), e.id);
      }
    }
  }

  /** The promise of the README, over whole runs: on a static seat whose sessions always
      name pairwise distinct consoles, every reachable state is safe. So at most one
      session is marked active, it is the cached one, the cache is what a lookup for the
      current VT finds, and no other session of the seat has an active device. */
  lemma EveryRunIsSafe(platform: Platform, vt: nat, es: seq<SeatEvent>)
    requires vt < UINT_RANGE
    requires var w := EmptySeat(platform, vt, Static); Legal(w, es) && DistinctThroughout(w, es)
    ensures var r := Run(EmptySeat(platform, vt, Static), es); Safe(r) && r.vt < UINT_RANGE
  {
    hide Run, Legal, DistinctThroughout, NeverStrays;
    var w := EmptySeat(platform, vt, Static);
    assert Safe(w);
    DistinctNeverStrays(w, es);
    RunStaysSafe(w, es);
  }

  /** A dynamic seat never has an active session at all. */
  lemma {:induction false} DynamicSeatsStayInactive(w: World, es: seq<SeatEvent>)
    requires Safe(w) && w.seat.kind == Dynamic && w.vt < UINT_RANGE && Legal(w, es)
    ensures NeverStrays(w, es)
    ensures var r := Run(w, es); Safe(r) && r.vt < UINT_RANGE
    ensures var r := Run(w, es); forall id :: id in r.seat.members ==> !r.store[id].active
    decreases |es|
  {
    hide Step;
    if es != [] {
      DynamicSeatsStayInactive(w, es[..|es| - 1]);
    }
    RunStaysSafe(w, es);
  }

  // ----- exactly when exclusivity holds

  /** Whenever a session is added, the consoles are faithful with it. */
  ghost predicate AddsFaithfully(w: World, es: seq<SeatEvent>)
    requires Wf(w) && Legal(w, es)
    decreases |es|
  {
    es == [] ||
    var n := |es| - 1;
    AddsFaithfully(w, es[..n]) && (es[n].Added? ==> Faithful(Run(w, es)))
  }

  ghost predicate AlwaysExclusive(w: World)
    requires Wf(w)
  {
    forall es :: Legal(w, es) && AddsFaithfully(w, es) ==> Exclusive(Run(w, es))
  }

  lemma LookupExists(store: map<Id, SessionState>, members: set<Id>, device: Option<string>) returns (found: Option<Id>)
    requires members <= store.Keys
    ensures IsLookup(store, members, device, found)
  {
    var ids := Candidates(store, members, device);
    found := None;
    if ids != {} {
      var id := OldestExists(store, ids);
      found := Some(id);
    }
  }

  lemma {:induction false} OldestExists(store: map<Id, SessionState>, ids: set<Id>) returns (oldest: Id)
    requires ids != {} && ids <= store.Keys
    ensures oldest in ids
    ensures forall other :: other in ids ==> StrLe(store[oldest].info.creationTime, store[other].info.creationTime)
  {
    var id :| id in ids;
    StrLeTotal(store[id].info.creationTime, store[id].info.creationTime);
    if ids == {id} {
      oldest := id;
    } else {
      oldest := OldestExists(store, ids - {id});
      StrLeTotal(store[id].info.creationTime, store[oldest].info.creationTime);
      if StrLe(store[id].info.creationTime, store[oldest].info.creationTime) {
        forall other | other in ids - {id}
          ensures StrLe(store[id].info.creationTime, store[other].info.creationTime)
        {
          StrLeTransitive(store[id].info.creationTime, store[oldest].info.creationTime, store[other].info.creationTime);
        }
        oldest := id;
      }
    }
  }

  /** What a lookup could find among fewer sessions, one it finds among all of them being
      left, it could find among all of them. */
  lemma LookupAfterRemoval(store: map<Id, SessionState>, all: set<Id>, left: set<Id>, device: Option<string>, id: Id,
      found: Option<Id>)
    requires left <= all <= store.Keys && id in left
    requires IsLookup(store, all, device, Some(id)) && IsLookup(store, left, device, found)
    ensures IsLookup(store, all, device, found)
  {
    var ids := Candidates(store, all, device);
    var x11 := set m | m in all && MatchesX11(store[m], device);
    var x11Left := set m | m in left && MatchesX11(store[m], device);
    assert x11Left == x11 * left;
    if x11 != {} {
      assert id in x11Left;
    } else {
      assert id in (set m | m in left && MatchesDisplay(store[m], device));
    }
    assert id in Candidates(store, left, device);
    var f := found.value;
    forall other | other in ids ensures StrLe(store[f].info.creationTime, store[other].info.creationTime) {
      StrLeTransitive(store[f].info.creationTime, store[id].info.creationTime, store[other].info.creationTime);
    }
  }

  lemma StepKeepsMembersInfo(w: World, e: SeatEvent)
    requires Safe(w) && w.seat.kind == Static && Enabled(w, e) && !e.Added?
    ensures var r := Step(w, e);
      && r.seat.members == (if e.Removed? then w.seat.members - {e.id} else w.seat.members)
      && r.platform == w.platform && r.seat.kind == Static
      && r.seat.members <= r.store.Keys && r.seat.members <= w.store.Keys
      && forall id :: id in r.seat.members ==> r.store[id].info == w.store[id].info
  {
    match e {
      case VtChanged(num, found, kernel) => ChangeActiveKeeps(w.(vt := num), w.seat.members, found, kernel);
      case Requested(id, switched, kernel) => ActivateFrame(w, id, switched, kernel);
      case Removed(id, found, kernel) => ChangeActiveKeeps(Detach(w, id), w.seat.members, found, kernel);
      case OnSession(id, event) => StepFrame(w.store[id], event);
    }
  }

  /** Without an addition consoles stay faithful. */
  lemma StepKeepsFaithful(w: World, e: SeatEvent)
    requires Safe(w) && w.seat.kind == Static && Enabled(w, e) && !e.Added?
    requires Faithful(w)
    ensures Wf(Step(w, e)) && Faithful(Step(w, e))
  {
    StepKeepsWf(w, e);
    StepKeepsMembersInfo(w, e);
    FaithfulForFewer(w, Step(w, e));
  }

  lemma FaithfulForFewer(w: World, r: World)
    requires w.seat.kind == r.seat.kind == Static && w.platform == r.platform
    requires r.seat.members <= w.seat.members <= w.store.Keys && r.seat.members <= r.store.Keys
    requires forall id :: id in r.seat.members ==> r.store[id].info == w.store[id].info
    requires Faithful(w)
    ensures Faithful(r)
  {
    forall id, n: nat, found | id in r.seat.members && n < UINT_RANGE
      && Num(r.platform, Preferred(r.store[id].info)) == Some(n) && LooksUp(r, n, found)
      ensures found == Some(id)
    {
      var device := DeviceAt(w, n);
      var f0 := LookupExists(w.store, w.seat.members, device);
      assert LooksUp(w, n, f0);
      LookupReadsInfo(w.store, r.store, r.seat.members, device, found);
      LookupAfterRemoval(w.store, w.seat.members, r.seat.members, device, id, found);
      assert LooksUp(w, n, found);
    }
  }

  lemma {:induction false} FaithfulRunsAreSafe(w: World, es: seq<SeatEvent>)
    requires Safe(w) && w.seat.kind == Static && w.vt < UINT_RANGE && Faithful(w)
    requires Legal(w, es) && AddsFaithfully(w, es)
    ensures var r := Run(w, es); Safe(r) && r.vt < UINT_RANGE && Faithful(r)
    decreases |es|
  {
    hide AllInv, Exclusive, Cached, Step, StrayActivation, Faithful;
    if es != [] {
      var before, e := es[..|es| - 1], es[|es| - 1];
      FaithfulRunsAreSafe(w, before);
      if e.Requested? {
        FaithfulNeverStrays(Run(w, before), e.id);
      }
      StepKeepsSafe(Run(w, before), e);
      if !e.Added? {
        StepKeepsFaithful(Run(w, before), e);
      }
    }
  }

  /** A session activated while its console is another's in the cache becomes active
      beside the cache: one request, after one VT change at most if the console is not
      already the current one with that other session cached. */
  lemma StrayRun(w: World, id: Id, n: nat, found: Option<Id>) returns (es: seq<SeatEvent>)
    requires Safe(w) && w.seat.kind == Static && w.vt < UINT_RANGE && w.vt != n < UINT_RANGE
    requires id in w.seat.members && Num(w.platform, Preferred(w.store[id].info)) == Some(n)
    requires LooksUp(w, n, found) && found != Some(id)
    ensures Legal(w, es) && AddsFaithfully(w, es) && !Exclusive(Run(w, es))
  {
    hide Exclusive, Cached, AllInv, Legal, Run, AddsFaithfully, IsLookup, Step;
    var e1, w1 := VtTo(w, n, found);
    var e2 := Requested(id, false, {});
    StrayRequest(w1, id);
    RunOfTwo(w, e1, e2);
    es := [e1, e2];
  }

  lemma StrayRequest(w: World, id: Id)
    requires Safe(w) && id in w.seat.members && StrayActivation(w, id)
    ensures Wf(Step(w, Requested(id, false, {}))) && !Exclusive(Step(w, Requested(id, false, {})))
  {
    ActivateExact(w, id, false, {});
  }

  lemma RunOfTwo(w: World, e1: SeatEvent, e2: SeatEvent)
    requires Wf(w) && Enabled(w, e1) && Wf(Step(w, e1)) && Enabled(Step(w, e1), e2)
    ensures Legal(w, [e1, e2]) && Run(w, [e1, e2]) == Step(Step(w, e1), e2)
    ensures !e1.Added? && !e2.Added? ==> AddsFaithfully(w, [e1, e2])
  {
    hide Wf, Step, Enabled, Faithful, Legal, Run, AddsFaithfully;
    NothingRun(w);
    RunOneMore(w, [], e1);
    RunOneMore(w, [e1], e2);
    assert [] + [e1] == [e1] && [e1] + [e2] == [e1, e2];
  }

  lemma NothingRun(w: World)
    requires Wf(w)
    ensures Legal(w, []) && Run(w, []) == w && AddsFaithfully(w, [])
  {
  }

  lemma {:induction false} RunOneMore(w: World, es: seq<SeatEvent>, e: SeatEvent)
    requires Wf(w) && Legal(w, es) && Enabled(Run(w, es), e)
    ensures Legal(w, es + [e]) && Run(w, es + [e]) == Step(Run(w, es), e)
    ensures AddsFaithfully(w, es) && !e.Added? ==> AddsFaithfully(w, es + [e])
  {
    assert (es + [e])[..|es|] == es;
  }

  /** Exclusivity holds in every run of a safe static seat, sessions added to it only with
      consoles that are faithful, if and only if its own consoles are. */
  lemma ExclusiveExactlyWhenFaithful(w: World)
    requires Safe(w) && w.seat.kind == Static && w.vt < UINT_RANGE
    ensures AlwaysExclusive(w) <==> Faithful(w)
  {
    if Faithful(w) {
      forall es | Legal(w, es) && AddsFaithfully(w, es) ensures Exclusive(Run(w, es)) {
        FaithfulRunsAreSafe(w, es);
      }
    } else {
      var id, n: nat, found :| id in w.seat.members && n < UINT_RANGE
        && Num(w.platform, Preferred(w.store[id].info)) == Some(n) && LooksUp(w, n, found) && found != Some(id);
      var es;
      if n != w.vt {
        es := StrayRun(w, id, n, found);
      } else {
        es := StrayRunFromHere(w, id, found);
      }
      assert !AlwaysExclusive(w);
    }
  }

  /** The same from the console itself: the VT changes away first. */
  lemma StrayRunFromHere(w: World, id: Id, found: Option<Id>) returns (es: seq<SeatEvent>)
    requires Safe(w) && w.seat.kind == Static && w.vt < UINT_RANGE
    requires id in w.seat.members && Num(w.platform, Preferred(w.store[id].info)) == Some(w.vt)
    requires LooksUp(w, w.vt, found) && found != Some(id)
    ensures Legal(w, es) && AddsFaithfully(w, es) && !Exclusive(Run(w, es))
  {
    hide AddsFaithfully, Exclusive, Cached, AllInv, Legal, Run, IsLookup, Enabled, Step;
    var away := if w.vt == 0 then 1 else 0;
    var f := LookupExists(w.store, w.seat.members, DeviceAt(w, away));
    var e0, w0 := VtTo(w, away, f);
    LookupReadsInfo(w.store, w0.store, w.seat.members, DeviceAt(w, w.vt), found);
    var rest := StrayRun(w0, id, w.vt, found);
    RunAfter(w, e0, rest);
    es := [e0] + rest;
  }

  lemma VtTo(w: World, num: nat, found: Option<Id>) returns (e: SeatEvent, r: World)
    requires Safe(w) && w.seat.kind == Static && w.vt != num < UINT_RANGE && LooksUp(w, num, found)
    ensures e.VtChanged? && Enabled(w, e) && r == Step(w, e) && Safe(r)
    ensures r.vt == num && r.seat == w.seat.(active := found) && r.platform == w.platform
    ensures forall id :: id in w.seat.members ==> r.store[id].info == w.store[id].info
  {
    e := VtChanged(num, found, {});
    VtChangeKeepsSafe(w, num, found, {});
    ChangeActiveKeeps(w.(vt := num), w.seat.members, found, {});
    r := Step(w, e);
  }

  lemma {:induction false} RunAfter(w: World, e: SeatEvent, es: seq<SeatEvent>)
    requires Wf(w) && Enabled(w, e) && Wf(Step(w, e)) && Legal(Step(w, e), es)
    ensures Legal(w, [e] + es) && Run(w, [e] + es) == Run(Step(w, e), es)
    ensures !e.Added? && AddsFaithfully(Step(w, e), es) ==> AddsFaithfully(w, [e] + es)
    decreases |es|
  {
    hide Wf, Step, Enabled, Faithful;
    if es == [] {
      assert [e] + es == [e] && [e][..0] == [];
      assert Legal(w, []);
    } else {
      RunAfter(w, e, es[..|es| - 1]);
      assert ([e] + es)[..|es|] == [e] + es[..|es| - 1];
    }
  }

  /** What a stray activation leads to: the next VT change to another session's console
      leaves two sessions active. */
  lemma StrayStaysActive(w: World, stray: Id, num: nat, found: Id, kernel: Kernel)
    requires Wf(w) && w.seat.kind == Static && stray in w.seat.members && w.store[stray].active
    requires w.seat.active != Some(stray) && found != stray && w.seat.active != Some(found)
    requires Enabled(w, VtChanged(num, Some(found), kernel))
    ensures var r := Step(w, VtChanged(num, Some(found), kernel));
      r.store[stray].active && r.store[found].active && r.seat == w.seat.(active := Some(found))
  {
  }

  // ----- at most one active session

  ghost predicate OneActive(w: World)
    requires Wf(w)
  {
    forall a, b :: a in w.seat.members && b in w.seat.members && w.store[a].active && w.store[b].active ==> a == b
  }

  /** The session the event activates. */
  function Activates(w: World, e: SeatEvent): Option<Id>
    requires e.Requested? ==> e.id in w.store
  {
    if w.seat.kind != Static then None
    else
      match e
      case VtChanged(_, found, _) => found
      case Added(_, _, _, found, _) => found
      case Removed(_, found, _) => found
      case Requested(id, _, _) => if Num(w.platform, Preferred(w.store[id].info)) == Some(w.vt) then Some(id) else None
      case OnSession(_, _) => None
  }

  /** Active before the event, it stays on the seat and does not yield as the cached one does. */
  predicate Stays(w: World, e: SeatEvent, id: Id)
    requires w.seat.members <= w.store.Keys
  {
    id in w.seat.members && w.store[id].active && w.seat.active != Some(id) && !(e.Removed? && e.id == id)
  }

  /** A session is activated while another stays active. */
  ghost predicate Crowds(w: World, e: SeatEvent)
    requires Wf(w) && Enabled(w, e)
  {
    Activates(w, e).Some? && exists id :: Stays(w, e, id) && Activates(w, e) != Some(id)
  }

  lemma SetsActive(s: SessionState, active: bool, kernel: Kernel)
    ensures var r := SetActive(s, active, true, kernel); r.active == active && r.info == s.info
  {
  }

  /** After a change the session found is active, the cached one is not unless it is the
      one found, and every other is as it was. */
  lemma ChangeActivity(w: World, found: Option<Id>, kernel: Kernel)
    requires w.seat.active.Some? ==> w.seat.active.value in w.store
    requires found.Some? ==> found.value in w.store
    ensures var r := ChangeActive(w, found, kernel);
      && r == World(w.platform, w.vt, w.seat.(active := found), r.store) && r.store.Keys == w.store.Keys
      && forall id :: id in w.store ==>
           && r.store[id].info == w.store[id].info
           && r.store[id].active == (found == Some(id) || (w.store[id].active && w.seat.active != Some(id)))
  {
    hide SetActive;
    if w.seat.active.Some? {
      SetsActive(w.store[w.seat.active.value], false, kernel);
    }
    var d := if w.seat.active == found then w else Drop(w, kernel);
    if found.Some? {
      SetsActive(d.store[found.value], true, kernel);
    }
  }

  lemma ActivateActivity(w: World, e: SeatEvent)
    requires e.Requested? && e.id in w.store && (w.seat.active.Some? ==> w.seat.active.value in w.store)
    ensures var r := Activate(w, e.id, e.switched, e.kernel).0;
      && r == w.(store := r.store) && r.store.Keys == w.store.Keys
      && forall id :: id in w.store ==>
           && r.store[id].info == w.store[id].info
           && (Activates(w, e).None? && r.store[id].active ==> w.store[id].active)
           && (Activates(w, e).Some? ==>
                 r.store[id].active == (id == e.id || (w.store[id].active && w.seat.active != Some(id))))
  {
    hide SetActive, Preferred, Num;
    if w.seat.active.Some? {
      SetsActive(w.store[w.seat.active.value], false, e.kernel);
    }
    SetsActive(Yield(w, e.id, e.kernel).store[e.id], true, e.kernel);
  }

  /** The world in which an event looks for the session of the current VT. */
  function Looking(w: World, e: SeatEvent): World {
    match e
    case VtChanged(num, _, _) => w.(vt := num)
    case Added(id, session, seatId, _, _) => Attach(w, id, session, seatId)
    case Removed(id, _, _) => Detach(w, id)
    case _ => w
  }

  /** What an event that looks for one does to the sessions' activity. */
  lemma LookingActivity(w: World, e: SeatEvent)
    requires Wf(w) && Enabled(w, e) && (e.VtChanged? || e.Added? || e.Removed?)
    ensures var l, r := Looking(w, e), Step(w, e);
      && r.seat.members == l.seat.members <= l.store.Keys && r.store.Keys == l.store.Keys
      && r.vt == l.vt && r.platform == w.platform && r.seat.kind == w.seat.kind
      && (w.seat.kind == Static ==> r.seat.active == e.found && (e.found.Some? ==> e.found.value in l.seat.members))
      && (w.seat.kind == Dynamic ==> r == l)
      && forall id :: id in l.store ==>
           && r.store[id].info == l.store[id].info
           && (w.seat.kind == Static ==>
                 r.store[id].active == (e.found == Some(id) || (l.store[id].active && w.seat.active != Some(id))))
  {
    hide ChangeActive, IsLookup;
    var l := Looking(w, e);
    if w.seat.kind == Static {
      FoundIsMember(l, e.found);
      ChangeActivity(l, e.found, e.kernel);
    }
  }

  lemma FoundIsMember(w: World, found: Option<Id>)
    requires w.seat.members <= w.store.Keys && w.seat.kind == Static && LooksUp(w, w.vt, found)
    ensures found.Some? ==> found.value in w.seat.members
  {
  }

  lemma StepOneActiveExactly(w: World, e: SeatEvent)
    requires Wf(w) && Enabled(w, e) && OneActive(w)
    ensures Wf(Step(w, e)) && (OneActive(Step(w, e)) <==> !Crowds(w, e))
  {
    hide Step, Activates;
    StepKeepsWf(w, e);
    match e {
      case Requested(_, _, _) => RequestOneActive(w, e);
      case OnSession(_, _) => SessionOneActive(w, e);
      case _ => LookingOneActive(w, e);
    }
  }

  lemma LookingOneActive(w: World, e: SeatEvent)
    requires Wf(w) && Enabled(w, e) && OneActive(w) && (e.VtChanged? || e.Added? || e.Removed?) && Wf(Step(w, e))
    ensures OneActive(Step(w, e)) <==> !Crowds(w, e)
  {
    hide Step, LooksUp, Enabled;
    LookingActivity(w, e);
    ActiveBefore(w, e);
    if Crowds(w, e) {
      var id :| Stays(w, e, id) && Activates(w, e) != Some(id);
      assert id in Step(w, e).seat.members && Step(w, e).store[id].active;
    }
  }

  /** Nobody comes to the seat active, and only the one removed leaves it. */
  lemma ActiveBefore(w: World, e: SeatEvent)
    requires Wf(w) && Enabled(w, e) && (e.VtChanged? || e.Added? || e.Removed?)
    ensures var l := Looking(w, e);
      && l.seat.members <= l.store.Keys
      && forall id :: id in l.seat.members && l.store[id].active && w.seat.active != Some(id) <==> Stays(w, e, id)
    ensures w.seat.kind == Static ==> Activates(w, e) == e.found
    ensures var l := Looking(w, e);
      forall id :: id in l.seat.members && l.store[id].active ==> id in w.seat.members && w.store[id].active
  {
    hide LooksUp;
  }

  lemma RequestOneActive(w: World, e: SeatEvent)
    requires Wf(w) && Enabled(w, e) && OneActive(w) && e.Requested? && Wf(Step(w, e))
    ensures OneActive(Step(w, e)) <==> !Crowds(w, e)
  {
    hide Activate, Activates;
    ActivatesItself(w, e);
    ActivateActivity(w, e);
    if Crowds(w, e) {
      var id :| Stays(w, e, id) && Activates(w, e) != Some(id);
      assert Step(w, e).store[id].active && Step(w, e).store[e.id].active;
    }
  }

  lemma ActivatesItself(w: World, e: SeatEvent)
    requires e.Requested? && e.id in w.store
    ensures Activates(w, e).Some? ==> Activates(w, e) == Some(e.id)
  {
  }

  lemma SessionOneActive(w: World, e: SeatEvent)
    requires Wf(w) && Enabled(w, e) && OneActive(w) && e.OnSession? && Wf(Step(w, e))
    ensures OneActive(Step(w, e)) && !Crowds(w, e)
  {
    hide SessionSpec.Step;
    StepFrame(w.store[e.id], e.event);
  }

  ghost predicate NeverCrowds(w: World, es: seq<SeatEvent>)
    requires Wf(w) && Legal(w, es)
    decreases |es|
  {
    es == [] ||
    var n := |es| - 1;
    NeverCrowds(w, es[..n]) && !Crowds(Run(w, es[..n]), es[n])
  }

  ghost predicate OneActiveThroughout(w: World, es: seq<SeatEvent>)
    requires Wf(w) && Legal(w, es)
    decreases |es|
  {
    OneActive(Run(w, es)) && (es != [] ==> OneActiveThroughout(w, es[..|es| - 1]))
  }

  lemma {:induction false} NeverCrowdsHasOne(w: World, es: seq<SeatEvent>)
    requires Wf(w) && OneActive(w) && Legal(w, es) && NeverCrowds(w, es)
    ensures OneActive(Run(w, es))
    decreases |es|
  {
    hide Wf, OneActive, Step, Enabled, Crowds;
    if es != [] {
      NeverCrowdsHasOne(w, es[..|es| - 1]);
      StepOneActiveExactly(Run(w, es[..|es| - 1]), es[|es| - 1]);
    }
  }

  /** The words of the README taken literally, over any run: at most one session of the seat
      is active throughout if and only if none is ever activated while another, neither it
      nor the cached one, is active and stays. */
  lemma {:induction false} OneActiveExactly(w: World, es: seq<SeatEvent>)
    requires Wf(w) && OneActive(w) && Legal(w, es)
    ensures OneActiveThroughout(w, es) <==> NeverCrowds(w, es)
    decreases |es|
  {
    hide Wf, OneActive, Step, Enabled, Crowds;
    if es != [] {
      OneActiveExactly(w, es[..|es| - 1]);
      if NeverCrowds(w, es[..|es| - 1]) {
        NeverCrowdsHasOne(w, es[..|es| - 1]);
        StepOneActiveExactly(Run(w, es[..|es| - 1]), es[|es| - 1]);
      }
    }
  }

  /** A run that never strays never does: at most one is active throughout. */
  lemma {:induction false} ExclusiveHasOne(w: World, es: seq<SeatEvent>)
    requires Safe(w) && w.vt < UINT_RANGE && Legal(w, es) && NeverStrays(w, es)
    ensures OneActiveThroughout(w, es)
    decreases |es|
  {
    hide AllInv, Cached, Step, Enabled, StrayActivation;
    RunStaysSafe(w, es);
    if es != [] {
      ExclusiveHasOne(w, es[..|es| - 1]);
    }
  }

  /** One stray request alone leaves one session active, which is not the cached one; it
      takes a second activation to make two. */
  lemma StrayAlone(w: World, id: Id, switched: bool, kernel: Kernel)
    requires Safe(w) && id in w.seat.members && StrayActivation(w, id)
    ensures var r := Step(w, Requested(id, switched, kernel));
      Wf(r) && OneActive(r) && !Exclusive(r) && r.store[id].active && r.seat.active != Some(id)
  {
    hide Activate, StrayActivation;
    ActivateExact(w, id, switched, kernel);
    ActivateFrame(w, id, switched, kernel);
    StepOneActiveExactly(w, Requested(id, switched, kernel));
    NotCached(w, id);
  }

  lemma NotCached(w: World, id: Id)
    requires id in w.store && StrayActivation(w, id)
    ensures w.seat.active != Some(id)
  {
  }

  // ----- the cache and the lookup

  lemma StepKeepsCached(w: World, e: SeatEvent)
    requires Wf(w) && Cached(w) && Enabled(w, e)
    ensures Wf(Step(w, e)) && Cached(Step(w, e))
  {
    hide Step, IsLookup;
    StepKeepsWf(w, e);
    var r := Step(w, e);
    if e.VtChanged? || e.Added? || e.Removed? {
      var l := Looking(w, e);
      LookingActivity(w, e);
      if w.seat.kind == Static {
        LookupReadsInfo(l.store, r.store, r.seat.members, DeviceAt(r, r.vt), e.found);
      }
    } else {
      OthersKeepInfo(w, e);
      LookupReadsInfo(w.store, r.store, r.seat.members, DeviceAt(r, r.vt), w.seat.active);
    }
  }

  lemma OthersKeepInfo(w: World, e: SeatEvent)
    requires Wf(w) && Enabled(w, e) && (e.Requested? || e.OnSession?)
    ensures var r := Step(w, e);
      && r.seat == w.seat && r.vt == w.vt && r.platform == w.platform && r.store.Keys == w.store.Keys
      && forall id :: id in w.store ==> r.store[id].info == w.store[id].info
  {
    hide Activate, SessionSpec.Step;
    match e {
      case Requested(_, _, _) => ActivateActivity(w, e);
      case OnSession(id, event) => StepFrame(w.store[id], event);
    }
  }

  /** In every run, whatever goes wrong, the cached session is what a lookup for the current
      VT finds. */
  lemma {:induction false} CacheFollowsLookup(w: World, es: seq<SeatEvent>)
    requires Wf(w) && Cached(w) && Legal(w, es)
    ensures Cached(Run(w, es))
    decreases |es|
  {
    hide Wf, Cached, Step, Enabled;
    if es != [] {
      CacheFollowsLookup(w, es[..|es| - 1]);
      StepKeepsCached(Run(w, es[..|es| - 1]), es[|es| - 1]);
    }
  }

  // ----- a run that breaks the promise

  /** A session on a console of its own naming. */
  function On(num: nat, time: string): SessionState {
    NewSession(SessionInfo(1000, LinuxName(num), "", "", "", num, time), true)
  }

  /** Two sessions on console 1 and one on console 2 are added to a seat whose VT is 1,
      the younger on console 1 is activated, and the VT changes to 2. */
  function SharedConsole(): seq<SeatEvent> {
    [AddedOn("a", 1, "1"), AddedOn("b", 1, "2"), AddedOn("c", 2, "3"),
     Requested("b", true, {}), VtChanged(2, Some("c"), {})]
  }

  lemma AddFacts(w: World, e: SeatEvent)
    requires Safe(w) && w.seat.kind == Static && e.Added? && Enabled(w, e)
    ensures var r := Step(w, e);
      && Safe(r) && r.seat == SeatState(Static, w.seat.members + {e.id}, e.found)
      && r.vt == w.vt && r.platform == w.platform && r.store[e.id].info == e.session.info
      && forall id :: id in w.seat.members ==> r.store[id].info == w.store[id].info
  {
    hide LooksUp;
    var a := Attach(w, e.id, e.session, e.seatId);
    AddKeepsSafe(w, e);
    FoundIsMember(a, e.found);
    assert AllInv(a.store, a.seat.members);
    ChangeActiveKeeps(a, a.seat.members, e.found, e.kernel);
  }

  /** On Linux, with no session naming an X11 device, the oldest on the console is found. */
  lemma FoundOn(w: World, num: nat, id: Id)
    requires w.platform == Linux && num < UINT_RANGE && w.seat.members <= w.store.Keys && id in w.seat.members
    requires w.store[id].info.displayDevice == LinuxName(num)
    requires forall m :: m in w.seat.members ==> w.store[m].info.x11DisplayDevice == ""
    requires forall m :: m in w.seat.members && w.store[m].info.displayDevice == LinuxName(num) ==>
               StrLe(w.store[id].info.creationTime, w.store[m].info.creationTime)
    ensures LooksUp(w, num, Some(id))
  {
    assert LinuxName(num) != "";
    assert id in Candidates(w.store, w.seat.members, DeviceAt(w, num));
  }

  lemma OtherConsole()
    ensures LinuxName(1) != LinuxName(2) && LinuxNum(LinuxName(1)) == Some(1) && LinuxNum(LinuxName(2)) == Some(2)
  {
    LinuxRoundTrip(1);
    LinuxRoundTrip(2);
  }

  /** "a" is on console 1 and nobody is older. */
  ghost predicate OldestIsA(store: map<Id, SessionState>, members: set<Id>)
    requires members <= store.Keys
  {
    && "a" in members && store["a"].info == On(1, "1").info
    && forall m :: m in members ==> store[m].info.x11DisplayDevice == "" && StrLe("1", store[m].info.creationTime)
  }

  /** One more is added to a seat at VT 1, and "a" found. */
  lemma AddOn(w: World, id: Id, num: nat, time: string)
    requires Safe(w) && id !in w.store && w.platform == Linux && w.seat.kind == Static && w.vt == 1
    requires Wf(w) && var a := Attach(w, id, On(num, time), "seat0"); OldestIsA(a.store, a.seat.members)
    ensures Enabled(w, AddedOn(id, num, time))
    ensures var r := Step(w, AddedOn(id, num, time));
      && Safe(r) && Wf(r) && r.vt == 1 && r.platform == Linux && r.store.Keys == w.store.Keys + {id}
      && r.seat == SeatState(Static, w.seat.members + {id}, Some("a"))
      && r.store[id].info == On(num, time).info && OldestIsA(r.store, r.seat.members)
      && forall m :: m in w.seat.members ==> r.store[m].info == w.store[m].info
  {
    hide Safe, Step, LinuxName, StrLe, LooksUp;
    var e, a := AddedOn(id, num, time), Attach(w, id, On(num, time), "seat0");
    FoundOn(a, 1, "a");
    AddFacts(w, e);
    StoreGrows(w, e);
    WfOf(Step(w, e));
  }

  function AddedOn(id: Id, num: nat, time: string): SeatEvent {
    Added(id, On(num, time), "seat0", Some("a"), {})
  }

  /** The three are added: the oldest on console 1 is cached. */
  lemma SharedConsoleAdded() returns (w: World)
    ensures var w0, es := EmptySeat(Linux, 1, Static), SharedConsole()[..3]; Legal(w0, es) && w == Run(w0, es)
    ensures Safe(w) && w.platform == Linux && w.vt == 1 && w.seat == SeatState(Static, {"a", "b", "c"}, Some("a"))
    ensures w.store["b"].info == On(1, "2").info && w.store["c"].info == On(2, "3").info
    ensures forall m :: m in w.seat.members ==> w.store[m].info.x11DisplayDevice == ""
    ensures Wf(w) && w.store["a"].info.displayDevice == LinuxName(1)
  {
    hide Safe, Step, LinuxName, StrLe, Run, Legal, Enabled;
    var es, w0 := SharedConsole(), EmptySeat(Linux, 1, Static);
    assert es[..3] == es[..2] + [es[2]];
    Ages();
    var w2 := TwoAdded();
    AddOn(w2, "c", 2, "3");
    RunOneMore(w0, es[..2], es[2]);
    w := Step(w2, es[2]);
  }

  lemma TwoAdded() returns (w: World)
    ensures var w0, es := EmptySeat(Linux, 1, Static), SharedConsole()[..2]; Legal(w0, es) && w == Run(w0, es)
    ensures Safe(w) && Wf(w) && w.platform == Linux && w.vt == 1 && w.seat == SeatState(Static, {"a", "b"}, Some("a"))
    ensures w.store.Keys == {"a", "b"} && OldestIsA(w.store, w.seat.members) && w.store["b"].info == On(1, "2").info
  {
    hide Safe, Step, LinuxName, StrLe, Run, Legal, Enabled;
    var es, w0 := SharedConsole(), EmptySeat(Linux, 1, Static);
    assert es[..1] == [] + [es[0]] && es[..2] == es[..1] + [es[1]];
    NobodyIsSafe(w0);
    NothingRun(w0);
    Ages();
    AddOn(w0, "a", 1, "1");
    RunOneMore(w0, [], es[0]);
    var w1 := Step(w0, es[0]);
    AddOn(w1, "b", 1, "2");
    RunOneMore(w0, es[..1], es[1]);
    w := Step(w1, es[1]);
  }

  lemma NobodyIsSafe(w: World)
    requires w.seat == SeatState(Static, {}, None)
    ensures Safe(w)
  {
  }

  lemma WfOf(w: World)
    requires Safe(w)
    ensures Wf(w)
  {
  }

  lemma StoreGrows(w: World, e: SeatEvent)
    requires Wf(w) && e.Added? && Enabled(w, e)
    ensures Step(w, e).store.Keys == w.store.Keys + {e.id}
  {
  }

  lemma Ages()
    ensures StrLe("1", "1") && StrLe("1", "2") && StrLe("1", "3") && StrLe("3", "3")
  {
    StrLeTotal("1", "1");
    StrLeTotal("3", "3");
  }

  /** Both the session activated and the one on console 2 are then marked active. */
  lemma TwoActiveSessions()
    ensures var w, es := EmptySeat(Linux, 1, Static), SharedConsole();
      && Legal(w, es)
      && var r := Run(w, es);
         "b" in r.seat.members && "c" in r.seat.members && r.store["b"].active && r.store["c"].active
  {
    hide Safe, Step, Enabled, LinuxName, Run, Legal, On;
    var es, w0 := SharedConsole(), EmptySeat(Linux, 1, Static);
    var w := SharedConsoleAdded();
    assert es[..4] == es[..3] + [es[3]] && es == es[..4] + [es[4]];
    StrayThenChange(w);
    RunOneMore(w0, es[..3], es[3]);
    RunOneMore(w0, es[..4], es[4]);
    StrayStaysActive(Step(w, es[3]), "b", 2, "c", {});
  }

  lemma StrayThenChange(w: World)
    requires Safe(w) && w.platform == Linux && w.vt == 1 && w.seat == SeatState(Static, {"a", "b", "c"}, Some("a"))
    requires Wf(w) && w.store["b"].info == On(1, "2").info && w.store["c"].info == On(2, "3").info
    requires forall m :: m in w.seat.members ==> w.store[m].info.x11DisplayDevice == ""
    requires w.store["a"].info.displayDevice == LinuxName(1)
    ensures Enabled(w, Requested("b", true, {}))
    ensures var r := Step(w, Requested("b", true, {}));
      && Wf(r) && r.seat == w.seat && r.store["b"].active && Enabled(r, VtChanged(2, Some("c"), {}))
  {
    hide Safe, Activate, LinuxName, LooksUp;
    OtherConsole();
    Ages();
    assert StrayActivation(w, "b");
    ActivateFrame(w, "b", true, {});
    FoundOn(Step(w, Requested("b", true, {})), 2, "c");
  }
}
