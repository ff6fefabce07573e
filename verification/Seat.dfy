/** The seat object of ck-seat.c, updated in place. Sessions are shared objects: the seat
    holds the ones attached to it out of a table of all sessions, `all`, and each method
    is proved against its function in SeatSpec over that whole table. */
module Seat {
  import opened Text
  import opened Console
  import opened SessionSpec
  import opened SeatSpec
  import opened Session

  type Table = map<Id, Session>

  ghost function DevicesOf(all: Table): (ds: set<Device>)
    reads all.Values
    ensures forall k :: k in all ==> forall d :: d in all[k].devices ==> d in ds
  {
    set k, d | k in all && d in all[k].devices :: d
  }

  /** Every session is listed under its own id. */
  ghost predicate ValidTable(all: Table)
    reads all.Values
  {
    forall k :: k in all ==> all[k].id == k && all[k].Valid()
  }

  ghost function Store(all: Table): map<Id, SessionState>
    reads all.Values, DevicesOf(all)
  {
    map k | k in all :: all[k].View()
  }

  function IdOf(session: Session?): Option<Id> {
    if session == null then None else Some(session.id)
  }

  /** ck_session_set_active, seen from the table of all sessions */
  method SetActiveIn(ghost all: Table, session: Session, active: bool, force: bool, kernel: Kernel)
    requires ValidTable(all) && session in all.Values
    modifies session`active, session`timerArmed, session`sent, session.devices
    ensures ValidTable(all)
    ensures Store(all) ==
      old(Store(all))[session.id := SessionSpec.SetActive(old(session.View()), active, force, kernel)]
  {
    hide SessionSpec.SetActive;
    assert all[session.id] == session;
    session.SetActive(active, force, kernel);
    forall k | k in all && k != session.id ensures all[k].View() == old(all[k].View()) {
      assert all[k] != session;
      assert forall i :: 0 <= i < |all[k].devices| ==> all[k].devices[i].owner != session;
    }
  }

  lemma KeyOf(all: Table, session: Session)
    requires ValidTable(all) && session in all.Values
    ensures session.id in all && all[session.id] == session
  {
  }

  /** ck_session_set_seat_id, seen from the table of all sessions */
  method SetSeatIdIn(ghost all: Table, session: Session, seatId: Id)
    requires ValidTable(all) && session in all.Values
    modifies session`reg
    ensures ValidTable(all) && DevicesOf(all) == old(DevicesOf(all))
    ensures var s := old(session.View());
      Store(all) == old(Store(all))[session.id := s.(reg := s.reg.(seatId := Some(seatId)))]
  {
    assert all[session.id] == session;
    session.SetSeatId(seatId);
    forall k | k in all && k != session.id ensures all[k].View() == old(all[k].View()) {
      assert all[k] != session;
    }
  }

  class Seat {
    const id: Id
    const kind: SeatKind
    const platform: Platform
    var sessions: Table
    var activeSession: Session?
    var vt: nat  // the VT monitor's current number

    /** The seat's sessions are sessions of the table. */
    ghost predicate Within(all: Table)
      reads this
    {
      && (forall k :: k in sessions ==> k in all && all[k] == sessions[k])
      && (activeSession != null ==> activeSession in all.Values)
    }

    /** What concerns the seat's own fields. */
    ghost predicate Sound(all: Table)
      reads this
    {
      && Within(all) && vt < UINT_RANGE
      && (activeSession != null ==> activeSession in sessions.Values)
      && (kind == Dynamic ==> activeSession == null)
    }

    ghost predicate Valid(all: Table)
      reads this, all.Values
    {
      ValidTable(all) && Sound(all)
    }

    ghost function State(): SeatState
      reads this
    {
      SeatState(kind, sessions.Keys, IdOf(activeSession))
    }

    ghost function View(all: Table): World
      reads this, all.Values, DevicesOf(all)
    {
      World(platform, vt, State(), Store(all))
    }

    constructor (id: Id, kind: SeatKind, platform: Platform, vt: nat)
      ensures this.id == id && this.kind == kind && this.platform == platform && this.vt == vt
      ensures State() == SeatState(kind, {}, None) && sessions == map[]
    {
      this.id, this.kind, this.platform, this.vt := id, kind, platform, vt;
      sessions, activeSession := map[], null;
    }

    /** hash_table_find_all: the matching sessions, in hash order */
    method FindAll(x11: bool, device: Option<string>) returns (list: seq<Session>)
      ensures forall k :: k in sessions ==>
                (sessions[k] in list <==>
                 if x11 then MatchesX11(sessions[k].View(), device) else MatchesDisplay(sessions[k].View(), device))
      ensures forall s :: s in list ==> s in sessions.Values
    {
      list := [];
      var rest := sessions.Keys;
      while rest != {}
        invariant rest <= sessions.Keys
        invariant forall k :: k in sessions && k !in rest ==>
                    (sessions[k] in list <==>
                     if x11 then MatchesX11(sessions[k].View(), device) else MatchesDisplay(sessions[k].View(), device))
        invariant forall s :: s in list ==> exists k :: k in sessions && k !in rest && sessions[k] == s
        decreases |rest|
      {
        var k :| k in rest;
        var s := sessions[k];
        if device == Some(if x11 then s.info.x11DisplayDevice else s.info.displayDevice) {
          list := [s] + list;
        }
        rest := rest - {k};
      }
    }

    /** find_oldest_session */
    method FindOldestSession(list: seq<Session>) returns (oldest: Session)
      requires list != []
      ensures oldest in list
      ensures forall s :: s in list ==> StrLe(oldest.info.creationTime, s.info.creationTime)
    {
      oldest := list[0];
      StrLeTotal(oldest.info.creationTime, oldest.info.creationTime);
      for i := 1 to |list|
        invariant oldest in list
        invariant forall j :: 0 <= j < i ==> StrLe(oldest.info.creationTime, list[j].info.creationTime)
      {
        StrLeTotal(oldest.info.creationTime, list[i].info.creationTime);
        if !StrLe(oldest.info.creationTime, list[i].info.creationTime) {
          forall j | 0 <= j < i ensures StrLe(list[i].info.creationTime, list[j].info.creationTime) {
            StrLeTransitive(list[i].info.creationTime, oldest.info.creationTime, list[j].info.creationTime);
          }
          oldest := list[i];
          StrLeTotal(oldest.info.creationTime, oldest.info.creationTime);
        }
      }
    }

    /** The sessions a console belongs to. */
    method FindCandidates(ghost all: Table, device: Option<string>) returns (list: seq<Session>)
      requires ValidTable(all) && Within(all)
      ensures forall k :: k in sessions ==>
                (sessions[k] in list <==> k in Candidates(Store(all), sessions.Keys, device))
      ensures forall s :: s in list ==> s in sessions.Values
      ensures Candidates(Store(all), sessions.Keys, device) <= sessions.Keys
    {
      list := FindAll(true, device);
      ghost var x11 := set k | k in sessions && MatchesX11(Store(all)[k], device);
      if list == [] {
        assert x11 == {};
        list := FindAll(false, device);
      } else {
        assert list[0] in list && sessions[list[0].id] == list[0];
        assert list[0].id in x11;
      }
    }

    method FindSessionForDisplayDevice(ghost all: Table, device: Option<string>) returns (found: Session?)
      requires ValidTable(all) && Within(all)
      ensures found != null ==> found in sessions.Values
      ensures IsLookup(Store(all), sessions.Keys, device, IdOf(found))
      ensures found == null <==>
        forall s :: s in sessions.Values ==>
                      device != Some(s.info.x11DisplayDevice) && device != Some(s.info.displayDevice)
      ensures found != null ==>
        if exists s :: s in sessions.Values && device == Some(s.info.x11DisplayDevice) then
          && device == Some(found.info.x11DisplayDevice)
          && forall s :: s in sessions.Values && device == Some(s.info.x11DisplayDevice) ==>
                           StrLe(found.info.creationTime, s.info.creationTime)
        else
          && device == Some(found.info.displayDevice)
          && forall s :: s in sessions.Values && device == Some(s.info.displayDevice) ==>
                           StrLe(found.info.creationTime, s.info.creationTime)
    {
      hide StrLe, Candidates, IsLookup;
      found := LookUp(all, device);
      if device.Some? {
        LookupExactly(Store(all), sessions.Keys, device.value, IdOf(found));
      } else {
        LookupExactly(Store(all), sessions.Keys, "", IdOf(found));
      }
      assert forall s :: s in sessions.Values ==> s.id in sessions && Store(all)[s.id].info == s.info;
      assert forall k :: k in sessions ==> sessions[k] in sessions.Values && Store(all)[k].info == sessions[k].info;
    }

    /** find_session_for_display_device, as the specification says it */
    method LookUp(ghost all: Table, device: Option<string>) returns (found: Session?)
      requires ValidTable(all) && Within(all)
      ensures found != null ==> found in sessions.Values
      ensures IsLookup(Store(all), sessions.Keys, device, IdOf(found))
    {
      hide StrLe, Candidates;
      var list := FindCandidates(all, device);
      ghost var ids, store := Candidates(Store(all), sessions.Keys, device), Store(all);
      if list == [] {
        assert ids == {};
        return null;
      }
      assert list[0] in list;
      found := FindOldestSession(list);
      assert sessions[found.id] == found && found.id in ids;
      forall other | other in ids ensures StrLe(store[found.id].info.creationTime, store[other].info.creationTime) {
        assert sessions[other] in list;
      }
      assert Store(all) == store;
    }

    /** The first half of change_active_session: the old session is told. */
    method DropActive(ghost all: Table, kernel: Kernel)
      requires ValidTable(all) && Within(all) && activeSession != null
      modifies activeSession`active, activeSession`timerArmed, activeSession`sent, activeSession.devices
      ensures ValidTable(all) && Within(all)
      ensures View(all) == Drop(old(View(all)), kernel)
    {
      hide SessionSpec.SetActive;
      SetActiveIn(all, activeSession, false, true, kernel);
    }

    /** The second half: the new session is cached and told. */
    method GrantTo(ghost all: Table, session: Session?, kernel: Kernel)
      requires ValidTable(all) && Within(all)
      requires session != null ==> session in all.Values
      modifies this`activeSession, all.Values, DevicesOf(all)
      ensures ValidTable(all) && Within(all) && activeSession == session
      ensures forall k :: k in all ==> all[k].devices == old(all[k].devices)
      ensures View(all) == Grant(old(View(all)), IdOf(session), kernel)
    {
      hide SessionSpec.SetActive;
      activeSession := session;
      if session != null {
        assert session.id in all && all[session.id] == session;
        assert session.View() == old(session.View());
        SetActiveIn(all, session, true, true, kernel);
      }
    }

    /** change_active_session */
    method ChangeActiveSession(ghost all: Table, session: Session?, kernel: Kernel)
      requires ValidTable(all) && Within(all)
      requires session != null ==> session in all.Values
      modifies this`activeSession, all.Values, DevicesOf(all)
      ensures ValidTable(all) && Within(all) && activeSession == session
      ensures forall k :: k in all ==> all[k].devices == old(all[k].devices)
      ensures View(all) == ChangeActive(old(View(all)), IdOf(session), kernel)
    {
      hide SessionSpec.SetActive;
      if activeSession != session && activeSession != null {
        assert activeSession.id in all && all[activeSession.id] == activeSession;
        DropActive(all, kernel);
      }
      GrantTo(all, session, kernel);
    }

    /** update_active_vt; also returns what the lookup found */
    method UpdateActiveVt(ghost all: Table, num: nat, kernel: Kernel) returns (found: Session?)
      requires ValidTable(all) && Within(all) && kind == Static && num < UINT_RANGE
      modifies this`activeSession, all.Values, DevicesOf(all)
      ensures ValidTable(all) && Within(all) && activeSession == found
      ensures found != null ==> found in sessions.Values
      ensures forall k :: k in all ==> all[k].devices == old(all[k].devices)
      ensures IsLookup(old(Store(all)), sessions.Keys, Name(platform, num), IdOf(found))
      ensures View(all) == ChangeActive(old(View(all)), IdOf(found), kernel)
    {
      hide SessionSpec.SetActive, ChangeActive, IsLookup, Candidates;
      found := FindSessionForDisplayDevice(all, Name(platform, num));
      assert found != null ==> all[found.id] == found;
      ChangeActiveSession(all, found, kernel);
    }

    /** maybe_update_active_session */
    method MaybeUpdateActiveSession(ghost all: Table, kernel: Kernel) returns (found: Session?)
      requires ValidTable(all) && Within(all) && vt < UINT_RANGE
      modifies this`activeSession, all.Values, DevicesOf(all)
      ensures ValidTable(all) && Within(all)
      ensures kind == Static ==> activeSession == found && (found != null ==> found in sessions.Values)
      ensures kind == Dynamic ==> activeSession == old(activeSession)
      ensures forall k :: k in all ==> all[k].devices == old(all[k].devices)
      ensures IsUpdate(old(View(all)), IdOf(found), kernel, View(all))
    {
      hide ChangeActive, IsLookup, SessionSpec.SetActive;
      if kind != Static {
        return null;
      }
      found := UpdateActiveVt(all, vt, kernel);
    }

    /** active_vt_changed, together with the monitor's own update */
    method ActiveVtChanged(ghost all: Table, num: nat, kernel: Kernel) returns (found: Session?)
      requires Valid(all) && kind == Static && num < UINT_RANGE && num != vt
      modifies this`activeSession, this`vt, all.Values, DevicesOf(all)
      ensures Valid(all) && vt == num
      ensures forall k :: k in all ==> all[k].devices == old(all[k].devices)
      ensures IsUpdate(old(View(all)).(vt := num), IdOf(found), kernel, View(all))
    {
      hide IsUpdate;
      vt := num;
      assert Store(all) == old(Store(all));
      found := MaybeUpdateActiveSession(all, kernel);
    }

    /** ck_seat_add_session, for a session the table already lists */
    method AddSession(ghost all: Table, session: Session, kernel: Kernel) returns (found: Session?)
      requires Valid(all) && session in all.Values && session.id !in sessions
      modifies this`activeSession, this`sessions, all.Values, DevicesOf(all)
      ensures Valid(all) && sessions == old(sessions)[session.id := session]
      ensures forall k :: k in all ==> all[k].devices == old(all[k].devices)
      ensures IsUpdate(Attach(old(View(all)), session.id, old(session.View()), id), IdOf(found), kernel, View(all))
    {
      hide IsUpdate;
      TableAttach(all, session);
      found := MaybeUpdateActiveSession(all, kernel);
    }

    /** Lists the session and names the seat on it. */
    method TableAttach(ghost all: Table, session: Session)
      requires Valid(all) && session in all.Values && session.id !in sessions
      modifies this`sessions, session`reg
      ensures Valid(all) && sessions == old(sessions)[session.id := session]
      ensures View(all) == Attach(old(View(all)), session.id, old(session.View()), id)
    {
      hide ValidTable, Session.Valid;
      KeyOf(all, session);
      SetSeatIdIn(all, session, id);
      sessions := sessions[session.id := session];
      assert sessions.Keys == old(sessions).Keys + {session.id};
    }

    /** ck_seat_remove_session; false when the session is not attached */
    method RemoveSession(ghost all: Table, session: Session, kernel: Kernel) returns (removed: bool, found: Session?)
      requires Valid(all) && session in all.Values
      modifies this`activeSession, this`sessions, all.Values, DevicesOf(all)
      ensures Valid(all) && removed == (session.id in old(sessions))
      ensures sessions == old(sessions) - {session.id}
      ensures forall k :: k in all ==> all[k].devices == old(all[k].devices)
      ensures !removed ==> View(all) == old(View(all))
      ensures removed ==> IsUpdate(Detach(old(View(all)), session.id), IdOf(found), kernel, View(all))
    {
      hide IsUpdate;
      if session.id !in sessions {
        return false, null;
      }
      sessions := sessions - {session.id};
      assert sessions.Keys == old(sessions).Keys - {session.id};
      assert Store(all) == old(Store(all));
      found := MaybeUpdateActiveSession(all, kernel);
      removed := true;
    }

    /** "Let the old session know it's about to change." */
    method YieldTo(ghost all: Table, session: Session, kernel: Kernel)
      requires Valid(all) && session in all.Values
      modifies all.Values, DevicesOf(all)
      ensures Valid(all)
      ensures forall k :: k in all ==> all[k].devices == old(all[k].devices)
      ensures View(all) == Yield(old(View(all)), session.id, kernel)
    {
      hide SessionSpec.SetActive;
      assert session.id in all && all[session.id] == session;
      if activeSession != session && activeSession != null {
        assert all[activeSession.id] == activeSession;
        DropActive(all, kernel);
      }
    }

    /** "Ensure the session knows it's active", the cache left as it is. */
    method Mark(ghost all: Table, session: Session, kernel: Kernel)
      requires Valid(all) && session in all.Values
      modifies session`active, session`timerArmed, session`sent, session.devices
      ensures Valid(all)
      ensures var w := old(View(all));
        View(all) == Put(w, session.id, SessionSpec.SetActive(w.store[session.id], true, true, kernel))
    {
      hide SessionSpec.SetActive;
      assert session.id in all && all[session.id] == session;
      assert session.View() == Store(all)[session.id];
      SetActiveIn(all, session, true, true, kernel);
    }

    /** ck_seat_activate_session */
    method ActivateSession(ghost all: Table, session: Session, switched: bool, kernel: Kernel)
        returns (reply: ActivateReply)
      requires Valid(all) && session in all.Values
      modifies all.Values, DevicesOf(all)
      ensures Valid(all)
      ensures forall k :: k in all ==> all[k].devices == old(all[k].devices)
      ensures (View(all), reply) == Activate(old(View(all)), session.id, switched, kernel)
    {
      hide SessionSpec.SetActive;
      assert session.id in all && all[session.id] == session;
      if kind != Static {
        return NotSupported;
      }
      var device := session.info.x11DisplayDevice;
      if device == "" {
        device := session.info.displayDevice;
      }
      var num := Num(platform, device);
      if num.None? {
        return Failed;
      }
      YieldTo(all, session, kernel);
      if num.value == vt {
        Mark(all, session, kernel);
        return Activated;
      }
      return if switched then Activated else Failed;
    }
  }
}
