/** The inotify watch index of ck-file-monitor-inotify.c on values: which paths are watched
    under which descriptors, who has subscribed to them, and what is delivered to whom. */
module FileMonitorSpec {
  import opened Lists
  import opened Text

  datatype FileEvent = Access | Create | Delete | Change

  datatype Inotify = InAccess | InCreate | InMovedTo | InDelete | InDeleteSelf | InMovedFrom | InMoveSelf
    | InModify | InAttrib | InIgnored

  /** our_event_mask_to_inotify_mask */
  function InotifyMask(mask: set<FileEvent>): set<Inotify> {
    (if Access in mask then {InAccess} else {})
    + (if Create in mask then {InCreate, InMovedTo} else {})
    + (if Delete in mask then {InDelete, InDeleteSelf, InMovedFrom, InMoveSelf} else {})
    + (if Change in mask then {InModify, InAttrib} else {})
  }

  /** The kind handle_inotify_event reports for the kernel's mask. */
  function KindOf(mask: set<Inotify>): Option<FileEvent> {
    if InCreate in mask || InMovedTo in mask then Some(Create)
    else if InDelete in mask || InDeleteSelf in mask || InMovedFrom in mask || InMoveSelf in mask then Some(Delete)
    else if InModify in mask || InAttrib in mask then Some(Change)
    else if InAccess in mask then Some(Access)
    else None
  }

  /** The kernel reports one bit at a time, possibly with IN_IGNORED: it is one that was
      asked for exactly when the kind reported for it was. */
  lemma MaskRoundTrip(mask: set<FileEvent>, bit: Inotify, flags: set<Inotify>)
    requires flags <= {InIgnored} && bit != InIgnored
    ensures KindOf({bit} + flags).Some?
    ensures bit in InotifyMask(mask) <==> KindOf({bit} + flags).value in mask
  {
  }

  /** A watch under its path: its descriptor and its subscribers, newest first. */
  datatype Watching = Watching(wd: int, ids: seq<nat>)

  /** A subscription; the path is lost when the kernel drops the watch. */
  datatype Sub = Sub(mask: set<FileEvent>, path: Option<string>)

  datatype EventInfo = EventInfo(wd: int, event: FileEvent, name: Option<string>)

  /** One call of a subscriber's function. */
  datatype Call = Call(id: nat, event: FileEvent, path: string)

  /** watches is path_to_watch, wds is wd_to_watch by the path of the watch, subs is
      notifies. */
  datatype MonitorState = MonitorState(
    serial: nat, watches: map<string, Watching>, wds: map<int, string>, subs: map<nat, Sub>,
    events: seq<EventInfo>, removals: seq<int>, calls: seq<Call>)

  function Fresh(): MonitorState { MonitorState(1, map[], map[], map[], [], [], []) }

  // ----- the two indexes agree

  ghost predicate WatchOk(st: MonitorState, p: string)
    requires p in st.watches
  {
    var w := st.watches[p];
    && w.wd >= 0 && w.wd in st.wds && st.wds[w.wd] == p
    && w.ids != [] && Distinct(w.ids)
    && forall id :: id in w.ids <==> id in st.subs && st.subs[id].path == Some(p)
  }

  /** Each path watched has one descriptor and each descriptor one path; a subscriber is on
      a watch's list exactly when it points to that watch; no watch is without
      subscribers, and no subscriber points to a watch that is gone. */
  ghost predicate Consistent(st: MonitorState) {
    && (forall p :: p in st.watches ==> WatchOk(st, p))
    && (forall d :: d in st.wds ==> st.wds[d] in st.watches && st.watches[st.wds[d]].wd == d)
    && (forall id :: id in st.subs && st.subs[id].path.Some? ==> st.subs[id].path.value in st.watches)
  }

  // ----- subscribing

  const GUINT_RANGE: nat := 0x1_0000_0000

  /** ck_file_monitor_add_notify; wd is the kernel's answer. A path already watched keeps
      its watch and its descriptor. */
  function Add(st: MonitorState, path: string, mask: set<FileEvent>, wd: int): (MonitorState, nat) {
    if wd < 0 then (st, 0)
    else
      var id := st.serial;
      var known := path in st.watches;
      var w := if known then st.watches[path] else Watching(wd, []);
      (st.(serial := (id + 1) % GUINT_RANGE,
           watches := st.watches[path := w.(ids := [id] + w.ids)],
           wds := if known then st.wds else st.wds[wd := path],
           subs := st.subs[id := Sub(mask, Some(path))]), id)
  }

  /** g_slist_remove: the first occurrence */
  function Without(ids: seq<nat>, id: nat): seq<nat> {
    if ids == [] then [] else if ids[0] == id then ids[1..] else [ids[0]] + Without(ids[1..], id)
  }

  /** ck_file_monitor_remove_notify: the last subscriber takes the watch along. */
  function Remove(st: MonitorState, id: nat): MonitorState {
    if id !in st.subs then st
    else
      var path := st.subs[id].path;
      var st1 := st.(subs := st.subs - {id});
      if path.None? || path.value !in st.watches then st1
      else
        var w := st.watches[path.value];
        var ids := Without(w.ids, id);
        if ids == [] then st1.(watches := st.watches - {path.value}, wds := st.wds - {w.wd})
        else st1.(watches := st.watches[path.value := w.(ids := ids)])
  }

  // ----- what the kernel reports

  /** handle_inotify_event, for a descriptor still known */
  function Report(st: MonitorState, wd: int, mask: set<Inotify>, name: Option<string>): MonitorState {
    if wd !in st.wds then st
    else
      var kind := KindOf(mask);
      st.(events := if kind.Some? then st.events + [EventInfo(wd, kind.value, name)] else st.events,
          removals := if InIgnored in mask then st.removals + [wd] else st.removals)
  }

  /** One round of emit_removals_in_idle */
  function Ignore(st: MonitorState, wd: int): MonitorState {
    if wd !in st.wds || st.wds[wd] !in st.watches then st
    else
      var p := st.wds[wd];
      var w := st.watches[p];
      st.(watches := st.watches - {p}, wds := st.wds - {wd},
          subs := map id | id in st.subs :: if id in w.ids then st.subs[id].(path := None) else st.subs[id])
  }

  function IgnoreAll(st: MonitorState, wds: seq<int>): MonitorState {
    if wds == [] then st else Ignore(IgnoreAll(st, wds[..|wds| - 1]), wds[|wds| - 1])
  }

  /** emit_removals_in_idle */
  function EmitRemovals(st: MonitorState): MonitorState {
    IgnoreAll(st, st.removals).(removals := [])
  }

  /** path without the slashes it ends in */
  function Trimmed(path: string): (r: string)
    ensures |r| <= |path| && path[..|r|] == r
    ensures forall i :: |r| <= i < |path| ==> path[i] == '/'
    ensures r != "" ==> r[|r| - 1] != '/'
  {
    if path != "" && path[|path| - 1] == '/' then Trimmed(path[..|path| - 1]) else path
  }

  /** g_build_filename, for a name as the kernel gives it: one slash between the two. */
  function FullPath(path: string, name: Option<string>): string {
    match name
    case None => path
    case Some(n) => if Trimmed(path) == "" then path + n else Trimmed(path) + "/" + n
  }

  /** The calls made for the subscribers listed, in list order. */
  function CallsTo(st: MonitorState, path: string, ids: seq<nat>, e: EventInfo): seq<Call> {
    if ids == [] then []
    else
      var n := |ids| - 1;
      CallsTo(st, path, ids[..n], e)
      + (if ids[n] in st.subs && e.event in st.subs[ids[n]].mask
         then [Call(ids[n], e.event, FullPath(path, e.name))] else [])
  }

  function CallsFor(st: MonitorState, e: EventInfo): seq<Call> {
    if e.wd !in st.wds || st.wds[e.wd] !in st.watches then []
    else CallsTo(st, st.wds[e.wd], st.watches[st.wds[e.wd]].ids, e)
  }

  function AllCallsFor(st: MonitorState, es: seq<EventInfo>): seq<Call> {
    if es == [] then [] else AllCallsFor(st, es[..|es| - 1]) + CallsFor(st, es[|es| - 1])
  }

  /** emit_events_in_idle, the functions called changing no subscription */
  function EmitEvents(st: MonitorState): MonitorState {
    st.(calls := st.calls + AllCallsFor(st, st.events), events := [])
  }

  // ----- every operation keeps the indexes in agreement

  /** The id about to be handed out is not that of an attached subscriber, and a path not
      yet watched comes under a descriptor not in use: the kernel answers with one that is
      when the path is another name of an object already watched. */
  predicate CanAdd(st: MonitorState, path: string, wd: int) {
    && (path in st.watches || wd !in st.wds)
    && (st.serial in st.subs ==> st.subs[st.serial].path.None?)
  }

  /** A subscription made keeps the indexes in agreement if and only if that holds. */
  lemma AddKeepsExactly(st: MonitorState, path: string, mask: set<FileEvent>, wd: int)
    requires Consistent(st) && wd >= 0
    ensures Consistent(Add(st, path, mask, wd).0) <==> CanAdd(st, path, wd)
  {
    var r := Add(st, path, mask, wd).0;
    if CanAdd(st, path, wd) {
      AddKeeps(st, path, mask, wd);
    } else if path !in st.watches && wd in st.wds {
      assert st.wds[wd] in st.watches && WatchOk(st, st.wds[wd]);
      assert !WatchOk(r, st.wds[wd]);
    } else {
      var p := st.subs[st.serial].path.value;
      assert p in st.watches && WatchOk(st, p);
      assert st.serial in st.watches[p].ids;
      if p == path {
        var ids := st.watches[p].ids;
        var i :| 0 <= i < |ids| && ids[i] == st.serial;
        assert r.watches[p].ids[0] == r.watches[p].ids[i + 1];
      }
      assert !WatchOk(r, p);
    }
  }

  lemma AddKeeps(st: MonitorState, path: string, mask: set<FileEvent>, wd: int)
    requires Consistent(st) && wd >= 0 && CanAdd(st, path, wd)
    ensures Consistent(Add(st, path, mask, wd).0)
  {
    var r := Add(st, path, mask, wd).0;
    forall p | p in r.watches ensures WatchOk(r, p) {
      assert p in st.watches ==> WatchOk(st, p);
    }
    assert path in st.watches ==> WatchOk(st, path);
  }

  lemma {:induction false} WithoutRemoves(ids: seq<nat>, id: nat)
    requires Distinct(ids)
    ensures var r := Without(ids, id);
      Distinct(r) && forall x :: x in r <==> x in ids && x != id
  {
    if ids != [] {
      var rest := ids[1..];
      assert forall x :: x in ids <==> x == ids[0] || x in rest;
      assert ids[0] !in rest;
      if ids[0] != id {
        WithoutRemoves(rest, id);
        DistinctCons(ids[0], Without(rest, id));
      }
    }
  }

  lemma DistinctCons(x: nat, ids: seq<nat>)
    requires Distinct(ids) && x !in ids
    ensures Distinct([x] + ids)
  {
  }

  lemma RemoveKeeps(st: MonitorState, id: nat)
    requires Consistent(st)
    ensures Consistent(Remove(st, id)) && id !in Remove(st, id).subs
  {
    if id in st.subs && st.subs[id].path.Some? {
      var path := st.subs[id].path.value;
      assert WatchOk(st, path);
      WithoutRemoves(st.watches[path].ids, id);
      var r := Remove(st, id);
      var left := Without(st.watches[path].ids, id);
      forall p | p in r.watches ensures WatchOk(r, p) {
        assert WatchOk(st, p);
      }
      forall x | x in r.subs && r.subs[x].path == Some(path) ensures path in r.watches {
        assert x in left;
      }
    } else {
      var r := Remove(st, id);
      forall p | p in r.watches ensures WatchOk(r, p) {
        assert WatchOk(st, p);
      }
    }
  }

  lemma IgnoreKeeps(st: MonitorState, wd: int)
    requires Consistent(st)
    ensures Consistent(Ignore(st, wd)) && wd !in Ignore(st, wd).wds
  {
    if wd in st.wds {
      var p := st.wds[wd];
      assert WatchOk(st, p);
      var r := Ignore(st, wd);
      forall q | q in r.watches ensures WatchOk(r, q) {
        assert WatchOk(st, q);
      }
    }
  }

  lemma {:induction false} IgnoreAllKeeps(st: MonitorState, wds: seq<int>)
    requires Consistent(st)
    ensures Consistent(IgnoreAll(st, wds))
  {
    if wds != [] {
      IgnoreAllKeeps(st, wds[..|wds| - 1]);
      IgnoreKeeps(IgnoreAll(st, wds[..|wds| - 1]), wds[|wds| - 1]);
    }
  }

  // ----- delivery

  /** The subscriber is attached to the watch the event is for, and asked for its kind. */
  predicate Wants(st: MonitorState, id: nat, e: EventInfo) {
    && id in st.subs && st.subs[id].path.Some? && st.subs[id].path.value in st.watches
    && st.watches[st.subs[id].path.value].wd == e.wd && e.event in st.subs[id].mask
  }

  lemma {:induction false} CallsToExactly(st: MonitorState, path: string, ids: seq<nat>, e: EventInfo)
    requires Distinct(ids)
    ensures var cs := CallsTo(st, path, ids, e);
      && (forall i, j :: 0 <= i < j < |cs| ==> cs[i].id != cs[j].id)
      && (forall c :: c in cs <==> c.id in ids && c.id in st.subs && e.event in st.subs[c.id].mask
                                   && c == Call(c.id, e.event, FullPath(path, e.name)))
  {
    if ids != [] {
      var n := |ids| - 1;
      CallsToExactly(st, path, ids[..n], e);
      assert ids == ids[..n] + [ids[n]];
      assert ids[n] !in ids[..n];
      assert forall i :: 0 <= i < |CallsTo(st, path, ids[..n], e)| ==> CallsTo(st, path, ids[..n], e)[i].id in ids[..n];
    }
  }

  /** An event is delivered to exactly the subscribers that want it, once each, with the
      path they subscribed to. */
  lemma DeliversExactly(st: MonitorState, e: EventInfo)
    requires Consistent(st)
    ensures var cs := CallsFor(st, e);
      && (forall i, j :: 0 <= i < j < |cs| ==> cs[i].id != cs[j].id)
      && (forall c :: c in cs <==> Wants(st, c.id, e)
                                   && c == Call(c.id, e.event, FullPath(st.subs[c.id].path.value, e.name)))
  {
    if e.wd in st.wds {
      var p := st.wds[e.wd];
      assert WatchOk(st, p);
      CallsToExactly(st, p, st.watches[p].ids, e);
      forall id ensures Wants(st, id, e) <==> id in st.watches[p].ids && e.event in st.subs[id].mask {
        if Wants(st, id, e) {
          assert WatchOk(st, st.subs[id].path.value);
        }
      }
    } else {
      forall id ensures !Wants(st, id, e) {
        if id in st.subs && st.subs[id].path.Some? && st.subs[id].path.value in st.watches {
          assert WatchOk(st, st.subs[id].path.value);
        }
      }
    }
  }

  /** What becomes of an attached subscriber when one watch is dropped. */
  lemma IgnoreDetaches(st: MonitorState, wd: int, id: nat)
    requires Consistent(st) && id in st.subs
    ensures var r := Ignore(st, wd);
      && id in r.subs && r.subs[id].mask == st.subs[id].mask
      && (st.subs[id].path.None? ==> r.subs[id].path.None?)
      && (st.subs[id].path.Some? ==>
            var p := st.subs[id].path.value;
            && (st.watches[p].wd == wd ==> r.subs[id].path.None?)
            && (st.watches[p].wd != wd ==>
                r.subs[id].path == Some(p) && p in r.watches && r.watches[p] == st.watches[p]))
  {
    if wd in st.wds {
      assert WatchOk(st, st.wds[wd]);
    }
    if st.subs[id].path.Some? {
      assert WatchOk(st, st.subs[id].path.value);
    }
  }

  lemma {:induction false} IgnoreAllDetaches(st: MonitorState, wds: seq<int>, id: nat)
    requires Consistent(st) && id in st.subs && st.subs[id].path.Some?
    ensures var r := IgnoreAll(st, wds); var p := st.subs[id].path.value;
      && id in r.subs
      && (st.watches[p].wd in wds ==> r.subs[id].path.None?)
      && (st.watches[p].wd !in wds ==>
          r.subs[id].path == Some(p) && p in r.watches && r.watches[p].wd == st.watches[p].wd)
  {
    hide WatchOk, Ignore;
    if wds != [] {
      var n := |wds| - 1;
      IgnoreAllDetaches(st, wds[..n], id);
      IgnoreAllKeeps(st, wds[..n]);
      IgnoreDetaches(IgnoreAll(st, wds[..n]), wds[n], id);
      assert wds == wds[..n] + [wds[n]];
    }
  }

  /** A subscriber outlives the removals waiting exactly when the descriptor of its watch is
      not among them. */
  lemma OutlivesRemovalsExactly(st: MonitorState, id: nat)
    requires Consistent(st) && id in st.subs && st.subs[id].path.Some?
    ensures st.subs[id].path.value in st.watches && id in EmitRemovals(st).subs
    ensures EmitRemovals(st).subs[id].path.Some? <==> st.watches[st.subs[id].path.value].wd !in st.removals
  {
    IgnoreAllDetaches(st, st.removals, id);
  }

  /** So a subscription to a path the kernel has just dropped, made before the removal has
      been carried out, gets the old watch, and is lost with it: it is told of nothing. */
  lemma SubscribedTooSoon(st: MonitorState, path: string, mask: set<FileEvent>, wd: int, e: EventInfo)
    requires Consistent(st) && wd >= 0 && CanAdd(st, path, wd)
    requires path in st.watches && st.watches[path].wd in st.removals
    ensures var (added, id) := Add(st, path, mask, wd);
      var r := EmitRemovals(added);
      id in r.subs && r.subs[id] == Sub(mask, None) && !Wants(r, id, e)
  {
    var (added, id) := Add(st, path, mask, wd);
    AddKeeps(st, path, mask, wd);
    OutlivesRemovalsExactly(added, id);
    KeepsMask(added, added.removals, id);
  }

  lemma {:induction false} KeepsMask(st: MonitorState, wds: seq<int>, id: nat)
    requires id in st.subs
    ensures id in IgnoreAll(st, wds).subs && IgnoreAll(st, wds).subs[id].mask == st.subs[id].mask
  {
    if wds != [] {
      KeepsMask(st, wds[..|wds| - 1], id);
    }
  }

  // ----- runs

  datatype MonitorEvent =
    | Subscribed(path: string, mask: set<FileEvent>, wd: int)
    | Unsubscribed(id: nat)
    | Reported(wd: int, flags: set<Inotify>, name: Option<string>)
    | RemovalsEmitted
    | EventsEmitted

  function Step(st: MonitorState, e: MonitorEvent): MonitorState {
    match e
    case Subscribed(path, mask, wd) => Add(st, path, mask, wd).0
    case Unsubscribed(id) => Remove(st, id)
    case Reported(wd, flags, name) => Report(st, wd, flags, name)
    case RemovalsEmitted => EmitRemovals(st)
    case EventsEmitted => EmitEvents(st)
  }

  function Run(es: seq<MonitorEvent>): MonitorState {
    if es == [] then Fresh() else Step(Run(es[..|es| - 1]), es[|es| - 1])
  }

  /** The kernel keeps one descriptor to a path and ids have not come round. */
  predicate WellMet(es: seq<MonitorEvent>) {
    es == [] ||
    (WellMet(es[..|es| - 1]) &&
     var e := es[|es| - 1];
     e.Subscribed? && e.wd >= 0 ==> CanAdd(Run(es[..|es| - 1]), e.path, e.wd))
  }

  lemma SameIndexes(st: MonitorState, r: MonitorState)
    requires Consistent(st) && r.watches == st.watches && r.wds == st.wds && r.subs == st.subs
    ensures Consistent(r)
  {
    forall p | p in r.watches ensures WatchOk(r, p) { assert WatchOk(st, p); }
  }

  lemma StepKeepsConsistent(st: MonitorState, e: MonitorEvent)
    requires Consistent(st)
    ensures Consistent(Step(st, e)) <==> (e.Subscribed? && e.wd >= 0 ==> CanAdd(st, e.path, e.wd))
  {
    hide WatchOk, IgnoreAll, AllCallsFor, CanAdd;
    match e {
      case Subscribed(path, mask, wd) => if wd >= 0 { AddKeepsExactly(st, path, mask, wd); }
      case Unsubscribed(id) => RemoveKeeps(st, id);
      case Reported(_, _, _) => SameIndexes(st, Step(st, e));
      case RemovalsEmitted =>
        IgnoreAllKeeps(st, st.removals);
        SameIndexes(IgnoreAll(st, st.removals), Step(st, e));
      case EventsEmitted => SameIndexes(st, Step(st, e));
    }
  }

  ghost predicate ConsistentThroughout(es: seq<MonitorEvent>) {
    Consistent(Run(es)) && (es != [] ==> ConsistentThroughout(es[..|es| - 1]))
  }

  lemma {:induction false} EveryRunIsConsistent(es: seq<MonitorEvent>)
    requires WellMet(es)
    ensures Consistent(Run(es))
  {
    hide Step, CanAdd;
    if es != [] {
      EveryRunIsConsistent(es[..|es| - 1]);
      StepKeepsConsistent(Run(es[..|es| - 1]), es[|es| - 1]);
    }
  }

  /** In any run the indexes agree throughout if and only if each subscription met that. */
  lemma {:induction false} RunIsConsistentExactly(es: seq<MonitorEvent>)
    ensures ConsistentThroughout(es) <==> WellMet(es)
  {
    hide Step, CanAdd, Consistent;
    if es == [] {
      EveryRunIsConsistent([]);
    } else {
      RunIsConsistentExactly(es[..|es| - 1]);
      if WellMet(es[..|es| - 1]) {
        EveryRunIsConsistent(es[..|es| - 1]);
        StepKeepsConsistent(Run(es[..|es| - 1]), es[|es| - 1]);
      }
    }
  }

  // ----- runs that go wrong

  lemma RunOneMore(es: seq<MonitorEvent>, e: MonitorEvent)
    ensures Run(es + [e]) == Step(Run(es), e)
  {
    assert (es + [e])[..|es|] == es;
  }

  /** One file is watched under two of its names, and the kernel answers with one
      descriptor. Its events then reach the second subscriber alone. */
  lemma SharedDescriptor(first: string, second: string, mask: set<FileEvent>, kind: FileEvent, name: Option<string>)
    requires first != second && kind in mask
    ensures var st := Run([Subscribed(first, mask, 1), Subscribed(second, mask, 1)]);
      && !Consistent(st) && 1 in st.subs && st.subs[1] == Sub(mask, Some(first))
      && CallsFor(st, EventInfo(1, kind, name)) == [Call(2, kind, FullPath(second, name))]
  {
    var e1, e2 := Subscribed(first, mask, 1), Subscribed(second, mask, 1);
    RunOneMore([], e1);
    RunOneMore([e1], e2);
    assert [] + [e1] == [e1] && [e1] + [e2] == [e1, e2];
    var st1, st := Run([e1]), Run([e1, e2]);
    EveryRunIsConsistent([]);
    AddKeepsExactly(Fresh(), first, mask, 1);
    AddKeepsExactly(st1, second, mask, 1);
    assert st.watches[second].ids == [2];
    assert CallsTo(st, second, [2][..0], EventInfo(1, kind, name)) == [];
  }

  /** A path dropped by the kernel is subscribed to again before the removal has been
      carried out: the new subscription is lost with the old. */
  lemma LostSubscription(path: string, mask: set<FileEvent>, e: EventInfo)
    ensures var es := [Subscribed(path, mask, 1), Reported(1, {InIgnored}, None), Subscribed(path, mask, 2)];
      var st := Run(es + [RemovalsEmitted]);
      2 in st.subs && st.subs[2] == Sub(mask, None) && !Wants(st, 2, e)
  {
    hide EmitRemovals, Wants, Consistent, Run;
    var e1, e2, e3 := Subscribed(path, mask, 1), Reported(1, {InIgnored}, None), Subscribed(path, mask, 2);
    var st := DroppedByKernel(path, mask);
    RunOneMore([e1, e2], e3);
    RunOneMore([e1, e2, e3], RemovalsEmitted);
    assert [e1, e2] + [e3] == [e1, e2, e3];
    SubscribedTooSoon(st, path, mask, 2, e);
  }

  lemma DroppedByKernel(path: string, mask: set<FileEvent>) returns (st: MonitorState)
    ensures st == Run([Subscribed(path, mask, 1), Reported(1, {InIgnored}, None)]) && Consistent(st)
    ensures path in st.watches && st.watches[path].wd in st.removals && st.serial == 2 && CanAdd(st, path, 2)
  {
    hide Consistent;
    var e1, e2 := Subscribed(path, mask, 1), Reported(1, {InIgnored}, None);
    RunOneMore([], e1);
    RunOneMore([e1], e2);
    assert [] + [e1] == [e1] && [e1] + [e2] == [e1, e2];
    EveryRunIsConsistent([]);
    StepKeepsConsistent(Fresh(), e1);
    StepKeepsConsistent(Run([e1]), e2);
    st := Run([e1, e2]);
  }

  // ----- from the kernel's report to the subscribers' calls

  /** The kind of change a bit stands for. */
  predicate Shows(bit: Inotify, kind: FileEvent) {
    || (kind == Access && bit == InAccess)
    || (kind == Create && (bit == InCreate || bit == InMovedTo))
    || (kind == Delete && (bit == InDelete || bit == InDeleteSelf || bit == InMovedFrom || bit == InMoveSelf))
    || (kind == Change && (bit == InModify || bit == InAttrib))
  }

  /** What is asked of the kernel for a subscriber's mask. */
  lemma AskedBitByBit(mask: set<FileEvent>, bit: Inotify)
    ensures bit in InotifyMask(mask) <==> exists kind :: kind in mask && Shows(bit, kind)
  {
  }

  /** full is the path told of: that of the watch, with the name, if there is one, after it
      and one slash between the two. */
  ghost predicate Leads(path: string, name: Option<string>, full: string) {
    match name
    case None => full == path
    case Some(n) =>
      if exists i :: 0 <= i < |path| && path[i] != '/' then
        exists base, slashes ::
          && path == base + slashes && base != "" && base[|base| - 1] != '/' && OnlySlashes(slashes)
          && full == base + "/" + n
      else full == path + n
  }

  predicate OnlySlashes(s: string) { forall i :: 0 <= i < |s| ==> s[i] == '/' }

  lemma FullPathLeads(path: string, name: Option<string>)
    ensures Leads(path, name, FullPath(path, name))
    ensures name.Some? && path != "" && path[|path| - 1] != '/' ==> FullPath(path, name) == path + "/" + name.value
  {
    var base := Trimmed(path);
    var slashes := path[|base|..];
    assert path == base + slashes && OnlySlashes(slashes);
    if base != "" {
      assert path[|base| - 1] == base[|base| - 1];
    }
  }

  /** The calls are what one report of a bit makes: one for each subscriber attached to the
      watch whose mask has the kind of the bit, with the path. */
  ghost predicate Told(st: MonitorState, wd: int, bit: Inotify, name: Option<string>, made: seq<Call>) {
    && (forall i, j :: 0 <= i < j < |made| ==> made[i].id != made[j].id)
    && (forall c :: c in made ==> Shows(bit, c.event) && Asks(st, wd, c.id, c.event)
                                  && Leads(st.subs[c.id].path.value, name, c.path))
    && (forall id, kind :: Shows(bit, kind) && Asks(st, wd, id, kind) ==> exists c :: c in made && c.id == id)
  }

  ghost predicate Asks(st: MonitorState, wd: int, id: nat, kind: FileEvent) {
    && id in st.subs && st.subs[id].path.Some? && st.subs[id].path.value in st.watches
    && st.watches[st.subs[id].path.value].wd == wd && kind in st.subs[id].mask
  }

  /** A report: the descriptor, the bit, whether the watch is dropped with it, the name. */
  datatype Notice = Notice(wd: int, bit: Inotify, dropped: bool, name: Option<string>)

  function Flags(n: Notice): set<Inotify> {
    {n.bit} + if n.dropped then {InIgnored} else {}
  }

  function AfterAll(st: MonitorState, ns: seq<Notice>): MonitorState {
    if ns == [] then st
    else
      var n := ns[|ns| - 1];
      Step(AfterAll(st, ns[..|ns| - 1]), Reported(n.wd, Flags(n), n.name))
  }

  /** The calls made for several reports are those for each, in the order of the reports. */
  ghost predicate ToldInOrder(st: MonitorState, ns: seq<Notice>, made: seq<Call>) {
    if ns == [] then made == []
    else
      var n := ns[|ns| - 1];
      exists before, last ::
        made == before + last && ToldInOrder(st, ns[..|ns| - 1], before) && Told(st, n.wd, n.bit, n.name, last)
  }

  /** Whatever is reported reaches those who asked for it and nobody else, in order, when the
      events are emitted; none is left over, and the watches dropped wait to be removed. */
  lemma ReportsReachSubscribers(st: MonitorState, ns: seq<Notice>)
    requires Consistent(st) && st.events == []
    requires forall i :: 0 <= i < |ns| ==> ns[i].wd in st.wds && ns[i].bit != InIgnored
    ensures var r := Step(AfterAll(st, ns), EventsEmitted);
      && r.events == [] && r.watches == st.watches && r.wds == st.wds && r.subs == st.subs
      && exists made :: r.calls == st.calls + made && ToldInOrder(st, ns, made)
  {
    hide Consistent, ToldInOrder, AllCallsFor;
    var s := AfterAll(st, ns);
    Queued(st, ns);
    CallsInOrder(st, ns, s.events);
    SameCalls(st, s, s.events);
  }

  lemma {:induction false} Queued(st: MonitorState, ns: seq<Notice>)
    requires forall i :: 0 <= i < |ns| ==> ns[i].wd in st.wds && ns[i].bit != InIgnored
    ensures var s := AfterAll(st, ns);
      && s == st.(events := s.events, removals := s.removals) && |s.events| == |st.events| + |ns|
      && s.events[..|st.events|] == st.events
      && forall i :: 0 <= i < |ns| ==> QueuedFor(ns[i], s.events[|st.events| + i])
  {
    if ns != [] {
      var n := |ns| - 1;
      Queued(st, ns[..n]);
      KindOfNotice(ns[n]);
    }
  }

  ghost predicate QueuedFor(n: Notice, e: EventInfo) {
    e.wd == n.wd && e.name == n.name && Shows(n.bit, e.event)
  }

  lemma KindShown(mask: set<Inotify>, bit: Inotify, kind: FileEvent)
    requires bit in mask && mask <= {bit, InIgnored} && Shows(bit, kind)
    ensures KindOf(mask) == Some(kind)
  {
  }

  lemma KindOfNotice(n: Notice)
    requires n.bit != InIgnored
    ensures KindOf(Flags(n)).Some? && Shows(n.bit, KindOf(Flags(n)).value)
  {
  }

  lemma {:induction false} CallsInOrder(st: MonitorState, ns: seq<Notice>, es: seq<EventInfo>)
    requires Consistent(st) && |es| == |ns| && forall i :: 0 <= i < |ns| ==> QueuedFor(ns[i], es[i])
    ensures ToldInOrder(st, ns, AllCallsFor(st, es))
  {
    hide Consistent, CallsFor, Told, QueuedFor;
    if ns != [] {
      var n := |ns| - 1;
      CallsInOrder(st, ns[..n], es[..n]);
      ToldOf(st, ns[n], es[n]);
    }
  }

  lemma ToldOf(st: MonitorState, n: Notice, e: EventInfo)
    requires Consistent(st) && QueuedFor(n, e)
    ensures Told(st, n.wd, n.bit, n.name, CallsFor(st, e))
  {
    hide Consistent, CallsFor, Leads, FullPath;
    var cs := CallsFor(st, e);
    DeliversExactly(st, e);
    forall c | c in cs ensures Asks(st, n.wd, c.id, c.event) && Leads(st.subs[c.id].path.value, n.name, c.path) {
      FullPathLeads(st.subs[c.id].path.value, n.name);
    }
    forall id, kind | Shows(n.bit, kind) && Asks(st, n.wd, id, kind) ensures exists c :: c in cs && c.id == id {
      assert kind == e.event && Wants(st, id, e);
      assert Call(id, e.event, FullPath(st.subs[id].path.value, e.name)) in cs;
    }
  }

  lemma {:induction false} SameCalls(st: MonitorState, s: MonitorState, es: seq<EventInfo>)
    requires s == st.(events := s.events, removals := s.removals)
    ensures AllCallsFor(s, es) == AllCallsFor(st, es)
  {
    if es != [] {
      SameCalls(st, s, es[..|es| - 1]);
      SameCallsTo(st, s, es[|es| - 1]);
    }
  }

  lemma SameCallsTo(st: MonitorState, s: MonitorState, e: EventInfo)
    requires s == st.(events := s.events, removals := s.removals)
    ensures CallsFor(s, e) == CallsFor(st, e)
  {
    if e.wd in st.wds && st.wds[e.wd] in st.watches {
      SameCallsIn(st, s, st.wds[e.wd], st.watches[st.wds[e.wd]].ids, e);
    }
  }

  lemma {:induction false} SameCallsIn(st: MonitorState, s: MonitorState, path: string, ids: seq<nat>, e: EventInfo)
    requires s == st.(events := s.events, removals := s.removals)
    ensures CallsTo(s, path, ids, e) == CallsTo(st, path, ids, e)
  {
    if ids != [] {
      SameCallsIn(st, s, path, ids[..|ids| - 1], e);
    }
  }

  /** In particular one report makes one call for each of its subscribers, at once. */
  lemma ReportReachesSubscribers(st: MonitorState, n: Notice)
    requires Consistent(st) && st.events == [] && n.wd in st.wds && n.bit != InIgnored
    ensures var r := Step(Step(st, Reported(n.wd, Flags(n), n.name)), EventsEmitted);
      && r.events == [] && r.removals == st.removals + (if n.dropped then [n.wd] else [])
      && exists made :: r.calls == st.calls + made && Told(st, n.wd, n.bit, n.name, made)
  {
    hide Consistent, Step, CallsFor, Told, Flags, QueuedFor;
    var e := OneQueued(st, n);
    OneEmitted(st, Step(st, Reported(n.wd, Flags(n), n.name)), e);
    ToldOf(st, n, e);
  }

  lemma OneQueued(st: MonitorState, n: Notice) returns (e: EventInfo)
    requires st.events == [] && n.wd in st.wds && n.bit != InIgnored
    ensures QueuedFor(n, e)
    ensures Step(st, Reported(n.wd, Flags(n), n.name)) ==
      st.(events := [e], removals := st.removals + if n.dropped then [n.wd] else [])
  {
    hide KindOf, Shows;
    KindOfNotice(n);
    e := EventInfo(n.wd, KindOf(Flags(n)).value, n.name);
  }

  lemma OneEmitted(st: MonitorState, s: MonitorState, e: EventInfo)
    requires s == st.(events := [e], removals := s.removals)
    ensures Step(s, EventsEmitted) == s.(events := [], calls := st.calls + CallsFor(st, e))
  {
    hide CallsFor;
    var es := [e];
    assert es[..|es| - 1] == [] && AllCallsFor(s, []) == [];
    assert AllCallsFor(s, es) == CallsFor(s, e);
    SameCallsTo(st, s, e);
  }

  // ----- who is subscribed

  /** A subscription the kernel accepts is attached to its path under the id handed out, ahead
      of those before it; the ids go round in 32 bits. One refused leaves no trace. */
  lemma AddedExactly(st: MonitorState, path: string, mask: set<FileEvent>, wd: int)
    requires Consistent(st) && CanAdd(st, path, wd) && st.serial < 0x1_0000_0000
    ensures var (r, id) := Add(st, path, mask, wd);
      if wd < 0 then r == st && id == 0
      else
        && id == st.serial && r.serial == (if id == 0xFFFF_FFFF then 0 else id + 1)
        && r.subs == st.subs[id := Sub(mask, Some(path))]
        && (path in st.watches ==>
              && r.watches == st.watches[path := Watching(st.watches[path].wd, [id] + st.watches[path].ids)]
              && r.wds == st.wds)
        && (path !in st.watches ==>
              r.watches == st.watches[path := Watching(wd, [id])] && r.wds == st.wds[wd := path])
        && r.events == st.events && r.removals == st.removals && r.calls == st.calls
  {
    assert [st.serial] + [] == [st.serial];
  }

  /** One taken back leaves the others of its watch attached, in their order; without any the
      watch goes and its descriptor with it. */
  lemma RemovedExactly(st: MonitorState, id: nat)
    requires Consistent(st) && id in st.subs
    ensures var r, path := Remove(st, id), st.subs[id].path;
      && r.subs == st.subs - {id}
      && if path.None? then r.watches == st.watches && r.wds == st.wds
         else
           && path.value in st.watches
           && var w := st.watches[path.value];
              if w.ids == [id] then r.watches == st.watches - {path.value} && r.wds == st.wds - {w.wd}
              else
                exists i ::
                  && 0 <= i < |w.ids| && w.ids[i] == id && r.wds == st.wds
                  && r.watches == st.watches[path.value := Watching(w.wd, w.ids[..i] + w.ids[i + 1..])]
  {
    var path := st.subs[id].path;
    if path.Some? {
      assert WatchOk(st, path.value);
      var w := st.watches[path.value];
      var i := WithoutAt(w.ids, id);
      assert w.ids != [id] ==> w.ids[..i] + w.ids[i + 1..] != [] by {
        assert |w.ids[..i] + w.ids[i + 1..]| == |w.ids| - 1;
        assert |w.ids| == 1 ==> w.ids == [w.ids[0]];
      }
    }
  }

  lemma {:induction false} WithoutAt(ids: seq<nat>, id: nat) returns (i: nat)
    requires id in ids
    ensures i < |ids| && ids[i] == id && Without(ids, id) == ids[..i] + ids[i + 1..]
  {
    if ids[0] == id {
      i := 0;
    } else {
      var j := WithoutAt(ids[1..], id);
      i := j + 1;
      assert ids[..i] == [ids[0]] + ids[1..][..j];
    }
  }
}
