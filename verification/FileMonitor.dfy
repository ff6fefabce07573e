/** The file monitor of ck-file-monitor-inotify.c with its watches and notifies as linked
    objects, updated in place. Valid() is the shape of the three tables and the
    back-pointers; each method is proved against its function in FileMonitorSpec. */
module FileMonitor {
  import opened Text
  import opened FileMonitorSpec

  class Watch {
    var wd: int
    var path: string
    var notifies: seq<nat>
    ghost var freed: bool

    constructor (wd: int, path: string)
      ensures this.wd == wd && this.path == path && notifies == [] && !freed
    {
      this.wd, this.path, notifies, freed := wd, path, [], false;
    }

    /** monitor_release_watch, the struct freed afterwards */
    method Release()
      modifies this
      ensures freed && wd == -1 && notifies == []
    {
      notifies, path, wd, freed := [], "", -1, true;
    }
  }

  class Notify {
    const id: nat
    const mask: set<FileEvent>
    var watch: Watch?

    constructor (id: nat, mask: set<FileEvent>, watch: Watch)
      ensures this.id == id && this.mask == mask && this.watch == watch
    {
      this.id, this.mask, this.watch := id, mask, watch;
    }
  }

  lemma AddFails(st: MonitorState, path: string, mask: set<FileEvent>, wd: int)
    ensures wd < 0 ==> Add(st, path, mask, wd) == (st, 0)
  {
  }

  lemma {:induction false} WithoutFrom(ids: seq<nat>, id: nat, i: nat)
    requires i <= |ids| && (forall j :: 0 <= j < i ==> ids[j] != id) && (i < |ids| ==> ids[i] == id)
    ensures Without(ids, id) == if i == |ids| then ids else ids[..i] + ids[i + 1..]
  {
    if i > 0 {
      var rest := ids[1..];
      WithoutFrom(rest, id, i - 1);
      assert ids == [ids[0]] + rest;
      if i < |ids| {
        assert ids[..i] == [ids[0]] + rest[..i - 1] && ids[i + 1..] == rest[i..];
      }
    }
  }

  function WithIds(st: MonitorState, path: string, ids: seq<nat>): MonitorState
    requires path in st.watches
  {
    st.(watches := st.watches[path := st.watches[path].(ids := ids)])
  }

  lemma ValuesOfFewer<K, V>(m: map<K, V>, k: K)
    ensures (m - {k}).Values <= m.Values
  {
    forall v | v in (m - {k}).Values ensures v in m.Values {
      var j :| j in m - {k} && (m - {k})[j] == v;
      assert m[j] == v;
    }
  }

  /** What is done when the kernel has dropped a watch, step by step. */
  lemma IgnoreByParts(st: MonitorState, wd: int)
    requires Consistent(st)
    ensures wd !in st.wds ==> Ignore(st, wd) == st
    ensures wd in st.wds ==>
      && st.wds[wd] in st.watches
      && var p := st.wds[wd];
         var t := WithoutPaths(st, st.watches[p].ids);
         && Ignore(st, wd) == t.(watches := t.watches - {p}, wds := t.wds - {wd})
         && forall x :: x in t.subs ==> t.subs[x].path != Some(p)
  {
    if wd in st.wds {
      assert WatchOk(st, st.wds[wd]);
    }
  }

  lemma RemovalsStart(st: MonitorState)
    ensures st == IgnoreAll(st, st.removals[..0]).(removals := st.removals[0..])
  {
  }

  lemma IgnoreOneMore(st: MonitorState, q: seq<int>, k: nat)
    requires k < |q|
    ensures IgnoreAll(st, q[..k + 1]).(removals := q[k + 1..])
         == Ignore(IgnoreAll(st, q[..k]).(removals := q[k + 1..]), q[k])
    ensures q[k..][0] == q[k] && q[k..][1..] == q[k + 1..]
  {
    assert q[..k + 1][..k] == q[..k];
  }

  lemma EventsStart(st: MonitorState)
    ensures st == st.(events := st.events[0..], calls := st.calls + AllCallsFor(st, st.events[..0]))
  {
  }

  lemma CallOneMore(st: MonitorState, q: seq<EventInfo>, k: nat)
    requires k < |q|
    ensures AllCallsFor(st, q[..k + 1]) == AllCallsFor(st, q[..k]) + CallsFor(st, q[k])
    ensures q[k..][0] == q[k] && q[k..][1..] == q[k + 1..]
    ensures forall events, calls ::
              CallsFor(st.(events := events, calls := calls), q[k]) == CallsFor(st, q[k])
    ensures forall a: seq<Call>, b: seq<Call>, c: seq<Call> :: a + (b + c) == a + b + c
  {
    assert q[..k + 1][..k] == q[..k];
    forall events, calls ensures CallsFor(st.(events := events, calls := calls), q[k]) == CallsFor(st, q[k]) {
      var t := st.(events := events, calls := calls);
      if q[k].wd in st.wds && st.wds[q[k].wd] in st.watches {
        SameCalls(st, t, st.wds[q[k].wd], st.watches[st.wds[q[k].wd]].ids, q[k]);
      }
    }
  }

  lemma {:induction false} SameCalls(st: MonitorState, t: MonitorState, path: string, ids: seq<nat>, e: EventInfo)
    requires t.subs == st.subs
    ensures CallsTo(t, path, ids, e) == CallsTo(st, path, ids, e)
  {
    if ids != [] {
      SameCalls(st, t, path, ids[..|ids| - 1], e);
    }
  }

  function WithoutPaths(st: MonitorState, ids: seq<nat>): MonitorState {
    st.(subs := map id | id in st.subs :: if id in ids then st.subs[id].(path := None) else st.subs[id])
  }

  /** What is done when a subscriber leaves, step by step. */
  lemma RemoveByParts(st: MonitorState, id: nat)
    requires Consistent(st)
    ensures id !in st.subs ==> Remove(st, id) == st
    ensures id in st.subs ==>
      var st1, path := st.(subs := st.subs - {id}), st.subs[id].path;
      if path.None? then Remove(st, id) == st1
      else
        && path.value in st.watches && st.watches[path.value].wd >= 0
        && var w := st.watches[path.value];
           var ids := Without(w.ids, id);
           if ids != [] then Remove(st, id) == WithIds(st1, path.value, ids)
           else
             var t := WithIds(st1, path.value, []);
             && Remove(st, id) == t.(watches := t.watches - {path.value}, wds := t.wds - {w.wd})
             && forall x :: x in t.subs ==> t.subs[x].path != path
  {
    if id in st.subs && st.subs[id].path.Some? {
      var path := st.subs[id].path.value;
      assert WatchOk(st, path);
      WithoutRemoves(st.watches[path].ids, id);
    }
  }

  lemma AddByParts(st: MonitorState, st1: MonitorState, st2: MonitorState, path: string, mask: set<FileEvent>, wd: int)
    requires wd >= 0
    requires st1 == if path in st.watches then st else
      st.(watches := st.watches[path := Watching(wd, [])], wds := st.wds[wd := path])
    requires st2 == st1.(serial := (st.serial + 1) % GUINT_RANGE, subs := st1.subs[st.serial := Sub(mask, Some(path))])
    ensures Add(st, path, mask, wd) == (WithIds(st2, path, [st.serial] + st2.watches[path].ids), st.serial)
  {
    var x := st2.watches[path].(ids := [st.serial] + st2.watches[path].ids);
    assert path !in st.watches ==> st2.watches[path := x] == st.watches[path := x];
  }

  class FileMonitor {
    var serial: nat
    var pathToWatch: map<string, Watch>
    var wdToWatch: map<int, Watch>
    var notifies: map<nat, Notify>
    var notifyEvents: seq<EventInfo>
    var removeEvents: seq<int>
    ghost var calls: seq<Call>

    /** Live watches are listed under their own path, some of them under their own
        descriptor; a notify is listed under its own id and points to such a watch or to
        none, never to one that has been freed. */
    ghost predicate Pointers()
      reads this, pathToWatch.Values, wdToWatch.Values, notifies.Values
    {
      && (forall p :: p in pathToWatch ==> pathToWatch[p].path == p && !pathToWatch[p].freed)
      && (forall d :: d in wdToWatch ==> wdToWatch[d].wd == d && wdToWatch[d] in pathToWatch.Values)
      && (forall id :: id in notifies ==>
            notifies[id].id == id && (notifies[id].watch != null ==> notifies[id].watch in pathToWatch.Values))
    }

    ghost function Watches(): map<string, Watching>
      reads this`pathToWatch, pathToWatch.Values
    {
      map p | p in pathToWatch :: Watching(pathToWatch[p].wd, pathToWatch[p].notifies)
    }

    ghost function Wds(): map<int, string>
      reads this`wdToWatch, wdToWatch.Values
    {
      map d | d in wdToWatch :: wdToWatch[d].path
    }

    ghost function SubOf(notify: Notify): Sub
      requires notify.watch != null ==> notify.watch in pathToWatch.Values
      reads notify, this`pathToWatch, pathToWatch.Values
    {
      Sub(notify.mask, if notify.watch == null then None else Some(notify.watch.path))
    }

    ghost function Subs(): map<nat, Sub>
      requires forall id :: id in notifies ==> notifies[id].watch != null ==> notifies[id].watch in pathToWatch.Values
      reads this`notifies, notifies.Values, this`pathToWatch, pathToWatch.Values
    {
      map id | id in notifies :: SubOf(notifies[id])
    }

    ghost function View(): MonitorState
      requires Pointers()
      reads this, pathToWatch.Values, wdToWatch.Values, notifies.Values
    {
      MonitorState(serial, Watches(), Wds(), Subs(), notifyEvents, removeEvents, calls)
    }

    ghost predicate Valid()
      reads this, pathToWatch.Values, wdToWatch.Values, notifies.Values
    {
      Pointers() && Consistent(View())
    }

    constructor ()
      ensures Valid() && View() == Fresh()
    {
      serial, pathToWatch, wdToWatch, notifies := 1, map[], map[], map[];
      notifyEvents, removeEvents, calls := [], [], [];
    }

    // ----- subscribing

    method MakeWatch(path: string, wd: int) returns (watch: Watch)
      requires Pointers() && path !in pathToWatch
      modifies this`pathToWatch, this`wdToWatch
      ensures Pointers() && fresh(watch) && watch.wd == wd && watch.notifies == [] && watch.path == path
      ensures pathToWatch == old(pathToWatch)[path := watch] && wdToWatch == old(wdToWatch)[wd := watch]
    {
      watch := new Watch(wd, path);
      pathToWatch := pathToWatch[path := watch];
      wdToWatch := wdToWatch[wd := watch];
      assert pathToWatch[path] == watch;
      forall w | w in old(pathToWatch).Values ensures w in pathToWatch.Values {
        assert old(pathToWatch)[w.path] == w && pathToWatch[w.path] == w;
      }
    }

    /** The same, in terms of the whole state. */
    method AddWatch(path: string, wd: int) returns (watch: Watch)
      requires Pointers() && path !in pathToWatch
      modifies this`pathToWatch, this`wdToWatch
      ensures Pointers() && fresh(watch) && pathToWatch == old(pathToWatch)[path := watch]
      ensures View() ==
        old(View()).(watches := old(View()).watches[path := Watching(wd, [])], wds := old(View()).wds[wd := path])
    {
      watch := MakeWatch(path, wd);
      assert pathToWatch[path] == watch && wdToWatch[wd] == watch;
      assert Subs() == old(Subs()) && Wds() == old(Wds())[wd := path];
      assert Watches() == old(Watches())[path := Watching(wd, [])];
    }

    /** file_monitor_add_watch_for_path; wd is the kernel's answer */
    method AddWatchForPath(path: string, wd: int) returns (watch: Watch?)
      requires Pointers()
      modifies this`pathToWatch, this`wdToWatch
      ensures Pointers() && (watch == null <==> wd < 0)
      ensures wd >= 0 ==>
        path in pathToWatch && watch == pathToWatch[path] && (fresh(watch) || watch in old(pathToWatch).Values)
      ensures View() == if wd < 0 || path in old(pathToWatch) then old(View()) else
        old(View()).(watches := old(View()).watches[path := Watching(wd, [])], wds := old(View()).wds[wd := path])
    {
      hide Pointers, View;
      if wd < 0 {
        return null;
      }
      if path in pathToWatch {
        return pathToWatch[path];
      }
      watch := AddWatch(path, wd);
    }

    method InsertNotify(watch: Watch, path: string, mask: set<FileEvent>) returns (id: nat)
      requires Pointers() && path in pathToWatch && watch == pathToWatch[path]
      modifies this`serial, this`notifies
      ensures Pointers() && id == old(serial)
      ensures View() ==
        old(View()).(serial := (id + 1) % GUINT_RANGE, subs := old(View()).subs[id := Sub(mask, Some(path))])
    {
      id := serial;
      serial := (serial + 1) % GUINT_RANGE;
      var notify := new Notify(id, mask, watch);
      notifies := notifies[id := notify];
      assert Subs() == old(Subs())[id := Sub(mask, Some(path))];
      assert Watches() == old(Watches()) && Wds() == old(Wds());
    }

    method SetSubscribers(watch: Watch, path: string, ids: seq<nat>)
      requires Pointers() && path in pathToWatch && watch == pathToWatch[path]
      modifies watch`notifies
      ensures Pointers() && path in old(View()).watches
      ensures View() == WithIds(old(View()), path, ids)
    {
      assert forall p :: p in pathToWatch && p != path ==> pathToWatch[p] != watch;
      watch.notifies := ids;
      assert Pointers();
      assert Wds() == old(Wds());
      assert Subs() == old(Subs());
      assert Watches() == WithIds(old(View()), path, ids).watches;
    }

    lemma ViewKeys()
      requires Pointers()
      ensures View().watches.Keys == pathToWatch.Keys && View().wds.Keys == wdToWatch.Keys
      ensures View().subs.Keys == notifies.Keys
      ensures View().serial == serial && View().removals == removeEvents
      ensures View().events == notifyEvents && View().calls == calls
      ensures forall p :: p in pathToWatch ==> View().watches[p].ids == pathToWatch[p].notifies
    {
    }

    /** ck_file_monitor_add_notify: also when the descriptor is another watch's, or the
        serial has come round to a subscriber, and the tables no longer agree. */
    method AddNotify(path: string, mask: set<FileEvent>, wd: int) returns (id: nat)
      requires Valid()
      modifies this, pathToWatch.Values
      ensures Pointers() && (View(), id) == Add(old(View()), path, mask, wd)
      ensures Valid() <==> wd < 0 || CanAdd(old(View()), path, wd)
    {
      hide Pointers, View, Consistent, Add, WithIds, CanAdd;
      ghost var st := View();
      ViewKeys();
      AddFails(st, path, mask, wd);
      if wd >= 0 {
        AddKeepsExactly(st, path, mask, wd);
      }
      var watch := AddWatchForPath(path, wd);
      if watch == null {
        return 0;
      }
      ghost var st1 := View();
      id := InsertNotify(watch, path, mask);
      AddByParts(st, st1, View(), path, mask, wd);
      ViewKeys();
      SetSubscribers(watch, path, [id] + watch.notifies);
    }

    /** The two watch tables hold the same watches. */
    lemma SameWatches()
      requires Valid()
      ensures forall p :: p in pathToWatch ==>
                pathToWatch[p].wd in wdToWatch && wdToWatch[pathToWatch[p].wd] == pathToWatch[p]
      ensures forall d :: d in wdToWatch ==>
                wdToWatch[d].path in pathToWatch && pathToWatch[wdToWatch[d].path] == wdToWatch[d]
    {
      forall p | p in pathToWatch
        ensures pathToWatch[p].wd in wdToWatch && wdToWatch[pathToWatch[p].wd] == pathToWatch[p]
      {
        assert WatchOk(View(), p);
        assert wdToWatch[pathToWatch[p].wd] in pathToWatch.Values;
      }
    }

    // ----- unsubscribing

    /** g_slist_remove */
    static method SlistRemove(ids: seq<nat>, id: nat) returns (r: seq<nat>)
      ensures r == Without(ids, id)
    {
      var i := 0;
      while i < |ids| && ids[i] != id
        invariant i <= |ids|
        invariant forall j :: 0 <= j < i ==> ids[j] != id
      {
        i := i + 1;
      }
      WithoutFrom(ids, id, i);
      return if i == |ids| then ids else ids[..i] + ids[i + 1..];
    }

    method StealNotify(id: nat)
      requires Pointers() && id in notifies
      modifies this`notifies
      ensures Pointers() && notifies == old(notifies) - {id}
      ensures View() == old(View()).(subs := old(View()).subs - {id})
    {
      notifies := notifies - {id};
      assert Subs() == old(Subs()) - {id};
      assert Watches() == old(Watches()) && Wds() == old(Wds());
    }

    /** The watch off both tables, released and freed. */
    method DropWatch(watch: Watch)
      requires Pointers() && watch in pathToWatch.Values
      requires forall id :: id in notifies ==> notifies[id].watch != watch
      modifies this`pathToWatch, this`wdToWatch, watch
      ensures Pointers() && watch.freed
      ensures watch !in pathToWatch.Values && watch !in wdToWatch.Values
      ensures pathToWatch == old(pathToWatch) - {old(watch.path)} && wdToWatch == old(wdToWatch) - {old(watch.wd)}
    {
      pathToWatch := pathToWatch - {watch.path};
      wdToWatch := wdToWatch - {watch.wd};
      forall d | d in wdToWatch ensures wdToWatch[d] in pathToWatch.Values && wdToWatch[d] != watch {
        var w := wdToWatch[d];
        assert old(wdToWatch)[d] == w && w in old(pathToWatch).Values;
        assert pathToWatch[w.path] == w;
      }
      forall id | id in notifies && notifies[id].watch != null ensures notifies[id].watch in pathToWatch.Values {
        assert pathToWatch[notifies[id].watch.path] == notifies[id].watch;
      }
      assert forall p :: p in pathToWatch ==> pathToWatch[p] != watch;
      watch.Release();
    }

    /** file_monitor_remove_watch and g_free, in terms of the whole state */
    method RemoveWatch(watch: Watch)
      requires Pointers() && watch in pathToWatch.Values && watch.wd >= 0
      requires forall id :: id in notifies ==> notifies[id].watch != watch
      modifies this`pathToWatch, this`wdToWatch, watch
      ensures Pointers() && watch.freed && pathToWatch == old(pathToWatch) - {old(watch.path)}
      ensures View() ==
        old(View()).(watches := old(View()).watches - {old(watch.path)}, wds := old(View()).wds - {old(watch.wd)})
    {
      assert pathToWatch[watch.path] == watch;
      DropWatch(watch);
      assert Watches() == old(Watches()) - {old(watch.path)};
      forall d | d in wdToWatch ensures d in old(wdToWatch) && wdToWatch[d].path == old(wdToWatch[d].path) {
        assert wdToWatch[d] != watch;
      }
      assert Wds() == old(Wds()) - {old(watch.wd)};
      assert Subs() == old(Subs());
    }

    lemma NotifyFields(id: nat)
      requires Pointers() && id in notifies
      ensures id in View().subs && View().subs[id].mask == notifies[id].mask
      ensures notifies[id].watch == null <==> View().subs[id].path.None?
      ensures notifies[id].watch != null ==>
        var w := notifies[id].watch;
        && View().subs[id].path == Some(w.path) && w.path in pathToWatch && pathToWatch[w.path] == w
        && w.path in View().watches && View().watches[w.path] == Watching(w.wd, w.notifies)
    {
    }

    /** Nobody points to a watch whose path no subscriber has. */
    lemma NobodyPoints(watch: Watch)
      requires Pointers() && watch in pathToWatch.Values
      requires forall id :: id in View().subs ==> View().subs[id].path != Some(watch.path)
      ensures forall id :: id in notifies ==> notifies[id].watch != watch
    {
      forall id | id in notifies ensures notifies[id].watch != watch {
        NotifyFields(id);
      }
    }

    /** ck_file_monitor_remove_notify */
    method RemoveNotify(id: nat)
      requires Valid()
      modifies this, pathToWatch.Values
      ensures Valid() && View() == Remove(old(View()), id)
    {
      hide Pointers, View, Consistent, Remove, WithIds;
      ghost var st := View();
      ViewKeys();
      RemoveKeeps(st, id);
      RemoveByParts(st, id);
      if id !in notifies {
        return;
      }
      NotifyFields(id);
      var watch := notifies[id].watch;
      StealNotify(id);
      if watch != null {
        var left := SlistRemove(watch.notifies, id);
        SetSubscribers(watch, watch.path, left);
        if left == [] {
          NobodyPoints(watch);
          RemoveWatch(watch);
        }
      }
    }

    // ----- what the kernel reports

    method Queue(events: seq<EventInfo>, removals: seq<int>)
      requires Pointers()
      modifies this`notifyEvents, this`removeEvents
      ensures Pointers() && View() == old(View()).(events := events, removals := removals)
    {
      notifyEvents, removeEvents := events, removals;
      assert Watches() == old(Watches()) && Wds() == old(Wds()) && Subs() == old(Subs());
    }

    /** handle_inotify_event, called when the descriptor is still known */
    method HandleInotifyEvent(wd: int, mask: set<Inotify>, name: Option<string>)
      requires Valid()
      modifies this`notifyEvents, this`removeEvents
      ensures Valid() && View() == Report(old(View()), wd, mask, name)
      ensures wd in old(View()).wds ==>
        forall bit, kind :: bit in mask && mask <= {bit, InIgnored} && Shows(bit, kind) ==>
          View().events == old(View()).events + [EventInfo(wd, kind, name)]
    {
      hide Pointers, View, Consistent, KindOf, Shows;
      forall bit, kind | bit in mask && mask <= {bit, InIgnored} && Shows(bit, kind)
        ensures KindOf(mask) == Some(kind)
      {
        KindShown(mask, bit, kind);
      }
      ghost var st := View();
      ViewKeys();
      SameIndexes(st, Report(st, wd, mask, name));
      if wd !in wdToWatch {
        return;
      }
      var kind := KindOf(mask);
      Queue(if kind.Some? then notifyEvents + [EventInfo(wd, kind.value, name)] else notifyEvents,
            if InIgnored in mask then removeEvents + [wd] else removeEvents);
    }

    /** The walk over a dropped watch's list: its subscribers point to it no longer. */
    method DetachAll(watch: Watch)
      requires Pointers() && watch in pathToWatch.Values
      modifies notifies.Values
      ensures Pointers()
      ensures forall id :: id in notifies ==>
                notifies[id].watch == if id in watch.notifies then null else old(notifies[id].watch)
    {
      var l := watch.notifies;
      for i := 0 to |l|
        invariant forall id :: id in notifies ==>
                    notifies[id].watch == if id in l[..i] then null else old(notifies[id].watch)
      {
        if l[i] in notifies {
          notifies[l[i]].watch := null;
        }
        assert l[..i + 1] == l[..i] + [l[i]];
      }
      assert l[..|l|] == l;
    }

    /** The same, in terms of the whole state. */
    method Detach(watch: Watch)
      requires Pointers() && watch in pathToWatch.Values
      modifies notifies.Values
      ensures Pointers()
      ensures View() == WithoutPaths(old(View()), watch.notifies)
    {
      DetachAll(watch);
      assert Subs() == WithoutPaths(old(View()), watch.notifies).subs;
      assert Watches() == old(Watches()) && Wds() == old(Wds());
    }

    lemma WdFields(wd: int)
      requires Valid() && wd in wdToWatch
      ensures var w := wdToWatch[wd];
        && w in pathToWatch.Values && w.wd == wd && wd >= 0 && wd in View().wds && View().wds[wd] == w.path
        && w.path in View().watches && View().watches[w.path] == Watching(wd, w.notifies)
    {
      assert pathToWatch[wdToWatch[wd].path] == wdToWatch[wd];
      assert WatchOk(View(), wdToWatch[wd].path);
    }

    /** One round of emit_removals_in_idle */
    method RemoveIgnored(wd: int)
      requires Valid()
      modifies this`pathToWatch, this`wdToWatch, pathToWatch.Values, notifies.Values
      ensures Valid() && View() == Ignore(old(View()), wd)
      ensures pathToWatch.Values <= old(pathToWatch.Values)
    {
      hide Pointers, View, Consistent, Ignore, WithoutPaths;
      ghost var st := View();
      ViewKeys();
      IgnoreKeeps(st, wd);
      IgnoreByParts(st, wd);
      if wd !in wdToWatch {
        return;
      }
      WdFields(wd);
      var watch := wdToWatch[wd];
      Detach(watch);
      NobodyPoints(watch);
      ValuesOfFewer(pathToWatch, watch.path);
      RemoveWatch(watch);
    }

    method PopRemoval() returns (wd: int)
      requires Valid() && removeEvents != []
      modifies this`removeEvents
      ensures Valid() && wd == old(removeEvents)[0] && removeEvents == old(removeEvents)[1..]
      ensures View() == old(View()).(removals := removeEvents)
    {
      hide Consistent;
      SameIndexes(View(), View().(removals := removeEvents[1..]));
      wd := removeEvents[0];
      removeEvents := removeEvents[1..];
      assert Watches() == old(Watches()) && Wds() == old(Wds()) && Subs() == old(Subs());
    }

    /** emit_removals_in_idle */
    method EmitRemovalsInIdle()
      requires Valid()
      modifies this`pathToWatch, this`wdToWatch, this`removeEvents, pathToWatch.Values, notifies.Values
      ensures Valid() && View() == EmitRemovals(old(View()))
    {
      hide Pointers, View, Consistent, Ignore, IgnoreAll;
      ghost var st, q := View(), removeEvents;
      ghost var k := 0;
      ViewKeys();
      RemovalsStart(st);
      while removeEvents != []
        invariant Valid() && k <= |q| && removeEvents == q[k..]
        invariant pathToWatch.Values <= old(pathToWatch.Values) && notifies == old(notifies)
        invariant View() == IgnoreAll(st, q[..k]).(removals := q[k..])
        decreases |removeEvents|
      {
        IgnoreOneMore(st, q, k);
        var wd := PopRemoval();
        RemoveIgnored(wd);
        k := k + 1;
      }
      assert q[..k] == q;
    }

    /** The call made to one subscriber, if it wants the event. */
    method CallOne(id: nat, path: string, e: EventInfo) returns (ghost made: seq<Call>)
      requires Pointers()
      ensures var subs := Subs();
        made == if id in subs && e.event in subs[id].mask then [Call(id, e.event, FullPath(path, e.name))] else []
    {
      if id !in notifies {
        return [];
      }
      var notify := notifies[id];
      if e.event !in notify.mask {
        return [];
      }
      made := [Call(id, e.event, FullPath(path, e.name))];
    }

    /** The walk over a watch's list for one event; the functions called change no
        subscription. */
    method CallSubscribers(path: string, l: seq<nat>, e: EventInfo) returns (ghost made: seq<Call>)
      requires Pointers()
      ensures Pointers() && View() == old(View()) && made == CallsTo(View(), path, l, e)
    {
      ghost var st := View();
      made := [];
      for i := 0 to |l|
        invariant Pointers() && Subs() == st.subs
        invariant made == CallsTo(st, path, l[..i], e)
      {
        assert l[..i + 1][..i] == l[..i];
        ghost var one := CallOne(l[i], path, e);
        made := made + one;
      }
      assert l[..|l|] == l;
      assert Watches() == old(Watches()) && Wds() == old(Wds());
    }

    /** One event looked up and passed on. */
    method Deliver(e: EventInfo) returns (ghost made: seq<Call>)
      requires Valid()
      ensures Valid() && View() == old(View()) && made == CallsFor(View(), e)
    {
      hide Pointers, View, Consistent;
      ViewKeys();
      if e.wd !in wdToWatch {
        return [];
      }
      WdFields(e.wd);
      var watch := wdToWatch[e.wd];
      made := CallSubscribers(watch.path, watch.notifies, e);
    }

    method PopEvent(ghost made: seq<Call>)
      requires Valid() && notifyEvents != []
      modifies this`notifyEvents, this`calls
      ensures Valid() && notifyEvents == old(notifyEvents)[1..]
      ensures View() == old(View()).(events := notifyEvents, calls := old(calls) + made)
    {
      hide Consistent;
      SameIndexes(View(), View().(events := notifyEvents[1..], calls := calls + made));
      notifyEvents, calls := notifyEvents[1..], calls + made;
      assert Watches() == old(Watches()) && Wds() == old(Wds()) && Subs() == old(Subs());
    }

    /** emit_events_in_idle */
    method EmitEventsInIdle()
      requires Valid()
      modifies this`notifyEvents, this`calls
      ensures Valid() && View() == EmitEvents(old(View()))
    {
      hide Pointers, View, Consistent, CallsFor, AllCallsFor;
      ghost var st, q := View(), notifyEvents;
      ghost var k := 0;
      ViewKeys();
      EventsStart(st);
      while notifyEvents != []
        invariant Valid() && k <= |q| && notifyEvents == q[k..]
        invariant View() == st.(events := q[k..], calls := st.calls + AllCallsFor(st, q[..k]))
        decreases |notifyEvents|
      {
        CallOneMore(st, q, k);
        ViewKeys();
        ghost var made := Deliver(notifyEvents[0]);
        ViewKeys();
        PopEvent(made);
        k := k + 1;
      }
      assert q[..k] == q;
    }
  }
}
