/** What ck-session.c and ck-device-udev.c do to a session and its devices, on values,
    and what every run of that protocol keeps. */
module SessionSpec {
  import opened Lists
  import opened Text

  type Id = string
  type Sender = string

  datatype Category = Drm | Evdev | Other
  datatype Key = Key(major: nat, minor: nat)

  /** A device on a session's list. granted is the kernel's side: DRM master is held
      or the evdev descriptor is open and not revoked. */
  datatype DeviceState = DeviceState(key: Key, category: Category, state: bool, fdOpen: bool, granted: bool)

  datatype Signal =
    | PauseDevice(key: Key, forced: bool)
    | ResumeDevice(key: Key)
    | ActiveChanged(active: bool)

  /** What is fixed when a session is opened. A missing string is "". */
  datatype SessionInfo = SessionInfo(
    uid: nat, displayDevice: string, x11DisplayDevice: string, x11Display: string,
    remoteHostName: string, vtnr: nat, creationTime: string)

  /** What the manager and the seat record on a session. */
  datatype Registration = Registration(
    idle: bool, isLocal: bool, seatId: Option<Id>, runtimeDir: Option<string>)

  datatype SessionState = SessionState(
    info: SessionInfo,
    controller: Option<Sender>,
    devices: seq<DeviceState>,
    active: bool,
    timerArmed: bool,
    sent: seq<Signal>,
    reg: Registration)

  datatype Reply = Done | NotController | AlreadyRequested | CannotCreate | NoDescriptor
    | NoSuchDevice | ControllerPresent | NotPermitted

  /** What the kernel answers when a device is created: whether udev knows it, its
      category, and the outcome of the first open, of SET_MASTER and of the second
      open made when the first attempt failed for an active session. */
  datatype Probe = Probe(exists_: bool, category: Category, opens: bool, master: bool, reopens: bool)

  /** The devices whose SET_MASTER or re-open the kernel grants during one step. */
  type Kernel = set<Key>

  // ----- devices

  /** ck_device_set_active; dropping master and revoking succeed. */
  function DeviceSetActive(d: DeviceState, active: bool, kernel: Kernel): DeviceState {
    if d.state == active then d
    else
      match d.category
      case Drm => d.(state := active, granted := active && d.fdOpen && d.key in kernel)
      case Evdev =>
        if active then d.(state := true, fdOpen := d.key in kernel, granted := d.key in kernel)
        else d.(state := false, granted := false)
      case Other => d.(state := active)
  }

  /** ck_device_open: the new descriptor, if any, and whether it holds the grant. */
  function DeviceOpen(category: Category, active: bool, opens: bool, master: bool): Option<bool> {
    if !opens then None
    else
      match category
      case Drm => if active && !master then None else Some(active)
      case Evdev => Some(active)
      case Other => Some(false)
  }

  /** ck_device_new */
  function DeviceNew(key: Key, active: bool, probe: Probe): Option<DeviceState> {
    if !probe.exists_ then None
    else if probe.category == Other then Some(DeviceState(key, Other, active, false, false))
    else
      var first := DeviceOpen(probe.category, active, probe.opens, probe.master);
      var fd := if first.None? && active then DeviceOpen(probe.category, false, probe.reopens, false) else first;
      Some(DeviceState(key, probe.category, active, fd.Some?, fd.Some? && fd.value))
  }

  // ----- walks over the device list

  function SetAll(ds: seq<DeviceState>, active: bool, kernel: Kernel): (r: seq<DeviceState>)
    ensures |r| == |ds|
    ensures forall i :: 0 <= i < |ds| ==> r[i] == DeviceSetActive(ds[i], active, kernel)
  {
    seq(|ds|, i requires 0 <= i < |ds| => DeviceSetActive(ds[i], active, kernel))
  }

  /** One PauseDevice for every active device, in list order. */
  function PauseSignals(ds: seq<DeviceState>, forced: bool): seq<Signal> {
    if ds == [] then []
    else
      var n := |ds| - 1;
      PauseSignals(ds[..n], forced) + (if ds[n].state then [PauseDevice(ds[n].key, forced)] else [])
  }

  /** One ResumeDevice for every device left with a descriptor, in list order. */
  function ResumeSignals(ds: seq<DeviceState>): seq<Signal> {
    if ds == [] then []
    else
      var n := |ds| - 1;
      ResumeSignals(ds[..n]) + (if ds[n].fdOpen then [ResumeDevice(ds[n].key)] else [])
  }

  predicate SomeActive(ds: seq<DeviceState>) {
    exists i :: 0 <= i < |ds| && ds[i].state
  }

  // ----- activation

  function MarkInactive(s: SessionState): SessionState {
    s.(active := false, sent := s.sent + [ActiveChanged(false)])
  }

  function MarkActive(s: SessionState): SessionState {
    s.(active := true, sent := s.sent + [ActiveChanged(true)])
  }

  /** ck_session_pause_all_devices */
  function PauseAll(s: SessionState, force: bool): SessionState {
    var paused := s.(sent := s.sent + PauseSignals(s.devices, force),
                     devices := if force then SetAll(s.devices, false, {}) else s.devices);
    if force || s.devices == [] then MarkInactive(paused) else paused.(timerArmed := true)
  }

  /** ck_session_resume_all_devices */
  function ResumeAll(s: SessionState, kernel: Kernel): SessionState {
    if s.controller.None? then MarkActive(s)
    else
      var ds := SetAll(s.devices, true, kernel);
      MarkActive(s.(devices := ds, sent := s.sent + ResumeSignals(ds)))
  }

  /** ck_session_set_active */
  function SetActive(s: SessionState, active: bool, force: bool, kernel: Kernel): SessionState {
    if s.active == active then s
    else if active then ResumeAll(s.(timerArmed := false), kernel)
    else PauseAll(s.(timerArmed := false), force)
  }

  /** ck_session_check_paused_devices */
  function CheckPaused(s: SessionState): SessionState {
    if SomeActive(s.devices) then s
    else (if s.active then MarkInactive(s) else s).(timerArmed := false)
  }

  /** force_pause_devices, the timer's callback */
  function ForcePause(s: SessionState): SessionState {
    CheckPaused(s.(devices := SetAll(s.devices, false, {}), timerArmed := false))
  }

  // ----- the controller and its devices

  /** ck_session_set_session_controller, with the clean-up it starts with */
  function SetController(s: SessionState, controller: Option<Sender>): SessionState {
    s.(controller := controller, devices := [], timerArmed := false)
  }

  function TakeControl(s: SessionState, sender: Sender, force: bool, root: bool): (SessionState, Reply) {
    if s.controller == Some(sender) then (s, Done)
    else if s.controller.None? || (force && root) then (SetController(s, Some(sender)), Done)
    else (s, if force then NotPermitted else ControllerPresent)
  }

  function ReleaseControl(s: SessionState, sender: Sender): (SessionState, Reply) {
    if s.controller == Some(sender) then (SetController(s, None), Done) else (s, NotController)
  }

  /** The position of the first device with this key, or |ds|. */
  function IndexOf(ds: seq<DeviceState>, key: Key): (i: nat)
    ensures i <= |ds|
    ensures forall j :: 0 <= j < i ==> ds[j].key != key
    ensures i < |ds| ==> ds[i].key == key
  {
    if ds == [] || ds[0].key == key then 0
    else
      var r := IndexOf(ds[1..], key);
      assert forall j :: 1 <= j < 1 + r ==> ds[j] == ds[1..][j - 1];
      1 + r
  }

  predicate Dead(d: DeviceState) { d.category == Evdev && !d.fdOpen }

  /** ck_session_get_device: looking up a dead input device takes it off the list. */
  function GetDevice(s: SessionState, key: Key): (r: (SessionState, bool))
    ensures r.0 == s.(devices := r.0.devices)
  {
    var i := IndexOf(s.devices, key);
    if i == |s.devices| then (s, false)
    else if Dead(s.devices[i]) then (s.(devices := RemoveAt(s.devices, i)), false)
    else (s, true)
  }

  function CreateDevice(s: SessionState, key: Key, probe: Probe): (SessionState, Reply) {
    match DeviceNew(key, s.active, probe)
    case None => (s, CannotCreate)
    case Some(d) => (s.(devices := [d] + s.devices), if d.fdOpen then Done else NoDescriptor)
  }

  /** dbus_take_device. ck_session_create_device looks the device up again first, which
      finds nothing unless the list held the key twice. */
  function TakeDevice(s: SessionState, sender: Sender, key: Key, probe: Probe): (r: (SessionState, Reply))
    ensures r.0 == s.(devices := r.0.devices)
  {
    if s.controller != Some(sender) then (s, NotController)
    else
      var (s1, found) := GetDevice(s, key);
      if found then (s1, AlreadyRequested)
      else
        var (s2, again) := GetDevice(s1, key);
        if again then
          (s2, if s2.devices[IndexOf(s2.devices, key)].fdOpen then Done else NoDescriptor)
        else CreateDevice(s2, key, probe)
  }

  function ReleaseDevice(s: SessionState, sender: Sender, key: Key): (r: (SessionState, Reply))
    ensures r.0 == s.(devices := r.0.devices)
  {
    if s.controller != Some(sender) then (s, NotController)
    else
      var (s1, found) := GetDevice(s, key);
      if !found then (s1, NoSuchDevice)
      else (s1.(devices := RemoveAt(s1.devices, IndexOf(s1.devices, key))), Done)
  }

  function PauseComplete(s: SessionState, sender: Sender, key: Key): (SessionState, Reply) {
    if s.controller != Some(sender) then (s, NotController)
    else
      var (s1, found) := GetDevice(s, key);
      if !found then (s1, NoSuchDevice)
      else
        var i := IndexOf(s1.devices, key);
        (CheckPaused(s1.(devices := s1.devices[i := DeviceSetActive(s1.devices[i], false, {})])), Done)
  }

  /** dbus_set_idle_hint: only the session's owner may set it. */
  function SetIdleHint(s: SessionState, uid: nat, idle: bool): (SessionState, Reply) {
    if uid != s.info.uid then (s, NotPermitted) else (s.(reg := s.reg.(idle := idle)), Done)
  }

  // ----- runs of one session

  datatype Event =
    | Activation(active: bool, force: bool, kernel: Kernel)
    | VtLeave
    | Timer
    | ControlTaken(sender: Sender, force: bool, root: bool)
    | ControlReleased(sender: Sender)
    | ControllerVanished
    | DeviceTaken(sender: Sender, key: Key, probe: Probe)
    | DeviceReleased(sender: Sender, key: Key)
    | DevicePaused(sender: Sender, key: Key)
    | IdleHinted(uid: nat, idle: bool)

  /** The timer's callback runs only while the timer is armed. */
  predicate Enabled(s: SessionState, e: Event) { e.Timer? ==> s.timerArmed }

  function Step(s: SessionState, e: Event): SessionState {
    match e
    case Activation(active, force, kernel) => SetActive(s, active, force, kernel)
    case VtLeave => PauseAll(s, true)
    case Timer => ForcePause(s)
    case ControlTaken(sender, force, root) => TakeControl(s, sender, force, root).0
    case ControlReleased(sender) => ReleaseControl(s, sender).0
    case ControllerVanished => SetController(s, None)
    case DeviceTaken(sender, key, probe) => TakeDevice(s, sender, key, probe).0
    case DeviceReleased(sender, key) => ReleaseDevice(s, sender, key).0
    case DevicePaused(sender, key) => PauseComplete(s, sender, key).0
    case IdleHinted(uid, idle) => SetIdleHint(s, uid, idle).0
  }

  function Run(s: SessionState, es: seq<Event>): SessionState {
    if es == [] then s else Step(Run(s, es[..|es| - 1]), es[|es| - 1])
  }

  /** A session as opened; isLocal is what its parameters said. */
  function NewSession(info: SessionInfo, isLocal: bool): SessionState {
    SessionState(info, None, [], false, false, [], Registration(false, isLocal, None, None))
  }

  // ----- the protocol invariant

  ghost predicate DeviceOk(d: DeviceState) {
    && (d.granted ==> d.state && d.fdOpen)
    && (d.fdOpen ==> d.category != Other)
  }

  ghost predicate DistinctKeys(ds: seq<DeviceState>) {
    forall i, j :: 0 <= i < j < |ds| ==> ds[i].key != ds[j].key
  }

  /** An inactive session has only inactive devices; without a controller there are no
      devices; no device is listed twice; an inactive device holds no kernel grant. */
  ghost predicate Inv(s: SessionState) {
    && (!s.active ==> !SomeActive(s.devices))
    && (s.controller.None? ==> s.devices == [])
    && DistinctKeys(s.devices)
    && (forall i :: 0 <= i < |s.devices| ==> DeviceOk(s.devices[i]))
  }

  /** No device of the session holds anything the kernel granted. */
  ghost predicate NothingGranted(s: SessionState) {
    forall i :: 0 <= i < |s.devices| ==> !s.devices[i].granted
  }

  lemma SetActiveKeepsInv(s: SessionState, active: bool, force: bool, kernel: Kernel)
    requires Inv(s)
    ensures Inv(SetActive(s, active, force, kernel))
  {
  }

  lemma GetDeviceKeepsInv(s: SessionState, key: Key)
    requires Inv(s)
    ensures var (s1, found) := GetDevice(s, key);
      && Inv(s1) && s1 == s.(devices := s1.devices)
      && (found <==> exists i :: 0 <= i < |s1.devices| && s1.devices[i].key == key)
  {
    var i := IndexOf(s.devices, key);
    if i < |s.devices| && Dead(s.devices[i]) {
      RemoveKeepsInv(s, i);
      var ds := RemoveAt(s.devices, i);
      forall j | 0 <= j < |ds| ensures ds[j].key != key {
        assert ds[j] == s.devices[if j < i then j else j + 1];
      }
    }
  }

  lemma CreateDeviceKeepsInv(s: SessionState, key: Key, probe: Probe)
    requires Inv(s) && s.controller.Some?
    requires forall i :: 0 <= i < |s.devices| ==> s.devices[i].key != key
    ensures Inv(CreateDevice(s, key, probe).0)
  {
    var d := DeviceNew(key, s.active, probe);
    if d.Some? {
      var ds := [d.value] + s.devices;
      assert forall j :: 1 <= j < |ds| ==> ds[j] == s.devices[j - 1];
    }
  }

  lemma TakeDeviceKeepsInv(s: SessionState, sender: Sender, key: Key, probe: Probe)
    requires Inv(s)
    ensures Inv(TakeDevice(s, sender, key, probe).0)
  {
    if s.controller == Some(sender) {
      GetDeviceKeepsInv(s, key);
      var (s1, found) := GetDevice(s, key);
      if !found {
        GetDeviceKeepsInv(s1, key);
        var (s2, again) := GetDevice(s1, key);
        if !again {
          CreateDeviceKeepsInv(s2, key, probe);
        }
      }
    }
  }

  lemma RemoveKeepsInv(s: SessionState, i: nat)
    requires Inv(s) && i < |s.devices|
    ensures Inv(s.(devices := RemoveAt(s.devices, i)))
  {
    var ds := RemoveAt(s.devices, i);
    forall j | 0 <= j < |ds| ensures ds[j] == s.devices[if j < i then j else j + 1] {}
  }

  lemma ReleaseDeviceKeepsInv(s: SessionState, sender: Sender, key: Key)
    requires Inv(s)
    ensures Inv(ReleaseDevice(s, sender, key).0)
  {
    if s.controller == Some(sender) {
      GetDeviceKeepsInv(s, key);
      var (s1, found) := GetDevice(s, key);
      if found {
        RemoveKeepsInv(s1, IndexOf(s1.devices, key));
      }
    }
  }

  lemma PauseCompleteKeepsInv(s: SessionState, sender: Sender, key: Key)
    requires Inv(s)
    ensures Inv(PauseComplete(s, sender, key).0)
  {
    hide Inv, CheckPaused, DeviceSetActive;
    if s.controller == Some(sender) {
      GetDeviceKeepsInv(s, key);
      var (s1, found) := GetDevice(s, key);
      if found {
        PausedOneKeepsInv(s1, IndexOf(s1.devices, key));
      }
    }
  }

  lemma PausedOneKeepsInv(s: SessionState, i: nat)
    requires Inv(s) && i < |s.devices|
    ensures Inv(CheckPaused(s.(devices := s.devices[i := DeviceSetActive(s.devices[i], false, {})])))
  {
  }

  lemma PausesKeepInv(s: SessionState)
    requires Inv(s)
    ensures Inv(PauseAll(s, true)) && Inv(ForcePause(s))
  {
  }

  lemma StepKeepsInv(s: SessionState, e: Event)
    requires Inv(s)
    ensures Inv(Step(s, e))
  {
    hide SetActive, PauseAll, ForcePause, TakeDevice, ReleaseDevice, PauseComplete;
    match e {
      case VtLeave => PausesKeepInv(s);
      case Timer => PausesKeepInv(s);
      case Activation(active, force, kernel) => SetActiveKeepsInv(s, active, force, kernel);
      case DeviceTaken(sender, key, probe) => TakeDeviceKeepsInv(s, sender, key, probe);
      case DeviceReleased(sender, key) => ReleaseDeviceKeepsInv(s, sender, key);
      case DevicePaused(sender, key) => PauseCompleteKeepsInv(s, sender, key);
      case _ =>
    }
  }

  /** Every run of a session, from its opening on, keeps the protocol invariant. */
  lemma {:induction false} EveryRunKeepsInv(info: SessionInfo, isLocal: bool, es: seq<Event>)
    ensures Inv(Run(NewSession(info, isLocal), es))
  {
    if es != [] {
      EveryRunKeepsInv(info, isLocal, es[..|es| - 1]);
      StepKeepsInv(Run(NewSession(info, isLocal), es[..|es| - 1]), es[|es| - 1]);
    }
  }

  /** No step but an activation makes a session active, and none changes what the manager
      and the seat rely on. */
  lemma StepFrame(s: SessionState, e: Event)
    ensures Step(s, e).info == s.info
    ensures !e.IdleHinted? ==> Step(s, e).reg == s.reg
    ensures Step(s, e).reg == s.reg.(idle := Step(s, e).reg.idle)
    ensures !(e.Activation? && e.active) && Step(s, e).active ==> s.active
  {
  }

  // ----- what is announced

  /** The activity last announced on the bus; a new session counts as inactive. */
  function Announced(sent: seq<Signal>): bool {
    if sent == [] then false
    else if sent[|sent| - 1].ActiveChanged? then sent[|sent| - 1].active
    else Announced(sent[..|sent| - 1])
  }

  predicate Silent(more: seq<Signal>) {
    forall i :: 0 <= i < |more| ==> !more[i].ActiveChanged?
  }

  lemma {:induction false} AnnouncedSkips(sent: seq<Signal>, more: seq<Signal>)
    requires Silent(more)
    ensures Announced(sent + more) == Announced(sent)
  {
    if more == [] {
      assert sent + more == sent;
    } else {
      AnnouncedSkips(sent, more[..|more| - 1]);
      assert (sent + more)[..|sent + more| - 1] == sent + more[..|more| - 1];
    }
  }

  lemma PauseSignalsAreSilent(ds: seq<DeviceState>, forced: bool)
    ensures Silent(PauseSignals(ds, forced))
  {
  }

  /** After every step the activity last announced is the activity flag. */
  lemma StepAnnounces(s: SessionState, e: Event)
    requires Announced(s.sent) == s.active
    ensures Announced(Step(s, e).sent) == Step(s, e).active
  {
    match e {
      case Activation(active, force, kernel) =>
        PauseSignalsAreSilent(s.devices, force);
        AnnouncedSkips(s.sent, PauseSignals(s.devices, force));
      case VtLeave =>
        PauseSignalsAreSilent(s.devices, true);
        AnnouncedSkips(s.sent, PauseSignals(s.devices, true));
      case _ =>
    }
  }

  lemma {:induction false} EveryRunAnnounces(info: SessionInfo, isLocal: bool, es: seq<Event>)
    ensures var s := Run(NewSession(info, isLocal), es); Announced(s.sent) == s.active
  {
    if es != [] {
      EveryRunAnnounces(info, isLocal, es[..|es| - 1]);
      StepAnnounces(Run(NewSession(info, isLocal), es[..|es| - 1]), es[|es| - 1]);
    }
  }

  // ----- cooperative pause

  predicate Acknowledgeable(s: SessionState, key: Key) {
    var i := IndexOf(s.devices, key);
    i < |s.devices| && !Dead(s.devices[i])
  }

  predicate AnotherActive(s: SessionState, key: Key) {
    exists j :: 0 <= j < |s.devices| && s.devices[j].key != key && s.devices[j].state
  }

  /** An acknowledgement leaves the session active exactly while some device is, if and
      only if it names a listed live device or another device is still active. Otherwise
      the acknowledgement is refused and only the timer will finish the pause. */
  lemma AcknowledgementExact(s: SessionState, sender: Sender, key: Key)
    requires Inv(s) && s.active && s.controller == Some(sender)
    ensures var r := PauseComplete(s, sender, key).0;
      (r.active <==> SomeActive(r.devices)) <==> (Acknowledgeable(s, key) || AnotherActive(s, key))
    ensures var r := PauseComplete(s, sender, key).0; !r.active ==> !r.timerArmed && NothingGranted(r)
  {
    hide GetDevice, CheckPaused, RemoveAt, DeviceSetActive, SomeActive, AnotherActive, NothingGranted, Inv;
    var i := IndexOf(s.devices, key);
    if !Acknowledgeable(s, key) {
      RefusedAcknowledgement(s, key, i);
    } else {
      LiveDeviceFound(s, key, i);
      PausedOne(s, i);
    }
  }

  lemma LiveDeviceFound(s: SessionState, key: Key, i: nat)
    requires i == IndexOf(s.devices, key) && Acknowledgeable(s, key)
    ensures GetDevice(s, key) == (s, true)
  {
  }

  lemma RefusedAcknowledgement(s: SessionState, key: Key, i: nat)
    requires Inv(s) && s.active && i == IndexOf(s.devices, key) && !Acknowledgeable(s, key)
    ensures var (r, found) := GetDevice(s, key);
      !found && r.active && (SomeActive(r.devices) <==> AnotherActive(s, key))
  {
    var r := GetDevice(s, key).0;
    if i < |s.devices| {
      var ds := RemoveAt(s.devices, i);
      forall j | 0 <= j < |s.devices| && s.devices[j].key != key ensures s.devices[j] in ds {
        assert s.devices[j] == ds[if j < i then j else j - 1];
      }
      forall j | 0 <= j < |ds| ensures ds[j] == s.devices[if j < i then j else j + 1] && ds[j].key != key {
      }
    }
  }

  lemma PausedOne(s: SessionState, i: nat)
    requires Inv(s) && s.active && i < |s.devices|
    ensures var r := CheckPaused(s.(devices := s.devices[i := DeviceSetActive(s.devices[i], false, {})]));
      && (r.active <==> SomeActive(r.devices)) && (!r.active ==> !r.timerArmed && NothingGranted(r))
  {
    PausedOneKeepsInv(s, i);
  }

  /** An input device whose descriptor could not be opened is taken by an active session,
      which is then asked to pause. (ck_session_set_active as it can be called: no caller
      in the daemon asks it to pause without force.) */
  function DeadDeviceTaken(controller: Sender, key: Key): seq<Event> {
    [ControlTaken(controller, false, false), Activation(true, true, {}),
     DeviceTaken(controller, key, Probe(true, Evdev, false, false, false)), Activation(false, false, {})]
  }

  /** The controller's acknowledgement takes the device off the list and is refused: no
      device is left, and the session stays active until the timer fires. */
  lemma AcknowledgementOfDeadDevice(info: SessionInfo, isLocal: bool, controller: Sender, key: Key)
    ensures var s := Run(NewSession(info, isLocal), DeadDeviceTaken(controller, key));
      var (r, reply) := PauseComplete(s, controller, key);
      && s.active && s.timerArmed && |s.devices| == 1 && s.devices[0].state
      && reply == NoSuchDevice && r.active && r.timerArmed && r.devices == []
      && !ForcePause(r).active && !ForcePause(r).timerArmed
  {
    var es, s := DeadDeviceTaken(controller, key), NewSession(info, isLocal);
    assert es[..4] == es && es[..4][..3] == es[..3] && es[..3][..2] == es[..2] && es[..2][..1] == es[..1];
    assert es[..1][..0] == [] && Run(s, es[..0]) == s;
    var s1 := Run(s, es[..1]);
    assert s1 == s.(controller := Some(controller));
    var s2 := Run(s, es[..2]);
    assert s2 == s1.(active := true, sent := s2.sent);
    var s3 := Run(s, es[..3]);
    assert s3 == s2.(devices := [DeviceState(key, Evdev, true, false, false)]);
    assert IndexOf(s3.devices, key) == 0;
  }

  /** The timer always finishes the pause. */
  lemma TimerCompletes(s: SessionState)
    requires Inv(s)
    ensures var r := ForcePause(s);
      !r.active && !r.timerArmed && !SomeActive(r.devices) && NothingGranted(r) && |r.devices| == |s.devices|
  {
  }

  function Acknowledge(s: SessionState, sender: Sender, keys: seq<Key>): SessionState
    decreases |keys|
  {
    if keys == [] then s else Acknowledge(PauseComplete(s, sender, keys[0]).0, sender, keys[1..])
  }

  ghost predicate NoneDead(s: SessionState) {
    forall i :: 0 <= i < |s.devices| ==> !Dead(s.devices[i])
  }

  lemma {:induction false} AcknowledgementsAfterwards(s: SessionState, sender: Sender, keys: seq<Key>)
    requires Inv(s) && !s.active && !s.timerArmed
    ensures var r := Acknowledge(s, sender, keys); !r.active && !r.timerArmed
    decreases |keys|
  {
    if keys != [] {
      PauseCompleteKeepsInv(s, sender, keys[0]);
      GetDeviceKeepsInv(s, keys[0]);
      AcknowledgementsAfterwards(PauseComplete(s, sender, keys[0]).0, sender, keys[1..]);
    }
  }

  /** Once the controller has acknowledged every active device, in any order and however
      often, the session is inactive and no timer is armed. */
  lemma {:induction false} AllAcknowledged(s: SessionState, sender: Sender, keys: seq<Key>)
    requires Inv(s) && s.active && s.controller == Some(sender) && NoneDead(s) && SomeActive(s.devices)
    requires forall i :: 0 <= i < |s.devices| && s.devices[i].state ==> s.devices[i].key in keys
    ensures var r := Acknowledge(s, sender, keys); !r.active && !r.timerArmed
    decreases |keys|
  {
    if keys != [] {
      var i := IndexOf(s.devices, keys[0]);
      var r := PauseComplete(s, sender, keys[0]).0;
      PauseCompleteKeepsInv(s, sender, keys[0]);
      if i < |s.devices| {
        var ds := s.devices[i := DeviceSetActive(s.devices[i], false, {})];
        assert r.devices == ds;
        if SomeActive(ds) {
          AllAcknowledged(r, sender, keys[1..]);
        } else {
          AcknowledgementsAfterwards(r, sender, keys[1..]);
        }
      } else {
        AllAcknowledged(s, sender, keys[1..]);
      }
    }
  }

  // ----- granting devices

  /** A device taken successfully is listed under its key; what the kernel granted for it
      was granted to an active session. */
  lemma TakenDeviceIsListed(s: SessionState, sender: Sender, key: Key, probe: Probe)
    requires Inv(s)
    ensures var (r, reply) := TakeDevice(s, sender, key, probe);
      && (reply == Done ==> exists d :: d in r.devices && d.key == key && d.fdOpen)
      && (!r.active ==> NothingGranted(r))
  {
    TakeDeviceKeepsInv(s, sender, key, probe);
    if s.controller == Some(sender) {
      GetDeviceKeepsInv(s, key);
      GetDeviceKeepsInv(GetDevice(s, key).0, key);
      var r := TakeDevice(s, sender, key, probe).0;
      if |r.devices| > 0 { assert r.devices[0] in r.devices; }
    }
  }

  /** A request refused for want of a descriptor still leaves the device on the list, so
      repeating it is refused as already requested (an input device excepted, whose dead
      entry the repetition drops). */
  lemma RefusedDeviceStaysListed(s: SessionState, sender: Sender, key: Key, probe: Probe, again: Probe)
    requires Inv(s)
    requires TakeDevice(s, sender, key, probe).1 == NoDescriptor
    ensures var r := TakeDevice(s, sender, key, probe).0;
      TakeDevice(r, sender, key, again).1 == AlreadyRequested <==> probe.category != Evdev
  {
    GetDeviceKeepsInv(s, key);
    GetDeviceKeepsInv(GetDevice(s, key).0, key);
    TakeDeviceKeepsInv(s, sender, key, probe);
    var r := TakeDevice(s, sender, key, probe).0;
    assert r.devices[0].key == key && !r.devices[0].fdOpen && r.devices[0].category == probe.category;
    assert IndexOf(r.devices, key) == 0;
    GetDeviceKeepsInv(r, key);
  }

  // ----- in the fields themselves

  function StateFlags(ds: seq<DeviceState>): (r: seq<bool>)
    ensures |r| == |ds| && forall i :: 0 <= i < |ds| ==> r[i] == ds[i].state
  {
    seq(|ds|, i requires 0 <= i < |ds| => ds[i].state)
  }

  function OpenFlags(ds: seq<DeviceState>): (r: seq<bool>)
    ensures |r| == |ds| && forall i :: 0 <= i < |ds| ==> r[i] == ds[i].fdOpen
  {
    seq(|ds|, i requires 0 <= i < |ds| => ds[i].fdOpen)
  }

  function ResumeEach(ds: seq<DeviceState>): (r: seq<Signal>)
    ensures |r| == |ds| && forall i :: 0 <= i < |ds| ==> r[i] == ResumeDevice(ds[i].key)
  {
    seq(|ds|, i requires 0 <= i < |ds| => ResumeDevice(ds[i].key))
  }

  function PauseEach(ds: seq<DeviceState>, forced: bool): (r: seq<Signal>)
    ensures |r| == |ds| && forall i :: 0 <= i < |ds| ==> r[i] == PauseDevice(ds[i].key, forced)
  {
    seq(|ds|, i requires 0 <= i < |ds| => PauseDevice(ds[i].key, forced))
  }

  /** d1 is d made active: master is set on the descriptor it has, an input device is opened
      anew, as far as the kernel lets it. */
  ghost predicate Reopened(d: DeviceState, d1: DeviceState, kernel: Kernel) {
    && d1.key == d.key && d1.category == d.category && d1.state
    && (d.category == Drm ==> d1.fdOpen == d.fdOpen && d1.granted == (d.fdOpen && d.key in kernel))
    && (d.category == Evdev ==> d1.fdOpen == (d.key in kernel) && d1.granted == (d.key in kernel))
    && (d.category == Other ==> d1.fdOpen == d.fdOpen && d1.granted == d.granted)
  }

  /** d1 is d made inactive: it keeps its descriptor and nothing the kernel granted. */
  ghost predicate GivenUp(d: DeviceState, d1: DeviceState) {
    d1.key == d.key && d1.category == d.category && !d1.state && d1.fdOpen == d.fdOpen && !d1.granted
  }

  /** r is s resumed: every device of a session with a controller is made active and, if it
      is left with a descriptor, announced, once and in list order; then the session is. */
  ghost predicate Resumed(s: SessionState, r: SessionState, kernel: Kernel) {
    && r == s.(devices := r.devices, active := true, timerArmed := false, sent := r.sent)
    && if s.controller.None? then r.devices == s.devices && r.sent == s.sent + [ActiveChanged(true)]
       else
         && |r.devices| == |s.devices|
         && (forall i :: 0 <= i < |s.devices| ==> Reopened(s.devices[i], r.devices[i], kernel))
         && exists more ::
              r.sent == s.sent + more + [ActiveChanged(true)]
              && Picked(OpenFlags(r.devices), ResumeEach(r.devices), more)
  }

  /** r is s paused by force: every device is made inactive, and each that was active
      announced, once and in list order; then the session is. */
  ghost predicate Paused(s: SessionState, r: SessionState) {
    && r == s.(devices := r.devices, active := false, timerArmed := r.timerArmed, sent := r.sent)
    && |r.devices| == |s.devices|
    && (forall i :: 0 <= i < |s.devices| ==> GivenUp(s.devices[i], r.devices[i]))
    && exists more ::
         r.sent == s.sent + more + [ActiveChanged(false)]
         && Picked(StateFlags(s.devices), PauseEach(s.devices, true), more)
  }

  lemma {:induction false} ResumesPicked(ds: seq<DeviceState>)
    ensures Picked(OpenFlags(ds), ResumeEach(ds), ResumeSignals(ds))
  {
    hide Picked;
    if ds == [] {
      NothingPicked<Signal>();
      assert OpenFlags(ds) == [] && ResumeEach(ds) == [];
    } else {
      var n, last := |ds| - 1, ResumeDevice(ds[|ds| - 1].key);
      ResumesPicked(ds[..n]);
      PickedOneMore(OpenFlags(ds[..n]), ResumeEach(ds[..n]), ResumeSignals(ds[..n]), ds[n].fdOpen, last);
      assert OpenFlags(ds) == OpenFlags(ds[..n]) + [ds[n].fdOpen];
      assert ResumeEach(ds) == ResumeEach(ds[..n]) + [last];
      assert ResumeSignals(ds[..n]) + [] == ResumeSignals(ds[..n]);
    }
  }

  lemma {:induction false} PausesPicked(ds: seq<DeviceState>, forced: bool)
    ensures Picked(StateFlags(ds), PauseEach(ds, forced), PauseSignals(ds, forced))
  {
    hide Picked;
    if ds == [] {
      NothingPicked<Signal>();
      assert StateFlags(ds) == [] && PauseEach(ds, forced) == [];
    } else {
      var n, last := |ds| - 1, PauseDevice(ds[|ds| - 1].key, forced);
      PausesPicked(ds[..n], forced);
      PickedOneMore(StateFlags(ds[..n]), PauseEach(ds[..n], forced), PauseSignals(ds[..n], forced), ds[n].state, last);
      assert StateFlags(ds) == StateFlags(ds[..n]) + [ds[n].state];
      assert PauseEach(ds, forced) == PauseEach(ds[..n], forced) + [last];
      assert PauseSignals(ds[..n], forced) + [] == PauseSignals(ds[..n], forced);
    }
  }

  /** Activating an inactive session resumes it, forced or not; an active one is left alone. */
  lemma ActivationResumes(s: SessionState, force: bool, kernel: Kernel)
    requires Inv(s)
    ensures var r := SetActive(s, true, force, kernel); if s.active then r == s else Resumed(s, r, kernel)
  {
    hide Picked;
    if !s.active {
      ResumesPicked(SetActive(s, true, force, kernel).devices);
    }
  }

  /** Deactivating an active session by force pauses it and leaves no timer. */
  lemma ForcedDeactivationPauses(s: SessionState, kernel: Kernel)
    requires Inv(s)
    ensures var r := SetActive(s, false, true, kernel); if !s.active then r == s else Paused(s, r) && !r.timerArmed
  {
    hide Picked, PauseAll;
    if s.active {
      ForcePauses(s.(timerArmed := false));
    }
  }

  /** So does the VT switch away from it, whatever it was; its timer is left as it was. */
  lemma ForcePauses(s: SessionState)
    requires Inv(s)
    ensures var r := Step(s, VtLeave); r == PauseAll(s, true) && Paused(s, r) && r.timerArmed == s.timerArmed
  {
    hide Picked;
    PausesPicked(s.devices, true);
  }

  /** Without force an active session with devices is only asked: each active device is
      announced, once and in list order, and the timer armed. Without devices it is inactive
      at once. */
  lemma CooperativePauseBegins(s: SessionState, kernel: Kernel)
    requires Inv(s) && s.active
    ensures var r := SetActive(s, false, false, kernel);
      if s.devices == [] then
        r == s.(active := false, timerArmed := false, sent := s.sent + [ActiveChanged(false)])
      else
        exists more ::
          r == s.(timerArmed := true, sent := s.sent + more)
          && Picked(StateFlags(s.devices), PauseEach(s.devices, false), more)
  {
    hide Picked;
    PausesPicked(s.devices, false);
  }

  // ----- who controls, and which devices are listed

  /** Control passes to the sender that asks for it if nobody has it or if root forces it,
      is given up by the controller alone, and is lost when the controller vanishes; with
      it go the devices and the timer. Nothing else changes who has it, and none but the
      controller changes the devices by asking. */
  lemma ControlPassesExactly(s: SessionState, e: Event)
    ensures Step(s, e).controller ==
      match e {
        case ControlTaken(sender, force, root) =>
          if s.controller == None || (force && root) then Some(sender) else s.controller
        case ControlReleased(sender) => if s.controller == Some(sender) then None else s.controller
        case ControllerVanished => None
        case _ => s.controller
      }
    ensures Step(s, e).controller != s.controller ==>
      Step(s, e) == s.(controller := Step(s, e).controller, devices := [], timerArmed := false)
    ensures e.DeviceTaken? || e.DeviceReleased? || e.DevicePaused? || e.ControlReleased? ==>
      s.controller == Some(e.sender) || Step(s, e) == s
    ensures e.ControlTaken? && Step(s, e).controller == s.controller ==> Step(s, e) == s
  {
  }

  /** How a request for control or its release is answered: the controller itself may always
      ask again; another is told why it is refused. */
  lemma ControlAnswered(s: SessionState, sender: Sender, force: bool, root: bool)
    ensures var (r, reply) := TakeControl(s, sender, force, root);
      && r == Step(s, ControlTaken(sender, force, root))
      && (reply == Done <==> r.controller == Some(sender))
      && (reply == NotPermitted <==> s.controller.Some? && s.controller != Some(sender) && force && !root)
      && (reply == ControllerPresent <==> s.controller.Some? && s.controller != Some(sender) && !force)
    ensures var (r, reply) := ReleaseControl(s, sender);
      r == Step(s, ControlReleased(sender)) && reply == if s.controller == Some(sender) then Done else NotController
  {
  }

  /** The device is listed, and is no input device without a descriptor. */
  ghost predicate Usable(s: SessionState, i: nat, key: Key) {
    i < |s.devices| && s.devices[i].key == key && (s.devices[i].category == Evdev ==> s.devices[i].fdOpen)
  }

  /** ds is the list without the device of this key. */
  ghost predicate LeftOut(s: SessionState, ds: seq<DeviceState>, key: Key) {
    || (ds == s.devices && forall i :: 0 <= i < |s.devices| ==> s.devices[i].key != key)
    || exists i :: 0 <= i < |s.devices| && s.devices[i].key == key && ds == s.devices[..i] + s.devices[i + 1..]
  }

  lemma LookedUp(s: SessionState, key: Key)
    requires Inv(s)
    ensures var (r, found) := GetDevice(s, key); var i := IndexOf(s.devices, key);
      if found then r == s && Usable(s, i, key)
      else r == s.(devices := r.devices) && LeftOut(s, r.devices, key) && forall j :: !Usable(s, j, key)
  {
  }

  /** What TakeDevice adds for a device the kernel knows: an input device or a display is
      opened, and the display made master, for an active session; if that fails it is
      opened once more without. */
  ghost predicate NewlyTaken(d: DeviceState, key: Key, active: bool, probe: Probe) {
    && d.key == key && d.category == probe.category && d.state == active
    && (probe.category == Other ==> !d.fdOpen && !d.granted)
    && (probe.category == Drm ==>
          && d.granted == (active && probe.opens && probe.master)
          && d.fdOpen == if active then (probe.opens && probe.master) || probe.reopens else probe.opens)
    && (probe.category == Evdev ==>
          && d.granted == (active && probe.opens)
          && d.fdOpen == if active then probe.opens || probe.reopens else probe.opens)
  }

  /** TakeDevice, for the controller alone: refused for a device listed already unless it is
      an input device without a descriptor, and for one the kernel does not know; otherwise
      the new device comes first in the list, and the reply says whether it has a
      descriptor. */
  lemma TakeDeviceExactly(s: SessionState, sender: Sender, key: Key, probe: Probe)
    requires Inv(s)
    ensures var (r, reply) := TakeDevice(s, sender, key, probe);
      && r == s.(devices := r.devices)
      && (s.controller != Some(sender) ==> reply == NotController && r == s)
      && (s.controller == Some(sender) && (exists i :: Usable(s, i, key)) ==> reply == AlreadyRequested && r == s)
      && (s.controller == Some(sender) && (forall i :: !Usable(s, i, key)) ==>
            if !probe.exists_ then reply == CannotCreate && LeftOut(s, r.devices, key)
            else
              && r.devices != [] && NewlyTaken(r.devices[0], key, s.active, probe) && LeftOut(s, r.devices[1..], key)
              && reply == if r.devices[0].fdOpen then Done else NoDescriptor)
  {
    hide GetDevice, IndexOf, DeviceNew, Inv;
    if s.controller == Some(sender) {
      LookedUp(s, key);
      GetDeviceKeepsInv(s, key);
      var (s1, found) := GetDevice(s, key);
      if !found {
        LookedUp(s1, key);
        Absent(s1, key);
        NewDevice(key, s.active, probe);
      }
    }
  }

  /** What the first lookup has taken off the list the second does not find. */
  lemma Absent(s: SessionState, key: Key)
    requires Inv(s) && !GetDevice(s, key).1 && forall i :: 0 <= i < |s.devices| ==> s.devices[i].key != key
    ensures GetDevice(s, key) == (s, false)
  {
  }

  lemma NewDevice(key: Key, active: bool, probe: Probe)
    ensures var d := DeviceNew(key, active, probe);
      if probe.exists_ then d.Some? && NewlyTaken(d.value, key, active, probe) else d.None?
  {
  }

  /** ReleaseDevice, for the controller alone: the device leaves the list. */
  lemma ReleaseDeviceExactly(s: SessionState, sender: Sender, key: Key)
    requires Inv(s)
    ensures var (r, reply) := ReleaseDevice(s, sender, key);
      && r == s.(devices := r.devices)
      && (s.controller != Some(sender) ==> reply == NotController && r == s)
      && (s.controller == Some(sender) ==>
            && LeftOut(s, r.devices, key)
            && reply == if exists i :: Usable(s, i, key) then Done else NoSuchDevice)
  {
    hide GetDevice, Inv;
    if s.controller == Some(sender) {
      LookedUp(s, key);
    }
  }

  /** PauseDeviceComplete, for the controller alone: the device is made inactive where it is,
      and if none is left active so is the session, its timer dropped. */
  lemma PauseCompleteExactly(s: SessionState, sender: Sender, key: Key)
    requires Inv(s)
    ensures var (r, reply) := PauseComplete(s, sender, key);
      && (s.controller != Some(sender) ==> reply == NotController && r == s)
      && (s.controller == Some(sender) && (forall i :: !Usable(s, i, key)) ==>
            reply == NoSuchDevice && r == s.(devices := r.devices) && LeftOut(s, r.devices, key))
      && (forall i: nat :: s.controller == Some(sender) && Usable(s, i, key) ==>
            && reply == Done && |r.devices| == |s.devices|
            && GivenUp(s.devices[i], r.devices[i])
            && (forall j :: 0 <= j < |s.devices| && j != i ==> r.devices[j] == s.devices[j])
            && PauseEnded(s, r, exists j :: 0 <= j < |r.devices| && r.devices[j].state))
  {
    hide GetDevice, CheckPaused, DeviceSetActive, GivenUp, PauseEnded, LeftOut, Inv;
    if s.controller == Some(sender) {
      LookedUp(s, key);
      var i := IndexOf(s.devices, key);
      if GetDevice(s, key).1 {
        OnePaused(s, i);
        ListedOnce(s, key);
      }
    }
  }

  lemma OnePaused(s: SessionState, i: nat)
    requires Inv(s) && i < |s.devices|
    ensures var r := CheckPaused(s.(devices := s.devices[i := DeviceSetActive(s.devices[i], false, {})]));
      && |r.devices| == |s.devices| && GivenUp(s.devices[i], r.devices[i])
      && (forall j :: 0 <= j < |s.devices| && j != i ==> r.devices[j] == s.devices[j])
      && PauseEnded(s, r, exists j :: 0 <= j < |r.devices| && r.devices[j].state)
  {
  }

  lemma ListedOnce(s: SessionState, key: Key)
    requires Inv(s)
    ensures forall i: nat :: i < |s.devices| && s.devices[i].key == key ==> i == IndexOf(s.devices, key)
  {
  }

  /** Whether the pause has ended with it: r differs from s in its devices and, unless some
      are left active, in being inactive and having no timer. */
  ghost predicate PauseEnded(s: SessionState, r: SessionState, left: bool) {
    if left then r == s.(devices := r.devices)
    else r == s.(devices := r.devices, active := false, timerArmed := false,
                 sent := if s.active then s.sent + [ActiveChanged(false)] else s.sent)
  }

  /** The timer: every device is made inactive, and the session with them. */
  lemma TimerExactly(s: SessionState)
    requires Inv(s)
    ensures var r := ForcePause(s);
      && r == Step(s, Timer) && |r.devices| == |s.devices|
      && (forall i :: 0 <= i < |s.devices| ==> GivenUp(s.devices[i], r.devices[i]))
      && PauseEnded(s, r, false)
  {
  }

  /** Only the session's own user sets its idle hint. */
  lemma IdleHintExactly(s: SessionState, uid: nat, idle: bool)
    ensures var (r, reply) := SetIdleHint(s, uid, idle);
      if uid == s.info.uid then reply == Done && r == s.(reg := s.reg.(idle := idle))
      else reply == NotPermitted && r == s
  {
  }
}
