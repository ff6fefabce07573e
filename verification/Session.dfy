/** The session and device objects of ck-session.c and ck-device-udev.c, updated in
    place; each method is proved against its function in SessionSpec. */
module Session {
  import opened Lists
  import opened Text
  import opened SessionSpec

  class Device {
    ghost const owner: Session  // the session on whose list the device is
    const key: Key
    const category: Category
    var state: bool
    var fdOpen: bool
    ghost var granted: bool

    ghost function View(): DeviceState
      reads this
    {
      DeviceState(key, category, state, fdOpen, granted)
    }

    /** ck_device_new, once udev has found the device */
    constructor (ghost owner: Session, key: Key, active: bool, probe: Probe)
      requires probe.exists_
      ensures this.owner == owner
      ensures Some(View()) == DeviceNew(key, active, probe)
    {
      this.owner := owner;
      this.key, category, state := key, probe.category, active;
      var fd: Option<bool> := None;
      if probe.category != Other {
        fd := DeviceOpen(probe.category, active, probe.opens, probe.master);
        if fd.None? && active {
          fd := DeviceOpen(probe.category, false, probe.reopens, false);
        }
      }
      fdOpen := fd.Some?;
      granted := fd.Some? && fd.value;
    }

    method SetActive(active: bool, kernel: Kernel)
      modifies this
      ensures View() == DeviceSetActive(old(View()), active, kernel)
      ensures old(state) == active ==> View() == old(View())
      ensures !old(state) && active ==> Reopened(old(View()), View(), kernel)
      ensures old(state) && !active && DeviceOk(old(View())) ==> GivenUp(old(View()), View())
    {
      if state == active {
        return;
      }
      state := active;
      match category {
        case Drm =>
          granted := active && fdOpen && key in kernel;
        case Evdev =>
          if active {
            fdOpen := key in kernel;
            granted := fdOpen;
          } else {
            granted := false;
          }
        case Other =>
      }
    }

    /** ck_device_finalize: access is always given up before the object goes away. */
    method Finalize()
      modifies this
      ensures View() == DeviceSetActive(old(View()), false, {}).(fdOpen := false)
      ensures DeviceOk(old(View())) ==> !granted
    {
      SetActive(false, {});
      fdOpen := false;
    }
  }

  ghost function Views(ds: seq<Device>): (vs: seq<DeviceState>)
    reads ds
    ensures |vs| == |ds|
    ensures forall i :: 0 <= i < |vs| ==> vs[i] == ds[i].View()
  {
    seq(|ds|, i requires 0 <= i < |ds| reads ds => ds[i].View())
  }

  class Session {
    const id: Id
    const info: SessionInfo
    var controller: Option<Sender>
    var devices: seq<Device>
    var active: bool
    var timerArmed: bool
    var reg: Registration
    ghost var sent: seq<Signal>

    ghost predicate Valid()
      reads this
    {
      && (forall i, j :: 0 <= i < j < |devices| ==> devices[i] != devices[j])
      && (forall i :: 0 <= i < |devices| ==> devices[i].owner == this)
    }

    ghost function Devices(): (ds: seq<DeviceState>)
      reads this, devices
      ensures |ds| == |devices|
      ensures forall i :: 0 <= i < |ds| ==> ds[i] == devices[i].View()
    {
      Views(devices)
    }

    ghost function View(): SessionState
      reads this, devices
    {
      SessionState(info, controller, Devices(), active, timerArmed, sent, reg)
    }

    constructor (id: Id, info: SessionInfo, isLocal: bool)
      ensures Valid() && this.id == id && devices == []
      ensures View() == NewSession(info, isLocal)
    {
      this.id, this.info, this.reg := id, info, Registration(false, isLocal, None, None);
      controller, devices, active, timerArmed := None, [], false, false;
      sent := [];
    }

    method MarkInactive()
      modifies this`active, this`sent
      ensures View() == SessionSpec.MarkInactive(old(View()))
    {
      active := false;
      sent := sent + [ActiveChanged(false)];
      assert Devices() == old(Devices());
    }

    method MarkActive()
      modifies this`active, this`sent
      ensures View() == SessionSpec.MarkActive(old(View()))
    {
      active := true;
      sent := sent + [ActiveChanged(true)];
      assert Devices() == old(Devices());
    }

    /** The walk of ck_session_pause_all_devices. */
    method PauseDevices(force: bool)
      requires Valid()
      modifies this`sent, devices
      ensures Devices() == if force then SetAll(old(Devices()), false, {}) else old(Devices())
      ensures sent == old(sent) + PauseSignals(old(Devices()), force)
    {
      hide SetAll;
      ghost var before := Devices();
      ghost var after := if force then SetAll(before, false, {}) else before;
      for i := 0 to |devices|
        modifies this`sent, devices
        invariant sent == old(sent) + PauseSignals(before[..i], force)
        invariant forall j :: 0 <= j < |devices| ==> devices[j].View() == if j < i then after[j] else before[j]
      {
        assert before[..i + 1][..i] == before[..i];
        if devices[i].state {
          sent := sent + [PauseDevice(devices[i].key, force)];
          if force {
            devices[i].SetActive(false, {});
          }
        }
      }
      assert before[..|devices|] == before;
    }

    method PauseAllDevices(force: bool)
      requires Valid()
      modifies this`active, this`timerArmed, this`sent, devices
      ensures Valid()
      ensures View() == PauseAll(old(View()), force)
    {
      PauseDevices(force);
      if force || devices == [] {
        MarkInactive();
      } else {
        timerArmed := true;
        assert Devices() == old(Devices());
      }
    }

    /** The walk of ck_session_resume_all_devices. */
    method ResumeDevices(kernel: Kernel)
      requires Valid()
      modifies this`sent, devices
      ensures Devices() == SetAll(old(Devices()), true, kernel)
      ensures sent == old(sent) + ResumeSignals(Devices())
    {
      ghost var before := Devices();
      ghost var after := SetAll(before, true, kernel);
      for i := 0 to |devices|
        modifies this`sent, devices
        invariant sent == old(sent) + ResumeSignals(after[..i])
        invariant forall j :: 0 <= j < |devices| ==> devices[j].View() == if j < i then after[j] else before[j]
      {
        assert after[..i + 1][..i] == after[..i];
        devices[i].SetActive(true, kernel);
        if devices[i].fdOpen {
          sent := sent + [ResumeDevice(devices[i].key)];
        }
      }
      assert after[..|devices|] == after;
      assert Devices() == after;
    }

    method ResumeAllDevices(kernel: Kernel)
      requires Valid()
      modifies this`active, this`sent, devices
      ensures Valid()
      ensures View() == ResumeAll(old(View()), kernel)
    {
      if controller.Some? {
        ResumeDevices(kernel);
      }
      MarkActive();
    }

    method SetActive(active: bool, force: bool, kernel: Kernel)
      requires Valid()
      modifies this`active, this`timerArmed, this`sent, devices
      ensures Valid()
      ensures View() == SessionSpec.SetActive(old(View()), active, force, kernel)
      ensures Inv(old(View())) && active && !old(this.active) ==> Resumed(old(View()), View(), kernel)
      ensures Inv(old(View())) && !active && force && old(this.active) ==> Paused(old(View()), View()) && !timerArmed
    {
      hide Resumed, Paused, Inv;
      if Inv(View()) {
        ActivationResumes(View(), force, kernel);
        ForcedDeactivationPauses(View(), kernel);
      }
      if this.active == active {
        return;
      }
      timerArmed := false;
      assert Devices() == old(Devices());
      if active {
        ResumeAllDevices(kernel);
      } else {
        PauseAllDevices(force);
      }
    }

    method CheckPausedDevices()
      modifies this`active, this`timerArmed, this`sent
      ensures View() == CheckPaused(old(View()))
    {
      for i := 0 to |devices|
        invariant forall j :: 0 <= j < i ==> !devices[j].state
      {
        if devices[i].state {
          assert Devices()[i].state;
          return;
        }
      }
      if active {
        MarkInactive();
      }
      timerArmed := false;
      assert Devices() == old(Devices());
    }

    method ForcePauseDevices()
      requires Valid()
      modifies this`active, this`timerArmed, this`sent, devices
      ensures Valid()
      ensures View() == ForcePause(old(View()))
    {
      ghost var before := Devices();
      for i := 0 to |devices|
        modifies devices
        invariant forall j :: 0 <= j < |devices| ==>
                    devices[j].View() == if j < i then DeviceSetActive(before[j], false, {}) else before[j]
      {
        devices[i].SetActive(false, {});
      }
      timerArmed := false;
      assert Devices() == SetAll(before, false, {});
      CheckPausedDevices();
    }

    /** Drops every device; each gives up its access as it is freed. */
    method RemoveAllDevices()
      requires Valid()
      modifies this`devices, devices
      ensures devices == []
      ensures forall d :: d in old(devices) && old(DeviceOk(d.View())) ==> !d.granted
    {
      for i := 0 to |devices|
        modifies devices
        invariant forall j :: 0 <= j < i ==> old(DeviceOk(devices[j].View())) ==> !devices[j].granted
        invariant forall j :: i <= j < |devices| ==> devices[j].View() == old(devices[j].View())
      {
        devices[i].Finalize();
      }
      devices := [];
    }

    method SetSessionController(bus: Option<Sender>)
      requires Valid()
      modifies this`controller, this`devices, this`timerArmed, devices
      ensures Valid() && devices == []
      ensures View() == SetController(old(View()), bus)
      ensures forall d :: d in old(devices) && old(DeviceOk(d.View())) ==> !d.granted
    {
      timerArmed := false;
      controller := None;
      RemoveAllDevices();
      controller := bus;
    }

    method TakeControl(sender: Sender, force: bool, root: bool) returns (reply: Reply)
      requires Valid()
      modifies this`controller, this`devices, this`timerArmed, devices
      ensures Valid() && (devices == old(devices) || devices == [])
      ensures (View(), reply) == SessionSpec.TakeControl(old(View()), sender, force, root)
    {
      if controller == Some(sender) {
        return Done;
      }
      if controller.None? || (force && root) {
        SetSessionController(Some(sender));
        return Done;
      }
      return if force then NotPermitted else ControllerPresent;
    }

    method ReleaseControl(sender: Sender) returns (reply: Reply)
      requires Valid()
      modifies this`controller, this`devices, this`timerArmed, devices
      ensures Valid() && (devices == old(devices) || devices == [])
      ensures (View(), reply) == SessionSpec.ReleaseControl(old(View()), sender)
    {
      if controller != Some(sender) {
        return NotController;
      }
      SetSessionController(None);
      return Done;
    }

    /** ck_session_get_device: the listed live device with this key, or null. */
    method GetDevice(key: Key) returns (device: Device?, at: nat)
      requires Valid()
      modifies this`devices
      ensures Valid()
      ensures (View(), device != null) == SessionSpec.GetDevice(old(View()), key)
      ensures device != null ==> at == IndexOf(Devices(), key) && at < |devices| && device == devices[at]
      ensures forall d :: d in devices ==> d in old(devices)
      ensures forall d :: d in old(devices) && d !in devices ==> !d.fdOpen
    {
      var i := FindDevice(key);
      at := i;
      if i == |devices| {
        return null, at;
      }
      if devices[i].category == Evdev && !devices[i].fdOpen {
        RemoveDevice(i);
        return null, at;
      }
      return devices[i], at;
    }

    method FindDevice(key: Key) returns (i: nat)
      ensures i == IndexOf(Devices(), key)
    {
      i := 0;
      while i < |devices| && devices[i].key != key
        invariant i <= |devices|
        invariant forall j :: 0 <= j < i ==> devices[j].key != key
      {
        i := i + 1;
      }
      ghost var r := IndexOf(Devices(), key);
      assert r < |devices| ==> devices[r].key == key;
      assert i < |devices| ==> Devices()[i].key == key;
    }

    method RemoveDevice(i: nat)
      requires Valid() && i < |devices|
      modifies this`devices
      ensures Valid()
      ensures devices == old(devices[..i] + devices[i + 1..])
      ensures Devices() == RemoveAt(old(Devices()), i)
    {
      devices := devices[..i] + devices[i + 1..];
    }

    /** ck_session_create_device, after its lookup has found nothing */
    method CreateDevice(key: Key, probe: Probe) returns (reply: Reply)
      requires Valid()
      modifies this`devices
      ensures Valid()
      ensures (View(), reply) == SessionSpec.CreateDevice(old(View()), key, probe)
      ensures forall d :: d in devices ==> d in old(devices) || fresh(d)
    {
      if !probe.exists_ {
        return CannotCreate;
      }
      var device := new Device(this, key, active, probe);
      devices := [device] + devices;
      assert Devices() == [device.View()] + old(Devices());
      return if device.fdOpen then Done else NoDescriptor;
    }

    method TakeDevice(sender: Sender, key: Key, probe: Probe) returns (reply: Reply)
      requires Valid()
      modifies this`devices
      ensures Valid()
      ensures (View(), reply) == SessionSpec.TakeDevice(old(View()), sender, key, probe)
      ensures forall d :: d in devices ==> d in old(devices) || fresh(d)
    {
      if controller != Some(sender) {
        return NotController;
      }
      var device, at := GetDevice(key);
      if device != null {
        return AlreadyRequested;
      }
      device, at := GetDevice(key);
      if device != null {
        return if device.fdOpen then Done else NoDescriptor;
      }
      reply := CreateDevice(key, probe);
    }

    method ReleaseDevice(sender: Sender, key: Key) returns (reply: Reply)
      requires Valid()
      modifies this`devices, devices
      ensures Valid()
      ensures (View(), reply) == SessionSpec.ReleaseDevice(old(View()), sender, key)
      ensures forall d :: d in devices ==> d in old(devices)
      ensures forall d :: d in old(devices) && d !in devices && old(DeviceOk(d.View())) ==> !d.granted
    {
      hide SessionSpec.GetDevice, IndexOf, RemoveAt;
      if controller != Some(sender) {
        return NotController;
      }
      var device, at := GetDevice(key);
      if device == null {
        return NoSuchDevice;
      }
      assert device in devices;
      ghost var listed := devices;
      RemoveDevice(at);
      assert device !in devices;
      assert forall d :: d in listed && d != device ==> d in devices;
      ghost var after := Devices();
      device.Finalize();
      assert Devices() == after;
      return Done;
    }

    method PauseDeviceComplete(sender: Sender, key: Key) returns (reply: Reply)
      requires Valid()
      modifies this, devices
      ensures Valid()
      ensures (View(), reply) == PauseComplete(old(View()), sender, key)
      ensures forall d :: d in devices ==> d in old(devices)
    {
      if controller != Some(sender) {
        return NotController;
      }
      var device, at := GetDevice(key);
      if device == null {
        return NoSuchDevice;
      }
      assert device in devices;
      ghost var before := Devices();
      device.SetActive(false, {});
      assert Devices() == before[at := DeviceSetActive(before[at], false, {})];
      CheckPausedDevices();
      return Done;
    }

    /** ck_session_set_seat_id */
    method SetSeatId(seatId: Id)
      modifies this`reg
      ensures View() == old(View()).(reg := old(View()).reg.(seatId := Some(seatId)))
    {
      reg := reg.(seatId := Some(seatId));
      assert Devices() == old(Devices());
    }

    /** ck_session_set_runtime_dir and ck_session_set_is_local */
    method SetRegistration(runtimeDir: Option<string>, isLocal: bool)
      modifies this`reg
      ensures View() == old(View()).(reg := old(View()).reg.(runtimeDir := runtimeDir, isLocal := isLocal))
    {
      reg := reg.(runtimeDir := runtimeDir, isLocal := isLocal);
      assert Devices() == old(Devices());
    }

    method SetIdleHint(uid: nat, idle: bool) returns (reply: Reply)
      modifies this`reg
      ensures (View(), reply) == SessionSpec.SetIdleHint(old(View()), uid, idle)
    {
      if uid != info.uid {
        return NotPermitted;
      }
      if reg.idle != idle {
        reg := reg.(idle := idle);
      }
      assert Devices() == old(Devices());
      return Done;
    }
  }
}
