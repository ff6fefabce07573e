# ConsoleKit2 in Dafny

ConsoleKit2 keeps track of the users logged in to a machine, and decides which of them has
the use of its screen, keyboard and mouse. This project models the daemon as a state
machine, one step for one D-Bus call, VT change, timer, pipe hang-up or peer that
disconnects, and proves what every run of it keeps. It has five parts.

* **Sessions, devices and seats.** `SessionSpec` and `SeatSpec` say on values what the
  session protocol (pause, acknowledge, resume, take and release of devices) and the seat
  (VT changes, activation, adding and removing of sessions) do. `Session` and `Seat` are the
  objects, updated in place; every method is proved equal to its function there. Of
  the promise of README:14, only one session active on a seat at a time, the exact condition
  over all runs of a seat is proved in two forms: no session but the one the seat has cached
  is active (`Exclusive`; a seat is `Safe` when the protocol invariant holds and the cache is
  right besides), and, taken literally, at most one is (`OneActive`).
* **The manager.** `ManagerSpec` has the tables of sessions, seats and leaders, the runtime
  directories and the idle hint, over the sessions and seats of the first part and the locks
  and actions of the third. `Manager` is the object over real session and seat objects.
  `ManagerSafety` proves exclusivity of every seat under the manager's events, `ManagerRuns`
  takes each invariant over whole runs of the daemon, under the condition that is exactly its
  own, and `ManagerFailures` has runs that break them. `ManagerEvents` says event by event, in
  the fields of the tables alone, where a session goes, who may end it and what becomes of
  seats, directories and the idle hint. `Ids` draws fresh ids.
* **Inhibit locks and delayed system actions.** `InhibitSpec` and `ActionSpec` on values,
  `Inhibit` and `SystemActions` as objects with the counter table and the armed timeout.
* **The file monitor.** `FileMonitorSpec` on values; `FileMonitor` as linked watch and notify
  objects behind three tables.
* **The event log and console names.** `Pattern` gives the log parser's regular expressions
  and proves that reading them greedily finds exactly the texts of their form; `LogEvent`
  prints and parses; `Console` names and numbers consoles; `Text` scans and prints numbers;
  `Lists` has three notions about lists.

`<X>Spec` modules hold functions on values and the theorems about them. The classes hold the
same fields as the source's objects and a function `View` (or `State`, `model`) to those
values; a method's contract `View() == F(old(View()))` carries the theorems over to them.
Beside the invariants over runs each operation has a theorem that says what it does without
naming the functions it is made of, in the fields before and after (`ActivationResumes`,
`LookupExactly`, `ActivationExactly`, `SeatChosenExactly`, `ShutdownsAnswered`,
`ReportsReachSubscribers`, and more beside them in the table).

Where the code is weaker than what it is meant to do, the model does what the code does, a
lemma exhibits the failure by a run from the start, and the condition under which the code
does what is meant is proved to be exact, for one step or over whole runs:

* an activation answered "already active" marks a session active without caching it
  (src/ck-seat.c:317-322), and the manager does not ask whether the session is attached to
  the seat named (src/ck-manager.c:3735-3781): `TwoActiveSessions` and
  `ForeignActivationBreaks` are the runs. That no session but the cached one is active holds
  exactly while this is not done: `ActivateExact`, `NextKeepsSafe`, `RunIsExclusiveExactly`,
  `RunIsSafeExactly`, `ExclusiveExactlyWhenFaithful`. Done once it leaves one session active,
  the wrong one (`StrayAlone`); that at most one is active holds exactly while none is
  activated beside one that stays active: `OneActiveExactly`;
* a session id that a leader still has can be drawn again once the serial has come round,
  only the session table being asked (src/ck-manager.c:583-600): in `SessionIdReused` the old
  leader's cookie finds the new leader's session; `NextKeepsTables`, `TablesAgreeExactly`,
  `NoReuseBeforeWrap`;
* releasing a lock takes the first lock without a path off the manager's list and detaches
  it, so later signals of a lock on several events go unheard (src/ck-inhibit-manager.c:155,
  244-270): `TwoEventLockLeaks`; `ReleaseExactIff`, `ExactRunIff`;
* a lock whose client's end cannot be opened fails with the daemon's end left open and never
  counted (src/ck-inhibit.c:524-539), and takes a counter below zero if it is ever hung up. Linux reports no hang-up of a FIFO
  nobody has opened for writing, so there another process must have opened the path and
  closed it: `AbandonedLockUnderflows`; `CoveredThroughoutIff`, `ExactThroughoutIff`;
* a delay lock on sleep that goes away carries out a shutdown that waits for a delay lock on
  shutdown (src/ck-manager.c:4117-4137): `FiresForTheOtherKind`; `FiresEarlyExactly`;
* an acknowledgement for an input device without an open descriptor is refused and never ends
  the pause (src/ck-session.c:1760-1790): `AcknowledgementOfDeadDevice`;
  `AcknowledgementExact`. No caller of ck_session_set_active in the daemon passes FALSE for
  force (src/ck-seat.c:311, 322, 621, 632, 640), so the cooperative pause is proved for the
  function as it can be called, and never starts in this tree;
* a user's runtime directory is removed while sessions of the user remain when the session
  looked at was never given one (src/ck-manager.c:3353-3361): `DirectoryRemovedInUse`;
  `CloseDirExact`, `DirsRightExactly`;
* two paths of one file share a watch descriptor (src/ck-file-monitor-inotify.c:208-222), and
  a path watched anew before its removal is carried out is lost: `SharedDescriptor`,
  `LostSubscription`; `AddKeepsExactly`, `RunIsConsistentExactly`, `OutlivesRemovalsExactly`;
* the parser of the log fetches the seat's kind and the remote host under names its
  expressions do not have (src/ck-log-event.c:780, 797, 994, 1015):
  `DynamicSeatComesBackStatic`; `RoundTripExactly`.

## Model

| member | source | states |
|---|---|---|
| SessionSpec.EveryRunKeepsInv | src/ck-session.c:633-896 | In every run of a session, over all calls, timers and VT signals: inactive means all its devices are, no controller means no devices, no device is listed twice, and an inactive device holds nothing the kernel granted. |
| SessionSpec.StepKeepsInv | src/ck-session.c:1569-1950 | Each single step keeps that invariant, from any state that has it. |
| SessionSpec.StepFrame | src/ck-session.c:859-896 | No step changes what is fixed about a session, and none but an activation makes it active. |
| SessionSpec.EveryRunAnnounces | src/ck-session.c:687-857 | In every run the last ActiveChanged signal sent, if any, says what the active flag says. |
| SessionSpec.CooperativePauseBegins | src/ck-session.c:687-732 | A deactivation without force, with devices, changes nothing but the timer, which is armed, and sends one unforced PauseDevice for each active device, in list order; without devices the session is inactive at once. |
| SessionSpec.ActivationResumes | src/ck-session.c:752-857 | Activating an inactive session that has a controller makes every device active, in place: a display keeps its descriptor and is granted master exactly if it has one and the kernel lets it, an input device has descriptor and grant exactly if the kernel lets it, another device is left as it was; one ResumeDevice goes out for each device left with a descriptor, in list order, then ActiveChanged(true). |
| SessionSpec.ForcedDeactivationPauses | src/ck-session.c:859-896 | Deactivating an active session by force makes every device inactive without a grant, its descriptor kept, sends one forced PauseDevice for each that was active, in list order, then ActiveChanged(false), and leaves no timer. |
| SessionSpec.ForcePauses | src/ck-session.c:1433-1449 | The VT switch away from a session does the same, whatever it was, but for the timer. |
| SessionSpec.TimerExactly | src/ck-session.c:666-684 | The timer leaves every device inactive without a grant and announces only that the session is no longer active, if it was. |
| SessionSpec.ControlPassesExactly | src/ck-session.c:1646-1758 | Over all steps: control passes to a sender that asks exactly if nobody has it or root forces it, is given up by the controller alone and lost when the controller vanishes; with it go all devices and the timer; who has not control changes nothing by asking. |
| SessionSpec.ControlAnswered | src/ck-session.c:1692-1758 | A request for control is granted exactly if the sender has it afterwards, refused as not permitted exactly if another has it and it was forced without root, as taken exactly if it was not forced. |
| SessionSpec.TakeDeviceExactly | src/ck-session.c:1836-1884 | TakeDevice by the controller is refused for a device listed already, an input device without a descriptor excepted, and for one unknown; else the device comes first in the list, with the descriptor and grant each outcome of the kernel gives it. |
| SessionSpec.ReleaseDeviceExactly | src/ck-session.c:1886-1917 | ReleaseDevice by the controller takes exactly that device off the list and succeeds exactly if it was listed and alive. |
| SessionSpec.PauseCompleteExactly | src/ck-session.c:1919-1950 | PauseDeviceComplete by the controller makes exactly that device inactive; the session follows, with one ActiveChanged(false) and its timer dropped, exactly if none is left active. |
| SessionSpec.IdleHintExactly | src/ck-session.c:464-511 | Only the session's own user changes its idle hint. |
| SessionSpec.AcknowledgementExact | src/ck-session.c:1919-1950 | After PauseDeviceComplete the session is active exactly while some device is, if and only if the device acknowledged is listed and not without a descriptor, or another one is still active; when it makes the session inactive no timer is left armed and nothing granted. |
| SessionSpec.AcknowledgementOfDeadDevice | src/ck-session.c:1760-1790 | A run of a new session: a device whose descriptor cannot be opened is taken and the session asked to pause; the acknowledgement takes the device off the list, is refused, and the session stays active until the timer fires. |
| SessionSpec.TimerCompletes | src/ck-session.c:666-684 | The timer always makes the session inactive, with every device inactive and no timer armed. |
| SessionSpec.AllAcknowledged | src/ck-session.c:1919-1950 | Acknowledging every active device, in any order and however often, leaves the session inactive and no timer armed. |
| SessionSpec.TakenDeviceIsListed | src/ck-session.c:1836-1884 | TakeDevice that succeeds leaves a device of that number with a descriptor on the list, and an inactive session is never left with a grant. |
| SessionSpec.RefusedDeviceStaysListed | src/ck-session.c:1791-1815 | TakeDevice refused for want of a descriptor leaves the device on the list: asking again is refused as already requested, exactly when it is not an input device. |
| Session.Device.constructor | src/ck-device-udev.c:350-427 | A device made for an active session holds the grant exactly when the first open and SET_MASTER succeed; otherwise it is tried once more without. |
| Session.Device.SetActive | src/ck-device-udev.c:430-473 | Nothing when the state is as asked; else master is set or dropped, or the descriptor reopened or revoked. |
| Session.Device.Finalize | src/ck-device-udev.c:129-149 | A device that goes away holds nothing afterwards. |
| Session.Session.PauseAllDevices | src/ck-session.c:687-732 | The walk over the device list, in place, does to the whole session what the specification says, signals in order. |
| Session.Session.ResumeAllDevices | src/ck-session.c:752-857 | The same for resuming. |
| Session.Session.SetActive | src/ck-session.c:859-896 | The same for ck_session_set_active. |
| Session.Session.CheckPausedDevices | src/ck-session.c:633-664 | The search for an active device decides, in place, whether the pause is complete. |
| Session.Session.ForcePauseDevices | src/ck-session.c:666-684 | The timer's callback, with its walk. |
| Session.Session.SetSessionController | src/ck-session.c:1646-1683 | A change of controller empties the device list, and none of the devices dropped holds anything. |
| Session.Session.TakeControl | src/ck-session.c:1692-1737 | Who gets control, by whether there is a controller, force and root; the reply and the new state. |
| Session.Session.ReleaseControl | src/ck-session.c:1739-1758 | Only the controller gives control up. |
| Session.Session.GetDevice | src/ck-session.c:1760-1790 | Finding a dead input device takes it off the list; nothing alive is lost. |
| Session.Session.TakeDevice | src/ck-session.c:1836-1884 | The new state and the reply for every outcome of the kernel. |
| Session.Session.ReleaseDevice | src/ck-session.c:1886-1917 | The first device with the numbers leaves the list, and what leaves it holds nothing. |
| Session.Session.PauseDeviceComplete | src/ck-session.c:1919-1950 | The device is made inactive in place and the pause completed when it was the last. |
| SeatSpec.SafeMeansExclusiveHardware | README:13-15 | In a safe state at most one session of the seat is marked active, and a session other than the cached one has no active device and no kernel grant. |
| SeatSpec.HandoverInOrder | src/ck-seat.c:610-662 | After the first half of a change no session of the seat is active or holds a grant; only then is the new one activated. |
| SeatSpec.VtChangeKeepsSafe | src/ck-seat.c:664-693 | A VT change keeps the seat safe: exclusive, with the cache equal to what the lookup for the new VT finds. |
| SeatSpec.AddKeepsSafe | src/ck-seat.c:767-799 | So does adding a session, whatever console it names. |
| SeatSpec.RemoveKeepsSafe | src/ck-seat.c:706-765 | So does removing one, which is left inactive with nothing granted. |
| SeatSpec.OnSessionKeepsSafe | src/ck-session.c:1569-1950 | So does every step of one of its sessions by itself. |
| SeatSpec.ActivateExact | src/ck-seat.c:250-349 | An activation leaves no session but the cached one active, and the seat safe, if and only if it is not answered "already active" for a session that is not the cached one. |
| SeatSpec.RefusedActivation | src/ck-seat.c:324-341 | A request the VT driver refuses leaves no session active, though the cache still names the old one. |
| SeatSpec.DistinctConsolesAreFaithful | src/ck-seat.c:438-608 | When the sessions name pairwise distinct canonical consoles, in either field, activation by parsed number and lookup by name pick the same session. |
| SeatSpec.EveryRunIsSafe | README:13-15 | Over all runs of a static seat whose sessions always name distinct consoles: at most one session is active, it is the cached one, the cache is what the lookup finds, and no other session has an active device. |
| SeatSpec.RunIsExclusiveExactly | README:13-15 | For any run of a safe seat, sessions added and removed on whatever consoles: no session but the cached one is active, throughout, if and only if no request in it is answered "already active" for a session that is not the cached one. |
| SeatSpec.OneActiveExactly | README:13-15 | For any run of a seat, whatever state it starts from and however it strays: at most one session is active throughout if and only if none is ever activated while another, neither it nor the cached one, is active and stays on the seat. |
| SeatSpec.ExclusiveHasOne | README:13-15 | So at most one is active throughout any run of a safe seat that does not stray. |
| SeatSpec.StrayAlone | src/ck-seat.c:312-322 | One stray request leaves exactly one session active, which is not the cached one. |
| SeatSpec.CacheFollowsLookup | src/ck-seat.c:555-693 | In any run of a seat, straying or not, the cached session is what a lookup for the current VT finds. |
| SeatSpec.TwoActiveSessions | src/ck-seat.c:312-341 | A run of five events from an empty seat, two of its three sessions naming one console: two sessions end up marked active. |
| SeatSpec.ExclusiveExactlyWhenFaithful | src/ck-seat.c:312-341 | For any safe static seat: in every run in which sessions are added only with consoles that are faithful no session but the cached one is active, if and only if each console names its session uniquely now; otherwise a run of at most three events breaks it. |
| SeatSpec.DynamicSeatsStayInactive | src/ck-seat.c:681-693 | A dynamic seat never has an active session, and no request strays, in any run. |
| SeatSpec.LookupExists | src/ck-seat.c:574-608 | The lookup always has an answer: the string order of creation times has a least element among the candidates. |
| SeatSpec.LookupExactly | src/ck-seat.c:555-608 | Nothing is found exactly when no member names the console in either field; a member with it as x11-display-device comes before one with it as display-device only; of those that come first one with the least creation time is found. |
| SeatSpec.VtChangeHandsOver | src/ck-seat.c:610-693 | After a VT change the session found is cached and resumed if it was inactive, the one cached before is paused by force if it was active, device by device and signal by signal, and no other session is touched. |
| SeatSpec.ListingHandsOver | src/ck-seat.c:706-799 | A session added is listed and names the seat, one removed is listed no more; a static seat then hands over in the same way, a dynamic one does nothing. |
| SeatSpec.ActivationExactly | src/ck-seat.c:250-349 | Activation is refused by a dynamic seat and for a console that is no terminal; else the cached session, if another, is paused, and the session is resumed if the VT is its own, the X11 display device counting before the display device; if not, the reply is that of the VT driver. |
| SeatSpec.StrayStaysActive | src/ck-seat.c:610-662 | A session active beside the cache stays active through the next VT change, which then leaves two active. |
| Seat.Seat.FindSessionForDisplayDevice | src/ck-seat.c:501-608 | On the session objects: null exactly when none names the device in either field; if some has it as x11-display-device so has the one found, and none of those is older; otherwise the one found has it as display-device, and none of those is older. |
| Seat.Seat.FindOldestSession | src/ck-seat.c:555-581 | The session found is on the list and no other has a smaller creation time by strcmp. |
| Seat.Seat.ChangeActiveSession | src/ck-seat.c:610-662 | Old session, cache and new session change in place as specified; every other session in the whole table is untouched. |
| Seat.Seat.ActiveVtChanged | src/ck-seat.c:953-962 | A VT change follows the lookup for the new number, over the table of all sessions. |
| SeatSpec.UpdateIsVtStep | src/ck-seat.c:664-693 | That is the VT-change event of the runs above, enabled and with its outcome. |
| Seat.Seat.AddSession | src/ck-seat.c:767-799 | The session is listed, named on the session, and the cache follows the lookup. |
| Seat.Seat.RemoveSession | src/ck-seat.c:706-765 | The session leaves the table and the cache follows the lookup; false, and nothing, when it was not attached. |
| Seat.Seat.ActivateSession | src/ck-seat.c:250-349 | The new state of all sessions and the reply, for each of its branches. |
| Ids.GenerateId | src/ck-manager.c:523-549 | From any serial, with fewer ids in the table than serials, the retry loop ends and returns the first free id, found within one try more than the table has entries, across the wrap. |
| Ids.NthOnCycle | src/ck-manager.c:523-549 | The serials go round one cycle of 2^31-1 (sessions) or 2^31 (seats) numbers. |
| Ids.CandidatesDiffer | src/ck-manager.c:583-619 | Ids drawn within one round are pairwise different. |
| Ids.FreshIsUnique | src/ck-manager.c:583-619 | What is drawn depends on nothing but the serial and the table. |
| Ids.FreshForm | src/ck-manager.c:523-549 | What is drawn is the prefix with a number, that of the serial itself if it is free. |
| ManagerSpec.OpenKeepsPartition | src/ck-manager.c:2772-2851 | Opening keeps the partition: each session on exactly one seat, the one it names; seat0 static, every other seat dynamic with exactly one session. |
| ManagerSpec.CloseKeepsPartition | src/ck-manager.c:3264-3371 | So does closing: dropping the dynamic seat strands no session. |
| ManagerSpec.DrawnIsNew | src/ck-manager.c:583-600 | Before the serial comes round, an id drawn has never been issued before. |
| ManagerSpec.BeforeWrapNotReused | src/ck-manager.c:583-600 | Until the serial comes round every id a leader has was made from an earlier serial, and none is drawn again. |
| ManagerSpec.NextKeepsTables | src/ck-manager.c:2523-2851 | Every event keeps the three tables in agreement (the partition, leaders with sessions of their own, a leader to every session, pending leaders with unused ids) if and only if it does not draw an id that a leader still has. |
| ManagerSpec.SweepRemovesExactly | src/ck-manager.c:3485-3542 | After a bus name has vanished no leader of it and no session of such a leader is left; every other leader and session is there, registered as it was, and a session is unchanged altogether unless it shares seat0 with one that was closed. |
| ManagerSpec.CookieFindsItsSession | src/ck-manager.c:3054-3136 | The lookup by cookie finds the session from the step that opens it to the step that ends it, and no event of another leader changes that. |
| ManagerSpec.NextKeepsDirs | src/ck-manager.c:2800-2824 | Every event keeps the directories right (all sessions of a user name one, which exists exactly while the user has a session) if and only if it does not open a session that is given none. |
| ManagerSpec.CloseDirExact | src/ck-manager.c:3343-3361 | Whatever failed before, closing leaves the user's directory as it should be if and only if the session come upon has a directory itself. |
| ManagerEvents.SeatChosenExactly | src/ck-manager.c:2618-2672 | A session opened is put on seat0 if and only if it is local, names no remote host, has a VT number above 0, and either both an X11 display and its device or neither and a display device; any other gets a new dynamic seat with it alone. |
| ManagerEvents.OpenedExactly | src/ck-manager.c:2772-2851 | The whole session table after an opening: the new session inactive, without controller, not idle, with its user's directory and its seat; on seat0 the hand-over to the session found, on a dynamic seat nothing else. |
| ManagerEvents.ConsoleLoginIsActive | src/ck-manager.c:2654-2669 | From the start, a login in text mode on the console in front: it can only be found itself, and the run ends with it active and cached on seat0, its directory made and the idle hint withdrawn. |
| ManagerEvents.ClosedExactly | src/ck-manager.c:3421-3471 | CloseSession does nothing unless uid and pid are those that asked for the session; then leader and session go, a dynamic seat with them, and seat0 hands over. |
| ManagerEvents.AskedExactly | src/ck-manager.c:2964-3016 | A leader is noted with the name, uid and pid that asked, under "Session" and a number, that of the serial if it is free. |
| ManagerEvents.DirsExactly | src/ck-manager.c:2800-2824 | Opening adds the user's directory exactly if the session come upon has none and one can be made; closing removes it unless one come upon among those left has it. |
| ManagerEvents.DirsDiffer | src/ck-sysdeps-unix.c:391-402 | Two users never have the same directory, and how each is called. |
| ManagerEvents.HintExactly | src/ck-manager.c:2674-2727 | After an opening, a closing or a change of a session's hint the idle hint is set exactly if all sessions are idle and no block lock on idle is counted, with a signal exactly on a change; no other event but the sweep touches it. |
| ManagerEvents.VtSwitchedExactly | src/ck-seat.c:953-962 | A VT switch hands over on seat0 and touches nothing else. |
| ManagerEvents.ActivateCalledExactly | src/ck-manager.c:3735-3781 | A call to activate a session is passed to the seat named, and only the sessions can change, as that seat's activation says. |
| ManagerEvents.PassedOnExactly | src/ck-manager.c:2931-2946 | A step of a session changes that session alone, one of the locks and actions those alone, the hint excepted; a leader whose parameters cannot be had is pending no more. |
| ManagerSafety.ActivationIsSafeExactly | src/ck-manager.c:3735-3781 | Activating any session on any seat keeps every seat of the manager safe (no session but its cached one active) if and only if it does not take the stray branch. |
| ManagerFailures.ForeignActivationBreaks | src/ck-manager.c:3735-3781 | A run from the start: a remote user logs in and the session is activated on seat0, whose VT is on the console it names; it becomes active on a dynamic seat. |
| ManagerFailures.DirectoryRemovedInUse | src/ck-manager.c:3343-3361 | A run from the start: of three logins of a user the first is given no directory; closing the second removes the one the third has. |
| ManagerFailures.SessionIdReused | src/ck-manager.c:583-600 | A run from the start in which the session serial comes round: the first id is drawn again while its leader still waits, the tables no longer agree, and the old cookie finds the session opened under the new one. |
| ManagerSafety.NextKeepsSafe | src/ck-manager.c:2772-3371 | Every event keeps every seat safe, if and only if it is not an activation that takes the stray branch. |
| ManagerSafety.ProperNeverStrays | src/ck-manager.c:3735-3781 | It does not when a session is activated on its own seat and, if that is seat0, the sessions there name distinct consoles. |
| ManagerRuns.NextKeepsHint | src/ck-manager.c:2674-2727 | After every event the idle hint is set only if every session is idle, its signals alternate and end with the hint, and it stays exact while idle is not block-inhibited. |
| ManagerRuns.EveryRunIsInOrder | src/ck-manager.c:2772-3542 | Over all runs of the daemon from the start: the hint, the system actions and the lock announcements in any run; the tables exactly while no id is reused, as before the serial comes round; then the cache of seat0 is right, every seat is safe throughout exactly if no activation strays, and the directories are right throughout exactly if each session is given one. |
| ManagerRuns.RunIsSafeExactly | README:13-15 | For any run in which no id is reused, sessions opened and closed on whatever consoles and activated on whatever seats: every seat is safe throughout, no session but its cached one active, if and only if no activation takes the stray branch. |
| ManagerRuns.SeatCacheFollowsLookup | src/ck-seat.c:555-693 | In any run in which no id is reused, whatever strays, the session seat0 has cached is what a lookup for the current VT finds. |
| ManagerRuns.ProperRunNeverStrays | src/ck-manager.c:3735-3781 | No activation does in a run that activates each session on its own seat, those of seat0 while the consoles there are distinct. |
| ManagerRuns.TablesAgreeExactly | src/ck-manager.c:2772-3371 | In any run the tables agree throughout if and only if no id is drawn that a leader still has. |
| ManagerRuns.NoReuseBeforeWrap | src/ck-manager.c:583-600 | None is in a run in which the serial does not come round. |
| ManagerRuns.DirsRightExactly | src/ck-manager.c:2800-2824 | Over any interleaving of openings and closings the directories are right throughout if and only if each session opened is given one. |
| ManagerRuns.EveryRunKeepsHint | src/ck-manager.c:2674-2719 | In every run the hint is set only while every session is idle, and its signals alternate and end with it. |
| ManagerRuns.CoreRunsByItself | src/ck-manager.c:4093-4139 | The locks and system actions of any run of the daemon are a run of theirs alone, so what is proved of those holds of the daemon. |
| ManagerRuns.OneActiveSession | README:13-15 | In any run from the start in which no id is reused and no activation strays, at most one session of the whole daemon is active, the one seat0 has cached, and no other session of any seat has an active device or a kernel grant. |
| ManagerRuns.HintIsExact | src/ck-manager.c:2706-2719 | In any run in which idle is never block-inhibited the hint is set exactly when every session is idle. |
| ManagerRuns.FoundUntilEnded | src/ck-manager.c:3054-3136 | Over any run that does not end it and reuses no id, a session once opened under a cookie is what that cookie finds. |
| Manager.Manager.constructor | src/ck-manager.c:4087-4175 | The state the runs start from. |
| Manager.Manager.CreateSessionForSender | src/ck-manager.c:2964-3016 | The object step is the event Asked, with the id drawn; the tables stay in agreement if and only if no leader still has that id. |
| Manager.Manager.CollectParameters | src/ck-manager.c:2931-2946 | The object step is the event Collected. |
| Manager.Manager.OpenSessionForLeader | src/ck-manager.c:2772-2851 | Session, seat, directory and hint objects end up as specified for opening, with what was found on the way a possible answer of each search. |
| Manager.Manager.AddNewSeat | src/ck-manager.c:2523-2562 | The new seat is empty, under an id that was free, and no other seat changes. |
| Manager.Manager.RemoveSessionForCookie | src/ck-manager.c:3264-3371 | The same for closing. |
| Manager.Manager.Close | src/ck-manager.c:3421-3471 | The object step is the event CloseCalled; it succeeds exactly for the owner of a cookie whose session is listed. |
| Manager.Manager.RemoveSessionsForConnection | src/ck-manager.c:3521-3542 | Stealing the leaders and the loop that destroys and swap-removes the first entry are the sweep, each leader's session closed once; the array ends up empty. |
| Manager.EachOnce | src/ck-manager.c:3533-3541 | Removing the first entry of an array fast until it is empty removes every entry exactly once, the first first and the others from the back. |
| Manager.Manager.UpdateSystemIdleHint | src/ck-manager.c:2674-2719 | The search for a busy session and the lock on idle decide the hint, and a signal is sent exactly on a change. |
| Manager.Manager.SetSessionIdleHint | src/ck-session.c:464-511 | Only the owner sets a session's hint, and the manager's follows on a change. |
| Manager.Manager.ActivateSessionOnSeat | src/ck-manager.c:3735-3781 | The object step is the event ActivateCalled, refused exactly for an unknown session or seat. |
| Manager.Manager.ActiveVtChanged | src/ck-seat.c:953-962 | The object step is the event VtSwitched: only seat0 and its sessions change. |
| InhibitSpec.EveryRunIsCovered | src/ck-inhibit-manager.c:98-157 | In every run that hangs up no pipe whose client's end was never opened, no counter is below the number of locks held on its event, so none is negative. |
| InhibitSpec.CoveredThroughoutIff | src/ck-inhibit-manager.c:98-157 | In any run no counter falls below the number of locks held, throughout, if and only if every lock released was held, or had only events with a count left over. |
| InhibitSpec.AbandonedLockUnderflows | src/ck-inhibit.c:524-539 | A run of three events: a lock whose client's end cannot be opened is hung up, a counter is -1, and a lock then taken on the event does not inhibit it. |
| InhibitSpec.EveryLiveLockInhibits | src/ck-inhibit-manager.c:297-309 | So whatever a lock held names is reported as inhibited. |
| InhibitSpec.ExactThroughoutIff | src/ck-inhibit-manager.c:98-157 | From any exact table, in any run: each counter equals the number of locks held throughout if and only if every lock released was held and names no more events than there are locks without a path ahead of it, plus one. |
| InhibitSpec.ExactRunIff | src/ck-inhibit-manager.c:98-157 | When all locks released were held, the table at the end of a run is exact if and only if every release met that: what is lost never comes back. |
| InhibitSpec.SingleEventRunsAreExact | src/ck-inhibit-manager.c:98-157 | In particular, when every request names at most one event, each counter equals the number of locks held. |
| InhibitSpec.CreateKeeps | src/ck-inhibit.c:567-627 | A request adds as much to each counter as to the number of locks held, succeeds exactly if the client has the new lock, and leaves a lock at the end of the list even if it fails. |
| InhibitSpec.CreateAnswered | src/ck-inhibit.c:567-627 | Each outcome of a request, by the names and the mode given and by how far the pipe got, and the lock listed for it; a client's end that cannot be opened leaves a lock nobody holds with its pipe open. |
| InhibitSpec.ParsedExactly | src/ck-inhibit.c:177-228 | An event is asked for exactly if some token of the colon-separated text is its name and no token up to there is empty. |
| InhibitSpec.EmittedInOrder | src/ck-inhibit.c:283-379 | The signals of a lock go out once for each of its events, shutdown before sleep before idle before the keys before the lid. |
| InhibitSpec.ReleaseExactly | src/ck-inhibit.c:329-419 | After a release each counter exceeds the number of locks held by one more than before exactly for the events of a held lock whose signal no longer reaches the manager, and by one less exactly for those of a lock never held whose signal does. |
| InhibitSpec.ReleaseExactIff | src/ck-inhibit-manager.c:244-270 | A release leaves all counters right if and only if the lock was held and names no more events than there are locks without a path ahead of it, plus one. |
| InhibitSpec.TwoEventLockLeaks | src/ck-inhibit-manager.c:149-156 | A concrete lock on two events, taken and released: no lock is held, and the second event is still inhibited. |
| InhibitSpec.MissedStaysInhibited | src/ck-inhibit-manager.c:149-156 | An event missed by a release is reported as inhibited for ever after, over any run of held locks, its counter above the number of locks held. |
| InhibitSpec.ListedNamesReadBack | src/ck-inhibit.c:637-705 | The names listed for a lock, read as a request, give its events back, except that suspend is listed under a name that is not read. |
| InhibitSpec.EveryRunAnnouncesStatus | src/ck-inhibit-manager.c:109-147 | In every run the changed signals of each event alternate and the last one is what the status query answers. |
| Inhibit.Inhibit.ParseInhibitorsString | src/ck-inhibit.c:177-228 | The token loop flags exactly the events named before the first empty token. |
| Inhibit.InhibitManager.CreateLock | src/ck-inhibit-manager.c:186-241 | The counter table, the list and the reply after a request, signals delivered to the table in order. |
| Inhibit.InhibitManager.CloseNamedPipe | src/ck-inhibit.c:381-419 | The same for a release: the table after the signals that reach it and the locks taken off the list on the way. |
| Inhibit.InhibitManager.GetInhibitStatus | src/ck-inhibit-manager.c:297-309 | The cell of the table read is the counter of that mode and event. |
| ActionSpec.EveryRunKeepsActions | src/ck-manager.c:1498-1580 | In every run what was seen is a sequence of complete cycles, one accepted request each with its pair of signals of one kind, one command and one reply, followed by the opening of the pending one; data is saved only while the timer for that data is armed. |
| ActionSpec.SignalsAlternate | src/ck-manager.c:1498-1531 | So the announcing signals strictly alternate, true and false, with one kind to each pair. |
| ActionSpec.OnlyOneAtATime | src/ck-manager.c:1534-1580 | In every run each request is accepted or refused, once and in order; one is accepted only when every one accepted before has had its command and its reply, and refused as busy only while one has not (a request of a kind that is block-inhibited is refused as inhibited, whether or not one is pending). |
| ActionSpec.SavedIsArmed | src/ck-manager.c:1566-1574 | In every run the saved data is that of the armed timer, and is there exactly while the timer is that of a request of the run, armed ever since, at which a delay lock on its own kind was counted. |
| ActionSpec.ShutdownsAnswered | src/ck-manager.c:1534-1604 | A restart or stop is refused as inhibited exactly while block locks on shutdown are counted and as busy exactly while else a timer is armed; one accepted waits 8 s, with its data saved, exactly if delay locks on shutdown are counted, else 2 s, and announces a shutdown. |
| ActionSpec.SleepsAnswered | src/ck-manager.c:1918-1967 | The same of suspend, hibernate and hybrid sleep, by the locks on sleep, announcing sleep. |
| ActionSpec.FiredExactly | src/ck-manager.c:1498-1531 | When the timer fires the command is run, the caller answered and the end announced under the action's own kind, and nothing is left armed or saved. |
| ActionSpec.RefusedWhileHeld | src/ck-manager.c:1601-1604 | After any run of locks in which every release met the condition, a request is refused as inhibited if and only if some client holds a block lock on shutdown or, for sleep, on sleep. |
| ActionSpec.BlockedRestart | src/ck-manager.c:1601-1604 | A run from the start: while a lock "shutdown"/"block" is held a restart or stop is refused and the others are accepted. |
| ActionSpec.FiresEarlyExactly | src/ck-manager.c:4093-4139 | A pending action is fired before its timer if and only if it was accepted under a delay lock on its own kind and the step takes the delay counter of suspend or shutdown from one to zero. |
| ActionSpec.FiresForTheOtherKind | src/ck-manager.c:4117-4137 | A run of four events from the start: a shutdown waiting under delay locks on shutdown and on sleep is carried out when the one on sleep goes, the one on shutdown still held. |
| SystemActions.SystemActions.Request | src/ck-manager.c:1534-1604 | The object step is a request's step: refusal, or signal, timer, delay and saved data; refused as inhibited exactly by block locks on shutdown for a restart or stop and on sleep for the others. |
| SystemActions.SystemActions.TimerFires | src/ck-manager.c:1498-1531 | The object step of the timeout. |
| SystemActions.SystemActions.OnInhibitManagerChangedEvent | src/ck-manager.c:4093-4139 | The handler's chain of tests fires the saved action exactly when specified. |
| SystemActions.SystemActions.ReleaseLock | src/ck-inhibit.c:421-447 | A lock released with the manager listening: locks, table and the pending action together. |
| FileMonitorSpec.MaskRoundTrip | src/ck-file-monitor-inotify.c:112-136 | A bit the kernel reports was asked for exactly when the kind reported for it was. |
| FileMonitorSpec.AskedBitByBit | src/ck-file-monitor-inotify.c:112-136 | The bits asked of the kernel are those of the kinds in the mask, listed kind by kind. |
| FileMonitorSpec.AddedExactly | src/ck-file-monitor-inotify.c:533-561 | A subscription accepted is attached under the serial, ahead of those before it, to the watch of its path, which keeps its descriptor; one refused changes nothing. |
| FileMonitorSpec.RemovedExactly | src/ck-file-monitor-inotify.c:563-590 | One taken back leaves the others of its watch in their order, and takes the watch along if there are none. |
| FileMonitorSpec.AddKeepsExactly | src/ck-file-monitor-inotify.c:533-561 | A subscription keeps the indexes in agreement if and only if the path is known or its descriptor is not in use, and the id handed out is not that of an attached subscriber. |
| FileMonitorSpec.RemoveKeeps | src/ck-file-monitor-inotify.c:563-590 | Unsubscribing keeps them in agreement, the last subscriber taking the watch along. |
| FileMonitorSpec.EveryRunIsConsistent | src/ck-file-monitor-inotify.c:191-255 | In every run with one descriptor to a path: watches and descriptors name each other, a subscriber is on a list exactly when it points to that watch, every watch has a subscriber and none points to a watch that is gone. |
| FileMonitorSpec.RunIsConsistentExactly | src/ck-file-monitor-inotify.c:191-255 | In any run the indexes agree throughout if and only if each subscription was to a known path or came with a descriptor not in use, under an id no attached subscriber has. |
| FileMonitorSpec.SharedDescriptor | src/ck-file-monitor-inotify.c:208-222 | A run of two subscriptions to two names of one file: its events reach the second subscriber alone. |
| FileMonitorSpec.DeliversExactly | src/ck-file-monitor-inotify.c:300-351 | An event is delivered to exactly the subscribers of that watch that asked for its kind, once each, with the path they subscribed to. |
| FileMonitorSpec.ReportsReachSubscribers | src/ck-file-monitor-inotify.c:300-459 | End to end: for any series of reports for known watches, emitting the events makes, report by report in order, one call for each subscriber attached to that watch whose mask has the kind of the bit, with the watch's path, or that, one slash and the name; no event is left over. |
| FileMonitorSpec.ReportReachesSubscribers | src/ck-file-monitor-inotify.c:423-459 | The same of one report, whose dropped watch waits to be removed. |
| FileMonitorSpec.OutlivesRemovalsExactly | src/ck-file-monitor-inotify.c:354-382 | A subscriber outlives the removals waiting exactly when the descriptor of its watch is not among them. |
| FileMonitorSpec.SubscribedTooSoon | src/ck-file-monitor-inotify.c:208-225 | A subscription to a path just dropped by the kernel, made before the removal is carried out, is told of nothing. |
| FileMonitorSpec.LostSubscription | src/ck-file-monitor-inotify.c:208-225 | A run from the start that does this: the second subscriber is left pointing to nothing. |
| FileMonitor.FileMonitor.AddNotify | src/ck-file-monitor-inotify.c:592-618 | The linked objects keep their shape, and the id and all three tables are as specified, whatever descriptor the kernel answers with; they still agree afterwards if and only if the subscription met the condition above. |
| FileMonitor.FileMonitor.SameWatches | src/ck-file-monitor-inotify.c:191-226 | While they agree, the two watch tables hold the very same watch objects, each under its own path and descriptor. |
| FileMonitor.FileMonitor.RemoveNotify | src/ck-file-monitor-inotify.c:563-590 | The same for unsubscribing; a watch is freed only when nothing points to it. |
| FileMonitor.FileMonitor.RemoveWatch | src/ck-file-monitor-inotify.c:228-255 | The watch leaves both tables under its own path and descriptor and is freed, nothing else changing. |
| FileMonitor.FileMonitor.HandleInotifyEvent | src/ck-file-monitor-inotify.c:423-459 | What is queued for an event of the kernel: for a known descriptor one event of the kind each bit stands for, after those waiting; nothing else changes. |
| FileMonitor.FileMonitor.EmitRemovalsInIdle | src/ck-file-monitor-inotify.c:354-382 | The loop over the queue detaches and frees the watches named, in order, and keeps the shape throughout. |
| FileMonitor.FileMonitor.EmitEventsInIdle | src/ck-file-monitor-inotify.c:300-351 | The calls made by the two nested loops, in order, are those specified. |
| Pattern.MatchExactly | src/ck-log-event.c:988-1004 | Read greedily, an expression whose groups are cut off by the text after them gives the fields if and only if the text has that form. |
| Pattern.SearchExactly | src/ck-log-event.c:999-1004 | The fields found in a text are those of the leftmost place from which it has the expression's form. |
| LogEvent.AlphabetsSpelled | src/ck-log-event.c:994 | The characters of each class in the expressions. |
| LogEvent.HeaderReadsBack | src/ck-log-event.c:1279-1308 | The scan of a printed header gives the seconds, the milliseconds and the type's name, for all times. |
| LogEvent.BodyIsReached | src/ck-log-event.c:715-737 | Skipping the header of a printed line arrives at what was printed after it. |
| LogEvent.SeatExactly | src/ck-log-event.c:757-815 | A seat event's fields come back if and only if the id is in the alphabet and the kind is 0. |
| LogEvent.SessionExactly | src/ck-log-event.c:971-1044 | A session event's fields come back if and only if all are in their alphabets and there is no remote host. |
| LogEvent.StartExactly | src/ck-log-event.c:917-968 | A system start comes back if and only if the release has no quote, the arguments are one line, and they do not stand without a release; quotes in the arguments do no harm. |
| LogEvent.DeviceExactly | src/ck-log-event.c:1173-1277 | A device event comes back if and only if its fields are non-empty and in their alphabets. |
| LogEvent.ActiveExactly | src/ck-log-event.c:1121-1170 | So does a change of the active session, which may be none. |
| LogEvent.ReadsBack | src/ck-log-event.c:1310-1366 | Every event of a named type with acceptable fields is read back with its type, its time to the millisecond and every field but the two that are lost. |
| LogEvent.RoundTripExactly | src/ck-log-event.c:665-713 | Printing and parsing give the event back, its time truncated, if and only if its type has a name, its fields are acceptable and neither lost field holds anything. |
| LogEvent.DynamicSeatComesBackStatic | src/ck-log-event.c:795-801 | A dynamic seat is read back as a static one. |
| LogEvent.NamesReadBack | src/ck-log-event.c:577-652 | The name of each type; ten types come back from their names, suspend and hibernate have none. |
| LogEvent.HeaderPrinted | src/ck-log-event.c:654-663 | A line starts with the seconds, a dot, the milliseconds in three digits and the type's name, as listed. |
| LogEvent.BodyPrinted | src/ck-log-event.c:425-575 | What follows, label by label and field by field, for every kind of event. |
| LogEvent.AppendEvent | src/ck-log-event.c:654-713 | What the two appends add to the string is the event's text. |
| LogEvent.LogRecord.FillFromString | src/ck-log-event.c:1310-1366 | Filling a zeroed event in place succeeds exactly when the line can be read, with those fields. |
| Console.LinuxRoundTrip | src/ck-sysdeps-linux.c:724-757 | Number to device to number is the identity for every 32-bit number. |
| Console.FreeBsdRoundTrip | src/ck-sysdeps-freebsd.c:392-440 | On FreeBSD a number has a device exactly when it is 1 to 32, and then comes back from it. |
| Console.NamesSpelled | src/ck-sysdeps-freebsd.c:392-412 | The names: /dev/tty and the number; on FreeBSD /dev/ttyv and a digit, or a letter from a for 11 on. |
| Console.LinuxReadsExactly | src/ck-sysdeps-linux.c:742-757 | A device is read as a console exactly if it is /dev/tty and then, after white space and a sign or none, digits; without a sign the number is theirs in 32 bits, whatever follows. |
| Console.MatchAgreesWithParse | src/ck-seat.c:664-679 | For canonical device names the string match of a VT change and the number parse of an activation agree. |
| Console.NonCanonicalDiffers | src/ck-sysdeps-linux.c:742-757 | A device name with a leading zero is parsed as a console whose own name is another. |
| Text.ScanDecimal | src/ck-log-event.c:739-754 | A printed number scans back to itself whatever non-digit follows, within its C type. |
| Text.ScanReads | src/ck-log-event.c:739-754 | White space, a sign or none and digits are scanned as the number they show, one out of range as the greatest, a negative one modulo the range. |
| Text.ScansExactly | src/ck-log-event.c:739-754 | Nothing else is scanned. |
| Text.StrLeIsLexicographic | src/ck-seat.c:555-571 | The order by creation time is strcmp's: a prefix first, else by the first character that differs. |

## Left out

- One step is atomic. `ck_run_programs` iterates the main loop (src/ck-run-programs.c:219), so other steps can come in the middle of some of these; that re-entrancy is not modelled.
- `ck-vt-monitor.c` is not part of this model: a VT change and its delivery are one step, asking for the current VT succeeds, and the outcome of a switch request is a parameter.
- seat0 is the one static seat (data/00-primary.seat:1). Seats added for files and devices attached to seats are not modelled.
- D-Bus, GObject properties, PolicyKit and RBAC, caller lookup, registration of objects on the bus (which succeeds), the replies of `activated_cb`: a call is a step by an authorised caller of known uid, pid and bus name. The time between a permission check and the action it permits is not modelled.
- ioctls, udev, VT modes, tty ownership, kvm, sysctl and /proc, cgroups, tmpfs mounts: what the kernel answers is a parameter (`Probe`, `Kernel`); dropping DRM master and revoking a descriptor succeed.
- A directory that cannot be removed is gone in the model; only the set of existing directories is kept. The build's directory for them is /run/user.
- Hash-table order, and ties between equal creation times, are parameters (`found`, `peer`, `order`), constrained to what a search can return.
- A missing string and an empty one are one value; the functions modelled treat them alike, but for the seat's id in a seat event, which is printed without a guard (src/ck-log-event.c:435, 448) and taken not to be missing.
- C characters above 127 in console names, and `%u` of a negative number in one, are modelled only as `ScanUlong` says.
- Of a session only the fields named in `SessionInfo` are kept; idle watching of text consoles and locked hints are not modelled. The timestamp that goes with the idle hint is not.
- Manager.Manager.OpenSessionForLeader: `is-local` and the check of the login session are parameters; so is whether a session object can be made from its parameters (a refused one is the event NotCollected).
- Manager: the events NotCollected, and the steps of a session other than its idle hint, have no method of the manager's class; the session's own methods are proved.
- SystemActions: the pending action and the lock manager, fields of the manager in the source, are an object of their own. The handlers of a batch of lock changes run after the batch instead of between its signals; they read neither the locks nor the table.
- Inhibit.InhibitManager.CloseNamedPipe: all flags of the lock are cleared before the first signal instead of one by one, which no receiver of the signals can tell. Whether a pipe whose client's end could not be opened is ever hung up is up to the kernel, and a condition of the theorems that need it.
- FileMonitor: a name is as the kernel gives it, not empty and without a slash. Reading and growing the buffer, closing inotify after a read error, and subscribers' functions that unsubscribe are not modelled. The objects are modelled while their tables agree: a subscription that leaves them in disagreement (another name of a watched file, or a serial come round to an attached subscriber) is the last step modelled.
- LogEvent: the regular expressions' engine is the one of `Pattern`; a dot does not match the line ends GLib recognises by default. The event is zeroed before it is filled. The writer thread, rotation and the readers' tools are not modelled.
- Helper scripts, the database dump, ck-job.c, ck-session-leader.c beyond the leader's fields, the client libraries and the PAM module would add only easy members.
