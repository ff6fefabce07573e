/** The lines of the event log as ck-log-event.c prints and parses them, and exactly which
    events survive the round trip. */
module LogEvent {
  import opened Text
  import opened Pattern

  datatype LogType =
    | SeatAdded | SeatRemoved | SystemStop | SystemRestart | SystemStart | SystemSuspend | SystemHibernate
    | SessionAdded | SessionRemoved | DeviceAdded | DeviceRemoved | ActiveChanged

  /** What an event carries besides its type and its time. A missing string is "". */
  datatype Body =
    | NoBody
    | SeatBody(seatId: string, seatKind: int)
    | StartBody(kernelRelease: string, bootArguments: string)
    | SessionBody(seatId: string, sessionId: string, sessionType: string, x11Display: string,
                  x11DisplayDevice: string, displayDevice: string, remoteHostName: string,
                  isLocal: bool, unixUser: nat, creationTime: string)
    | ActiveBody(seatId: string, sessionId: string)
    | DeviceBody(seatId: string, deviceId: string, deviceType: string)

  datatype Event = Event(kind: LogType, sec: nat, usec: nat, body: Body)

  predicate Fits(kind: LogType, body: Body) {
    match kind
    case SeatAdded => body.SeatBody?
    case SeatRemoved => body.SeatBody?
    case SystemStart => body.StartBody?
    case SessionAdded => body.SessionBody?
    case SessionRemoved => body.SessionBody?
    case DeviceAdded => body.DeviceBody?
    case DeviceRemoved => body.DeviceBody?
    case ActiveChanged => body.ActiveBody?
    case _ => body.NoBody?
  }

  /** A time of the day's clock and a user id of 32 bits. */
  predicate WellFormed(e: Event) {
    && Fits(e.kind, e.body) && e.sec <= ULONG_MAX && e.usec < 1_000_000
    && (e.body.SessionBody? ==> e.body.unixUser < UINT_RANGE)
  }

  // ----- the texts with their groups

  /** The names of the groups in the parser's expressions, and those it fetches. */
  datatype Group = SeatId | SessionId | SeatKind | SessionType | X11Display | X11DisplayDevice | DisplayDevice
    | RemoveHostName | RemoteHostName | IsLocal | UnixUser | CreationTime | DeviceId | DeviceType

  /** The group after seat-kind is named like the one for a session's id. */
  const SEAT_FORM := [
    Piece("seat-id='", SeatId, Ident, true),
    Piece("' seat-kind=", SessionId, Digits, false)]

  /** The group for the remote host is misspelt. */
  const SESSION_FORM := [
    Piece("seat-id='", SeatId, Ident, true),
    Piece("' session-id='", SessionId, Ident, true),
    Piece("' session-type='", SessionType, Words, false),
    Piece("' session-x11-display='", X11Display, Display, false),
    Piece("' session-x11-display-device='", X11DisplayDevice, Unquoted, false),
    Piece("' session-display-device='", DisplayDevice, Unquoted, false),
    Piece("' session-remote-host-name='", RemoveHostName, Unquoted, false),
    Piece("' session-is-local=", IsLocal, Letters, false),
    Piece(" session-unix-user=", UnixUser, Digits, false),
    Piece(" session-creation-time='", CreationTime, Unquoted, false)]

  const ACTIVE_FORM := [
    Piece("seat-id='", SeatId, Ident, true),
    Piece("' session-id='", SessionId, Ident, false)]

  const DEVICE_FORM := [
    Piece("seat-id='", SeatId, Ident, true),
    Piece("' device-id='", DeviceId, Unquoted, true),
    Piece("' device-type='", DeviceType, Unquoted, true)]

  const QUOTE := "'"

  function SessionFields(b: Body): (r: seq<string>)
    requires b.SessionBody?
    ensures |r| == |SESSION_FORM|
  {
    [b.seatId, b.sessionId, b.sessionType, b.x11Display, b.x11DisplayDevice, b.displayDevice, b.remoteHostName,
     if b.isLocal then "TRUE" else "FALSE", Decimal(b.unixUser), b.creationTime]
  }

  const KERNEL := "kernel-release='"
  const BOOT := "boot-arguments='"

  /** add_log_for_seat_added and the like */
  function BodyText(b: Body): string {
    match b
    case NoBody => ""
    case SeatBody(seatId, kind) => Filled(SEAT_FORM, [seatId, Signed(kind)], "")
    case StartBody(release, arguments) => KERNEL + (release + ("' " + (BOOT + (arguments + QUOTE))))
    case SessionBody(_, _, _, _, _, _, _, _, _, _) => Filled(SESSION_FORM, SessionFields(b), QUOTE)
    case ActiveBody(seatId, sessionId) => Filled(ACTIVE_FORM, [seatId, sessionId], QUOTE)
    case DeviceBody(seatId, deviceId, deviceType) => Filled(DEVICE_FORM, [seatId, deviceId, deviceType], QUOTE)
  }

  // ----- parsing what an event carries

  /** parse_value_as_ulong */
  function UlongOf(value: string): Option<nat> {
    match ScanUlong(value)
    case None => None
    case Some(r) => if r.rest == "" then Some(r.value) else None
  }

  function StringOf(found: Option<string>): string { match found case None => "" case Some(s) => s }

  /** The number in a group, or what the field holds anyway. */
  function NumberOf(found: Option<string>): nat {
    match found
    case None => 0
    case Some(s) => match UlongOf(s) case None => 0 case Some(n) => n
  }

  function ReadSeat(fs: seq<string>): Body
    requires |fs| == |SEAT_FORM|
  {
    SeatBody(StringOf(Fetch(SEAT_FORM, fs, SeatId)), NumberOf(Fetch(SEAT_FORM, fs, SeatKind)))
  }

  function ReadSession(fs: seq<string>): Body
    requires |fs| == |SESSION_FORM|
  {
    SessionBody(
      StringOf(Fetch(SESSION_FORM, fs, SeatId)), StringOf(Fetch(SESSION_FORM, fs, SessionId)),
      StringOf(Fetch(SESSION_FORM, fs, SessionType)), StringOf(Fetch(SESSION_FORM, fs, X11Display)),
      StringOf(Fetch(SESSION_FORM, fs, X11DisplayDevice)), StringOf(Fetch(SESSION_FORM, fs, DisplayDevice)),
      StringOf(Fetch(SESSION_FORM, fs, RemoteHostName)), Fetch(SESSION_FORM, fs, IsLocal) == Some("TRUE"),
      NumberOf(Fetch(SESSION_FORM, fs, UnixUser)) % UINT_RANGE, StringOf(Fetch(SESSION_FORM, fs, CreationTime)))
  }

  function ReadActive(fs: seq<string>): Body
    requires |fs| == |ACTIVE_FORM|
  {
    ActiveBody(StringOf(Fetch(ACTIVE_FORM, fs, SeatId)), StringOf(Fetch(ACTIVE_FORM, fs, SessionId)))
  }

  function ReadDevice(fs: seq<string>): Body
    requires |fs| == |DEVICE_FORM|
  {
    DeviceBody(StringOf(Fetch(DEVICE_FORM, fs, SeatId)), StringOf(Fetch(DEVICE_FORM, fs, DeviceId)),
               StringOf(Fetch(DEVICE_FORM, fs, DeviceType)))
  }

  /** What a dot does not match. */
  predicate IsNewline(c: char) {
    '\n' <= c <= '\r' || c == '\U{85}' || c == '\U{2028}' || c == '\U{2029}'
  }

  predicate OneLine(s: string) { forall i :: 0 <= i < |s| ==> !IsNewline(s[i]) }

  /** The length of the first line. */
  function LineRun(s: string): (k: nat)
    ensures k <= |s| && OneLine(s[..k])
    ensures k < |s| ==> IsNewline(s[k])
  {
    if s != [] && !IsNewline(s[0]) then
      var k := 1 + LineRun(s[1..]);
      assert s[..k] == [s[0]] + s[1..][..k - 1];
      k
    else 0
  }

  /** Where the last quote is. */
  function LastQuote(s: string): (q: Option<nat>)
    ensures q.Some? ==> q.value < |s| && s[q.value] == '\'' && forall i :: q.value < i < |s| ==> s[i] != '\''
    ensures q.None? ==> AllIn(s, Unquoted)
  {
    if s == [] then None
    else if s[|s| - 1] == '\'' then Some(|s| - 1)
    else LastQuote(s[..|s| - 1])
  }

  /** The first optional group of the expression for a system start, and what follows. */
  function ReadRelease(s: string): (string, string) {
    if KERNEL <= s then
      var t := s[|KERNEL|..];
      var k := RunOf(t, Unquoted);
      if 0 < k < |t| then (t[..k], t[k + 1..]) else ("", s)
    else ("", s)
  }

  /** The second one: everything up to the last quote of the line. */
  function ReadArguments(s: string): string {
    if BOOT <= s then
      var t := s[|BOOT|..];
      match LastQuote(t[..LineRun(t)])
      case None => ""
      case Some(q) => t[..q]
    else ""
  }

  /** All parts of that expression are optional, so it matches at the very start. */
  function ReadStart(s: string): Body {
    var (release, rest) := ReadRelease(s);
    StartBody(release, ReadArguments(if rest != "" && rest[0] == ' ' then rest[1..] else rest))
  }

  /** The groups found, or none, in the body's own terms. */
  function Found(ps: seq<Piece<Group>>, tail: string, s: string): (m: Option<seq<string>>)
    ensures m.Some? ==> |m.value| == |ps|
  {
    FoundIsAcceptable(ps, tail, s);
    Search(ps, tail, s)
  }

  function SeatFrom(s: string): Option<Body> {
    var m := Found(SEAT_FORM, "", s);
    if m.None? then None else Some(ReadSeat(m.value))
  }

  function SessionFrom(s: string): Option<Body> {
    var m := Found(SESSION_FORM, QUOTE, s);
    if m.None? then None else Some(ReadSession(m.value))
  }

  function ActiveFrom(s: string): Option<Body> {
    var m := Found(ACTIVE_FORM, QUOTE, s);
    if m.None? then None else Some(ReadActive(m.value))
  }

  function DeviceFrom(s: string): Option<Body> {
    var m := Found(DEVICE_FORM, QUOTE, s);
    if m.None? then None else Some(ReadDevice(m.value))
  }

  /** parse_log_for_seat_added and the like, the fields zero beforehand */
  function ReadBody(kind: LogType, s: string): Option<Body> {
    match kind
    case SeatAdded => SeatFrom(s)
    case SeatRemoved => SeatFrom(s)
    case SystemStart => Some(ReadStart(s))
    case SessionAdded => SessionFrom(s)
    case SessionRemoved => SessionFrom(s)
    case DeviceAdded => DeviceFrom(s)
    case DeviceRemoved => DeviceFrom(s)
    case ActiveChanged => ActiveFrom(s)
    case _ => Some(NoBody)
  }

  // ----- which events can be read back

  predicate Named(s: string) { AllIn(s, Ident) && s != "" }

  /** What the parser's expressions accept. Quotes are allowed in boot arguments. */
  predicate Readable(b: Body) {
    match b
    case NoBody => true
    case SeatBody(seatId, _) => Named(seatId)
    case StartBody(release, arguments) =>
      AllIn(release, Unquoted) && OneLine(arguments) && (release == "" ==> arguments == "")
    case SessionBody(seatId, sessionId, sessionType, x11Display, x11DisplayDevice, displayDevice, remoteHostName, _,
        _, creationTime) =>
      && Named(seatId) && Named(sessionId) && AllIn(sessionType, Words) && AllIn(x11Display, Display)
      && AllIn(x11DisplayDevice, Unquoted) && AllIn(displayDevice, Unquoted) && AllIn(remoteHostName, Unquoted)
      && AllIn(creationTime, Unquoted)
    case ActiveBody(seatId, sessionId) => Named(seatId) && AllIn(sessionId, Ident)
    case DeviceBody(seatId, deviceId, deviceType) =>
      && Named(seatId) && AllIn(deviceId, Unquoted) && deviceId != "" && AllIn(deviceType, Unquoted) && deviceType != ""
  }

  /** What is read: the kind of a seat and the remote host of a session are always lost. */
  function AsRead(b: Body): Body {
    match b
    case SeatBody(seatId, _) => SeatBody(seatId, 0)
    case SessionBody(_, _, _, _, _, _, _, _, _, _) => b.(remoteHostName := "")
    case _ => b
  }

  // ----- the forms

  ghost predicate DistinctGroups(ps: seq<Piece<Group>>) {
    forall i, j :: 0 <= i < j < |ps| ==> ps[i].group != ps[j].group
  }

  lemma FetchIs(ps: seq<Piece<Group>>, fs: seq<string>, i: nat, group: Group)
    requires DistinctGroups(ps) && |fs| == |ps| && i < |ps| && ps[i].group == group
    ensures Fetch(ps, fs, group) == Some(fs[i])
  {
    FetchAt(ps, fs, i);
  }

  lemma SeatForm()
    ensures Separated(SEAT_FORM, "") && DistinctGroups(SEAT_FORM)
  {
  }

  lemma SessionForm()
    ensures Separated(SESSION_FORM, QUOTE) && DistinctGroups(SESSION_FORM)
  {
    SessionSeparated();
  }

  lemma SessionSeparated()
    ensures Separated(SESSION_FORM, QUOTE)
  {
  }

  lemma ActiveForm()
    ensures Separated(ACTIVE_FORM, QUOTE) && DistinctGroups(ACTIVE_FORM)
  {
  }

  lemma DeviceForm()
    ensures Separated(DEVICE_FORM, QUOTE) && DistinctGroups(DEVICE_FORM)
  {
  }

  // ----- seats

  lemma SeatFetched(fs: seq<string>)
    requires |fs| == |SEAT_FORM|
    ensures ReadSeat(fs) == SeatBody(fs[0], 0)
  {
    SeatForm();
    FetchIs(SEAT_FORM, fs, 0, SeatId);
    FetchNone(SEAT_FORM, fs, SeatKind);
  }

  lemma SeatComesBack(kind: LogType, b: Body)
    requires b.SeatBody? && Fits(kind, b) && Readable(b)
    ensures ReadBody(kind, BodyText(b)) == Some(AsRead(b))
  {
    hide MatchAt, Filled, ReadSeat;
    SeatForm();
    var digits := if b.seatKind < 0 then "" else Signed(b.seatKind);
    var fs := [b.seatId, digits];
    SeatTextReads(b, fs);
    MatchComplete(SEAT_FORM, "", BodyText(b), fs);
    SeatFetched(fs);
  }

  /** The digits of the kind are read, but not a minus sign before them. */
  lemma SeatTextReads(b: Body, fs: seq<string>)
    requires b.SeatBody? && Readable(b)
    requires fs == [b.seatId, if b.seatKind < 0 then "" else Signed(b.seatKind)]
    ensures Reads(SEAT_FORM, "", BodyText(b), fs)
  {
    var full := [b.seatId, Signed(b.seatKind)];
    var head := SEAT_FORM[0].before + (b.seatId + SEAT_FORM[1].before);
    TwoGroups(SEAT_FORM, full, "");
    TwoGroups(SEAT_FORM, fs, "");
    assert BodyText(b) == head + full[1];
    assert Filled(SEAT_FORM, fs, "") == head + fs[1];
    if b.seatKind < 0 {
      assert BodyText(b) == head + Signed(b.seatKind);
      assert BodyText(b)[|head|..] == Signed(b.seatKind);
    }
    forall i | 0 <= i < 2 ensures Accepts(SEAT_FORM[i], fs[i]) {
    }
  }

  lemma TwoGroups(ps: seq<Piece<Group>>, fs: seq<string>, tail: string)
    requires |ps| == 2 == |fs|
    ensures Filled(ps, fs, tail) == ps[0].before + (fs[0] + ps[1].before) + (fs[1] + tail)
  {
    assert ps[1..][1..] == [] && fs[1..][1..] == [];
    assert Filled(ps[1..], fs[1..], tail) == ps[1].before + (fs[1] + tail);
  }

  /** Only a seat of kind 0, a static one, comes back as it was. */
  lemma SeatExactly(kind: LogType, b: Body)
    requires b.SeatBody? && Fits(kind, b)
    ensures ReadBody(kind, BodyText(b)) == Some(b) <==> Readable(b) && b.seatKind == 0
  {
    hide MatchAt, Filled, ReadSeat, BodyText;
    if Readable(b) {
      SeatComesBack(kind, b);
    }
    var m := Search(SEAT_FORM, "", BodyText(b));
    FoundIsAcceptable(SEAT_FORM, "", BodyText(b));
    if m.Some? {
      SeatFetched(m.value);
      assert Accepts(SEAT_FORM[0], m.value[0]);
    }
  }

  // ----- sessions

  lemma SessionFetched(fs: seq<string>)
    requires |fs| == |SESSION_FORM|
    ensures ReadSession(fs) == SessionBody(
      fs[0], fs[1], fs[2], fs[3], fs[4], fs[5], "", fs[7] == "TRUE", NumberOf(Some(fs[8])) % UINT_RANGE, fs[9])
  {
    hide Fetch, NumberOf;
    SessionNames(fs);
    SessionDevices(fs);
    SessionRest(fs);
  }

  lemma SessionNames(fs: seq<string>)
    requires |fs| == |SESSION_FORM|
    ensures Fetch(SESSION_FORM, fs, SeatId) == Some(fs[0]) && Fetch(SESSION_FORM, fs, SessionId) == Some(fs[1])
    ensures Fetch(SESSION_FORM, fs, SessionType) == Some(fs[2])
  {
    hide Fetch, DistinctGroups, Separated;
    SessionForm();
    FetchIs(SESSION_FORM, fs, 0, SeatId);
    FetchIs(SESSION_FORM, fs, 1, SessionId);
    FetchIs(SESSION_FORM, fs, 2, SessionType);
  }

  lemma SessionDevices(fs: seq<string>)
    requires |fs| == |SESSION_FORM|
    ensures Fetch(SESSION_FORM, fs, X11Display) == Some(fs[3])
    ensures Fetch(SESSION_FORM, fs, X11DisplayDevice) == Some(fs[4])
    ensures Fetch(SESSION_FORM, fs, DisplayDevice) == Some(fs[5])
  {
    hide Fetch, DistinctGroups, Separated;
    SessionForm();
    FetchIs(SESSION_FORM, fs, 3, X11Display);
    FetchIs(SESSION_FORM, fs, 4, X11DisplayDevice);
    FetchIs(SESSION_FORM, fs, 5, DisplayDevice);
  }

  lemma SessionRest(fs: seq<string>)
    requires |fs| == |SESSION_FORM|
    ensures Fetch(SESSION_FORM, fs, RemoteHostName) == None && Fetch(SESSION_FORM, fs, IsLocal) == Some(fs[7])
    ensures Fetch(SESSION_FORM, fs, UnixUser) == Some(fs[8]) && Fetch(SESSION_FORM, fs, CreationTime) == Some(fs[9])
  {
    hide Fetch, DistinctGroups, Separated;
    SessionForm();
    FetchIs(SESSION_FORM, fs, 7, IsLocal);
    FetchIs(SESSION_FORM, fs, 8, UnixUser);
    FetchIs(SESSION_FORM, fs, 9, CreationTime);
    FetchNone(SESSION_FORM, fs, RemoteHostName);
  }

  lemma NumberReadsBack(n: nat)
    requires n < UINT_RANGE
    ensures NumberOf(Some(Decimal(n))) == n
  {
    ScanDecimal(n, "");
    assert Decimal(n) + "" == Decimal(n);
  }

  lemma SessionFieldsAccepted(b: Body)
    requires b.SessionBody? && Readable(b)
    ensures forall i :: 0 <= i < |SESSION_FORM| ==> Accepts(SESSION_FORM[i], SessionFields(b)[i])
  {
    assert AllIn("TRUE", Letters) && AllIn("FALSE", Letters);
  }

  lemma SessionComesBack(kind: LogType, b: Body)
    requires b.SessionBody? && Fits(kind, b) && Readable(b) && b.unixUser < UINT_RANGE
    ensures ReadBody(kind, BodyText(b)) == Some(AsRead(b))
  {
    hide Search, Filled, ReadSession, Readable, NumberOf, Separated;
    SessionForm();
    SessionFieldsAccepted(b);
    var fs := SessionFields(b);
    ReadBack(SESSION_FORM, QUOTE, fs);
    SessionFetched(fs);
    NumberReadsBack(b.unixUser);
  }

  /** Only a session with no remote host comes back as it was. */
  lemma SessionExactly(kind: LogType, b: Body)
    requires b.SessionBody? && Fits(kind, b) && b.unixUser < UINT_RANGE
    ensures ReadBody(kind, BodyText(b)) == Some(b) <==> Readable(b) && b.remoteHostName == ""
  {
    hide Search, Filled, ReadSession, BodyText, NumberOf;
    if Readable(b) {
      SessionComesBack(kind, b);
    }
    var m := Search(SESSION_FORM, QUOTE, BodyText(b));
    FoundIsAcceptable(SESSION_FORM, QUOTE, BodyText(b));
    if m.Some? {
      SessionFetched(m.value);
      SessionAccepted(m.value);
    }
  }

  lemma SessionAccepted(fs: seq<string>)
    requires |fs| == |SESSION_FORM| && forall i :: 0 <= i < |SESSION_FORM| ==> Accepts(SESSION_FORM[i], fs[i])
    ensures Named(fs[0]) && Named(fs[1]) && AllIn(fs[2], Words) && AllIn(fs[3], Display) && AllIn(fs[4], Unquoted)
    ensures AllIn(fs[5], Unquoted) && AllIn(fs[9], Unquoted)
  {
    assert Accepts(SESSION_FORM[0], fs[0]) && Accepts(SESSION_FORM[1], fs[1]) && Accepts(SESSION_FORM[2], fs[2]);
    assert Accepts(SESSION_FORM[3], fs[3]) && Accepts(SESSION_FORM[4], fs[4]) && Accepts(SESSION_FORM[5], fs[5]);
    assert Accepts(SESSION_FORM[9], fs[9]);
  }

  // ----- active sessions and devices

  lemma ActiveExactly(b: Body)
    requires b.ActiveBody?
    ensures ReadBody(ActiveChanged, BodyText(b)) == Some(b) <==> Readable(b)
  {
    hide MatchAt, Filled;
    ActiveForm();
    var fs := [b.seatId, b.sessionId];
    if Readable(b) {
      ReadBack(ACTIVE_FORM, QUOTE, fs);
      ActiveFetched(fs);
    }
    var m := Search(ACTIVE_FORM, QUOTE, BodyText(b));
    FoundIsAcceptable(ACTIVE_FORM, QUOTE, BodyText(b));
    if m.Some? {
      ActiveFetched(m.value);
      assert Accepts(ACTIVE_FORM[0], m.value[0]) && Accepts(ACTIVE_FORM[1], m.value[1]);
    }
  }

  lemma ActiveFetched(fs: seq<string>)
    requires |fs| == |ACTIVE_FORM|
    ensures ReadActive(fs) == ActiveBody(fs[0], fs[1])
  {
    ActiveForm();
    FetchIs(ACTIVE_FORM, fs, 0, SeatId);
    FetchIs(ACTIVE_FORM, fs, 1, SessionId);
  }

  lemma DeviceExactly(kind: LogType, b: Body)
    requires b.DeviceBody? && Fits(kind, b)
    ensures ReadBody(kind, BodyText(b)) == Some(b) <==> Readable(b)
  {
    hide MatchAt, Filled, ReadDevice;
    DeviceForm();
    var fs := [b.seatId, b.deviceId, b.deviceType];
    if Readable(b) {
      ReadBack(DEVICE_FORM, QUOTE, fs);
      DeviceFetched(fs);
    }
    var m := Search(DEVICE_FORM, QUOTE, BodyText(b));
    FoundIsAcceptable(DEVICE_FORM, QUOTE, BodyText(b));
    if m.Some? {
      DeviceFetched(m.value);
      assert Accepts(DEVICE_FORM[0], m.value[0]) && Accepts(DEVICE_FORM[1], m.value[1])
        && Accepts(DEVICE_FORM[2], m.value[2]);
    }
  }

  lemma DeviceFetched(fs: seq<string>)
    requires |fs| == |DEVICE_FORM|
    ensures ReadDevice(fs) == DeviceBody(fs[0], fs[1], fs[2])
  {
    DeviceForm();
    FetchIs(DEVICE_FORM, fs, 0, SeatId);
    FetchIs(DEVICE_FORM, fs, 1, DeviceId);
    FetchIs(DEVICE_FORM, fs, 2, DeviceType);
  }

  // ----- the start of the system

  lemma LineRunOf(s: string)
    requires OneLine(s)
    ensures LineRun(s) == |s|
  {
  }

  lemma ArgumentsComeBack(arguments: string)
    requires OneLine(arguments)
    ensures ReadArguments(BOOT + (arguments + QUOTE)) == arguments
  {
    hide LineRun;
    var t := arguments + QUOTE;
    Cut(BOOT, t);
    LineRunOf(t);
    assert t[..|t|] == t;
    var q := LastQuote(t);
    assert t[|arguments|] == '\'';
    Cut(arguments, QUOTE);
  }

  lemma ReleaseComesBack(release: string, more: string)
    requires AllIn(release, Unquoted) && release != ""
    ensures ReadRelease(KERNEL + (release + (QUOTE + more))) == (release, more)
  {
    var t := release + (QUOTE + more);
    Cut(KERNEL, t);
    RunIs(release, QUOTE + more, Unquoted);
    Cut(release, QUOTE + more);
    Cut(QUOTE, more);
    assert t[|release| + 1..] == more;
  }

  lemma StartComesBack(b: Body)
    requires b.StartBody? && Readable(b)
    ensures ReadStart(BodyText(b)) == b
  {
    hide ReadRelease, ReadArguments;
    if b.kernelRelease == "" {
      NoRelease(b);
    } else {
      var more := BOOT + (b.bootArguments + QUOTE);
      assert "' " + more == QUOTE + (" " + more);
      ReleaseComesBack(b.kernelRelease, " " + more);
      assert (" " + more)[1..] == more;
      ArgumentsComeBack(b.bootArguments);
    }
  }

  /** Without a kernel release nothing is read at all. */
  lemma NoRelease(b: Body)
    requires b.StartBody? && b.kernelRelease == ""
    ensures ReadStart(BodyText(b)) == StartBody("", "")
  {
    var s := BodyText(b);
    var t := "" + ("' " + (BOOT + (b.bootArguments + QUOTE)));
    Cut(KERNEL, t);
    assert t[0] == '\'' && RunOf(t, Unquoted) == 0;
    assert ReadRelease(s) == ("", s);
    assert s[0] == 'k';
    assert !(BOOT <= s);
  }

  lemma ReleaseIsUnquoted(s: string)
    ensures AllIn(ReadRelease(s).0, Unquoted)
  {
  }

  lemma ArgumentsAreOneLine(s: string)
    ensures OneLine(ReadArguments(s))
  {
    if BOOT <= s {
      var t := s[|BOOT|..];
      var line := t[..LineRun(t)];
      var q := LastQuote(line);
      if q.Some? {
        assert t[..q.value] == line[..q.value];
      }
    }
  }

  lemma StartIsReadable(s: string)
    ensures AllIn(ReadStart(s).kernelRelease, Unquoted) && OneLine(ReadStart(s).bootArguments)
  {
    hide ReadRelease, ReadArguments, OneLine;
    var rest := ReadRelease(s).1;
    ReleaseIsUnquoted(s);
    ArgumentsAreOneLine(if rest != "" && rest[0] == ' ' then rest[1..] else rest);
  }

  /** The start of the system comes back as it was exactly when the release has no quote
      in it, the arguments are one line, and arguments do not stand alone. */
  lemma StartExactly(b: Body)
    requires b.StartBody?
    ensures ReadStart(BodyText(b)) == b <==> Readable(b)
  {
    hide ReadStart, BodyText;
    if Readable(b) {
      StartComesBack(b);
    }
    StartIsReadable(BodyText(b));
    if b.kernelRelease == "" {
      NoRelease(b);
    }
  }

  // ----- the header

  function TypeName(kind: LogType): string {
    match kind
    case SeatAdded => "SEAT_ADDED"
    case SeatRemoved => "SEAT_REMOVED"
    case SystemStop => "SYSTEM_STOP"
    case SystemRestart => "SYSTEM_RESTART"
    case SystemStart => "SYSTEM_START"
    case SessionAdded => "SEAT_SESSION_ADDED"
    case SessionRemoved => "SEAT_SESSION_REMOVED"
    case DeviceAdded => "SEAT_DEVICE_ADDED"
    case DeviceRemoved => "SEAT_DEVICE_REMOVED"
    case ActiveChanged => "SEAT_ACTIVE_SESSION_CHANGED"
    case SystemSuspend => "UNKNOWN"
    case SystemHibernate => "UNKNOWN"
  }

  /** event_name_to_type */
  function TypeOf(name: string): Option<LogType> {
    if name == "SEAT_ADDED" then Some(SeatAdded)
    else if name == "SEAT_REMOVED" then Some(SeatRemoved)
    else if name == "SYSTEM_STOP" then Some(SystemStop)
    else if name == "SYSTEM_RESTART" then Some(SystemRestart)
    else if name == "SYSTEM_START" then Some(SystemStart)
    else if name == "SEAT_SESSION_ADDED" then Some(SessionAdded)
    else if name == "SEAT_SESSION_REMOVED" then Some(SessionRemoved)
    else if name == "SEAT_DEVICE_ADDED" then Some(DeviceAdded)
    else if name == "SEAT_DEVICE_REMOVED" then Some(DeviceRemoved)
    else if name == "SEAT_ACTIVE_SESSION_CHANGED" then Some(ActiveChanged)
    else None
  }

  predicate HasName(kind: LogType) { kind != SystemSuspend && kind != SystemHibernate }

  lemma NamesReadBack(kind: LogType)
    ensures TypeOf(TypeName(kind)) == if HasName(kind) then Some(kind) else None
    ensures TypeName(kind) ==
      match kind {
        case SeatAdded => "SEAT_ADDED"
        case SeatRemoved => "SEAT_REMOVED"
        case SystemStop => "SYSTEM_STOP"
        case SystemRestart => "SYSTEM_RESTART"
        case SystemStart => "SYSTEM_START"
        case SystemSuspend => "UNKNOWN"
        case SystemHibernate => "UNKNOWN"
        case SessionAdded => "SEAT_SESSION_ADDED"
        case SessionRemoved => "SEAT_SESSION_REMOVED"
        case DeviceAdded => "SEAT_DEVICE_ADDED"
        case DeviceRemoved => "SEAT_DEVICE_REMOVED"
        case ActiveChanged => "SEAT_ACTIVE_SESSION_CHANGED"
      }
  {
  }

  /** "%03u" */
  function Padded(ms: nat): string
    requires ms < 1000
  {
    if ms < 10 then "00" + Decimal(ms) else if ms < 100 then "0" + Decimal(ms) else Decimal(ms)
  }

  /** add_log_for_any up to the type's name */
  function Stamp(e: Event): string
    requires e.usec < 1_000_000
  {
    Decimal(e.sec) + ("." + (Padded(e.usec / 1000) + (" type=" + TypeName(e.kind))))
  }

  const COLON := " : "

  /** ck_log_event_to_string */
  function ToText(e: Event): string
    requires e.usec < 1_000_000
  {
    Stamp(e) + (COLON + BodyText(e.body))
  }

  /** "%30s" after its white space: up to n characters that are no white space */
  function WordRun(s: string, n: nat): (k: nat)
    ensures k <= |s| && k <= n
  {
    if n > 0 && s != [] && !IsSpace(s[0]) then 1 + WordRun(s[1..], n - 1) else 0
  }

  datatype Header = Header(sec: nat, frac: nat, name: string)

  /** sscanf with "%lu.%u type=%30s :", all three converted; white space in the format
      stands for any, and what follows the name is not needed. */
  function ScanHeader(s: string): Option<Header> {
    match ScanUlong(s)
    case None => None
    case Some(a) =>
      if a.rest == "" || a.rest[0] != '.' then None
      else
        match ScanUint(a.rest[1..])
        case None => None
        case Some(b) =>
          var t := SkipSpace(b.rest);
          if !("type=" <= t) then None
          else
            var u := SkipSpace(t[5..]);
            var k := WordRun(u, 30);
            if k == 0 then None else Some(Header(a.value, b.value, u[..k]))
  }

  /** g_strstr_len */
  function Find(needle: string, s: string): Option<nat> {
    if needle <= s then Some(0)
    else if s == "" then None
    else match Find(needle, s[1..]) case None => None case Some(i) => Some(i + 1)
  }

  lemma {:induction false} FindBounds(needle: string, s: string)
    ensures Find(needle, s).Some? ==> Find(needle, s).value + |needle| <= |s|
  {
    if !(needle <= s) && s != "" {
      FindBounds(needle, s[1..]);
    }
  }

  /** skip_header */
  function SkipHeader(s: string): Option<string> {
    FindBounds(COLON, s);
    FindBounds(" :", s);
    match Find(COLON, s)
    case Some(i) => Some(s[i + 3..])
    case None =>
      match Find(" :", s)
      case Some(i) => Some(s[i + 2..])
      case None => None
  }

  /** ck_log_event_new_from_string: ck_log_event_fill_from_string on a zeroed event */
  function FromText(s: string): Option<Event> {
    match ScanHeader(s)
    case None => None
    case Some(h) =>
      match TypeOf(h.name)
      case None => None
      case Some(kind) =>
        match SkipHeader(s)
        case None => None
        case Some(rest) =>
          match ReadBody(kind, rest)
          case None => None
          case Some(body) => Some(Event(kind, h.sec, 1000 * h.frac % UINT_RANGE, body))
  }

  // ----- the line, spelled out

  /** What an event is printed as, after its header. */
  lemma BodyPrinted(b: Body)
    ensures BodyText(b) ==
      match b {
        case NoBody => ""
        case SeatBody(seatId, seatKind) =>
          InTurn([("seat-id='", seatId),
                  ("' seat-kind=", if seatKind < 0 then "-" + Decimal(-seatKind) else Decimal(seatKind))], "")
        case StartBody(release, arguments) =>
          "kernel-release='" + (release + ("' " + ("boot-arguments='" + (arguments + "'"))))
        case SessionBody(seatId, sessionId, sessionType, x11Display, x11DisplayDevice, displayDevice, remoteHostName,
            isLocal, unixUser, creationTime) =>
          InTurn([("seat-id='", seatId), ("' session-id='", sessionId), ("' session-type='", sessionType),
                  ("' session-x11-display='", x11Display), ("' session-x11-display-device='", x11DisplayDevice),
                  ("' session-display-device='", displayDevice), ("' session-remote-host-name='", remoteHostName),
                  ("' session-is-local=", if isLocal then "TRUE" else "FALSE"),
                  (" session-unix-user=", Decimal(unixUser)), (" session-creation-time='", creationTime)], "'")
        case ActiveBody(seatId, sessionId) => InTurn([("seat-id='", seatId), ("' session-id='", sessionId)], "'")
        case DeviceBody(seatId, deviceId, deviceType) =>
          InTurn([("seat-id='", seatId), ("' device-id='", deviceId), ("' device-type='", deviceType)], "'")
      }
  {
    hide Decimal, InTurn, Filled;
    match b {
      case NoBody =>
      case SeatBody(seatId, seatKind) =>
        var kind := Signed(seatKind);
        FilledInTurn(SEAT_FORM, [seatId, kind], "");
        assert Parts(SEAT_FORM, [seatId, kind]) == [("seat-id='", seatId), ("' seat-kind=", kind)];
      case StartBody(_, _) =>
      case SessionBody(_, _, _, _, _, _, _, _, _, _) => SessionPrinted(b);
      case ActiveBody(seatId, sessionId) =>
        FilledInTurn(ACTIVE_FORM, [seatId, sessionId], QUOTE);
        assert Parts(ACTIVE_FORM, [seatId, sessionId]) == [("seat-id='", seatId), ("' session-id='", sessionId)];
      case DeviceBody(seatId, deviceId, deviceType) => DevicePrinted(seatId, deviceId, deviceType);
    }
  }

  lemma DevicePrinted(seatId: string, deviceId: string, deviceType: string)
    ensures BodyText(DeviceBody(seatId, deviceId, deviceType)) ==
      InTurn([("seat-id='", seatId), ("' device-id='", deviceId), ("' device-type='", deviceType)], "'")
  {
    hide InTurn, Filled;
    FilledInTurn(DEVICE_FORM, [seatId, deviceId, deviceType], QUOTE);
    assert Parts(DEVICE_FORM, [seatId, deviceId, deviceType]) ==
      [("seat-id='", seatId), ("' device-id='", deviceId), ("' device-type='", deviceType)];
  }

  lemma SessionPrinted(b: Body)
    requires b.SessionBody?
    ensures BodyText(b) ==
      InTurn([("seat-id='", b.seatId), ("' session-id='", b.sessionId), ("' session-type='", b.sessionType),
              ("' session-x11-display='", b.x11Display), ("' session-x11-display-device='", b.x11DisplayDevice),
              ("' session-display-device='", b.displayDevice), ("' session-remote-host-name='", b.remoteHostName),
              ("' session-is-local=", if b.isLocal then "TRUE" else "FALSE"),
              (" session-unix-user=", Decimal(b.unixUser)), (" session-creation-time='", b.creationTime)], "'")
  {
    hide Decimal, InTurn, Filled;
    FilledInTurn(SESSION_FORM, SessionFields(b), QUOTE);
    assert Parts(SESSION_FORM, SessionFields(b)) ==
      [("seat-id='", b.seatId), ("' session-id='", b.sessionId), ("' session-type='", b.sessionType),
       ("' session-x11-display='", b.x11Display), ("' session-x11-display-device='", b.x11DisplayDevice),
       ("' session-display-device='", b.displayDevice), ("' session-remote-host-name='", b.remoteHostName),
       ("' session-is-local=", if b.isLocal then "TRUE" else "FALSE"),
       (" session-unix-user=", Decimal(b.unixUser)), (" session-creation-time='", b.creationTime)];
  }

  /** And the header before it: the seconds, three digits for the milliseconds, the name. */
  lemma HeaderPrinted(e: Event)
    requires e.usec < 1_000_000
    ensures
      exists ms ::
        && |ms| == 3 && AllDigits(ms) && Value(ms) == e.usec / 1000
        && ToText(e) == Decimal(e.sec) + "." + ms + " type=" + TypeName(e.kind) + " : " + BodyText(e.body)
  {
    hide BodyText, Value, Padded, Decimal, TypeName;
    var ms, name := Padded(e.usec / 1000), TypeName(e.kind);
    PaddedReadsBack(e.usec / 1000);
    ThreeDigits(e.usec / 1000);
    Regroup(Decimal(e.sec), ".", ms + (" type=" + name));
    Regroup(Decimal(e.sec) + ".", ms, " type=" + name);
    Regroup(Decimal(e.sec) + "." + ms, " type=", name);
    Regroup(Stamp(e), COLON, BodyText(e.body));
  }

  lemma ThreeDigits(ms: nat)
    requires ms < 1000
    ensures |Padded(ms)| == 3
  {
    assert ms >= 10 ==> |Decimal(ms)| == |Decimal(ms / 10)| + 1;
    assert ms >= 100 ==> |Decimal(ms / 10)| == |Decimal(ms / 10 / 10)| + 1;
  }

  /** The alphabets of the parser's expressions. */
  lemma AlphabetsSpelled(c: char)
    ensures In(c, Ident) <==> 'a' <= c <= 'z' || 'A' <= c <= 'Z' || '0' <= c <= '9' || c == '/'
    ensures In(c, Words) <==> 'a' <= c <= 'z' || 'A' <= c <= 'Z' || '0' <= c <= '9' || c == ' '
    ensures In(c, Display) <==> 'a' <= c <= 'z' || 'A' <= c <= 'Z' || '0' <= c <= '9' || c == '.' || c == ':'
    ensures In(c, Unquoted) <==> c != '\''
  {
  }

  // ----- the header comes back

  lemma PaddedReadsBack(ms: nat)
    requires ms < 1000
    ensures var s := Padded(ms); s != "" && AllDigits(s) && Value(s) == ms
  {
    ValueOfDecimal(ms);
    if ms < 10 {
      LeadingZero(Decimal(ms));
      LeadingZero("0" + Decimal(ms));
      assert "0" + ("0" + Decimal(ms)) == "00" + Decimal(ms);
    } else if ms < 100 {
      LeadingZero(Decimal(ms));
    }
  }

  lemma {:induction false} LeadingZero(s: string)
    requires AllDigits(s)
    ensures AllDigits("0" + s) && Value("0" + s) == Value(s)
  {
    var z := "0" + s;
    assert AllDigits(z);
    if s != [] {
      LeadingZero(s[..|s| - 1]);
      assert z[..|z| - 1] == "0" + s[..|s| - 1];
    } else {
      assert z[..0] == "";
    }
  }

  predicate NoSpace(s: string) { forall i :: 0 <= i < |s| ==> !IsSpace(s[i]) }

  lemma NameIsWord(kind: LogType)
    ensures NoSpace(TypeName(kind)) && 0 < |TypeName(kind)| <= 30
  {
    hide NoSpace, TypeName;
    if kind.SessionAdded? || kind.SessionRemoved? || kind.DeviceAdded? || kind.DeviceRemoved? || kind.ActiveChanged? {
      LongNameIsWord(kind);
    } else {
      ShortNameIsWord(kind);
    }
  }

  lemma LongNameIsWord(kind: LogType)
    requires kind.SessionAdded? || kind.SessionRemoved? || kind.DeviceAdded? || kind.DeviceRemoved?
      || kind.ActiveChanged?
    ensures NoSpace(TypeName(kind)) && 0 < |TypeName(kind)| <= 30
  {
  }

  lemma ShortNameIsWord(kind: LogType)
    requires kind.SeatAdded? || kind.SeatRemoved? || kind.SystemStop? || kind.SystemRestart? || kind.SystemStart?
          || kind.SystemSuspend? || kind.SystemHibernate?
    ensures NoSpace(TypeName(kind)) && 0 < |TypeName(kind)| <= 30
  {
  }

  lemma {:induction false} WordRunOf(word: string, rest: string, n: nat)
    requires NoSpace(word) && |word| <= n && rest != "" && IsSpace(rest[0])
    ensures WordRun(word + rest, n) == |word|
    decreases |word|
  {
    var s := word + rest;
    if word != "" {
      assert s[0] == word[0] && s[1..] == word[1..] + rest;
      WordRunOf(word[1..], rest, n - 1);
    } else {
      assert s == rest;
    }
  }

  lemma TypeField(name: string, rest: string)
    requires NoSpace(name) && 0 < |name| <= 30 && rest != "" && IsSpace(rest[0])
    ensures var t := SkipSpace(" type=" + (name + rest));
      && "type=" <= t
      && var u := SkipSpace(t[5..]); var k := WordRun(u, 30); k == |name| && u[..k] == name
  {
    var u := name + rest;
    assert (" type=" + u)[1..] == "type=" + u;
    assert ("type=" + u)[0] == 't';
    Cut("type=", u);
    assert u[0] == name[0];
    WordRunOf(name, rest, 30);
    Cut(name, rest);
  }

  /** The scan of the header gives back the seconds, the milliseconds and the name. */
  lemma HeaderReadsBack(e: Event)
    requires WellFormed(e)
    ensures ScanHeader(ToText(e)) == Some(Header(e.sec, e.usec / 1000, TypeName(e.kind)))
  {
    hide Padded, Decimal, TypeName, BodyText, WordRun, SkipSpace, ScanUlong, Value;
    var name, more := TypeName(e.kind), COLON + BodyText(e.body);
    var t := " type=" + (name + more);
    var m := Padded(e.usec / 1000);
    Regroup(" type=", name, more);
    Regroup(m, " type=" + name, more);
    Regroup(".", m + (" type=" + name), more);
    Regroup(Decimal(e.sec), "." + (m + (" type=" + name)), more);
    assert ToText(e) == Decimal(e.sec) + ("." + (m + t));
    ScanDecimal(e.sec, "." + (m + t));
    Cut(".", m + t);
    PaddedReadsBack(e.usec / 1000);
    ScanUnsigned(m, t);
    NameIsWord(e.kind);
    TypeField(name, more);
  }

  /** The only space in the header is the one before the type. */
  lemma StampSpaces(e: Event)
    requires e.usec < 1_000_000
    ensures var s := Stamp(e); forall i :: 0 <= i < |s| && s[i] == ' ' ==> i + 1 < |s| && s[i + 1] != ':'
  {
    hide Padded, TypeName, Value, Decimal;
    var s := Stamp(e);
    var sec, m, name := Decimal(e.sec), Padded(e.usec / 1000), TypeName(e.kind);
    PaddedReadsBack(e.usec / 1000);
    NameIsWord(e.kind);
    var p := |sec| + 1 + |m|;
    assert s[p..p + 6] == " type=";
    assert s[p + 1] == s[p..p + 6][1];
    forall i | 0 <= i < |s| && i != p ensures s[i] != ' ' {
      if i < |sec| {
        assert s[i] == sec[i];
      } else if |sec| < i < p {
        assert s[i] == m[i - |sec| - 1];
      } else if p < i < p + 6 {
        assert s[i] == s[p..p + 6][i - p];
      } else if i >= p + 6 {
        assert s[i] == name[i - p - 6];
      }
    }
  }

  lemma {:induction false} FindAfter(a: string, b: string)
    requires COLON <= b
    requires forall i :: 0 <= i < |a| && a[i] == ' ' ==> i + 1 < |a| && a[i + 1] != ':'
    ensures Find(COLON, a + b) == Some(|a|)
    decreases |a|
  {
    if a == "" {
      assert a + b == b;
    } else {
      assert (a + b)[1..] == a[1..] + b;
      assert (a + b)[0] == a[0] && (|a| > 1 ==> (a + b)[1] == a[1]);
      FindAfter(a[1..], b);
    }
  }

  lemma BodyIsReached(e: Event)
    requires e.usec < 1_000_000
    ensures SkipHeader(ToText(e)) == Some(BodyText(e.body))
  {
    hide Stamp, BodyText;
    StampSpaces(e);
    var b := COLON + BodyText(e.body);
    Cut(COLON, BodyText(e.body));
    FindAfter(Stamp(e), b);
    Cut(Stamp(e), b);
    assert ToText(e)[|Stamp(e)| + 3..] == b[3..];
  }

  // ----- the round trip

  /** The time to the millisecond. */
  function Truncated(e: Event): Event {
    e.(usec := e.usec / 1000 * 1000)
  }

  lemma BodyComesBack(kind: LogType, b: Body)
    requires Fits(kind, b) && Readable(b) && (b.SessionBody? ==> b.unixUser < UINT_RANGE)
    ensures ReadBody(kind, BodyText(b)) == Some(AsRead(b))
  {
    hide Search, Filled, ReadStart, BodyText, ReadSeat, ReadSession, ReadDevice, ReadActive, Readable;
    match b {
      case SeatBody(_, _) => SeatComesBack(kind, b);
      case SessionBody(_, _, _, _, _, _, _, _, _, _) => SessionComesBack(kind, b);
      case StartBody(_, _) => StartComesBack(b);
      case ActiveBody(_, _) => ActiveExactly(b);
      case DeviceBody(_, _, _) => DeviceExactly(kind, b);
      case NoBody =>
    }
  }

  lemma NothingToRead(b: Body)
    requires b.NoBody?
    ensures Readable(b)
  {
  }

  lemma BodyExactly(kind: LogType, b: Body)
    requires Fits(kind, b) && (b.SessionBody? ==> b.unixUser < UINT_RANGE)
    ensures ReadBody(kind, BodyText(b)) == Some(b) <==> Readable(b) && AsRead(b) == b
  {
    hide Search, Filled, ReadStart, BodyText, ReadSeat, ReadSession, ReadDevice, ReadActive, Readable;
    match b {
      case SeatBody(_, _) => SeatExactly(kind, b);
      case SessionBody(_, _, _, _, _, _, _, _, _, _) => SessionExactly(kind, b);
      case StartBody(_, _) => StartExactly(b);
      case ActiveBody(_, _) => ActiveExactly(b);
      case DeviceBody(_, _, _) => DeviceExactly(kind, b);
      case NoBody => NothingToRead(b);
    }
  }

  /** An event of a named type with fields the parser accepts is read back with its type,
      its time to the millisecond, and every field but the two that are lost. */
  lemma ReadsBack(e: Event)
    requires WellFormed(e) && HasName(e.kind) && Readable(e.body)
    ensures FromText(ToText(e)) == Some(Truncated(e).(body := AsRead(e.body)))
  {
    hide ScanHeader, SkipHeader, ToText, ReadBody, BodyText, Readable, AsRead, TypeName, TypeOf;
    HeaderReadsBack(e);
    NamesReadBack(e.kind);
    BodyIsReached(e);
    BodyComesBack(e.kind, e.body);
  }

  /** Printing and parsing give back the event, its time truncated, if and only if its type
      has a name, its fields are ones the parser accepts, and neither a seat's kind nor a
      session's remote host is there to be lost. */
  lemma RoundTripExactly(e: Event)
    requires WellFormed(e)
    ensures FromText(ToText(e)) == Some(Truncated(e))
        <==> HasName(e.kind) && Readable(e.body) && AsRead(e.body) == e.body
  {
    hide ScanHeader, SkipHeader, ToText, ReadBody, BodyText, Readable, AsRead, TypeName, TypeOf;
    HeaderReadsBack(e);
    NamesReadBack(e.kind);
    BodyIsReached(e);
    BodyExactly(e.kind, e.body);
  }

  /** A dynamic seat (kind 1) is read back as a static one (kind 0). */
  lemma DynamicSeatComesBackStatic(e: Event)
    requires WellFormed(e) && e.body.SeatBody? && Named(e.body.seatId) && e.body.seatKind == 1
    ensures FromText(ToText(e)) == Some(Truncated(e).(body := SeatBody(e.body.seatId, 0)))
  {
    hide ScanHeader, SkipHeader, ToText, ReadBody, BodyText;
    ReadsBack(e);
  }

  // ----- in place: the printer's string and the parser's event

  class GString {
    var str: string

    constructor ()
      ensures str == ""
    {
      str := "";
    }

    method Append(s: string)
      modifies this
      ensures str == old(str) + s
    {
      str := str + s;
    }
  }

  /** ck_log_event_to_string */
  method AppendEvent(e: Event, out: GString)
    requires e.usec < 1_000_000
    modifies out
    ensures out.str == old(out.str) + ToText(e)
  {
    hide Stamp, BodyText;
    out.Append(Stamp(e) + COLON);
    out.Append(BodyText(e.body));
    Regroup(Stamp(e), COLON, BodyText(e.body));
    Regroup(old(out.str), Stamp(e) + COLON, BodyText(e.body));
  }

  class LogRecord {
    var kind: Option<LogType>
    var sec: nat
    var usec: nat
    var body: Body

    /** g_new0 */
    constructor ()
      ensures kind == None && body == NoBody
    {
      kind, sec, usec, body := None, 0, 0, NoBody;
    }

    /** parse_log_for_any */
    method ParseAny(s: string) returns (ok: bool)
      modifies this`kind, this`sec, this`usec
      ensures ok == (ScanHeader(s).Some? && TypeOf(ScanHeader(s).value.name).Some?)
      ensures ok ==> var h := ScanHeader(s).value;
        kind == TypeOf(h.name) && sec == h.sec && usec == 1000 * h.frac % UINT_RANGE
      ensures !ok ==> kind == old(kind) && sec == old(sec) && usec == old(usec)
    {
      hide ScanHeader, TypeOf;
      var h := ScanHeader(s);
      if h.None? {
        return false;
      }
      var t := TypeOf(h.value.name);
      if t.None? {
        return false;
      }
      kind, sec, usec := t, h.value.sec, 1000 * h.value.frac % UINT_RANGE;
      ok := true;
    }

    /** ck_log_event_fill_from_string on a zeroed event. When the header is good and the
        rest is not, the type and the time have been set all the same. */
    method FillFromString(s: string) returns (ok: bool)
      requires body == NoBody
      modifies this
      ensures ok == FromText(s).Some?
      ensures ok ==> kind.Some? && Some(Event(kind.value, sec, usec, body)) == FromText(s)
      ensures !ok ==> body == NoBody
    {
      hide ScanHeader, TypeOf, SkipHeader, ReadBody;
      var any := ParseAny(s);
      if !any {
        return false;
      }
      var rest := SkipHeader(s);
      if rest.None? {
        return false;
      }
      var read := ReadBody(kind.value, rest.value);
      if read.None? {
        return false;
      }
      body := read.value;
      ok := true;
    }
  }
}
