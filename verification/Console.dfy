/** Console device names and virtual terminal numbers (ck-sysdeps-linux.c and
    ck-sysdeps-freebsd.c). A number is a 32-bit unsigned. */
module Console {
  import opened Text

  datatype Platform = Linux | FreeBsd

  const LINUX_PREFIX := "/dev/tty"
  const FREEBSD_PREFIX := "/dev/ttyv"

  function LinuxName(num: nat): string {
    LINUX_PREFIX + Decimal(num)
  }

  function LinuxNum(device: string): Option<nat> {
    if LINUX_PREFIX <= device then
      match ScanUint(device[|LINUX_PREFIX|..])
      case None => None
      case Some(r) => Some(r.value)
    else None
  }

  /** The device number is one less than the VT number, in 32-bit arithmetic. */
  function FreeBsdName(num: nat): Option<string>
    requires num < UINT_RANGE
  {
    var n := (num + UINT_RANGE - 1) % UINT_RANGE;
    if n < 10 then Some(FREEBSD_PREFIX + Decimal(n))
    else if n < 32 then Some(FREEBSD_PREFIX + [((n - 10) + 'a' as int) as char])
    else None
  }

  /** Characters are the ASCII ones: a C char above 127 is not modelled. */
  function FreeBsdNum(device: string): Option<nat> {
    if FREEBSD_PREFIX <= device && |device| > |FREEBSD_PREFIX| then
      var c := device[|FREEBSD_PREFIX|] as int;
      var n := if c < 58 then c - 48 else c - 'a' as int + 10;
      Some((n + 1 + UINT_RANGE) % UINT_RANGE)
    else None
  }

  function Name(p: Platform, num: nat): Option<string>
    requires num < UINT_RANGE
  {
    match p
    case Linux => Some(LinuxName(num))
    case FreeBsd => FreeBsdName(num)
  }

  function Num(p: Platform, device: string): Option<nat> {
    match p
    case Linux => LinuxNum(device)
    case FreeBsd => FreeBsdNum(device)
  }

  /** The device string is one that the platform prints for some number. */
  ghost predicate Canonical(p: Platform, device: string) {
    exists n: nat :: n < UINT_RANGE && Name(p, n) == Some(device)
  }

  lemma LinuxRoundTrip(num: nat)
    requires num < UINT_RANGE
    ensures LinuxNum(LinuxName(num)) == Some(num)
  {
    var d := LinuxName(num);
    assert d[|LINUX_PREFIX|..] == Decimal(num) + [];
    ScanDecimal(num, []);
  }

  /** On FreeBSD a number has a device exactly when it is 1..32, and then the
      device gives the number back. */
  lemma FreeBsdRoundTrip(num: nat)
    requires num < UINT_RANGE
    ensures FreeBsdName(num).Some? <==> 1 <= num <= 32
    ensures 1 <= num <= 32 ==> FreeBsdNum(FreeBsdName(num).value) == Some(num)
  {
    if 1 <= num {
      assert (num + UINT_RANGE - 1) % UINT_RANGE == num - 1;
    }
    if 1 <= num <= 10 {
      assert Decimal(num - 1) == [DigitChar(num - 1)];
    }
  }

  /** The names: "/dev/tty1" and on; on FreeBSD "/dev/ttyv0" to "/dev/ttyv9" and then
      "/dev/ttyva" to "/dev/ttyvv". */
  lemma NamesSpelled(num: nat)
    requires num < UINT_RANGE
    ensures Name(Linux, num) == Some("/dev/tty" + Decimal(num))
    ensures 1 <= num <= 10 ==> Name(FreeBsd, num) == Some("/dev/ttyv" + Decimal(num - 1))
    ensures 11 <= num <= 32 ==>
      exists c ::
        Name(FreeBsd, num) == Some("/dev/ttyv" + [c]) && 'a' <= c <= 'v' && c as int - 'a' as int == num - 11
  {
    if 1 <= num {
      assert (num + UINT_RANGE - 1) % UINT_RANGE == num - 1;
    }
    if 11 <= num <= 32 {
      assert Name(FreeBsd, num) == Some("/dev/ttyv" + [((num - 11) + 'a' as int) as char]);
    }
  }

  /** What console a device is read as: on Linux the number after "/dev/tty" in 32 bits,
      whatever follows it. */
  lemma LinuxReadsExactly(device: string)
    ensures LinuxNum(device).Some? <==>
      exists space, sign, digits, rest :: LinuxReads(device, space, sign, digits, rest)
    ensures forall space, digits, rest :: LinuxReads(device, space, "", digits, rest) && Value(digits) <= ULONG_MAX ==>
      LinuxNum(device) == Some(Value(digits) % 0x1_0000_0000)
  {
    if |device| >= 8 {
      ScansExactly(device[8..]);
      forall space, sign, digits, rest | LinuxReads(device, space, sign, digits, rest) ensures LinuxNum(device).Some? {
        assert Numeral(device[8..], space, sign, digits, rest);
      }
      forall space, digits, rest | LinuxReads(device, space, "", digits, rest) && Value(digits) <= ULONG_MAX
        ensures LinuxNum(device) == Some(Value(digits) % 0x1_0000_0000)
      {
        ScanReads(device[8..], space, "", digits, rest);
      }
      if LinuxNum(device).Some? {
        var space, sign, digits, rest :| Numeral(device[8..], space, sign, digits, rest);
        assert LinuxReads(device, space, sign, digits, rest);
      }
    }
  }

  ghost predicate LinuxReads(device: string, space: string, sign: string, digits: string, rest: string) {
    |device| >= 8 && device[..8] == "/dev/tty" && Numeral(device[8..], space, sign, digits, rest)
  }

  /** For a canonical device, the string match used on a VT change and the number
      parse used by activation pick out the same number. */
  lemma MatchAgreesWithParse(p: Platform, device: string, num: nat)
    requires Canonical(p, device)
    requires num < UINT_RANGE
    ensures Name(p, num) == Some(device) <==> Num(p, device) == Some(num)
  {
    var n: nat :| n < UINT_RANGE && Name(p, n) == Some(device);
    match p {
      case Linux => LinuxRoundTrip(n); if Name(p, num) == Some(device) { LinuxRoundTrip(num); }
      case FreeBsd => FreeBsdRoundTrip(n); if Name(p, num) == Some(device) { FreeBsdRoundTrip(num); }
    }
  }

  /** Outside the canonical names the two differ: "/dev/tty07" is read as console 7
      although console 7 is named "/dev/tty7". */
  lemma NonCanonicalDiffers()
    ensures Num(Linux, "/dev/tty07") == Some(7)
    ensures Name(Linux, 7) != Some("/dev/tty07") && !Canonical(Linux, "/dev/tty07")
  {
    var d := "/dev/tty07";
    assert d[|LINUX_PREFIX|..] == "07" + [];
    assert "07"[..1] == "0" && "0"[..0] == [];
    assert Value("0") == 0 && Value("07") == 7;
    ScanUnsigned("07", []);
    assert LinuxName(7) == "/dev/tty7";
    if Canonical(Linux, d) {
      MatchAgreesWithParse(Linux, d, 7);
    }
  }
}
