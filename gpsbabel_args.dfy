/**
 * The pure pieces of the GPSBabel bridge: the driver-name whitelist that guards
 * the converter's command line, the classification of device paths, and the
 * argument vector handed to the gpsbabel executable.
 */
module GpsBabelArgs {
  import opened Cpl

  // ---------------------------------------------------------------------------
  // Driver-name validation
  // ---------------------------------------------------------------------------

  /** The characters a GPSBabel driver name (with its options) may contain. */
  predicate AllowedDriverChar(c: char) {
    ('A' <= c <= 'Z') || ('a' <= c <= 'z') || ('0' <= c <= '9') ||
    c == '_' || c == '=' || c == '.' || c == ','
  }

  predicate ValidDriverName(name: string) {
    forall i :: 0 <= i < |name| ==> AllowedDriverChar(name[i])
  }

  /** IsValidDriverName: scan the name and stop at the first character outside the whitelist. */
  method IsValidDriverName(name: string) returns (ok: bool)
    ensures ok == ValidDriverName(name)
  {
    var i := 0;
    while i < |name|
      invariant 0 <= i <= |name|
      invariant forall j :: 0 <= j < i ==> AllowedDriverChar(name[j])
    {
      var ch := name[i];
      if !(('A' <= ch <= 'Z') || ('a' <= ch <= 'z') || ('0' <= ch <= '9') ||
           ch == '_' || ch == '=' || ch == '.' || ch == ',')
      {
        return false;
      }
      i := i + 1;
    }
    return true;
  }

  /** Characters a shell gives meaning to; none of them can reach the command line. */
  const ShellMetacharacters: set<char> :=
    {';', '|', '&', '`', '$', '(', ')', '<', '>', ' ', '\t', '\n', '\'', '"', '\\', '*', '?', '!', '#', '~', ':', '/'}

  lemma ValidDriverNameHasNoShellMetacharacter(name: string, i: int)
    requires ValidDriverName(name) && 0 <= i < |name|
    ensures name[i] !in ShellMetacharacters
  {
    assert AllowedDriverChar(name[i]);
  }

  /** The whitelist is closed under concatenation, in both directions. */
  lemma ValidDriverNameConcat(a: string, b: string)
    ensures ValidDriverName(a + b) <==> ValidDriverName(a) && ValidDriverName(b)
  {
    if ValidDriverName(a + b) {
      forall i | 0 <= i < |a| ensures AllowedDriverChar(a[i]) {
        assert (a + b)[i] == a[i];
      }
      forall i | 0 <= i < |b| ensures AllowedDriverChar(b[i]) {
        assert (a + b)[|a| + i] == b[i];
      }
    }
    if ValidDriverName(a) && ValidDriverName(b) {
      forall i | 0 <= i < |a + b| ensures AllowedDriverChar((a + b)[i]) {
        if i < |a| { assert (a + b)[i] == a[i]; } else { assert (a + b)[i] == b[i - |a|]; }
      }
    }
  }

  // ---------------------------------------------------------------------------
  // Special (device) files
  // ---------------------------------------------------------------------------

  /** IsSpecialFile: a device directory, a USB bus, or a serial port COMn with n > 0. */
  predicate IsSpecialFile(path: string) {
    StartsWith(path, "/dev/") || StartsWith(path, "usb:") ||
    (StartsWith(path, "COM") && Atoi(path[3..]) > 0)
  }

  /** A serial port name whose number has a non-zero digit is a special file. */
  lemma {:induction false} SerialPortIsSpecial(path: string, port: string, rest: string)
    requires path == "COM" + port + rest
    requires port != [] && AllDigits(port) && (rest == [] || !IsDigit(rest[0]))
    requires exists i :: 0 <= i < |port| && port[i] != '0'
    ensures IsSpecialFile(path)
  {
    assert StartsWith(path, "COM");
    var tail := path[3..];
    assert tail == port + rest;
    LeadingDigitsOfRun(port, rest);
    DigitsValuePositive(port);
    AtoiOfDigitStart(tail);
  }

  /** "COM" followed by zeros only, or by something that is not a number, is a regular file. */
  lemma {:induction false} NonPortComNameIsRegular(path: string, zeros: string, rest: string)
    requires path == "COM" + zeros + rest
    requires forall i :: 0 <= i < |zeros| ==> zeros[i] == '0'
    requires rest == [] || (!IsDigit(rest[0]) && (zeros != [] || (!IsSpace(rest[0]) && rest[0] != '-' && rest[0] != '+')))
    ensures !IsSpecialFile(path)
  {
    var tail := path[3..];
    assert tail == zeros + rest;
    assert !StartsWith(path, "/dev/") by { assert path[0] == 'C'; }
    assert !StartsWith(path, "usb:") by { assert path[0] == 'C'; }
    if zeros == [] {
      assert tail == rest;
      AtoiOfNonNumeric(tail);
    } else {
      LeadingDigitsOfRun(zeros, rest);
      DigitsValuePositive(zeros);
      AtoiOfDigitStart(tail);
    }
  }

  lemma {:induction false} LeadingDigitsOfRun(run: string, rest: string)
    requires AllDigits(run) && (rest == [] || !IsDigit(rest[0]))
    ensures LeadingDigits(run + rest) == run
  {
    if run != [] {
      assert (run + rest)[1..] == run[1..] + rest;
      LeadingDigitsOfRun(run[1..], rest);
    } else {
      assert run + rest == rest;
    }
  }

  lemma SpecialFileExamples()
    ensures IsSpecialFile("/dev/ttyUSB0") && IsSpecialFile("usb:")
  {
  }

  lemma SerialPortExamples()
    ensures IsSpecialFile("COM3") && !IsSpecialFile("COM0") && !IsSpecialFile("COMx")
  {
    assert "3"[0] != '0';
    SerialPortIsSpecial("COM3", "3", "");
    NonPortComNameIsRegular("COM0", "0", "");
    NonPortComNameIsRegular("COMx", "", "x");
  }

  lemma RegularFileExamples()
    ensures !IsSpecialFile("/tmp/track.gdb") && !IsSpecialFile("USB:") && !IsSpecialFile("com3")
  {
    assert !StartsWith("USB:", "usb:") by { assert "USB:"[0] != "usb:"[0]; }
    assert !StartsWith("com3", "COM") by { assert "com3"[0] != "COM"[0]; }
    assert !StartsWith("com3", "usb:") by { assert "com3"[0] != "usb:"[0]; }
    assert !StartsWith("com3", "/dev/") by { assert "com3"[0] != "/dev/"[0]; }
    assert !StartsWith("USB:", "COM") by { assert "USB:"[0] != "COM"[0]; }
    assert !StartsWith("USB:", "/dev/");
    assert !StartsWith("/tmp/track.gdb", "/dev/") by { assert "/tmp/track.gdb"[1] != "/dev/"[1]; }
    assert !StartsWith("/tmp/track.gdb", "usb:") by { assert "/tmp/track.gdb"[0] != "usb:"[0]; }
    assert !StartsWith("/tmp/track.gdb", "COM") by { assert "/tmp/track.gdb"[0] != "COM"[0]; }
  }

  // ---------------------------------------------------------------------------
  // The converter's argument vector
  // ---------------------------------------------------------------------------

  const ProgramName := "gpsbabel"
  /** The output format and version every conversion targets. */
  const OutputFormat := "gpx,gpxver=1.1"
  /** The placeholder for "standard input" (as -f) and "standard output" (as -F). */
  const StdStream := "-"

  /** The category flags the converter is given when the features are explicit. */
  function FeatureFlags(explicitFeatures: bool, waypoints: bool, routes: bool, tracks: bool): (flags: seq<string>)
    ensures ("-w" in flags <==> explicitFeatures && waypoints)
    ensures ("-r" in flags <==> explicitFeatures && routes)
    ensures ("-t" in flags <==> explicitFeatures && tracks)
    ensures forall i :: 0 <= i < |flags| ==> flags[i] in ["-w", "-r", "-t"]
    ensures forall i, j :: 0 <= i < j < |flags| ==> FlagRank(flags[i]) < FlagRank(flags[j])
  {
    if !explicitFeatures then []
    else (if waypoints then ["-w"] else []) + (if routes then ["-r"] else []) + (if tracks then ["-t"] else [])
  }

  /** The position of a flag in the fixed order -w, -r, -t. */
  function FlagRank(flag: string): nat {
    if flag == "-w" then 0 else if flag == "-r" then 1 else 2
  }

  function FlagCount(explicitFeatures: bool, waypoints: bool, routes: bool, tracks: bool): nat {
    if !explicitFeatures then 0
    else (if waypoints then 1 else 0) + (if routes then 1 else 0) + (if tracks then 1 else 0)
  }

  /** GetArgv: program name, optional category flags, then input, output and output stream. */
  function GetArgv(explicitFeatures: bool, waypoints: bool, routes: bool, tracks: bool,
                   driverName: string, filename: string): (argv: seq<string>)
    ensures |argv| == 9 + FlagCount(explicitFeatures, waypoints, routes, tracks)
    ensures argv[0] == ProgramName
    ensures argv[1..|argv| - 8] == FeatureFlags(explicitFeatures, waypoints, routes, tracks)
    ensures argv[|argv| - 8..] == ["-i", driverName, "-f", filename, "-o", OutputFormat, "-F", StdStream]
  {
    var flags := FeatureFlags(explicitFeatures, waypoints, routes, tracks);
    var argv := [ProgramName] + flags + ["-i", driverName, "-f", filename, "-o", OutputFormat, "-F", StdStream];
    assert argv[1..|argv| - 8] == flags;
    argv
  }

  /** The argument vector determines the driver, the input token and the requested categories. */
  lemma GetArgvInjective(e1: bool, w1: bool, r1: bool, t1: bool, d1: string, f1: string,
                         e2: bool, w2: bool, r2: bool, t2: bool, d2: string, f2: string)
    requires GetArgv(e1, w1, r1, t1, d1, f1) == GetArgv(e2, w2, r2, t2, d2, f2)
    ensures d1 == d2 && f1 == f2
    ensures (e1 && w1) == (e2 && w2) && (e1 && r1) == (e2 && r2) && (e1 && t1) == (e2 && t2)
  {
    var a := GetArgv(e1, w1, r1, t1, d1, f1);
    assert a[|a| - 7] == d1 && a[|a| - 7] == d2;
    assert a[|a| - 5] == f1 && a[|a| - 5] == f2;
    assert FeatureFlags(e1, w1, r1, t1) == a[1..|a| - 8] == FeatureFlags(e2, w2, r2, t2);
  }

  /** Without explicit features the vector is exactly the nine fixed tokens. */
  lemma GetArgvImplicit(waypoints: bool, routes: bool, tracks: bool, driverName: string, filename: string)
    ensures GetArgv(false, waypoints, routes, tracks, driverName, filename) ==
            [ProgramName, "-i", driverName, "-f", filename, "-o", OutputFormat, "-F", StdStream]
  {
  }
}
