/**
 * The line settings open_serial hands to tcsetattr: a termios record of the
 * POSIX General Terminal Interface, built from nothing (every flag word and
 * control character zero) as a pure function of the requested speed, the
 * CR-to-NL and flow-control options and the display mode. The flag words are
 * sets of named flags; the speed symbol lives in the control-mode word, as
 * the source stores it there.
 */
module Termios {
  import opened Options
  import opened Baud

  datatype InputFlag = IGNBRK | BRKINT | IGNPAR | PARMRK | INPCK | ISTRIP | INLCR | IGNCR | ICRNL | IXON | IXANY | IXOFF

  datatype OutputFlag = OPOST | ONLCR | OCRNL | ONOCR | ONLRET | OFILL

  datatype ControlFlag =
    | Baud(speed: Speed)
    | CS5 | CS6 | CS7 | CS8
    | CSTOPB | CREAD | PARENB | PARODD | HUPCL | CLOCAL | CRTSCTS

  datatype LocalFlag = ISIG | ICANON | ECHO | ECHOE | ECHOK | ECHONL | NOFLSH | TOSTOP | IEXTEN

  /** The subscripts of the c_cc array. */
  datatype ControlChar = VEOF | VEOL | VERASE | VINTR | VKILL | VMIN | VQUIT | VSTART | VSTOP | VSUSP | VTIME

  const ALL_CONTROL_CHARS: set<ControlChar> :=
    {VEOF, VEOL, VERASE, VINTR, VKILL, VMIN, VQUIT, VSTART, VSTOP, VSUSP, VTIME}

  datatype Settings = Settings(
    iflag: set<InputFlag>,
    oflag: set<OutputFlag>,
    cflag: set<ControlFlag>,
    lflag: set<LocalFlag>,
    cc: map<ControlChar, nat>)

  /** The record after memset: no flag set, every control character zero. */
  function Zeroed(): Settings
  {
    Settings({}, {}, {}, {}, map c | c in ALL_CONTROL_CHARS :: 0)
  }

  /** VTIME is in deciseconds: ten of them make the one-second read timeout. */
  const READ_TIMEOUT_DECISECONDS: nat := 10
  const READ_MINIMUM_BYTES: nat := 1

  /**
   * open_serial's record, assembled in the order the source assigns it:
   * input modes, output modes, control modes, local modes, then VTIME and VMIN.
   */
  function OpenSerial(baud: Speed, icrnl: bool, hwfc: bool, debug: bool, trace: bool): (t: Settings)
    ensures IGNPAR in t.iflag
    ensures ICRNL in t.iflag <==> icrnl
    ensures forall f :: f in t.iflag ==> f == IGNPAR || f == ICRNL
    ensures t.oflag == {}
    ensures Baud(baud) in t.cflag && CS8 in t.cflag && CLOCAL in t.cflag && CREAD in t.cflag
    ensures CRTSCTS in t.cflag <==> hwfc
    ensures forall f :: f in t.cflag ==> f in {Baud(baud), CS8, CLOCAL, CREAD, CRTSCTS}
    ensures ICANON in t.lflag <==> !debug && !trace
    ensures forall f :: f in t.lflag ==> f == ICANON
    ensures t.cc.Keys == ALL_CONTROL_CHARS
    ensures t.cc[VTIME] == 10 && t.cc[VMIN] == 1
    ensures forall c :: c in t.cc && c != VTIME && c != VMIN ==> t.cc[c] == 0
  {
    var t0 := Zeroed();
    // Input modes: ignore framing and parity errors, optionally map CR to NL.
    var t1 := t0.(iflag := {IGNPAR});
    var t2 := if icrnl then t1.(iflag := t1.iflag + {ICRNL}) else t1;
    // Output modes: no post-processing.
    var t3 := t2.(oflag := {});
    // Control modes: the speed, 8-bit characters, ignore modem lines, enable the receiver.
    var t4 := t3.(cflag := {Baud(baud)});
    var t5 := t4.(cflag := t4.cflag + {CS8} + {CLOCAL} + {CREAD});
    var t6 := if hwfc then t5.(cflag := t5.cflag + {CRTSCTS}) else t5;
    // Local modes: canonical input unless a byte-level display mode is on.
    var t7 := if !debug && !trace then t6.(lflag := {ICANON}) else t6;
    t7.(cc := t7.cc[VTIME := READ_TIMEOUT_DECISECONDS][VMIN := READ_MINIMUM_BYTES])
  }

  /** What a settings record says about the line, in the terms open_serial is asked for. */
  datatype LineConfig = LineConfig(speed: Speed, icrnl: bool, hwfc: bool, canonical: bool)

  const ALL_SPEEDS: seq<Speed> := [B1200, B1800, B2400, B4800, B9600, B19200, B38400, B57600, B115200]

  /** The first of `candidates` whose symbol the control word carries. */
  function FindSpeed(cflag: set<ControlFlag>, candidates: seq<Speed>): (r: Option<Speed>)
    ensures r.Some? ==> Baud(r.value) in cflag && r.value in candidates
  {
    if candidates == [] then None
    else if Baud(candidates[0]) in cflag then Some(candidates[0])
    else FindSpeed(cflag, candidates[1..])
  }

  /** Reads a settings record back into the parameters it was built from; None if it names no speed. */
  function Describe(t: Settings): Option<LineConfig>
  {
    match FindSpeed(t.cflag, ALL_SPEEDS)
    case None => None
    case Some(s) => Some(LineConfig(s, ICRNL in t.iflag, CRTSCTS in t.cflag, ICANON in t.lflag))
  }

  lemma {:induction false} FindSpeedUnique(cflag: set<ControlFlag>, s: Speed, candidates: seq<Speed>)
    requires s in candidates && Baud(s) in cflag
    requires forall x :: Baud(x) in cflag ==> x == s
    ensures FindSpeed(cflag, candidates) == Some(s)
  {
    if candidates[0] != s {
      FindSpeedUnique(cflag, s, candidates[1..]);
    }
  }

  /**
   * open_serial loses nothing it was asked for: the record names the requested
   * speed, CR-to-NL mapping and flow control, and is canonical exactly when
   * neither byte-level display mode is on.
   */
  lemma DescribeOpenSerial(baud: Speed, icrnl: bool, hwfc: bool, debug: bool, trace: bool)
    ensures Describe(OpenSerial(baud, icrnl, hwfc, debug, trace))
         == Some(LineConfig(baud, icrnl, hwfc, !debug && !trace))
  {
    var t := OpenSerial(baud, icrnl, hwfc, debug, trace);
    assert baud in ALL_SPEEDS by {
      match baud
      case B1200 => case B1800 => case B2400 => case B4800 => case B9600 =>
      case B19200 => case B38400 => case B57600 => case B115200 =>
    }
    forall x | Baud(x) in t.cflag
      ensures x == baud
    {
      assert Baud(x) in {Baud(baud), CS8, CLOCAL, CREAD, CRTSCTS};
    }
    FindSpeedUnique(t.cflag, baud, ALL_SPEEDS);
  }

}
