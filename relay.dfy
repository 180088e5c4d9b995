/**
 * main after option parsing: the baud check that gates open_serial, and the
 * poll loop. One pass of the loop is a decision over poll's return value, the
 * two revents words and whether fgets came back empty; the loop runs passes
 * until one of them stops it.
 */
module Relay {
  import opened Options
  import opened Baud
  import opened Termios

  /**
   * The baud switch followed by open_serial: None when main prints usage and
   * returns -1 (the device is never opened), otherwise the settings applied.
   */
  function Configure(bps: int, icrnl: bool, hwfc: bool, debug: bool, trace: bool): (r: Option<Settings>)
    ensures r.None? <==> bps !in SUPPORTED_RATES
  {
    match SpeedOf(bps)
    case None => None
    case Some(baud) => Some(OpenSerial(baud, icrnl, hwfc, debug, trace))
  }

  /**
   * What main does with the rate before the loop: a refused rate ends the
   * process (usage, then return -1); an accepted one goes on to the loop.
   */
  function Refusal(bps: int, icrnl: bool, hwfc: bool, debug: bool, trace: bool): (r: Option<Stop>)
    ensures r.Some? <==> Configure(bps, icrnl, hwfc, debug, trace).None?
    ensures r.Some? ==> r.value == Fatal(BadRate) && ExitStatus(r.value) == -1
  {
    if SpeedOf(bps).None? then Some(Fatal(BadRate)) else None
  }

  /**
   * Configure applies the speed that was asked for: the settings it returns
   * carry the symbol whose rate is bps, and the default rate is accepted.
   */
  lemma ConfigureSpeed(bps: int, icrnl: bool, hwfc: bool, debug: bool, trace: bool)
    ensures var r := Configure(bps, icrnl, hwfc, debug, trace);
      r.Some? ==> Describe(r.value).Some? && BitsPerSecond(Describe(r.value).value.speed) == bps
    ensures Configure(DEFAULT_BPS, icrnl, hwfc, debug, trace).Some?
  {
    if SpeedOf(bps).Some? {
      DescribeOpenSerial(SpeedOf(bps).value, icrnl, hwfc, debug, trace);
    }
  }

  /** The poll flags the loop looks at. */
  datatype PollFlag = POLLIN | POLLPRI | POLLERR | POLLHUP

  /** The reasons main returns -1: a refused baud rate before the loop, or a fault inside it. */
  datatype Fault = BadRate | PollFailed | UnexpectedTimeout | DeviceError | DeviceHangup

  /** How main ends: fgets found nothing (break, exit 0), or a fault (return -1). */
  datatype Stop = EndOfInput | Fatal(fault: Fault)

  /** What one pass does: send a stdin line, read a device reply, and whether it ends the loop. */
  datatype Decision = Decision(send: bool, receive: bool, stop: Option<Stop>)

  predicate Readable(revents: set<PollFlag>)
  {
    POLLIN in revents || POLLPRI in revents
  }

  /**
   * One pass of the loop: poll's return value first, then the stdin line, then
   * POLLERR, then POLLHUP, then the device read. `eof` says whether fgets would
   * return NULL; it matters only when stdin is readable.
   */
  function Decide(num: int, input: set<PollFlag>, serial: set<PollFlag>, eof: bool): (d: Decision)
    ensures num < 0 ==> d == Decision(false, false, Some(Fatal(PollFailed)))
    ensures num == 0 ==> d == Decision(false, false, Some(Fatal(UnexpectedTimeout)))
    ensures d.stop == Some(EndOfInput) <==> 0 < num && Readable(input) && eof
    ensures d.send <==> 0 < num && Readable(input) && !eof
    ensures d.receive <==> 0 < num && !(Readable(input) && eof)
                           && POLLERR !in serial && POLLHUP !in serial && Readable(serial)
    ensures d.receive ==> d.stop == None
    ensures d.stop.None? <==> 0 < num && !(Readable(input) && eof) && POLLERR !in serial && POLLHUP !in serial
    ensures 0 < num && !(Readable(input) && eof) && POLLERR in serial ==> d.stop == Some(Fatal(DeviceError))
    ensures 0 < num && !(Readable(input) && eof) && POLLERR !in serial && POLLHUP in serial
            ==> d.stop == Some(Fatal(DeviceHangup))
  {
    if num < 0 then Decision(false, false, Some(Fatal(PollFailed)))
    else if num == 0 then Decision(false, false, Some(Fatal(UnexpectedTimeout)))
    else if Readable(input) && eof then Decision(false, false, Some(EndOfInput))
    else if POLLERR in serial then Decision(Readable(input), false, Some(Fatal(DeviceError)))
    else if POLLHUP in serial then Decision(Readable(input), false, Some(Fatal(DeviceHangup)))
    else Decision(Readable(input), Readable(serial), None)
  }

  /**
   * A pass in which poll reports something on stdin other than POLLIN and
   * POLLPRI (POLLHUP on a closed pipe, say) and nothing the loop acts on for
   * the device neither reads stdin, nor reads the device, nor stops: poll
   * reports the same thing again and the loop spins.
   */
  lemma StdinHangupSpins(num: int, input: set<PollFlag>, serial: set<PollFlag>, eof: bool)
    requires 0 < num && !Readable(input)
    requires serial !! {POLLERR, POLLHUP, POLLIN, POLLPRI}
    ensures Decide(num, input, serial, eof) == Decision(false, false, None)
  {
  }

  /** main's return value for each way the loop can end. */
  function ExitStatus(s: Stop): (code: int)
    ensures code == 0 <==> s == EndOfInput
    ensures code != 0 ==> code == -1
  {
    if s == EndOfInput then 0 else -1
  }

  /** What poll and fgets report on one pass. */
  datatype PollResult = PollResult(num: int, input: set<PollFlag>, serial: set<PollFlag>, eof: bool)

  function DecideOn(p: PollResult): Decision
  {
    Decide(p.num, p.input, p.serial, p.eof)
  }

  /**
   * The while(1) loop run over a finite record of what poll and fgets report.
   * It stops at the first pass that decides to stop and returns the reason
   * with the number of passes made; it returns None when the record runs out
   * first. Only a pass that stops, and the last pass made, can stop it.
   */
  method Loop(polls: seq<PollResult>) returns (stop: Option<Stop>, passes: nat)
    ensures passes <= |polls|
    ensures forall j :: 0 <= j < passes - 1 ==> DecideOn(polls[j]).stop.None?
    ensures stop.Some? ==> 0 < passes && stop == DecideOn(polls[passes - 1]).stop
    ensures stop.None? ==> passes == |polls| && forall j :: 0 <= j < |polls| ==> DecideOn(polls[j]).stop.None?
  {
    stop, passes := None, 0;
    while passes < |polls|
      invariant passes <= |polls|
      invariant forall j :: 0 <= j < passes ==> DecideOn(polls[j]).stop.None?
    {
      var d := DecideOn(polls[passes]);
      passes := passes + 1;
      if d.stop.Some? {
        return d.stop, passes;
      }
    }
  }

  /**
   * The process ends with status 0 exactly when the pass that stops the loop
   * saw stdin readable with nothing left to read; the display mode plays no
   * part in it.
   */
  lemma CleanExitOnlyAtEndOfInput(p: PollResult)
    requires DecideOn(p).stop.Some?
    ensures ExitStatus(DecideOn(p).stop.value) == 0 <==> 0 < p.num && Readable(p.input) && p.eof
  {
  }

}
