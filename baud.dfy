/**
 * The bits-per-second switch in main: a fixed table from a number to a
 * line-speed symbol. Any other number is refused before the device is opened.
 */
module Baud {
  import opened Options

  /** The termios speed symbols the terminal can select; their bit values are the platform's concern. */
  datatype Speed = B1200 | B1800 | B2400 | B4800 | B9600 | B19200 | B38400 | B57600 | B115200

  /** The speed used when no -b option is given. */
  const DEFAULT_BPS: int := 115200

  const SUPPORTED_RATES: set<int> := {1200, 1800, 2400, 4800, 9600, 19200, 38400, 57600, 115200}

  /** The rate a speed symbol stands for. */
  function BitsPerSecond(s: Speed): nat
  {
    match s
    case B1200 => 1200
    case B1800 => 1800
    case B2400 => 2400
    case B4800 => 4800
    case B9600 => 9600
    case B19200 => 19200
    case B38400 => 38400
    case B57600 => 57600
    case B115200 => 115200
  }

  /** The switch on bps: a speed symbol for each supported rate, None (usage and exit) for anything else. */
  function SpeedOf(bps: int): (r: Option<Speed>)
    ensures r.Some? <==> bps in SUPPORTED_RATES
    ensures r.Some? ==> BitsPerSecond(r.value) == bps
  {
    match bps
    case 1200 => Some(B1200)
    case 1800 => Some(B1800)
    case 2400 => Some(B2400)
    case 4800 => Some(B4800)
    case 9600 => Some(B9600)
    case 19200 => Some(B19200)
    case 38400 => Some(B38400)
    case 57600 => Some(B57600)
    case 115200 => Some(B115200)
    case _ => None
  }

  /** Every speed symbol is selected by exactly the rate it stands for. */
  lemma SpeedRoundTrip(s: Speed)
    ensures SpeedOf(BitsPerSecond(s)) == Some(s)
  {
    match s
    case B1200 =>
    case B1800 =>
    case B2400 =>
    case B4800 =>
    case B9600 =>
    case B19200 =>
    case B38400 =>
    case B57600 =>
    case B115200 =>
  }

}
