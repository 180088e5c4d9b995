/**
 * The trace display mode: each chunk read from the device is printed after
 * the running total of milliseconds and the milliseconds since the previous
 * chunk. The two counters are trace_show_reply's static variables; the
 * monotonic clock reading is a parameter.
 */
module Trace {
  import opened CText
  import opened Render

  /** timestamp(): a monotonic clock reading (seconds, nanoseconds) as whole milliseconds. */
  function Timestamp(sec: nat, nsec: nat): (ms: nat)
    requires nsec < 1_000_000_000
    ensures ms * 1_000_000 <= sec * 1_000_000_000 + nsec < (ms + 1) * 1_000_000
    ensures ms == sec * 1000 + nsec / 1_000_000
  {
    (sec * 1_000_000_000 + nsec) / 1_000_000
  }

  /** A later clock reading never gives an earlier timestamp. */
  lemma TimestampMonotone(sec1: nat, nsec1: nat, sec2: nat, nsec2: nat)
    requires nsec1 < 1_000_000_000 && nsec2 < 1_000_000_000
    requires sec1 < sec2 || (sec1 == sec2 && nsec1 <= nsec2)
    ensures Timestamp(sec1, nsec1) <= Timestamp(sec2, nsec2)
  {
  }

  /** The trace renderer's two statics: the previous timestamp (0: none yet) and the running total. */
  datatype Clock = Clock(lastts: nat, total: nat)

  const START: Clock := Clock(0, 0)

  /** One call's bookkeeping: the new counters and the diff printed. */
  function Tick(c: Clock, now: nat): (r: (Clock, nat))
    requires c.lastts <= now
    ensures r.0.lastts == now
    ensures r.0.total == c.total + r.1
    ensures r.1 == if c.lastts == 0 then 0 else now - c.lastts
  {
    if c.lastts != 0 then (Clock(now, c.total + (now - c.lastts)), now - c.lastts)
    else (Clock(now, c.total), 0)
  }

  function Sum(xs: seq<nat>): nat
  {
    if xs == [] then 0 else Sum(xs[..|xs| - 1]) + xs[|xs| - 1]
  }

  predicate Monotone(nows: seq<nat>)
  {
    forall i, j :: 0 <= i <= j < |nows| ==> nows[i] <= nows[j]
  }

  /** Successive calls at the clock readings `nows`: the final counters and the diffs printed, in order. */
  function Run(c: Clock, nows: seq<nat>): (r: (Clock, seq<nat>))
    requires Monotone(nows)
    requires nows != [] ==> c.lastts <= nows[0]
    ensures |r.1| == |nows|
    ensures nows == [] ==> r.0 == c
    ensures nows != [] ==> r.0.lastts == nows[|nows| - 1]
  {
    if nows == [] then (c, [])
    else
      var init := nows[..|nows| - 1];
      var (c', ds) := Run(c, init);
      var (c'', d) := Tick(c', nows[|nows| - 1]);
      (c'', ds + [d])
  }

  /** The running total only grows, and always equals its start plus the sum of the diffs printed. */
  lemma {:induction false} RunTotal(c: Clock, nows: seq<nat>)
    requires Monotone(nows)
    requires nows != [] ==> c.lastts <= nows[0]
    ensures Run(c, nows).0.total == c.total + Sum(Run(c, nows).1)
    ensures Run(c, nows).0.total >= c.total
  {
    if nows != [] {
      var init := nows[..|nows| - 1];
      RunTotal(c, init);
      var ds := Run(c, nows).1;
      assert ds[..|ds| - 1] == Run(c, init).1;
    }
  }

  /**
   * Starting from the zero statics with a non-zero first reading, the first
   * diff printed is 0 and the total telescopes to the last reading minus the
   * first.
   */
  lemma {:induction false} RunFromStart(nows: seq<nat>)
    requires Monotone(nows) && nows != [] && nows[0] != 0
    ensures Run(START, nows).1[0] == 0
    ensures Run(START, nows).0.total == nows[|nows| - 1] - nows[0]
  {
    if |nows| > 1 {
      var init := nows[..|nows| - 1];
      RunFromStart(init);
      assert Run(START, nows).1[0] == Run(START, init).1[0];
      assert nows[0] <= nows[|nows| - 2];
    }
  }

  /** The line trace_show_reply prints: total, diff, the printable rendering, a newline. */
  function TraceLine(total: nat, diff: nat, s: seq<byte>): (t: string)
    ensures |t| == |Decimal(total)| + |Decimal(diff)| + |s| + 3
    ensures t[..|Decimal(total)|] == Decimal(total)
    ensures t[|Decimal(total)|..|Decimal(total)| + |Decimal(diff)| + 2] == " " + Decimal(diff) + " "
    ensures t[|t| - |s| - 1..] == Printable(s) + "\n"
  {
    Decimal(total) + " " + Decimal(diff) + " " + Printable(s) + "\n"
  }

  /** The statics of trace_show_reply, updated in place on every call. */
  class TraceClock {
    var lastts: nat
    var total: nat
    /** The diffs printed so far. */
    ghost var diffs: seq<nat>

    ghost predicate Valid()
      reads this
    {
      total == Sum(diffs) && (lastts == 0 ==> total == 0)
    }

    function State(): Clock
      reads this
    {
      Clock(lastts, total)
    }

    /** Static storage starts out zero. */
    constructor ()
      ensures Valid() && State() == START && diffs == []
    {
      lastts, total := 0, 0;
      diffs := [];
    }

    /** trace_show_reply with `now` read from the monotonic clock. */
    method ShowReply(buf: array<byte>, len: int, now: nat) returns (out: string)
      requires Valid() && lastts <= now
      requires 0 <= len <= buf.Length
      modifies this
      ensures Valid()
      ensures State() == Tick(old(State()), now).0
      ensures diffs == old(diffs) + [Tick(old(State()), now).1]
      ensures total >= old(total)
      ensures out == TraceLine(total, Tick(old(State()), now).1, buf[..len])
    {
      var diff: nat;
      if lastts != 0 {
        diff := now - lastts;
        total := total + diff;
      } else {
        diff := 0;
      }
      lastts := now;
      diffs := diffs + [diff];
      assert diffs[..|diffs| - 1] == old(diffs);
      var shown := ShowPrintable(buf, len);
      out := Decimal(total) + " " + Decimal(diff) + " " + shown + "\n";
    }
  }

}
