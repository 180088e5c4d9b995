/**
 * read_reply: one read from the device into a zeroed BUFLEN-byte buffer,
 * then exactly one renderer, chosen with priority debug, trace, annotate,
 * plain. The display-mode flags are parameters.
 */
module Reply {
  import opened CText
  import opened Render
  import opened Trace
  import opened Termios
  import opened Baud

  datatype Renderer = Debug | Traced | Annotated | Plain

  /** The if-chain of read_reply: the first display flag that is set wins, plain when none is. */
  function Choose(annotate: bool, debug: bool, trace: bool): (r: Renderer)
    ensures r == Debug <==> debug
    ensures r == Traced <==> !debug && trace
    ensures r == Annotated <==> !debug && !trace && annotate
    ensures r == Plain <==> !debug && !trace && !annotate
  {
    if debug then Debug
    else if trace then Traced
    else if annotate then Annotated
    else Plain
  }

  /**
   * The two halves of the display mode agree: the renderer works on raw
   * bytes (debug or trace) exactly when open_serial turned canonical input
   * off, whatever the other options are.
   */
  lemma RawLineForByteRenderers(annotate: bool, debug: bool, trace: bool, baud: Speed, icrnl: bool, hwfc: bool)
    ensures Choose(annotate, debug, trace) in {Debug, Traced}
        <==> ICANON !in OpenSerial(baud, icrnl, hwfc, debug, trace).lflag
  {
  }

  /** printf("read %2d bytes {%s}\n", cnt, reply). */
  function AnnotatedLine(data: seq<byte>): (a: string)
    ensures |a| == 15 + |Width2(|data|)| + |CString(data)|
    ensures a[..5] == "read " && a[|a| - 2..] == "}\n"
  {
    "read " + Width2(|data|) + " bytes {" + Chars(CString(data)) + "}\n"
  }

  /**
   * The annotated line for a reply of any length: "read ", the count in a
   * field of at least two, " bytes {", the text up to the first NUL, "}\n".
   * A count from 100 up widens the field and shifts everything after it.
   */
  lemma AnnotatedLayout(data: seq<byte>)
    ensures var a := AnnotatedLine(data); var w := Width2(|data|); var k := |CString(data)|;
      && |a| == 15 + |w| + k
      && a[..5] == "read "
      && a[5..5 + |w|] == w
      && a[5 + |w|..13 + |w|] == " bytes {"
      && a[13 + |w|..13 + |w| + k] == Chars(CString(data))
      && a[13 + |w| + k..] == "}\n"
  {
    Concat5("read ", Width2(|data|), " bytes {", Chars(CString(data)), "}\n");
  }

  /** Where each of five concatenated strings sits in the whole. */
  lemma Concat5(p: string, w: string, q: string, t: string, u: string)
    requires |p| == 5 && |q| == 8 && |u| == 2
    ensures var a := p + w + q + t + u;
      && |a| == 15 + |w| + |t|
      && a[..5] == p
      && a[5..5 + |w|] == w
      && a[5 + |w|..13 + |w|] == q
      && a[13 + |w|..13 + |w| + |t|] == t
      && a[13 + |w| + |t|..] == u
  {
    var a := p + w + q + t + u;
    assert a == p + (w + (q + (t + u)));
  }

  /** Below 100 bytes the count takes exactly two columns and reads back as the count. */
  lemma AnnotatedCount(data: seq<byte>)
    requires |data| < 100
    ensures var a := AnnotatedLine(data);
      && a[5..7] == Width2(|data|)
      && DecimalValue(if a[5] == ' ' then a[6..7] else a[5..7]) == |data|
  {
    AnnotatedLayout(data);
    Width2RoundTrip(|data|);
    var w := Width2(|data|);
    assert w[1..] == w[1..2];
  }

  /** The result of read(2): failure, or the bytes delivered. */
  datatype ReadResult = ReadFailed | ReadBytes(data: seq<byte>)

  /** `char reply[BUFLEN] = {0}` followed by a read that delivered `data`. */
  method Receive(data: seq<byte>) returns (reply: array<byte>)
    requires |data| <= BUFLEN
    ensures fresh(reply)
    ensures reply[..] == data + Zeros(BUFLEN - |data|)
  {
    reply := new byte[BUFLEN](_ => NUL);
    forall i | 0 <= i < |data| {
      reply[i] := data[i];
    }
  }

  /**
   * read_reply. On a failed read it returns -1 and prints nothing; otherwise
   * it prints through exactly one renderer and returns 0. Plain and annotated
   * output stop at the first NUL of the reply.
   */
  method ReadReply(got: ReadResult, annotate: bool, debug: bool, trace: bool, clock: TraceClock, now: nat)
    returns (status: int, out: string)
    requires clock.Valid() && clock.lastts <= now
    requires got.ReadBytes? ==> |got.data| <= BUFLEN
    requires got.ReadBytes? && Choose(annotate, debug, trace) in {Annotated, Plain} ==> |got.data| < BUFLEN
    modifies clock
    ensures clock.Valid()
    ensures status == (if got.ReadFailed? then -1 else 0)
    ensures got.ReadFailed? ==> out == "" && unchanged(clock)
    ensures got.ReadBytes? && Choose(annotate, debug, trace) == Debug ==>
      out == DebugLine(got.data) && unchanged(clock)
    ensures got.ReadBytes? && Choose(annotate, debug, trace) == Traced ==>
      && clock.State() == Tick(old(clock.State()), now).0
      && clock.diffs == old(clock.diffs) + [Tick(old(clock.State()), now).1]
      && out == TraceLine(clock.total, Tick(old(clock.State()), now).1, got.data)
    ensures got.ReadBytes? && Choose(annotate, debug, trace) == Annotated ==>
      out == AnnotatedLine(got.data) && unchanged(clock)
    ensures got.ReadBytes? && Choose(annotate, debug, trace) == Plain ==>
      out == Chars(CString(got.data)) && unchanged(clock)
  {
    if got.ReadFailed? {
      return -1, "";
    }
    var data := got.data;
    var cnt := |data|;
    var reply := Receive(data);
    assert reply[..cnt] == data;
    if debug {
      out := DebugShowReply(reply, cnt);
    } else if trace {
      out := clock.ShowReply(reply, cnt, now);
    } else {
      CStringOfPadded(data, BUFLEN - cnt);
      var text := Chars(CString(reply[..]));
      if annotate {
        out := "read " + Width2(cnt) + " bytes {" + text + "}\n";
      } else {
        out := text;
      }
    }
    status := 0;
  }

}
