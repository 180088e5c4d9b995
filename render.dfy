/**
 * The debug display mode: every byte read from the device as two lower-case
 * hex digits, two spaces, the same bytes with each non-printable one shown
 * as '.', then a newline. The printable half is shared with the trace mode.
 */
module Render {
  import opened CText

  /** The hex half of a debug line: one "%02hhx" pair per byte, in order, no separator. */
  function HexDump(s: seq<byte>): (r: string)
    ensures |r| == 2 * |s|
  {
    if s == [] then [] else HexDump(s[..|s| - 1]) + HexPair(s[|s| - 1])
  }

  /** Reads bytes back from consecutive hex pairs. */
  function HexUndump(r: string): (s: seq<byte>)
    requires |r| % 2 == 0
    ensures |s| == |r| / 2
  {
    if r == [] then [] else HexUndump(r[..|r| - 2]) + [ParseHexPair(r[|r| - 2..])]
  }

  /** The hex half holds lower-case hexadecimal digits only. */
  lemma {:induction false} HexDumpDigits(s: seq<byte>)
    ensures forall i :: 0 <= i < |HexDump(s)| ==> '0' <= HexDump(s)[i] <= '9' || 'a' <= HexDump(s)[i] <= 'f'
  {
    if s != [] {
      HexDumpDigits(s[..|s| - 1]);
    }
  }

  /** Undumping one more pair adds one more byte at the end. */
  lemma HexUndumpSnoc(h: string, pair: string)
    requires |h| % 2 == 0 && |pair| == 2
    ensures HexUndump(h + pair) == HexUndump(h) + [ParseHexPair(pair)]
  {
    var r := h + pair;
    assert r[..|r| - 2] == h && r[|r| - 2..] == pair;
  }

  lemma {:induction false} HexDumpRoundTrip(s: seq<byte>)
    ensures HexUndump(HexDump(s)) == s
  {
    if s != [] {
      var init, last := s[..|s| - 1], s[|s| - 1];
      HexUndumpSnoc(HexDump(init), HexPair(last));
      HexDumpRoundTrip(init);
      HexPairRoundTrip(last);
      assert init + [last] == s;
    }
  }

  /** Byte i of the input is shown by characters 2i and 2i+1 of the hex half. */
  lemma {:induction false} HexDumpAt(s: seq<byte>, i: nat)
    requires i < |s|
    ensures HexDump(s)[2 * i..2 * i + 2] == HexPair(s[i])
  {
    var init := s[..|s| - 1];
    if i < |s| - 1 {
      HexDumpAt(init, i);
      assert HexDump(s)[2 * i..2 * i + 2] == HexDump(init)[2 * i..2 * i + 2];
    }
  }

  /** The line debug_show_reply prints for the bytes read. */
  function DebugLine(s: seq<byte>): (d: string)
    ensures |d| == 3 * |s| + 3
    ensures d[|d| - 1] == '\n'
  {
    HexDump(s) + "  " + Printable(s) + "\n"
  }

  /**
   * A debug line over n bytes has 3n+3 characters, and its first 2n are the
   * hex half, which decodes back to the bytes.
   */
  lemma DebugLineHead(s: seq<byte>)
    ensures |DebugLine(s)| == 3 * |s| + 3
    ensures DebugLine(s)[..2 * |s|] == HexDump(s)
    ensures HexUndump(DebugLine(s)[..2 * |s|]) == s
  {
    var h := HexDump(s);
    assert DebugLine(s)[..2 * |s|] == h by {
      PrefixSlice(h, "  " + Printable(s) + "\n", 0, |h|);
      assert DebugLine(s) == h + ("  " + Printable(s) + "\n");
    }
    HexDumpRoundTrip(s);
  }

  /** After the hex half come two spaces, the printable rendering and a newline. */
  lemma DebugLineTail(s: seq<byte>)
    ensures DebugLine(s)[2 * |s|..] == "  " + Printable(s) + "\n"
  {
    var h := HexDump(s);
    assert DebugLine(s) == h + ("  " + Printable(s) + "\n");
  }

  /** Characters 2i and 2i+1 of a debug line are the hex pair of byte i. */
  lemma DebugLineHexAt(s: seq<byte>, i: nat)
    requires i < |s|
    ensures DebugLine(s)[2 * i..2 * i + 2] == HexPair(s[i])
  {
    HexDumpAt(s, i);
    PrefixSlice(HexDump(s), "  " + Printable(s) + "\n", 2 * i, 2 * i + 2);
    assert DebugLine(s) == HexDump(s) + ("  " + Printable(s) + "\n");
  }

  /** A slice that ends inside the first part of a concatenation is a slice of that part. */
  lemma PrefixSlice(h: string, rest: string, j: nat, k: nat)
    requires j <= k <= |h|
    ensures (h + rest)[j..k] == h[j..k]
  {
  }

  /** Character 2n+2+i of a debug line is byte i, or '.' when that byte is not printable. */
  lemma DebugLineShownAt(s: seq<byte>, i: nat)
    requires i < |s|
    ensures DebugLine(s)[2 * |s| + 2 + i] == Shown(s[i])
  {
    DebugLineTail(s);
    var d := DebugLine(s);
    assert d[2 * |s| + 2 + i] == d[2 * |s|..][2 + i];
  }

  /** The bytes 0x41, 0x00, 0x7e print as "41007e", two spaces, "A.~" and a newline. */
  lemma DebugExample()
    ensures DebugLine([0x41, 0x00, 0x7e]) == "41007e  A.~\n"
  {
    var s: seq<byte> := [0x41, 0x00, 0x7e];
    assert s[..2] == [0x41, 0x00] && s[..2][..1] == [0x41] && s[..2][..1][..0] == [];
    assert HexPair(0x41) == "41" && HexPair(0x00) == "00" && HexPair(0x7e) == "7e";
    assert HexDump(s) == "41007e";
    assert Printable(s) == "A.~";
  }

  /** The second loop of debug_show_reply (and of trace_show_reply): one shown character per byte. */
  method ShowPrintable(buf: array<byte>, len: int) returns (out: string)
    requires 0 <= len <= buf.Length
    ensures out == Printable(buf[..len])
  {
    out := "";
    for i := 0 to len
      invariant out == Printable(buf[..i])
    {
      out := out + [Shown(buf[i])];
    }
  }

  /** debug_show_reply: a hex pair per byte, two spaces, the printable rendering, a newline. */
  method DebugShowReply(buf: array<byte>, len: int) returns (out: string)
    requires 0 <= len <= buf.Length
    ensures out == DebugLine(buf[..len])
  {
    out := "";
    for i := 0 to len
      invariant out == HexDump(buf[..i])
    {
      assert buf[..i + 1][..i] == buf[..i];
      out := out + HexPair(buf[i]);
    }
    out := out + "  ";
    var shown := ShowPrintable(buf, len);
    out := out + shown + "\n";
  }

}
