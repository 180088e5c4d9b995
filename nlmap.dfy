/**
 * The output newline mapping of main's loop: a line read by fgets into the
 * zeroed BUFLEN-byte buffer has its last character replaced by CR (mode 1),
 * or by CR followed by an LF written over the old terminator (mode 2), before
 * strlen(buf) bytes are written to the device. Any other mode leaves the
 * buffer alone: the switch has no default arm.
 */
module NewlineMap {
  import opened CText

  const CR: byte := 0x0D
  const LF: byte := 0x0A

  /** The buffer after the mapping step, stated on values. */
  function Mapped(s: seq<byte>, nlmap: int): (r: seq<byte>)
    requires nlmap == 1 || nlmap == 2 ==> 1 <= StrLen(s)
    requires nlmap == 2 ==> StrLen(s) < |s|
    ensures |r| == |s|
    ensures nlmap != 1 && nlmap != 2 ==> r == s
    ensures nlmap == 1 || nlmap == 2 ==> r[StrLen(s) - 1] == CR && r[..StrLen(s) - 1] == s[..StrLen(s) - 1]
    ensures nlmap == 2 ==> r[StrLen(s)] == LF && r[StrLen(s) + 1..] == s[StrLen(s) + 1..]
    ensures nlmap == 1 ==> r[StrLen(s)..] == s[StrLen(s)..]
  {
    var n := StrLen(s);
    if nlmap == 1 then s[n - 1 := CR]
    else if nlmap == 2 then s[n - 1 := CR][n := LF]
    else s
  }

  /** Mode 1: the last character becomes CR, whatever it was; the length and the rest stay. */
  lemma MappedCr(s: seq<byte>)
    requires 1 <= StrLen(s)
    ensures var r := Mapped(s, 1);
      && |r| == |s|
      && r[StrLen(s) - 1] == CR
      && StrLen(r) == StrLen(s)
      && (forall i :: 0 <= i < |s| && i != StrLen(s) - 1 ==> r[i] == s[i])
  {
    StrLenUpdate(s, StrLen(s) - 1, CR);
  }

  /**
   * Mode 2: the last character becomes CR and the old terminator LF; with the
   * byte after it still NUL, the string grows by exactly one and reads as the
   * old prefix, CR, LF.
   */
  lemma MappedCrLf(s: seq<byte>)
    requires 1 <= StrLen(s) && StrLen(s) + 1 < |s|
    requires s[StrLen(s) + 1] == NUL
    ensures var r := Mapped(s, 2); var n := StrLen(s);
      && |r| == |s|
      && r[n - 1] == CR && r[n] == LF
      && StrLen(r) == n + 1
      && (forall i :: 0 <= i < |s| && i != n - 1 && i != n ==> r[i] == s[i])
      && CString(r) == s[..n - 1] + [CR, LF]
  {
    var n := StrLen(s);
    var r := Mapped(s, 2);
    StrLenUnique(r, n + 1);
    assert CString(r) == r[..n + 1];
    assert r[..n + 1] == s[..n - 1] + [CR, LF];
  }

  /**
   * The mapping step on the array: strlen is taken again before each write,
   * as the source does, and the second write lands on the old terminator
   * because CR is not NUL.
   */
  method MapNewline(buf: array<byte>, nlmap: int)
    requires buf.Length == BUFLEN
    requires StrLen(buf[..]) < BUFLEN
    requires nlmap == 1 || nlmap == 2 ==> 1 <= StrLen(buf[..])
    requires nlmap == 2 ==> StrLen(buf[..]) <= BUFLEN - 2
    modifies buf
    ensures buf[..] == Mapped(old(buf[..]), nlmap)
  {
    if nlmap == 1 {
      buf[StrLen(buf[..]) - 1] := CR;
    } else if nlmap == 2 {
      ghost var before := buf[..];
      buf[StrLen(buf[..]) - 1] := CR;
      StrLenUpdate(before, StrLen(before) - 1, CR);
      assert buf[..] == before[StrLen(before) - 1 := CR];
      buf[StrLen(buf[..])] := LF;
    }
  }

  /** What the device receives for a line, by mode: the line, or its last character replaced by CR or CR LF. */
  function Transmitted(line: seq<byte>, nlmap: int): (w: seq<byte>)
    requires 1 <= |line|
    ensures |w| == if nlmap == 2 then |line| + 1 else |line|
    ensures w[..|line| - 1] == line[..|line| - 1]
  {
    if nlmap == 1 then line[..|line| - 1] + [CR]
    else if nlmap == 2 then line[..|line| - 1] + [CR, LF]
    else line
  }

  /** A NUL-free line followed by NULs has the line's length. */
  lemma StrLenOfLine(line: seq<byte>, k: nat)
    requires forall i :: 0 <= i < |line| ==> line[i] != NUL
    ensures StrLen(line + Zeros(k)) == |line|
  {
    StrLenUnique(line + Zeros(k), |line|);
  }

  /** The NUL-free line w followed by NULs up to BUFLEN prints as w. */
  lemma CStringOfLine(w: seq<byte>)
    requires |w| <= BUFLEN
    requires forall i :: 0 <= i < |w| ==> w[i] != NUL
    ensures CString(w + Zeros(BUFLEN - |w|)) == w
  {
    StrLenOfLine(w, BUFLEN - |w|);
    assert (w + Zeros(BUFLEN - |w|))[..|w|] == w;
  }

  /** Overwriting the last byte of a line that sits in front of other bytes. */
  lemma ReplaceLast(line: seq<byte>, pad: seq<byte>, v: byte)
    requires 1 <= |line|
    ensures (line + pad)[|line| - 1 := v] == line[..|line| - 1] + [v] + pad
  {
    var n := |line|;
    var a, b := (line + pad)[n - 1 := v], line[..n - 1] + [v] + pad;
    assert |a| == |b|;
    forall i | 0 <= i < |a|
      ensures a[i] == b[i]
    {
      if i < n - 1 {
        assert a[i] == line[i] && b[i] == line[i];
      } else if i > n - 1 {
        assert a[i] == pad[i - n] && b[i] == pad[i - n];
      }
    }
  }

  lemma MappedCrTransmits(line: seq<byte>)
    requires 1 <= |line| <= BUFLEN - 1
    requires forall i :: 0 <= i < |line| ==> line[i] != NUL
    ensures StrLen(line + Zeros(BUFLEN - |line|)) == |line|
    ensures Mapped(line + Zeros(BUFLEN - |line|), 1) == Transmitted(line, 1) + Zeros(BUFLEN - |line|)
  {
    StrLenOfLine(line, BUFLEN - |line|);
    ReplaceLast(line, Zeros(BUFLEN - |line|), CR);
  }

  /** Overwriting the byte that follows a known prefix. */
  lemma ReplaceAfter(head: seq<byte>, x: byte, rest: seq<byte>, v: byte)
    ensures (head + [x] + rest)[|head| := v] == head + [v] + rest
  {
    var a, b := (head + [x] + rest)[|head| := v], head + [v] + rest;
    forall i | 0 <= i < |a|
      ensures a[i] == b[i]
    {
      if i < |head| {
        assert a[i] == head[i] && b[i] == head[i];
      } else if i > |head| {
        assert a[i] == rest[i - |head| - 1] && b[i] == rest[i - |head| - 1];
      }
    }
  }

  lemma ZerosSplit(k: nat)
    requires 1 <= k
    ensures Zeros(k) == [NUL] + Zeros(k - 1)
  {
  }

  /** Mode 2 on a line whose terminator is followed by `rest`. */
  lemma MappedCrLfAppends(line: seq<byte>, rest: seq<byte>)
    requires 1 <= |line|
    requires StrLen(line + [NUL] + rest) == |line|
    ensures Mapped(line + [NUL] + rest, 2) == line[..|line| - 1] + [CR, LF] + rest
  {
    var n := |line|;
    var head := line[..n - 1] + [CR];
    ReplaceLast(line, [NUL] + rest, CR);
    assert line + [NUL] + rest == line + ([NUL] + rest);
    assert line[..n - 1] + [CR] + ([NUL] + rest) == head + [NUL] + rest;
    ReplaceAfter(head, NUL, rest, LF);
    assert head + [LF] + rest == line[..n - 1] + [CR, LF] + rest;
  }

  lemma MappedCrLfTransmits(line: seq<byte>)
    requires 1 <= |line| <= BUFLEN - 2
    requires forall i :: 0 <= i < |line| ==> line[i] != NUL
    ensures StrLen(line + Zeros(BUFLEN - |line|)) == |line|
    ensures Mapped(line + Zeros(BUFLEN - |line|), 2) == Transmitted(line, 2) + Zeros(BUFLEN - |line| - 1)
  {
    var n := |line|;
    StrLenOfLine(line, BUFLEN - n);
    var rest := Zeros(BUFLEN - n - 1);
    ZerosSplit(BUFLEN - n);
    assert line + Zeros(BUFLEN - n) == line + [NUL] + rest;
    MappedCrLfAppends(line, rest);
  }

  /**
   * For a NUL-free line in the zeroed buffer, the mapped buffer is what
   * Transmitted describes followed by NULs, so write sends exactly that.
   */
  lemma MappedTransmits(line: seq<byte>, nlmap: int)
    requires 1 <= |line| <= BUFLEN - 1
    requires forall i :: 0 <= i < |line| ==> line[i] != NUL
    requires nlmap == 2 ==> |line| <= BUFLEN - 2
    ensures StrLen(line + Zeros(BUFLEN - |line|)) == |line|
    ensures var w := Transmitted(line, nlmap);
      && Mapped(line + Zeros(BUFLEN - |line|), nlmap) == w + Zeros(BUFLEN - |w|)
      && CString(Mapped(line + Zeros(BUFLEN - |line|), nlmap)) == w
  {
    StrLenOfLine(line, BUFLEN - |line|);
    var w := Transmitted(line, nlmap);
    if nlmap == 1 {
      MappedCrTransmits(line);
    } else if nlmap == 2 {
      MappedCrLfTransmits(line);
    }
    forall i | 0 <= i < |w|
      ensures w[i] != NUL
    {
      if i < |line| - 1 {
        assert w[i] == line[i];
      }
    }
    CStringOfLine(w);
  }

  /**
   * One stdin line through the loop body: memset, the line fgets read, the
   * mapping, then the strlen(buf) bytes handed to write.
   */
  method SendLine(buf: array<byte>, line: seq<byte>, nlmap: int) returns (wire: seq<byte>)
    requires buf.Length == BUFLEN
    requires 1 <= |line| <= BUFLEN - 1
    requires forall i :: 0 <= i < |line| ==> line[i] != NUL
    requires nlmap == 2 ==> |line| <= BUFLEN - 2
    modifies buf
    ensures wire == Transmitted(line, nlmap)
    ensures buf[..] == wire + Zeros(BUFLEN - |wire|)
  {
    forall i | 0 <= i < buf.Length {
      buf[i] := NUL;
    }
    forall i | 0 <= i < |line| {
      buf[i] := line[i];
    }
    assert buf[..] == line + Zeros(BUFLEN - |line|);
    MappedTransmits(line, nlmap);
    MapNewline(buf, nlmap);
    wire := buf[..StrLen(buf[..])];
  }

}
