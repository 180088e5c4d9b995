/**
 * The C-library view of bytes that the terminal relies on: NUL-terminated
 * strings (strlen and "%s"), the character class isprint in the C locale,
 * and the number formats "%02hhx", `"%" PRId64` and "%2d". Everything the terminal
 * prints is modelled as a string whose characters have codes 0..255, one
 * character per byte written to standard output.
 */
module CText {

  type byte = bv8

  const NUL: byte := 0x00

  /** The size of the terminal's line buffer and reply buffer. */
  const BUFLEN: nat := 1024

  /** strlen: the number of bytes before the first NUL, or the whole sequence when it holds none. */
  function StrLen(s: seq<byte>): (n: nat)
    ensures n <= |s|
    ensures forall i :: 0 <= i < n ==> s[i] != NUL
    ensures n < |s| ==> s[n] == NUL
  {
    if s == [] || s[0] == NUL then 0 else 1 + StrLen(s[1..])
  }

  /** strlen is fixed by the two facts above: no NUL before it, a NUL (or the end) at it. */
  lemma StrLenUnique(s: seq<byte>, k: nat)
    requires k <= |s|
    requires forall i :: 0 <= i < k ==> s[i] != NUL
    requires k < |s| ==> s[k] == NUL
    ensures StrLen(s) == k
  {
  }

  /** strlen over a concatenation: the first part's length if it holds a NUL, else the sum. */
  lemma {:induction false} StrLenAppend(a: seq<byte>, b: seq<byte>)
    ensures StrLen(a + b) == if StrLen(a) < |a| then StrLen(a) else |a| + StrLen(b)
  {
    if a == [] {
      assert a + b == b;
    } else if a[0] != NUL {
      assert (a + b)[1..] == a[1..] + b;
      StrLenAppend(a[1..], b);
    }
  }

  /** Writing a non-NUL byte before the terminator leaves strlen where it was. */
  lemma StrLenUpdate(s: seq<byte>, i: nat, v: byte)
    requires i < StrLen(s)
    requires v != NUL
    ensures StrLen(s[i := v]) == StrLen(s)
  {
    StrLenUnique(s[i := v], StrLen(s));
  }

  /** The bytes "%s" prints from a buffer: the longest prefix that holds no NUL. */
  function CString(s: seq<byte>): (t: seq<byte>)
    ensures t <= s
    ensures forall i :: 0 <= i < |t| ==> t[i] != NUL
    ensures |t| < |s| ==> s[|t|] == NUL
  {
    s[..StrLen(s)]
  }

  /** `k` NUL bytes, as left by memset or by a zero initialiser. */
  function Zeros(k: nat): (z: seq<byte>)
    ensures |z| == k
    ensures forall i :: 0 <= i < k ==> z[i] == NUL
  {
    seq(k, _ => NUL)
  }

  /** Bytes read into a zero-filled buffer that has room to spare print as if the buffer ended there. */
  lemma CStringOfPadded(data: seq<byte>, k: nat)
    requires 0 < k
    ensures CString(data + Zeros(k)) == CString(data)
  {
    StrLenAppend(data, Zeros(k));
    assert (data + Zeros(k))[..StrLen(data)] == data[..StrLen(data)];
  }

  /** A byte as the character of the same code. */
  function Char(b: byte): char
  {
    (b as int) as char
  }

  /** Bytes as characters, one for one. */
  function Chars(s: seq<byte>): string
  {
    seq(|s|, i requires 0 <= i < |s| => Char(s[i]))
  }

  /** isprint in the C locale: 0x20 through 0x7E. Bytes from 0x80 up count as non-printable. */
  predicate IsPrint(b: byte)
  {
    0x20 <= b <= 0x7E
  }

  /** `isprint(c) ? c : '.'`: the byte itself when printable, a dot otherwise. */
  function Shown(b: byte): (c: char)
    ensures ' ' <= c <= '~'
    ensures IsPrint(b) ==> c as int == b as int
    ensures !IsPrint(b) ==> c == '.'
  {
    if IsPrint(b) then Char(b) else '.'
  }

  /** The printable rendering of a run of bytes, used by both byte-level display modes. */
  function Printable(s: seq<byte>): (t: string)
    ensures |t| == |s|
    ensures forall i :: 0 <= i < |s| ==> ' ' <= t[i] <= '~'
    ensures forall i :: 0 <= i < |s| && IsPrint(s[i]) ==> t[i] as int == s[i] as int
    ensures forall i :: 0 <= i < |s| && !IsPrint(s[i]) ==> t[i] == '.'
  {
    seq(|s|, i requires 0 <= i < |s| => Shown(s[i]))
  }

  /** A lower-case hexadecimal digit. */
  function HexDigit(d: nat): (c: char)
    requires d < 16
    ensures '0' <= c <= '9' || 'a' <= c <= 'f'
  {
    if d < 10 then ('0' as int + d) as char else ('a' as int + d - 10) as char
  }

  /** The value of a hexadecimal digit (0 for anything else). */
  function HexDigitValue(c: char): (d: nat)
    ensures d < 16
  {
    if '0' <= c <= '9' then c as int - '0' as int
    else if 'a' <= c <= 'f' then c as int - 'a' as int + 10
    else 0
  }

  /** "%02hhx": two lower-case hex digits, high nibble first. */
  function HexPair(b: byte): (r: string)
    ensures |r| == 2
    ensures '0' <= r[0] <= '9' || 'a' <= r[0] <= 'f'
    ensures '0' <= r[1] <= '9' || 'a' <= r[1] <= 'f'
  {
    [HexDigit(b as int / 16), HexDigit(b as int % 16)]
  }

  /** Reads a byte back from two hex digits. */
  function ParseHexPair(r: string): byte
    requires |r| == 2
  {
    (HexDigitValue(r[0]) * 16 + HexDigitValue(r[1])) as byte
  }

  /** Each hex digit reads back as the value it was written for. */
  lemma HexDigitRoundTrip(d: nat)
    requires d < 16
    ensures HexDigitValue(HexDigit(d)) == d
  {
  }

  /** The two digits of a value below 256 read back as that value. */
  lemma HexPairValue(x: int)
    requires 0 <= x < 256
    ensures HexDigitValue(HexDigit(x / 16)) * 16 + HexDigitValue(HexDigit(x % 16)) == x
  {
    assert x / 16 * 16 + x % 16 == x && x / 16 < 16;
    HexDigitRoundTrip(x / 16);
    HexDigitRoundTrip(x % 16);
  }

  lemma ByteOfInt(b: byte, x: int)
    requires x == b as int
    ensures x as byte == b
  {
  }

  lemma HexPairRoundTrip(b: byte)
    ensures ParseHexPair(HexPair(b)) == b
  {
    var x := b as int;
    HexPairValue(x);
    ByteOfInt(b, x);
  }

  /** A decimal digit. */
  function DigitChar(d: nat): (c: char)
    requires d < 10
  {
    ('0' as int + d) as char
  }

  /**
   * `"%" PRId64` (and the digits of "%2d") of a non-negative number: its
   * decimal digits, most significant first, no leading zero.
   */
  function Decimal(n: nat): (r: string)
    ensures 1 <= |r|
    ensures forall i :: 0 <= i < |r| ==> '0' <= r[i] <= '9'
    ensures (|r| == 1) == (n < 10)
    ensures r[0] == '0' ==> n == 0
  {
    if n < 10 then [DigitChar(n)] else Decimal(n / 10) + [DigitChar(n % 10)]
  }

  /** The number a run of decimal digits stands for. */
  function DecimalValue(s: string): nat
  {
    if s == [] then 0
    else
      var d := s[|s| - 1] as int - '0' as int;
      DecimalValue(s[..|s| - 1]) * 10 + (if 0 <= d then d else 0)
  }

  lemma {:induction false} DecimalRoundTrip(n: nat)
    ensures DecimalValue(Decimal(n)) == n
  {
    if n >= 10 {
      var r := Decimal(n);
      assert r[..|r| - 1] == Decimal(n / 10);
      DecimalRoundTrip(n / 10);
    }
  }

  /** "%2d" of a non-negative count: its decimal digits right-aligned with spaces in a field of two. */
  function Width2(n: nat): (r: string)
    ensures |r| == if n < 10 then 2 else |Decimal(n)|
    ensures r[|r| - |Decimal(n)|..] == Decimal(n)
    ensures forall i :: 0 <= i < |r| - |Decimal(n)| ==> r[i] == ' '
  {
    if n < 10 then " " + Decimal(n) else Decimal(n)
  }

  /** A count below 100 printed with "%2d" fills exactly two columns and reads back as the count. */
  lemma Width2RoundTrip(n: nat)
    requires n < 100
    ensures var w := Width2(n);
      && |w| == 2
      && DecimalValue(if w[0] == ' ' then w[1..] else w) == n
  {
    DecimalRoundTrip(n);
    var w := Width2(n);
    if n < 10 {
      assert w[1..] == Decimal(n);
    } else {
      assert |Decimal(n / 10)| == 1;
    }
  }

}
