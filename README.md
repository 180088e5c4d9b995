# slush: a verified model of a UART terminal's decisions

slush relays bytes between the operator's terminal and a serial device. At
start-up it checks the requested speed and builds the line settings. It then
loops on `poll`, doing two things:

- it sends each standard-input line to the device, after newline mapping;
- it prints each device reply in one of four display modes: plain, annotated,
  debug (hex and printable) or trace (timestamped).

This project models the self-contained decisions inside that program. The
globals `annotate`, `debug` and `trace` become explicit arguments, and the
clock, `poll`, `fgets` and `read` become inputs.

Modules:

- `CText` (ctext.dfy): the C-library behaviour the program relies on.
  - `strlen` and `%s`.
  - `isprint` in the C locale (0x20..0x7E, with bytes from 0x80 up not
    printable).
  - The number formats `%02hhx`, `"%" PRId64` (decimal) and `%2d`, each with
    a reader that reads the output back.
  - The buffer size BUFLEN = 1024.
- `Baud` (baud.dfy): the bits-per-second switch of `main`, with speed symbols
  as an enumeration.
- `Termios` (termios.dfy): the record `open_serial` builds, following the
  POSIX General Terminal Interface.
  - Flag words are sets of named flags; `c_cc` is a map over the control
    characters.
  - A decoder reads a record back into the parameters it was built from.
- `NewlineMap` (nlmap.dfy): the `nlmap` block of `main`. It works on a
  1024-byte `array<bv8>`, and `SendLine` covers memset, fgets, mapping and
  write.
- `Render` (render.dfy): `debug_show_reply` and the printable loop it shares
  with the trace mode.
- `Trace` (trace.dfy): `timestamp` and the trace renderer.
  - The renderer's static counters are the fields of class `TraceClock`.
  - Value-level functions `Tick` and `Run` describe one call and a series of
    calls.
- `Reply` (reply.dfy): `read_reply`, meaning one read into a zeroed buffer,
  then one renderer chosen by priority debug > trace > annotate > plain.
- `Relay` (relay.dfy): the start-up gate before `open_serial`, the decision
  made by one pass of the poll loop, and the loop itself over a finite record
  of poll results.

Renderer output is a `string` with one character per byte written to
standard output. Each character's code is that byte's value.

Behaviour of the code worth knowing when reading the model:

- `read_reply` reports a failed `read` with `perror` and returns -1
  (slush.c:145-147). `main` ignores that result and the loop goes on
  (slush.c:303). `ReadReply` returns -1 with no output, and `Decide` does
  not look at that result.
- A failing `fgets` (an error as well as end of file) takes the same `break`
  as end of input, so the process exits with status 0 (slush.c:279-280,
  307). `Decide`'s `eof` flag stands for "fgets returned NULL".
- The usage text names a default device, `DEVICE` (slush.c:36, 175-177), but
  `main` never assigns it to `device` (slush.c:182, 211). `Configure` does not
  model the device path.
- When stdin reports an event other than POLLIN or POLLPRI (POLLHUP on a
  closed pipe, say), `fgets` is never called (slush.c:277). With nothing on
  the device either, the pass does nothing and the loop spins
  (`StdinHangupSpins`).

## Model

| member | source | states |
|---|---|---|
| CText.StrLen | slush.c:285-292 | strlen is the index of the first NUL (all bytes before it non-NUL, a NUL at it) or the whole length |
| CText.StrLenAppend | slush.c:285-292 | strlen of a concatenation is the first part's strlen if that part holds a NUL, else its length plus the second part's strlen |
| CText.StrLenUpdate | slush.c:285-289 | writing a non-NUL byte before the terminator leaves strlen unchanged |
| CText.CString | slush.c:155-157 | "%s" prints the longest NUL-free prefix of the buffer |
| CText.CStringOfPadded | slush.c:141-144 | bytes read into a zero-filled buffer with room to spare print as the bytes up to their own first NUL |
| CText.Shown | slush.c:96-97 | the character shown for a byte is always printable (' '..'~'); it is the byte itself when the byte is printable and '.' otherwise |
| CText.Printable | slush.c:95-98 | one character per byte, each in ' '..'~': the byte itself when it is in 0x20..0x7E, '.' otherwise |
| CText.HexPair | slush.c:92 | "%02hhx" of a byte is exactly two characters, each a lower-case hexadecimal digit |
| CText.HexPairRoundTrip | slush.c:92 | "%02hhx" output read back as hex gives the original byte |
| CText.Decimal | slush.c:130 | `"%" PRId64` output (decimal) of a non-negative value is at least one decimal digit, one digit exactly below 10, with no leading zero |
| CText.DecimalRoundTrip | slush.c:130 | `"%" PRId64` (decimal) output read back as decimal gives the original number |
| CText.Width2 | slush.c:155 | "%2d" is the decimal digits right-aligned with spaces in a field of width two |
| CText.Width2RoundTrip | slush.c:155 | a count below 100 takes exactly two columns and reads back as the count |
| Baud.SpeedOf | slush.c:225-256 | a speed symbol is chosen exactly for the nine supported rates, and its rate is the requested one; any other value (0 from a non-numeric atoi included) is refused |
| Baud.SpeedRoundTrip | slush.c:225-256 | each speed symbol is selected by the rate it stands for |
| Termios.OpenSerial | slush.c:52-80 | IGNPAR always set and ICRNL iff icrnl, nothing else in the input word; output word empty; speed, CS8, CLOCAL, CREAD set and CRTSCTS iff hwfc, nothing else in the control word; ICANON the only possible local flag, set iff neither debug nor trace; VTIME 10, VMIN 1, every other control character 0 |
| Termios.DescribeOpenSerial | slush.c:52-80 | decoding the settings gives back the requested speed, icrnl and hwfc, with canonical mode exactly when neither debug nor trace is set |
| NewlineMap.MappedCr | slush.c:284-286 | mode 1 turns byte n-1 into CR whatever it was; length, strlen and all other bytes are unchanged |
| NewlineMap.MappedCrLf | slush.c:287-289 | mode 2 turns byte n-1 into CR and byte n into LF; with byte n+1 still NUL the new strlen is n+1 and the string is the old prefix, CR, LF |
| NewlineMap.Mapped | slush.c:281-289 | the length never changes; mode 1 puts CR at strlen-1, mode 2 CR there and LF at strlen; the bytes before strlen-1 and after the last write are kept; any other mode leaves the buffer as it was |
| NewlineMap.MapNewline | slush.c:281-291 | the array after the switch equals the value-level mapping of the old array (unchanged for any mode other than 1 and 2), under the source's terminator and length conditions |
| NewlineMap.Transmitted | slush.c:284-292 | the bytes sent keep every byte of the line before its last; they are one longer than the line in mode 2 and the same length otherwise |
| NewlineMap.MappedTransmits | slush.c:278-292 | for a NUL-free line in the zeroed buffer, the mapped buffer is the transmitted bytes followed by NULs, so strlen stops exactly after them |
| NewlineMap.SendLine | slush.c:278-292 | after memset, the fgets line and the mapping, write receives the line (mode 0 or any other), the line with its last byte replaced by CR (mode 1), or by CR LF (mode 2); the rest of the buffer is NUL |
| Render.HexDump | slush.c:91-93 | the hex half has two characters per byte |
| Render.HexDumpDigits | slush.c:91-93 | every character of the hex half is a lower-case hexadecimal digit |
| Render.HexDumpRoundTrip | slush.c:91-93 | the hex half of the debug line decodes back to the bytes read |
| Render.DebugLine | slush.c:86-100 | a debug line over n bytes has 3n+3 characters and ends in a newline |
| Render.DebugLineHead | slush.c:86-100 | a debug line over n bytes has exactly 3n+3 characters; its first 2n are the hex half, which decodes back to the bytes |
| Render.DebugLineTail | slush.c:94-99 | after the hex half come two spaces, the printable rendering of the bytes in order, and a newline |
| Render.DebugLineHexAt | slush.c:91-93 | characters 2i and 2i+1 are the lower-case hex pair of byte i |
| Render.DebugLineShownAt | slush.c:95-98 | character 2n+2+i is byte i when it is in 0x20..0x7E, otherwise '.' |
| Render.DebugExample | slush.c:86-100 | bytes 0x41 0x00 0x7e render as "41007e  A.~" and a newline |
| Render.ShowPrintable | slush.c:95-98 | the loop's output is the printable rendering of the first len bytes |
| Render.DebugShowReply | slush.c:86-100 | the two loops and the separators produce exactly the debug line of the first len bytes |
| Trace.Timestamp | slush.c:102-112 | the millisecond value is the clock reading in nanoseconds divided by 10^6, rounded down, that is sec*1000 + nsec div 10^6 |
| Trace.TimestampMonotone | slush.c:107-109 | a later clock reading never gives a smaller timestamp |
| Trace.Tick | slush.c:121-128 | lastts becomes the new reading; the diff is 0 on the first call (lastts 0) and otherwise the time since lastts; the total grows by exactly the diff |
| Trace.Run | slush.c:114-128 | a series of calls prints one diff per call and leaves lastts at the last reading |
| Trace.RunTotal | slush.c:116-128 | over any monotone series of calls, the total never decreases and always equals its start plus the sum of the diffs printed |
| Trace.RunFromStart | slush.c:116-128 | from zeroed statics and a non-zero first reading, the first diff is 0 and the total becomes the last reading minus the first |
| Trace.TraceLine | slush.c:130-136 | the line starts with the total in decimal, then a space, the diff in decimal and a space, and ends with the printable rendering of the bytes and a newline; its length is the two numbers' widths plus one per byte plus three |
| Trace.TraceClock.constructor | slush.c:116 | the statics start at zero, with no diffs printed yet |
| Trace.TraceClock.ShowReply | slush.c:114-137 | the counters advance as one Tick (diff 0 and total kept when lastts is 0, otherwise diff = now - lastts added to total; lastts := now), the total never decreases, the sum invariant holds, and the output is total, diff and the printable bytes |
| Reply.Choose | slush.c:150-158 | debug wins; trace is chosen when debug is off; annotate when both are off; plain only when all three are off |
| Reply.RawLineForByteRenderers | slush.c:75-77 | the renderer is debug or trace exactly when the line settings have canonical mode off |
| Reply.AnnotatedLine | slush.c:155 | the annotated line starts with "read ", ends with "}" and a newline, and is 15 characters longer than the count field and the text together |
| Reply.AnnotatedLayout | slush.c:155 | for a reply of any length the line is "read ", the count field, " bytes {", the text up to the first NUL, "}" and a newline, at the positions the count field's width gives |
| Reply.AnnotatedCount | slush.c:155 | below 100 bytes the count field is exactly two columns and reads back as the count |
| Reply.Receive | slush.c:141-144 | the buffer read into is fresh, holds the bytes delivered, and is NUL for the rest of its 1024 bytes |
| Reply.ReadReply | slush.c:139-162 | a failed read returns -1, prints nothing and leaves the trace counters alone; otherwise exactly one renderer runs, by priority debug > trace > annotate > plain; plain and annotated output stop at the first NUL, and the status is 0 |
| Relay.Configure | slush.c:225-261 | no settings are produced, and the device is never opened, exactly when bps is not a supported rate |
| Relay.Refusal | slush.c:225-258 | main stops before the loop exactly when no settings are produced, and then its status is -1 |
| Relay.ConfigureSpeed | slush.c:183-258 | accepted settings carry the speed whose rate is bps, and the default 115200 is accepted |
| Relay.Decide | slush.c:267-304 | checks run in order (poll failure, timeout, stdin end of input, POLLERR, POLLHUP, device read); a line is sent iff stdin is readable and fgets returns data; the device is read only when no earlier check stopped the loop; POLLERR wins over POLLHUP; the loop goes round again exactly when poll succeeded, fgets did not end the input, and neither POLLERR nor POLLHUP is set |
| Relay.StdinHangupSpins | slush.c:267-305 | a pass where stdin has only events other than POLLIN/POLLPRI and the device none that the loop checks neither sends, reads nor stops |
| Relay.ExitStatus | slush.c:254-307 | status 0 exactly for end of input, -1 for every fault, a refused rate included |
| Relay.Loop | slush.c:267-305 | the loop stops at the first pass that stops, returning that pass's reason; every earlier pass continued; if the record runs out, no pass stopped |
| Relay.CleanExitOnlyAtEndOfInput | slush.c:279-280 | a stopping pass gives status 0 exactly when poll succeeded and fgets found nothing on a readable stdin |

## Left out

- `open`, `tcflush` and `tcsetattr` are foreign system calls. Only the settings record handed to them is modelled, and a failed `open` is not modelled.
- `poll`, `fgets`, `read`, `write` and `fflush` are raw I/O. Their results are parameters: a poll result, the line fgets returned, a `ReadResult`.
- `clock_gettime` is an external clock. Its reading is the parameter `now`, or `(sec, nsec)` for `Timestamp`.
- `getopt` option parsing and the `usage` text are command-line glue. `atoi` is not modelled: `bps` and `nlmap` are the integers it returned.
- stdio buffering is not modelled. Output is the exact character sequence that `printf` produces.
- `Relay.Loop` works over a finite record of poll results and only decides when to stop. It does not connect each pass to `SendLine` or `ReadReply`.
- The uninitialised `device` pointer when `-p` is absent is a source defect and is not modelled.
- `NewlineMap.MapNewline` requires a terminator in the buffer, and a line length of at least 1 in modes 1 and 2. A zero-length line indexes `buf[-1]`, which is a source defect.
- `NewlineMap.MapNewline` requires a length of at most BUFLEN-2 in mode 2. With 1023 bytes the LF overwrites the last NUL, which is a source defect.
- `Reply.ReadReply` requires a reply shorter than BUFLEN for the plain and annotated renderers. A full 1024-byte read leaves `reply` without a NUL for `%s`, which is a source defect.
- `CText.IsPrint` treats bytes from 0x80 up as non-printable. The source passes a possibly negative `char` to `isprint`, which is a source defect.
- `NewlineMap.SendLine` requires a line without NUL bytes. With an embedded NUL, strlen stops early, and in mode 2 the LF then replaces that NUL and exposes the bytes after it.
- `NewlineMap.MappedTransmits` requires a line without NUL bytes, for the same reason as `SendLine`.
- `NewlineMap.Transmitted` gives the bytes sent only for a line without NUL bytes. For a line with one, the source sends the bytes up to the first NUL, mapped, and in mode 2 also the bytes after that NUL up to the next one, because the LF is written over it.
- `Trace.TraceClock.ShowReply`: `uint64_t` wrap-around of `now - lastts` and of `total` is not modelled. The counters are unbounded naturals, and the method requires `lastts <= now`, which a monotonic clock guarantees.
- `Trace.TraceClock.ShowReply`: `PRId64` printing of values at or above 2^63, as negative numbers, is not modelled.
- `Trace.Timestamp`: the 64-bit overflow of `tv_sec * 1000000000` is not modelled, because it would take an uptime of centuries. Seconds and nanoseconds are unbounded naturals.
- `Trace.RunFromStart` requires a non-zero first reading. A first reading of exactly 0 ms would leave `lastts` at 0, so the next call would also count as the first. The model handles that case as the source does, but the lemma does not cover it.
