# AuTerm scripting interpreter, modelled in Dafny

AuTerm's scripting window runs small line-oriented scripts against the
terminal's serial port. Each line starts with a command character:

- `>` sends the rest of the line;
- `<` waits until the rest of the line has been received;
- `~` pauses for the given number of milliseconds;
- `//` starts a comment.

This project models the three parts of `AuTerm/AutScripting.cpp` that hold
the interpreter's logic:

- **The compile checker** (`Syntax`). It checks every line of the editor and
  reports the bad line indices and a failure flag. `LineFlagged` follows the
  source's branches. `Malformed` states what a bad line is directly. A lemma
  shows the two agree, and `Compile` is specified through `Malformed`. Qt's
  `QString::toInt`/`toUInt` are modelled in `Numbers`, including whitespace
  trimming, the optional sign and the 32-bit range check. `Numbers` also has
  a decimal formatter as the parser's inverse.
- **The receive-buffer consumer** (`Matching`, and
  `Interpreter.CheckRecvMatchBuffers`). It finds the leftmost occurrence of
  the awaited bytes, which must start before the receive-size limit. It then
  drops everything up to and including that occurrence.
- **The run-state machine** (`Interpreter`, `InterpreterFacts`).
  - The window's fields are one immutable `Machine`: line cursor, running,
    waiting, receive and match buffers, bytes still to be written, repeat
    counter, last action, and whether the pause timer is armed.
  - The window's slots are the events of `Step`: start result, data
    received, bytes written, pause-timer expiry, stop, receive timeout, port
    closed, port error.
  - The side effects are `Output`s: bytes to send, arming the pause timer,
    and the "script finished" notification.
  - The widget values read during a run are `Settings`: repeat setting,
    maximum receive buffer, wait-for-write, and the pause button.
- **Line encoding** (`Utf8`). `QString::toUtf8` turns a line's text into
  bytes. It is modelled concretely, and a strict decoder is its inverse.

The source runs `AdvanceLine` as a loop. At the end of the script it calls
itself again to repeat. The model splits this into pieces:

- `ExecLine` is one iteration of the loop body.
- `Pass` runs the loop until it returns or runs out of lines.
- `EndOfScript` handles the repeat logic.

With repeat setting -1, a pass that reaches the end again from the restart
state makes the source recurse forever. The model reports this as
`Diverges`. `InterpreterFacts.EndlessRepeatNeverSettles` proves why: every
later pass repeats that pass's course and outputs.

Two behaviours of the source are kept as written:

- The bytes-written slot advances the cursor whenever wait-for-write is on
  and the remaining count drops to zero or below, whatever the last action
  was.
- Finishing a script does not stop an armed pause timer. When that timer
  later expires, the finished-script logic runs again.

## Model

| member | source | states |
|---|---|---|
| `Numbers.ToInt` | AuTerm/AutScripting.cpp:224-225 | toInt succeeds only with a value in the 32-bit int range |
| `Numbers.ToUInt` | AuTerm/AutScripting.cpp:473 | toUInt succeeds only with a value in 0..2^32-1 |
| `Numbers.ToIntFormat` | AuTerm/AutScripting.cpp:225 | every 32-bit integer written in decimal converts back to itself |
| `Numbers.ToIntAlphabet` | AuTerm/AutScripting.cpp:225 | text that converts holds only whitespace, a sign and digits |
| `Numbers.ToIntRejectsOverflow` | AuTerm/AutScripting.cpp:225-226 | decimal text of a value above 2^31-1 does not convert |
| `Numbers.DecimalRoundTrip` | AuTerm/AutScripting.cpp:225 | the digit parser inverts decimal formatting |
| `Numbers.TrimStart` | AuTerm/AutScripting.cpp:225 | what is left after skipping leading whitespace is no longer and does not start with whitespace |
| `Numbers.TrimEnd` | AuTerm/AutScripting.cpp:225 | what is left after skipping trailing whitespace is no longer and does not end with whitespace |
| `Numbers.TrimStartSuffix` | AuTerm/AutScripting.cpp:225 | skipping leading whitespace leaves a suffix of the text |
| `Numbers.TrimEndPrefix` | AuTerm/AutScripting.cpp:225 | skipping trailing whitespace leaves a prefix of the text |
| `Numbers.TrimStartDropsSpace` | AuTerm/AutScripting.cpp:225 | every character skipped at the front is whitespace |
| `Numbers.TrimEndDropsSpace` | AuTerm/AutScripting.cpp:225 | every character skipped at the back is whitespace |
| `Numbers.TrimKeepsBare` | AuTerm/AutScripting.cpp:225 | text that neither starts nor ends with whitespace is not trimmed |
| `Numbers.ParseSigned` | AuTerm/AutScripting.cpp:225 | a converted text is non-empty and negative only with a leading `-` |
| `Numbers.ParseSignedAlphabet` | AuTerm/AutScripting.cpp:225 | a converted text is digits, with at most one sign in front |
| `Numbers.DigitsParse` | AuTerm/AutScripting.cpp:225 | a run of digits is not trimmed and converts to its decimal value |
| `Numbers.ToUIntDecimal` | AuTerm/AutScripting.cpp:473 | every value in 0..2^32-1 written in decimal converts back to itself with toUInt |
| `Utf8.EncodeChar` | AuTerm/AutScripting.cpp:420 | each character becomes 1-4 bytes: a lead byte giving the length, then continuation bytes; 1 byte exactly for ASCII |
| `Utf8.Encode` | AuTerm/AutScripting.cpp:420 | toUtf8 yields between 1 and 4 bytes per character |
| `Utf8.DecodeEncode` | AuTerm/AutScripting.cpp:441 | toUtf8 loses nothing: strict UTF-8 decoding gives the line text back |
| `Utf8.DecodeEncodeChar` | AuTerm/AutScripting.cpp:441 | decoding one encoded character gives that character |
| `Utf8.EncodeAppend` | AuTerm/AutScripting.cpp:420 | encoding distributes over concatenation |
| `Utf8.EncodeAscii` | AuTerm/AutScripting.cpp:420 | ASCII text encodes to one byte per character, equal to its code |
| `Syntax.Remove` | AuTerm/AutScripting.cpp:239 | replace(c, "") removes every `c` and keeps every other character |
| `Syntax.StripBlanksEmpty` | AuTerm/AutScripting.cpp:239 | after tabs and spaces are removed, something is left iff the line has a character other than space or tab |
| `Syntax.LineFlaggedIffMalformed` | AuTerm/AutScripting.cpp:211-244 | a line is flagged iff it has length 1, or is a `~` line whose rest is not a positive int, or starts with no command and has a non-blank character |
| `Syntax.CompileFrom` | AuTerm/AutScripting.cpp:209-250 | the loop from line i flags exactly the malformed lines from i on, and fails iff it flagged one |
| `Syntax.Compile` | AuTerm/AutScripting.cpp:197-261 | bad lines are exactly the malformed line indices; failure iff at least one line is malformed |
| `Syntax.NeverFlagged` | AuTerm/AutScripting.cpp:211-244 | empty lines, blank lines of length ≥2, comments, and `>`/`<` lines of length ≥2 are never flagged |
| `Syntax.DelayLine` | AuTerm/AutScripting.cpp:221-237 | `~n` for a 32-bit n is flagged iff n <= 0 |
| `Syntax.DelayAcceptsHundred` | AuTerm/AutScripting.cpp:221-237 | `~100` passes |
| `Syntax.DelayRejectsZero` | AuTerm/AutScripting.cpp:232-237 | `~0` is flagged |
| `Syntax.DelayRejectsNegative` | AuTerm/AutScripting.cpp:232-237 | `~-5` is flagged |
| `Syntax.DelayRejectsText` | AuTerm/AutScripting.cpp:224-231 | a `~` line with any character besides whitespace, sign and digits is flagged |
| `Syntax.DelayRejectsWord` | AuTerm/AutScripting.cpp:224-231 | `~abc` is flagged |
| `Matching.IndexOfFrom` | AuTerm/AutScripting.cpp:576 | the result is the leftmost occurrence at or after the start, or -1 when none exists |
| `Matching.IndexOf` | AuTerm/AutScripting.cpp:576 | -1 iff the pattern occurs nowhere; otherwise the leftmost occurrence (the empty pattern at 0) |
| `Matching.Consume` | AuTerm/AutScripting.cpp:570-589 | succeeds iff the leftmost occurrence starts before the limit; it then leaves exactly the suffix after it, shorter by position plus pattern length; a buffer shorter than the pattern never matches |
| `Matching.ConsumeSplits` | AuTerm/AutScripting.cpp:581 | the buffer is the skipped prefix (shorter than the limit), the pattern and the remainder |
| `Matching.ConsumeEmptyPattern` | AuTerm/AutScripting.cpp:576-583 | an empty pattern matches at once and consumes nothing when the limit is positive |
| `Interpreter.CheckRecvMatchBuffers` | AuTerm/AutScripting.cpp:570-589 | on a match the receive buffer becomes the suffix after the leftmost occurrence and waiting ends; otherwise the machine is unchanged |
| `Interpreter.DelayOf` | AuTerm/AutScripting.cpp:473 | the pause handed to the timer lies in 0..2^32-1 |
| `Interpreter.DelayOfDecimal` | AuTerm/AutScripting.cpp:473 | `~` followed by the decimal text of n in 0..2^32-1 pauses for exactly n ms |
| `Interpreter.DelayOfNonNumeric` | AuTerm/AutScripting.cpp:473 | a `~` line whose text holds a character other than whitespace, a sign or a digit does not convert, and the pause is 0 |
| `Numbers.ParsedAlphabet` | AuTerm/AutScripting.cpp:225 | text that parses once trimmed holds only whitespace, signs and digits |
| `Numbers.ToUIntAlphabet` | AuTerm/AutScripting.cpp:473 | text that toUInt converts holds only whitespace, signs and digits |
| `Interpreter.DelayOfChecked` | AuTerm/AutScripting.cpp:221-237 | a `~` line that passes the checker pauses for 1..2^31-1 ms when run |
| `Interpreter.RunClicked` | AuTerm/AutScripting.cpp:263-274 | a start is requested iff the port is open and no line is malformed; the repeat counter is reset to 0 |
| `Interpreter.Begin` | AuTerm/AutScripting.cpp:797-807 | start resets the cursor to 0, running on, both buffers empty, waiting off |
| `Interpreter.Stop` | AuTerm/AutScripting.cpp:328-386 | stop while running gives running off, buffers empty, waiting off, timer stopped, one finished notification; otherwise a no-op |
| `Interpreter.Restart` | AuTerm/AutScripting.cpp:508-518 | a repeat restarts at line 0 with the counter incremented and buffers cleared |
| `Interpreter.Finish` | AuTerm/AutScripting.cpp:525-527 | a finished script is off with marker -1 and its counter kept |
| `Interpreter.ExecLine` | AuTerm/AutScripting.cpp:400-501 | one loop body moves the cursor by at most one line, never starts the script, does nothing when stopped or paused, and outputs only what a script line asks for |
| `Interpreter.Pass` | AuTerm/AutScripting.cpp:397-502 | the line loop never moves backwards or changes the counter; when it runs out of lines the running flag is unchanged |
| `Interpreter.EndOfScript` | AuTerm/AutScripting.cpp:504-553 | repeats while the setting is nonzero and -1 or above the counter, and then either raises the counter or diverges; with setting N>0 a finished script has counter N; when no repeat is due the script finishes at once with one notification; only -1 can diverge |
| `Interpreter.Advance` | AuTerm/AutScripting.cpp:388-554 | AdvanceLine keeps the cursor invariant, never decreases the counter, never starts the script, and outputs only what the script's lines ask for |
| `Interpreter.Step` | AuTerm/AutScripting.cpp:276-326 | every event preserves the cursor invariant and keeps the counter monotone; only a granted start sets running; outputs come from script lines. The Run handler is not one of these events: it is `RunClicked`, which resets the counter |
| `InterpreterFacts.StartResets` | AuTerm/AutScripting.cpp:794-826 | a refused start changes nothing; a granted one runs AdvanceLine from the reset state |
| `InterpreterFacts.DataOnlyWhileRunning` | AuTerm/AutScripting.cpp:313-326 | data is dropped while not running, and only appended while running and not waiting |
| `InterpreterFacts.StopIdempotent` | AuTerm/AutScripting.cpp:328-331 | a second stop is a no-op |
| `InterpreterFacts.ReceiveCompletesLine` | AuTerm/AutScripting.cpp:438-452 | for every repeat setting, data completing the awaited bytes moves the script past its `<` line, or at the end of the script finishes it, starts another pass with a higher counter, or diverges |
| `InterpreterFacts.RunDuringRunResetsCounter` | AuTerm/AutScripting.cpp:97-104 | Run during a run (its shortcut is never disabled) on a script that compiles resets the running script's repeat counter and keeps it running on the same line |
| `InterpreterFacts.ReceiveKeepsWaiting` | AuTerm/AutScripting.cpp:452-467 | data that does not complete the match is buffered and the script keeps waiting on the same line |
| `InterpreterFacts.ReceiveOverflowStops` | AuTerm/AutScripting.cpp:455-464 | a receive buffer above the limit without a match stops the script |
| `InterpreterFacts.ExecLineAlike` | AuTerm/AutScripting.cpp:413-491 | a line's effect depends only on the cursor, running flag and receive buffer |
| `InterpreterFacts.PassAlike` | AuTerm/AutScripting.cpp:397-502 | two passes from states alike in cursor, running and receive buffer end alike and output the same |
| `InterpreterFacts.EndlessRepeatNeverSettles` | AuTerm/AutScripting.cpp:505-523 | under setting -1, once a repeated pass reaches the end every later pass does too, with the same outputs |
| `InterpreterFacts.InertPassEnds` | AuTerm/AutScripting.cpp:481-494 | blank, comment and unknown lines are stepped over with no output |
| `InterpreterFacts.InertEndOfScript` | AuTerm/AutScripting.cpp:504-527 | with setting N ≥ 0 an inert script finishes with counter N and one finished notification |
| `InterpreterFacts.InertEndlessDiverges` | AuTerm/AutScripting.cpp:505-523 | with setting -1 an inert script never settles |
| `InterpreterFacts.InertRunCountsRepeats` | AuTerm/AutScripting.cpp:263-274 | run then start on an inert script ends off, at marker -1, with counter equal to the setting |
| `InterpreterFacts.PartialWriteWaits` | AuTerm/AutScripting.cpp:591-609 | written bytes are ignored unless running with wait-for-write; while bytes remain only the count drops |
| `InterpreterFacts.WrittenBytesAdvance` | AuTerm/AutScripting.cpp:591-609 | for every repeat setting, once the remaining count reaches zero the cursor moves past the current line, or at the end of the script the script finishes, starts another pass with a higher counter, or diverges |
| `InterpreterFacts.PauseTimerResumes` | AuTerm/AutScripting.cpp:51-52 | an unarmed pause timer never fires; an armed one fires once and resumes the line loop |
| `InterpreterFacts.WaitLineArmsTimer` | AuTerm/AutScripting.cpp:470-480 | a `~` line arms the pause timer with its delay, moves the cursor on and returns without sending |
| `InterpreterFacts.HiOkPayloads` | AuTerm/AutScripting.cpp:417-419 | the lines `>hi` and `<ok` carry the bytes "hi" and "ok" |
| `InterpreterFacts.HiOkStart` | AuTerm/AutScripting.cpp:413-452 | starting `>hi`, `<ok` sends "hi" and waits on the second line |
| `InterpreterFacts.HiOkPartial` | AuTerm/AutScripting.cpp:313-326 | receiving "o" alone buffers it and keeps waiting |
| `InterpreterFacts.HiOkComplete` | AuTerm/AutScripting.cpp:313-326 | receiving "k" after "o" consumes "ok" and finishes the script with one notification |
| `InterpreterFacts.PauseThenADelay` | AuTerm/AutScripting.cpp:473 | the line `~5` asks for 5 ms |
| `InterpreterFacts.PauseThenAFirstLine` | AuTerm/AutScripting.cpp:470-480 | the first line of `~5`, `>a` arms a 5 ms pause and returns |
| `InterpreterFacts.PauseThenAStart` | AuTerm/AutScripting.cpp:797-807 | starting `~5`, `>a` arms a 5 ms pause with the cursor on the second line |
| `InterpreterFacts.PauseThenAExpiry` | AuTerm/AutScripting.cpp:413-436 | the pause's expiry sends "a" and, with wait-for-write, waits for one byte to be written |
| `InterpreterFacts.PauseThenAWritten` | AuTerm/AutScripting.cpp:591-609 | writing that byte finishes the script with one notification |

## Left out

- The device-management protocol groups are not part of this model. `plugins/mcumgr/smp_group_img_mgmt.h` and `plugins/mcumgr/smp_group_shell_mgmt.h` only declare them: structs and method signatures, with no bodies to model.
- `plugins/logger/plugin_logger.cpp` and `AuTerm/AutPopup.cpp` are UI panels with no interpreter logic.
- Widget setup, fonts, menus, file load and save, editor colouring, line markers and button enabling are left out (AutScripting.cpp:34-195, 723-852). The shortcuts other than Refresh only reach file and help handlers. Refresh calls the Run handler (AutScripting.cpp:97, 104), which is `Interpreter.RunClicked`. Disabling the Run button (AutScripting.cpp:769) does not disable that shortcut, so Run can arrive while a script runs.
- Interpreter.RunClicked: the compile behind Run also sets the editor's execution marker to -1 (AutScripting.cpp:201). The model's single cursor stands for both the executing line and that marker, and it keeps only the executing line. So a Run during a run, which leaves the source's marker out of step with the executing line, is not modelled for the marker. Such a Run also resets the repeat counter to 0 (AutScripting.cpp:269), so a setting of N then gives more than N+1 passes in all; `InterpreterFacts.RunDuringRunResetsCounter` states the reset.
- Status-bar text, the progress percentage and the floating-point elapsed-time text are left out (`UpdateStatusBar` and AutScripting.cpp:360-376, 532-545). They are display only.
- The wall-clock receive timeout is the external event `ReceiveTimeout`. It stops the script when the last action was a receive. When it fires depends on real time and is not modelled.
- The pause toggle handler (AutScripting.cpp:611-657) is left out. The pause button's state is the `paused` setting that `AdvanceLine` reads.
- `AutEscape::escape_characters` is not part of this model. It is the function-valued setting `escape`.
- The UTF-16 length Qt decodes from a byte array (`QString(bytes).length()`) is the function-valued setting `textLength`.
- The script is given as its list of editor lines. Splitting the document into text blocks is not modelled.
- The status-update timer and the receive stopwatch only drive the status bar and the receive timeout, so they are not modelled.
- Numbers.ToInt: whitespace trimming covers the ASCII whitespace characters only. Qt's `QChar::isSpace` also skips other Unicode spaces around a number.
- Numbers.ToUInt: a leading `-` on zero (`-0`) converts to 0 here. Qt may refuse it. Either way the pause duration the source uses is 0.
- Interpreter.DelayOf: `QTimer::start` takes an `int`. Converting a `toUInt` value above 2^31-1 is not modelled, and the checker already rejects such lines.
- Utf8.Encode: Dafny strings hold Unicode scalar values. A QString's unpaired surrogates, and what `toUtf8` emits for them, are not modelled.
- Interpreter.EndOfScript: each repeat with setting N>0 nests one more `AdvanceLine` call in the source. The model treats that recursion as returning and does not model stack exhaustion for very large N. For setting -1 it reports `Diverges`.
- The source does not initialise the bytes-remaining count or the last action in its constructor. `Interpreter.Idle` uses 0 and "other line".
- Integer widths of the repeat counter and the bytes-remaining count are unbounded here. The source's `int` would overflow only after 2^31 repeats or bytes.
