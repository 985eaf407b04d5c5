/** Properties of the scripting run-state machine that relate several steps. */
module InterpreterFacts {
  import opened Basics
  import opened Syntax
  import opened Interpreter
  import Matching
  import Utf8

  // ---------------------------------------------------------------------
  // Single events
  // ---------------------------------------------------------------------

  /** A refused start request changes nothing; a granted one runs from the reset state. */
  lemma StartResets(lines: seq<seq<char>>, cfg: Settings, m: Machine)
    ensures Step(lines, cfg, m, StartResult(false)) == Settled(m, [])
    ensures Step(lines, cfg, m, StartResult(true)) == Advance(lines, cfg, Begin(m))
  {
  }

  /** Received bytes are kept only while running, and only a waiting script reacts to them. */
  lemma DataOnlyWhileRunning(lines: seq<seq<char>>, cfg: Settings, m: Machine, data: seq<byte>)
    ensures !m.running ==> Step(lines, cfg, m, DataReceived(data)) == Settled(m, [])
    ensures m.running && !m.waiting ==>
              Step(lines, cfg, m, DataReceived(data)) == Settled(m.(recvData := m.recvData + data), [])
  {
  }

  /** Stopping twice is stopping once. */
  lemma StopIdempotent(lines: seq<seq<char>>, cfg: Settings, m: Machine)
    ensures var s := Step(lines, cfg, m, StopClicked);
            Step(lines, cfg, s.m, StopClicked) == Settled(s.m, [])
  {
  }

  /**
   * Bytes that complete the awaited data move the script past its `<` line,
   * or, when the lines run out, finish the script or start another pass.
   */
  lemma ReceiveCompletesLine(lines: seq<seq<char>>, cfg: Settings, m: Machine, data: seq<byte>)
    requires m.running && m.waiting && !cfg.paused
    requires ValidLine(lines, m.line) && |lines[m.line]| > 0 && lines[m.line][0] == DataIn
    requires Matching.Consume(m.recvData + data, Payload(cfg, lines[m.line]), cfg.maxRecvBuf).Some?
    ensures var r := Step(lines, cfg, m, DataReceived(data));
            || r.Diverges?
            || r.m.line > m.line
            || (r.m.line == -1 && !r.m.running)
            || r.m.repeats > m.repeats
  {
    var m1 := m.(recvData := m.recvData + data);
    var s := ExecLine(lines, cfg, m1);
    assert s.advanced && s.m.line == m.line + 1;
    var p := Pass(lines, cfg, m1);
    assert p.m.line >= s.m.line;
  }

  /**
   * Run is not blocked while a script runs (its shortcut stays connected):
   * on a script that compiles it resets the repeat counter of the running
   * script and changes nothing else.
   */
  lemma RunDuringRunResetsCounter(lines: seq<seq<char>>, m: Machine)
    requires m.running && m.repeats > 0
    requires forall j :: 0 <= j < |lines| ==> !Malformed(lines[j])
    ensures var r := RunClicked(true, lines, m);
            r.Some? && r.value.running && r.value.repeats < m.repeats && r.value.line == m.line
  {
  }

  /** Bytes that do not complete the awaited data are buffered while there is room. */
  lemma ReceiveKeepsWaiting(lines: seq<seq<char>>, cfg: Settings, m: Machine, data: seq<byte>)
    requires m.running && m.waiting && !cfg.paused
    requires ValidLine(lines, m.line) && |lines[m.line]| > 0 && lines[m.line][0] == DataIn
    requires Matching.Consume(m.recvData + data, Payload(cfg, lines[m.line]), cfg.maxRecvBuf).None?
    requires |m.recvData + data| <= cfg.maxRecvBuf
    ensures Step(lines, cfg, m, DataReceived(data))
         == Settled(m.(recvData := m.recvData + data, matchData := Payload(cfg, lines[m.line]),
                       lastAct := AwaitedData), [])
  {
  }

  /** Overrunning the receive limit without a match stops the script. */
  lemma ReceiveOverflowStops(lines: seq<seq<char>>, cfg: Settings, m: Machine, data: seq<byte>)
    requires m.running && m.waiting && !cfg.paused
    requires ValidLine(lines, m.line) && |lines[m.line]| > 0 && lines[m.line][0] == DataIn
    requires Matching.Consume(m.recvData + data, Payload(cfg, lines[m.line]), cfg.maxRecvBuf).None?
    requires |m.recvData + data| > cfg.maxRecvBuf
    ensures var r := Step(lines, cfg, m, DataReceived(data));
            r.Settled? && !r.m.running && !r.m.waiting && r.m.recvData == [] && r.m.matchData == []
            && r.out == [ScriptFinished] && r.m.line == m.line
  {
  }

  /** Written bytes count down the remaining total only while running with wait-for-write on. */
  lemma PartialWriteWaits(lines: seq<seq<char>>, cfg: Settings, m: Machine, n: int)
    ensures !(m.running && cfg.waitForWrite) ==> Step(lines, cfg, m, BytesWritten(n)) == Settled(m, [])
    ensures m.running && cfg.waitForWrite && m.bytesRemain - n > 0 ==>
              Step(lines, cfg, m, BytesWritten(n)) == Settled(m.(bytesRemain := m.bytesRemain - n), [])
  {
  }

  /**
   * Once the remaining count reaches zero the script moves past the current
   * line, whatever that line is: the slot does not look at the last action.
   */
  lemma WrittenBytesAdvance(lines: seq<seq<char>>, cfg: Settings, m: Machine, n: int)
    requires m.running && cfg.waitForWrite && m.line >= 0
    requires m.bytesRemain - n <= 0
    ensures var r := Step(lines, cfg, m, BytesWritten(n));
            || r.Diverges?
            || r.m.line > m.line
            || (r.m.line == -1 && !r.m.running)
            || r.m.repeats > m.repeats
  {
    var m1 := m.(bytesRemain := m.bytesRemain - n, line := m.line + 1);
    var p := Pass(lines, cfg, m1);
    assert p.m.line >= m1.line;
  }

  /** A pause timer that is not armed never fires; an armed one resumes the line loop once. */
  lemma PauseTimerResumes(lines: seq<seq<char>>, cfg: Settings, m: Machine)
    ensures !m.timerArmed ==> Step(lines, cfg, m, PauseTimerExpired) == Settled(m, [])
    ensures m.timerArmed ==> Step(lines, cfg, m, PauseTimerExpired) == Advance(lines, cfg, m.(timerArmed := false))
  {
  }

  // ---------------------------------------------------------------------
  // Endless repetition
  // ---------------------------------------------------------------------

  /** The parts of the state a pass's course depends on. */
  predicate SameCourse(a: Machine, b: Machine) {
    a.line == b.line && a.running == b.running && a.recvData == b.recvData
  }

  lemma ExecLineAlike(lines: seq<seq<char>>, cfg: Settings, a: Machine, b: Machine)
    requires ValidLine(lines, a.line) && SameCourse(a, b)
    ensures ExecLine(lines, cfg, a).advanced == ExecLine(lines, cfg, b).advanced
    ensures ExecLine(lines, cfg, a).out == ExecLine(lines, cfg, b).out
    ensures SameCourse(ExecLine(lines, cfg, a).m, ExecLine(lines, cfg, b).m)
  {
    var text := lines[a.line];
    if a.running && !cfg.paused && |text| > 0 && text[0] == DataIn {
      var pat := Payload(cfg, text);
      var ca := CheckRecvMatchBuffers(a.(matchData := pat, lastAct := AwaitedData), cfg.maxRecvBuf);
      var cb := CheckRecvMatchBuffers(b.(matchData := pat, lastAct := AwaitedData), cfg.maxRecvBuf);
      assert ca.0 == cb.0 && ca.1.recvData == cb.1.recvData;
    }
  }

  /** Two passes from states of the same course send the same things and end alike. */
  lemma {:induction false} PassAlike(lines: seq<seq<char>>, cfg: Settings, a: Machine, b: Machine)
    requires SameCourse(a, b)
    ensures Pass(lines, cfg, a).ended == Pass(lines, cfg, b).ended
    ensures Pass(lines, cfg, a).out == Pass(lines, cfg, b).out
    ensures SameCourse(Pass(lines, cfg, a).m, Pass(lines, cfg, b).m)
    decreases |lines| - a.line
  {
    if ValidLine(lines, a.line) {
      ExecLineAlike(lines, cfg, a, b);
      var sa := ExecLine(lines, cfg, a);
      var sb := ExecLine(lines, cfg, b);
      if sa.advanced {
        PassAlike(lines, cfg, sa.m, sb.m);
      }
    }
  }

  /** The state after `k` further passes, each begun by a repeat. */
  function AfterPasses(lines: seq<seq<char>>, cfg: Settings, m: Machine, k: nat): Machine
    decreases k
  {
    if k == 0 then m else Pass(lines, cfg, Restart(AfterPasses(lines, cfg, m, k - 1))).m
  }

  /**
   * Why `EndOfScript` reports `Diverges`: once a repeated pass runs to the
   * end, every later repeated pass does too, with the same outputs, so the
   * window's repeat recursion never returns.
   */
  lemma {:induction false} EndlessRepeatNeverSettles(lines: seq<seq<char>>, cfg: Settings, m: Machine, k: nat)
    requires Pass(lines, cfg, Restart(m)).ended
    ensures AfterPasses(lines, cfg, m, k).running == m.running
    ensures Pass(lines, cfg, Restart(AfterPasses(lines, cfg, m, k))).ended
    ensures Pass(lines, cfg, Restart(AfterPasses(lines, cfg, m, k))).out == Pass(lines, cfg, Restart(m)).out
    decreases k
  {
    if k > 0 {
      EndlessRepeatNeverSettles(lines, cfg, m, k - 1);
      PassAlike(lines, cfg, Restart(m), Restart(AfterPasses(lines, cfg, m, k)));
    }
  }

  // ---------------------------------------------------------------------
  // Repeat counting
  // ---------------------------------------------------------------------

  /** Lines the runner steps over without any effect: blank lines, comments and unknown text. */
  predicate Inert(lines: seq<seq<char>>) {
    forall j :: 0 <= j < |lines| ==> lines[j] == [] || lines[j][0] !in [DataOut, DataIn, WaitTime]
  }

  lemma {:induction false} InertPassEnds(lines: seq<seq<char>>, cfg: Settings, m: Machine)
    requires Inert(lines) && !cfg.paused && m.running && m.line >= 0
    ensures Pass(lines, cfg, m).ended && Pass(lines, cfg, m).out == []
    decreases |lines| - m.line
  {
    if ValidLine(lines, m.line) {
      InertPassEnds(lines, cfg, ExecLine(lines, cfg, m).m);
    }
  }

  /** With a finite repeat setting, a script of inert lines runs to the end setting+1 times and finishes. */
  lemma {:induction false} InertEndOfScript(lines: seq<seq<char>>, cfg: Settings, m: Machine)
    requires Inert(lines) && !cfg.paused && cfg.repeat >= 0 && m.running && m.repeats <= cfg.repeat
    ensures var r := EndOfScript(lines, cfg, m, []);
            r.Settled? && r.out == [ScriptFinished] && r.m.repeats == cfg.repeat && r.m.line == -1 && !r.m.running
    decreases cfg.repeat - m.repeats
  {
    if Repeats(cfg, m.repeats) {
      InertPassEnds(lines, cfg, Restart(m));
      var p := Pass(lines, cfg, Restart(m));
      assert [] + p.out == [];
      InertEndOfScript(lines, cfg, p.m);
    }
  }

  /** Under the endless setting a script of inert lines never settles. */
  lemma InertEndlessDiverges(lines: seq<seq<char>>, cfg: Settings, m: Machine)
    requires Inert(lines) && !cfg.paused && cfg.repeat == -1 && m.running && m.line >= 0
    ensures EndOfScript(lines, cfg, m, []) == Diverges
  {
    InertPassEnds(lines, cfg, Restart(m));
  }

  /** Run then start on an inert script: the repeat counter ends equal to the setting. */
  lemma InertRunCountsRepeats(lines: seq<seq<char>>, cfg: Settings, m: Machine)
    requires Inert(lines) && !cfg.paused && cfg.repeat >= 0
    requires RunClicked(true, lines, m).Some?
    ensures var r := Step(lines, cfg, RunClicked(true, lines, m).value, StartResult(true));
            r.Settled? && r.out == [ScriptFinished] && r.m.repeats == cfg.repeat && r.m.line == -1 && !r.m.running
  {
    var m0 := Begin(RunClicked(true, lines, m).value);
    InertPassEnds(lines, cfg, m0);
    InertEndOfScript(lines, cfg, Pass(lines, cfg, m0).m);
  }

  // ---------------------------------------------------------------------
  // A complete run
  // ---------------------------------------------------------------------

  /** Settings with no escapes, a 1024-byte receive limit and no repeats. */
  const Plain: Settings := Settings(0, 1024, false, false, b => b, b => |b|)

  /** A script that sends "hi" and then waits for "ok". */
  const HiOk: seq<seq<char>> := [">hi", "<ok"]

  /** Waiting for "ok" after sending "hi", with nothing received yet. */
  const AwaitOk: Machine := Machine(1, true, true, [], [0x6F, 0x6B], 2, 0, AwaitedData, false)

  lemma HiOkPayloads()
    ensures Payload(Plain, HiOk[0]) == [0x68, 0x69]
    ensures Payload(Plain, HiOk[1]) == [0x6F, 0x6B]
  {
    assert HiOk[0][1..] == "hi";
    assert HiOk[1][1..] == "ok";
    assert Utf8.Encode("i") == [0x69];
    assert Utf8.Encode("k") == [0x6B];
  }

  /** Starting `>hi`, `<ok` sends "hi" and waits on the second line. */
  lemma HiOkStart()
    ensures Step(HiOk, Plain, Idle, StartResult(true)) == Settled(AwaitOk, [Send([0x68, 0x69])])
  {
    HiOkPayloads();
    var m0 := Begin(Idle);
    var e0 := ExecLine(HiOk, Plain, m0);
    var m1 := Machine(1, true, false, [], [], 2, 0, SentData, false);
    assert e0 == LineStep(m1, [Send([0x68, 0x69])], true);
    assert Matching.Consume([], [0x6F, 0x6B], 1024) == None;
    assert ExecLine(HiOk, Plain, m1) == LineStep(AwaitOk, [], false);
    assert Pass(HiOk, Plain, m1) == PassResult(AwaitOk, [], false);
  }

  /** An "o" alone does not complete "ok": it is buffered and the script keeps waiting. */
  lemma HiOkPartial()
    ensures Step(HiOk, Plain, AwaitOk, DataReceived([0x6F])) == Settled(AwaitOk.(recvData := [0x6F]), [])
  {
    HiOkPayloads();
    var m := AwaitOk.(recvData := [0x6F]);
    assert Matching.Consume([0x6F], [0x6F, 0x6B], 1024) == None;
    assert ExecLine(HiOk, Plain, m) == LineStep(m, [], false);
  }

  /** The "k" that completes "ok" consumes it and finishes the script. */
  lemma HiOkComplete()
    ensures Step(HiOk, Plain, AwaitOk.(recvData := [0x6F]), DataReceived([0x6B]))
         == Settled(Machine(-1, false, false, [], [0x6F, 0x6B], 2, 0, AwaitedData, false), [ScriptFinished])
  {
    HiOkPayloads();
    var m := AwaitOk.(recvData := [0x6F, 0x6B]);
    assert [0x6F] + [0x6B] == [0x6F, 0x6B];
    assert Matching.FirstOccurrence([0x6F, 0x6B], [0x6F, 0x6B], 0);
    assert Matching.Consume([0x6F, 0x6B], [0x6F, 0x6B], 1024) == Some([]);
    var done := m.(recvData := [], waiting := false, line := 2);
    assert ExecLine(HiOk, Plain, m) == LineStep(done, [], true);
    assert Pass(HiOk, Plain, m) == PassResult(done, [], true);
  }

  /** Plain settings with wait-for-write on. */
  const WaitWrite: Settings := Plain.(waitForWrite := true)

  /** A script that pauses 5 ms and then sends "a". */
  const PauseThenA: seq<seq<char>> := ["~5", ">a"]

  /** Paused on the first line, the cursor already on the second. */
  const Pausing: Machine := Machine(1, true, false, [], [], 0, 0, Waited, true)

  /** "a" sent, waiting for it to be written. */
  const Flushing: Machine := Machine(1, true, false, [], [], 1, 0, SentData, false)

  lemma PauseThenADelay()
    ensures DelayOf(PauseThenA[0]) == 5
  {
    assert Numbers.DigitChar(5) == '5';
    assert PauseThenA[0][1..] == Numbers.Decimal(5);
    Numbers.ToUIntDecimal(5);
  }

  /** A `~` line arms the pause timer, moves the cursor past itself and returns. */
  lemma WaitLineArmsTimer(lines: seq<seq<char>>, cfg: Settings, m: Machine)
    requires m.running && !cfg.paused && ValidLine(lines, m.line)
    requires |lines[m.line]| > 0 && lines[m.line][0] == WaitTime
    ensures ExecLine(lines, cfg, m)
         == LineStep(m.(timerArmed := true, line := m.line + 1, lastAct := Waited),
                     [ArmPauseTimer(DelayOf(lines[m.line]))], false)
  {
    var text := lines[m.line];
    assert text[0] != DataOut && text[0] != DataIn;
  }

  lemma PauseThenAFirstLine()
    ensures ExecLine(PauseThenA, WaitWrite, Begin(Idle)) == LineStep(Pausing, [ArmPauseTimer(5)], false)
  {
    PauseThenADelay();
    WaitLineArmsTimer(PauseThenA, WaitWrite, Begin(Idle));
  }

  /** Starting `~5`, `>a` arms a 5 ms pause. */
  lemma PauseThenAStart()
    ensures Step(PauseThenA, WaitWrite, Idle, StartResult(true)) == Settled(Pausing, [ArmPauseTimer(5)])
  {
    PauseThenAFirstLine();
  }

  /** The pause's expiry sends "a" and waits for it to be written. */
  lemma PauseThenAExpiry()
    ensures Step(PauseThenA, WaitWrite, Pausing, PauseTimerExpired) == Settled(Flushing, [Send([0x61])])
  {
    assert PauseThenA[1][1..] == "a";
    assert Utf8.Encode("a") == [0x61];
    assert ExecLine(PauseThenA, WaitWrite, Pausing.(timerArmed := false)) == LineStep(Flushing, [Send([0x61])], false);
  }

  /** Writing that byte finishes the script. */
  lemma PauseThenAWritten()
    ensures Step(PauseThenA, WaitWrite, Flushing, BytesWritten(1))
         == Settled(Machine(-1, false, false, [], [], 0, 0, SentData, false), [ScriptFinished])
  {
  }
}
