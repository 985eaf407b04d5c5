/**
 * The scripting window's run-state machine. The window's fields become an
 * immutable `Machine`, its slots become events handled by `Step`, and the
 * side effects it triggers (bytes handed to the terminal, the pause timer,
 * the "script finished" notification) become `Output`s. Widget values read
 * while running are the `Settings` passed to every step.
 */
module Interpreter {
  import opened Basics
  import opened Numbers
  import opened Syntax
  import Utf8
  import Matching

  /** What the most recently executed line did. */
  datatype LastAction = SentData | AwaitedData | Waited | OtherLine

  /**
   * Window state read while a script runs. `escape` stands for
   * AutEscape::escape_characters and `textLength` for the length of the
   * text Qt decodes from a byte array; neither is part of this model.
   */
  datatype Settings = Settings(
    repeat: int,
    maxRecvBuf: int,
    waitForWrite: bool,
    paused: bool,
    escape: seq<byte> -> seq<byte>,
    textLength: seq<byte> -> int)

  /**
   * `line` is the executing line's index; it also stands for the editor's
   * execution marker, which the source keeps in step with it except after
   * a compile during a run. The line exists exactly when
   * 0 <= line < |lines|, and -1 marks a finished script.
   */
  datatype Machine = Machine(
    line: int,
    running: bool,
    waiting: bool,
    recvData: seq<byte>,
    matchData: seq<byte>,
    bytesRemain: int,
    repeats: nat,
    lastAct: LastAction,
    timerArmed: bool)

  datatype Output = Send(data: seq<byte>) | ArmPauseTimer(ms: int) | ScriptFinished

  /** `Diverges`: the window would re-enter its line loop forever. */
  datatype Outcome = Settled(m: Machine, out: seq<Output>) | Diverges

  datatype Event =
    | StartResult(ok: bool)
    | DataReceived(data: seq<byte>)
    | BytesWritten(n: int)
    | PauseTimerExpired
    | StopClicked
    | ReceiveTimeout
    | PortClosed
    | PortError

  const Idle: Machine := Machine(-1, false, false, [], [], 0, 0, OtherLine, false)

  predicate ValidLine(lines: seq<seq<char>>, line: int) {
    0 <= line < |lines|
  }

  /** The bytes a `>` or `<` line stands for: its text after the command, UTF-8 encoded and unescaped. */
  function Payload(cfg: Settings, text: seq<char>): seq<byte>
    requires |text| > 0
  {
    cfg.escape(Utf8.Encode(text[1..]))
  }

  /** The pause a `~` line asks for; text that does not convert gives 0. */
  function DelayOf(text: seq<char>): (ms: int)
    requires |text| > 0
    ensures 0 <= ms <= UIntMax
  {
    ToUInt(text[1..]).GetOr(0)
  }

  /** A `~` line followed by the decimal text of an unsigned 32-bit value pauses for that many ms. */
  lemma DelayOfDecimal(n: nat)
    requires n <= UIntMax
    ensures DelayOf([WaitTime] + Decimal(n)) == n
  {
    assert ([WaitTime] + Decimal(n))[1..] == Decimal(n);
    ToUIntDecimal(n);
  }

  /** A `~` line whose text holds anything but whitespace, a sign and digits pauses for 0 ms. */
  lemma DelayOfNonNumeric(text: seq<char>, i: int)
    requires |text| > 0 && 1 <= i < |text|
    requires !IsDigit(text[i]) && !IsSpace(text[i]) && text[i] !in "+-"
    ensures DelayOf(text) == 0
  {
    var t := text[1..];
    assert t[i - 1] == text[i];
    if ToUInt(t).Some? {
      ToUIntAlphabet(t, i - 1);
    }
  }

  /** A `~` line that passes the checker pauses for a positive time that fits an int. */
  lemma DelayOfChecked(text: seq<char>)
    requires |text| > 0 && text[0] == WaitTime && !LineFlagged(text)
    ensures 0 < DelayOf(text) <= IntMax
  {
  }

  /** Every output names a line of the script it came from. */
  predicate FromScript(lines: seq<seq<char>>, cfg: Settings, o: Output) {
    match o
    case Send(d) =>
      exists j :: 0 <= j < |lines| && |lines[j]| > 0 && lines[j][0] == DataOut && d == Payload(cfg, lines[j])
    case ArmPauseTimer(ms) =>
      exists j :: 0 <= j < |lines| && |lines[j]| > 0 && lines[j][0] == WaitTime && ms == DelayOf(lines[j])
    case ScriptFinished => true
  }

  predicate AllFromScript(lines: seq<seq<char>>, cfg: Settings, out: seq<Output>) {
    forall k :: 0 <= k < |out| ==> FromScript(lines, cfg, out[k])
  }

  /** The line marker is -1 or a line index, and a running script is on a line index. */
  predicate Inv(m: Machine) {
    m.line >= -1 && (m.running ==> m.line >= 0)
  }

  // ---------------------------------------------------------------------
  // Starting, stopping, restarting
  // ---------------------------------------------------------------------

  /** The run button: a start is requested only with the port open and a script that compiles. */
  function RunClicked(portOpen: bool, lines: seq<seq<char>>, m: Machine): (r: Option<Machine>)
    ensures r.Some? <==> portOpen && forall j :: 0 <= j < |lines| ==> !Malformed(lines[j])
    ensures r.Some? ==> r.value.repeats == 0 && r.value.(repeats := m.repeats) == m
  {
    if portOpen && !Compile(lines).failed then Some(m.(repeats := 0)) else None
  }

  /** The state a granted start request sets up before the first line runs. */
  function Begin(m: Machine): (r: Machine)
    ensures r.line == 0 && r.running && !r.waiting && r.recvData == [] && r.matchData == []
    ensures r.repeats == m.repeats && r.bytesRemain == m.bytesRemain && r.timerArmed == m.timerArmed
  {
    m.(line := 0, running := true, recvData := [], matchData := [], waiting := false)
  }

  /** The stop button: a running script stops with cleared buffers; otherwise nothing happens. */
  function Stop(m: Machine): (r: Outcome)
    ensures r.Settled?
    ensures m.running ==> r.out == [ScriptFinished] && !r.m.running && !r.m.waiting && !r.m.timerArmed
                          && r.m.recvData == [] && r.m.matchData == []
                          && r.m.line == m.line && r.m.repeats == m.repeats
    ensures !m.running ==> r == Settled(m, [])
  {
    if m.running then
      Settled(m.(running := false, timerArmed := false, recvData := [], matchData := [], waiting := false),
              [ScriptFinished])
    else Settled(m, [])
  }

  /** Whether the end of the script starts another pass, given the passes already repeated. */
  predicate Repeats(cfg: Settings, count: nat) {
    cfg.repeat != 0 && (cfg.repeat == -1 || count < cfg.repeat)
  }

  /** The state a repeat starts its pass from. */
  function Restart(m: Machine): (r: Machine)
    ensures r.line == 0 && r.repeats == m.repeats + 1 && r.recvData == [] && r.matchData == [] && !r.waiting
    ensures r.running == m.running
  {
    m.(line := 0, repeats := m.repeats + 1, recvData := [], matchData := [], waiting := false)
  }

  /** The state a script that ran out of lines and repeats is left in. */
  function Finish(m: Machine): (r: Machine)
    ensures r.line == -1 && !r.running && r.repeats == m.repeats
  {
    m.(line := -1, running := false)
  }

  // ---------------------------------------------------------------------
  // Executing lines
  // ---------------------------------------------------------------------

  /**
   * The receive check of a `<` line: on a match within the size limit the
   * buffer keeps only what follows the leftmost match and waiting ends;
   * otherwise nothing changes.
   */
  function CheckRecvMatchBuffers(m: Machine, maxBuf: int): (r: (bool, Machine))
    ensures |m.recvData| < |m.matchData| ==> r == (false, m)
    ensures !r.0 ==> r.1 == m
    ensures r.0 <==> exists pos :: Matching.FirstOccurrence(m.recvData, m.matchData, pos) && pos < maxBuf
    ensures forall pos :: Matching.FirstOccurrence(m.recvData, m.matchData, pos) && pos < maxBuf ==>
              && r.1 == m.(recvData := m.recvData[pos + |m.matchData|..], waiting := false)
              && |r.1.recvData| == |m.recvData| - pos - |m.matchData|
  {
    match Matching.Consume(m.recvData, m.matchData, maxBuf)
    case Some(rest) => (true, m.(recvData := rest, waiting := false))
    case None => (false, m)
  }

  /** One execution of the line loop's body; `advanced` when the loop goes on to the next line. */
  datatype LineStep = LineStep(m: Machine, out: seq<Output>, advanced: bool)

  function ExecLine(lines: seq<seq<char>>, cfg: Settings, m: Machine): (r: LineStep)
    requires ValidLine(lines, m.line)
    ensures r.m.repeats == m.repeats && m.line <= r.m.line <= m.line + 1
    ensures r.advanced ==> r.m.line == m.line + 1 && r.m.running == m.running
    ensures r.m.running ==> m.running
    ensures !m.running || cfg.paused ==> r == LineStep(m, [], false)
    ensures AllFromScript(lines, cfg, r.out)
  {
    var text := lines[m.line];
    if !m.running || cfg.paused then LineStep(m, [], false)
    else if |text| > 0 && text[0] == DataOut then
      var data := Payload(cfg, text);
      var m1 := m.(recvData := [], bytesRemain := cfg.textLength(data), lastAct := SentData);
      if cfg.waitForWrite then LineStep(m1, [Send(data)], false)
      else LineStep(m1.(line := m.line + 1), [Send(data)], true)
    else if |text| > 0 && text[0] == DataIn then
      var m1 := m.(matchData := Payload(cfg, text), lastAct := AwaitedData);
      var (matched, m2) := CheckRecvMatchBuffers(m1, cfg.maxRecvBuf);
      if matched then LineStep(m2.(line := m.line + 1), [], true)
      else if |m1.recvData| > cfg.maxRecvBuf then
        var s := Stop(m1);
        LineStep(s.m, s.out, false)
      else LineStep(m1.(waiting := true), [], false)
    else if |text| > 0 && text[0] == WaitTime then
      LineStep(m.(timerArmed := true, line := m.line + 1, lastAct := Waited),
               [ArmPauseTimer(DelayOf(text))], false)
    else
      LineStep(m.(lastAct := OtherLine, line := m.line + 1), [], true)
  }

  /** The line loop up to the point where it returns or runs out of lines. */
  datatype PassResult = PassResult(m: Machine, out: seq<Output>, ended: bool)

  function Pass(lines: seq<seq<char>>, cfg: Settings, m: Machine): (r: PassResult)
    ensures r.m.repeats == m.repeats && m.line <= r.m.line
    ensures r.ended ==> !ValidLine(lines, r.m.line) && r.m.running == m.running
    ensures r.m.running ==> m.running
    ensures !ValidLine(lines, m.line) ==> r == PassResult(m, [], true)
    ensures AllFromScript(lines, cfg, r.out)
    decreases |lines| - m.line
  {
    if !ValidLine(lines, m.line) then PassResult(m, [], true)
    else
      var s := ExecLine(lines, cfg, m);
      if s.advanced then
        var rest := Pass(lines, cfg, s.m);
        PassResult(rest.m, s.out + rest.out, rest.ended)
      else PassResult(s.m, s.out, false)
  }

  /**
   * What happens when the line loop runs out of lines: another pass from
   * the first line while the repeat setting allows one, else the script
   * finishes. A pass that reaches the end again under the endless setting
   * (-1) means the window recurses forever.
   */
  function EndOfScript(lines: seq<seq<char>>, cfg: Settings, m: Machine, out: seq<Output>): (r: Outcome)
    requires AllFromScript(lines, cfg, out)
    ensures r.Diverges? ==> cfg.repeat == -1
    ensures r.Settled? ==> m.repeats <= r.m.repeats && (r.m.running ==> m.running)
    ensures r.Settled? ==> AllFromScript(lines, cfg, r.out) && Inv(r.m)
    ensures r.Settled? && r.m.line == -1 && cfg.repeat > 0 && m.repeats <= cfg.repeat ==> r.m.repeats == cfg.repeat
    ensures !Repeats(cfg, m.repeats) ==> r == Settled(Finish(m), out + [ScriptFinished])
    ensures Repeats(cfg, m.repeats) ==> r.Diverges? || r.m.repeats > m.repeats
    decreases if cfg.repeat > 0 && m.repeats < cfg.repeat then cfg.repeat - m.repeats else 0
  {
    if Repeats(cfg, m.repeats) then
      var p := Pass(lines, cfg, Restart(m));
      if !p.ended then Settled(p.m, out + p.out)
      else if cfg.repeat == -1 then Diverges
      else EndOfScript(lines, cfg, p.m, out + p.out)
    else Settled(Finish(m), out + [ScriptFinished])
  }

  /** AdvanceLine: run lines from the current one until the loop returns or the script ends. */
  function Advance(lines: seq<seq<char>>, cfg: Settings, m: Machine): (r: Outcome)
    ensures r.Diverges? ==> cfg.repeat == -1
    ensures r.Settled? ==> m.repeats <= r.m.repeats && (r.m.running ==> m.running)
    ensures r.Settled? ==> AllFromScript(lines, cfg, r.out)
    ensures r.Settled? && Inv(m) ==> Inv(r.m)
  {
    var p := Pass(lines, cfg, m);
    if !p.ended then Settled(p.m, p.out) else EndOfScript(lines, cfg, p.m, p.out)
  }

  // ---------------------------------------------------------------------
  // Events
  // ---------------------------------------------------------------------

  /** The window's reaction to one event. */
  function Step(lines: seq<seq<char>>, cfg: Settings, m: Machine, e: Event): (r: Outcome)
    ensures r.Diverges? ==> cfg.repeat == -1
    ensures r.Settled? && Inv(m) ==> Inv(r.m)
    ensures r.Settled? ==> m.repeats <= r.m.repeats
    ensures r.Settled? && r.m.running && !m.running ==> e == StartResult(true)
    ensures r.Settled? ==> AllFromScript(lines, cfg, r.out)
  {
    match e
    case StartResult(ok) =>
      if ok then Advance(lines, cfg, Begin(m)) else Settled(m, [])
    case DataReceived(data) =>
      if m.running then
        var m1 := m.(recvData := m.recvData + data);
        if m1.waiting then Advance(lines, cfg, m1) else Settled(m1, [])
      else Settled(m, [])
    case BytesWritten(n) =>
      if m.running && cfg.waitForWrite then
        var m1 := m.(bytesRemain := m.bytesRemain - n);
        if m1.bytesRemain <= 0 then Advance(lines, cfg, m1.(line := m1.line + 1)) else Settled(m1, [])
      else Settled(m, [])
    case PauseTimerExpired =>
      if m.timerArmed then Advance(lines, cfg, m.(timerArmed := false)) else Settled(m, [])
    case StopClicked => Stop(m)
    case ReceiveTimeout =>
      if m.lastAct == AwaitedData then Stop(m) else Settled(m, [])
    case PortClosed => Stop(m)
    case PortError => Stop(m)
  }
}
