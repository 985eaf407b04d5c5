/**
 * The syntax checker behind the scripting window's compile button.
 * A script is the editor's text blocks, one line each, without line
 * terminators. Each line starts with a command character:
 * `>` sends the rest of the line, `<` waits until the rest of the line
 * has been received, `~` pauses for the given number of milliseconds,
 * and `//` starts a comment.
 */
module Syntax {
  import opened Numbers

  const DataOut: char := '>'
  const DataIn: char := '<'
  const WaitTime: char := '~'
  const Comment: seq<char> := "//"

  /** The characters the checker ignores on an unrecognised line. */
  predicate IsBlank(c: char) {
    c == ' ' || c == '\t'
  }

  /** QString::replace(c, ""): every occurrence of `c` removed. */
  function Remove(s: seq<char>, c: char): (r: seq<char>)
    ensures c !in r
    ensures forall x :: x != c ==> (x in r <==> x in s)
  {
    if s == [] then []
    else if s[0] == c then Remove(s[1..], c)
    else [s[0]] + Remove(s[1..], c)
  }

  /** What is left of a line once tabs and then spaces are removed. */
  function StripBlanks(line: seq<char>): seq<char> {
    Remove(Remove(line, '\t'), ' ')
  }

  /**
   * The per-line test of the compile loop, branch for branch: a line of
   * one character fails; a longer `~` line fails unless its remainder
   * converts to a positive int; any other longer line fails when it starts
   * with no command and holds something besides spaces and tabs.
   */
  function LineFlagged(line: seq<char>): bool {
    if |line| == 1 then true
    else if |line| > 1 then
      if line[0] == WaitTime then
        match ToInt(line[1..])
        case None => true
        case Some(v) => v <= 0
      else
        line[0] != DataOut && line[0] != DataIn && line[0] != WaitTime
        && line[..2] != Comment && |StripBlanks(line)| > 0
    else false
  }

  // ---------------------------------------------------------------------
  // What a malformed line is, stated directly
  // ---------------------------------------------------------------------

  predicate HasNonBlank(line: seq<char>) {
    exists i :: 0 <= i < |line| && !IsBlank(line[i])
  }

  predicate StartsWithCommand(line: seq<char>) {
    |line| > 0 &&
    (line[0] in [DataOut, DataIn, WaitTime] || (|line| >= 2 && line[..2] == Comment))
  }

  /** The text after `~` names a wait of at least one millisecond. */
  predicate PositiveDelay(t: seq<char>) {
    ToInt(t).Some? && ToInt(t).value > 0
  }

  predicate Malformed(line: seq<char>) {
    || |line| == 1
    || (|line| >= 2 && line[0] == WaitTime && !PositiveDelay(line[1..]))
    || (!StartsWithCommand(line) && HasNonBlank(line))
  }

  lemma StripBlanksEmpty(line: seq<char>)
    ensures |StripBlanks(line)| > 0 <==> HasNonBlank(line)
  {
    var r := StripBlanks(line);
    if |r| > 0 {
      assert r[0] in r;
      var i :| 0 <= i < |line| && line[i] == r[0];
    }
    if HasNonBlank(line) {
      var i :| 0 <= i < |line| && !IsBlank(line[i]);
      assert line[i] in line;
      assert line[i] in r;
    }
  }

  /** The source's branch structure flags exactly the malformed lines. */
  lemma LineFlaggedIffMalformed(line: seq<char>)
    ensures LineFlagged(line) <==> Malformed(line)
  {
    StripBlanksEmpty(line);
    if |line| == 0 {
      assert !HasNonBlank(line);
    }
  }

  // ---------------------------------------------------------------------
  // Compiling a whole script
  // ---------------------------------------------------------------------

  /** Outcome of a compile: the indices marked bad and the failure flag. */
  datatype CompileResult = CompileResult(badLines: set<nat>, failed: bool)

  function CompileFrom(lines: seq<seq<char>>, i: nat): (r: CompileResult)
    requires i <= |lines|
    ensures forall j :: j in r.badLines <==> i <= j < |lines| && Malformed(lines[j])
    ensures r.failed <==> r.badLines != {}
    decreases |lines| - i
  {
    if i == |lines| then CompileResult({}, false)
    else
      var rest := CompileFrom(lines, i + 1);
      LineFlaggedIffMalformed(lines[i]);
      if LineFlagged(lines[i]) then CompileResult({i} + rest.badLines, true) else rest
  }

  /** The compile button: flags every malformed line and fails iff one was flagged. */
  function Compile(lines: seq<seq<char>>): (r: CompileResult)
    ensures forall j :: j in r.badLines <==> 0 <= j < |lines| && Malformed(lines[j])
    ensures r.failed <==> exists j :: 0 <= j < |lines| && Malformed(lines[j])
  {
    CompileFrom(lines, 0)
  }

  // ---------------------------------------------------------------------
  // Properties
  // ---------------------------------------------------------------------

  /** Lines the checker always accepts. */
  lemma NeverFlagged(line: seq<char>)
    requires || line == []
             || (|line| >= 2 && forall i :: 0 <= i < |line| ==> IsBlank(line[i]))
             || (|line| >= 2 && line[..2] == Comment)
             || (|line| >= 2 && (line[0] == DataOut || line[0] == DataIn))
    ensures !LineFlagged(line)
  {
    LineFlaggedIffMalformed(line);
  }

  /** A wait line is accepted exactly when it names a positive 32-bit count. */
  lemma DelayLine(n: int)
    requires IntMin <= n <= IntMax
    ensures LineFlagged([WaitTime] + Format(n)) <==> n <= 0
  {
    var line := [WaitTime] + Format(n);
    assert line[1..] == Format(n);
    ToIntFormat(n);
  }

  lemma DelayAcceptsHundred()
    ensures !LineFlagged("~100")
  {
    assert DigitChar(1) == '1' && DigitChar(0) == '0';
    assert Decimal(1) == ['1'];
    assert Decimal(10) == ['1', '0'];
    assert Decimal(100) == ['1', '0', '0'];
    assert Format(100) == "100";
    DelayLine(100);
    assert "~100" == [WaitTime] + Format(100);
  }

  lemma DelayRejectsZero()
    ensures LineFlagged("~0")
  {
    assert DigitChar(0) == '0';
    assert Format(0) == "0";
    DelayLine(0);
    assert "~0" == [WaitTime] + Format(0);
  }

  lemma DelayRejectsNegative()
    ensures LineFlagged("~-5")
  {
    assert DigitChar(5) == '5';
    assert Format(-5) == "-5";
    DelayLine(-5);
    assert "~-5" == [WaitTime] + Format(-5);
  }

  /** A wait line holding anything but whitespace, a sign and digits is flagged. */
  lemma DelayRejectsText(line: seq<char>, i: int)
    requires |line| >= 2 && line[0] == WaitTime
    requires 1 <= i < |line| && !IsDigit(line[i]) && !IsSpace(line[i]) && line[i] !in "+-"
    ensures LineFlagged(line)
  {
    var t := line[1..];
    assert t[i - 1] == line[i];
    if ToInt(t).Some? {
      ToIntAlphabet(t, i - 1);
    }
  }

  lemma DelayRejectsWord()
    ensures LineFlagged("~abc")
  {
    DelayRejectsText("~abc", 1);
  }
}
