/**
 * Decimal text to integer conversion as Qt's QString::toInt and
 * QString::toUInt perform it with base 10 in the C locale: surrounding
 * whitespace is ignored, one optional sign is accepted, every remaining
 * character must be a decimal digit, and the value must fit the target
 * type or the conversion fails.
 */
module Numbers {
  import opened Basics

  const IntMin: int := -0x8000_0000
  const IntMax: int := 0x7FFF_FFFF
  const UIntMax: int := 0xFFFF_FFFF

  predicate IsDigit(c: char) {
    '0' <= c <= '9'
  }

  /** The ASCII whitespace characters Qt skips around a number. */
  predicate IsSpace(c: char) {
    c == ' ' || c == '\t' || c == '\n' || c == '\U{000B}' || c == '\U{000C}' || c == '\r'
  }

  predicate AllDigits(s: seq<char>) {
    forall i :: 0 <= i < |s| ==> IsDigit(s[i])
  }

  function DigitValue(c: char): (d: nat)
    requires IsDigit(c)
    ensures d < 10
  {
    c as int - '0' as int
  }

  function DigitChar(d: nat): (c: char)
    requires d < 10
    ensures IsDigit(c) && DigitValue(c) == d
  {
    ('0' as int + d) as char
  }

  /** Value of a run of decimal digits, most significant first; no digits at all is 0. */
  function DecimalValue(ds: seq<char>): nat
    requires AllDigits(ds)
  {
    if ds == [] then 0 else DecimalValue(ds[..|ds| - 1]) * 10 + DigitValue(ds[|ds| - 1])
  }

  /** The shortest decimal text of `n`. */
  function Decimal(n: nat): (ds: seq<char>)
    ensures |ds| > 0 && AllDigits(ds)
    ensures |ds| > 1 ==> ds[0] != '0'
  {
    if n < 10 then [DigitChar(n)] else Decimal(n / 10) + [DigitChar(n % 10)]
  }

  /** Signed decimal text of `n`: a minus sign for negatives, no plus sign. */
  function Format(n: int): seq<char> {
    if n < 0 then "-" + Decimal(-n) else Decimal(n)
  }

  /** `s` without its leading whitespace. */
  function TrimStart(s: seq<char>): (t: seq<char>)
    ensures |t| <= |s|
    ensures t == [] || !IsSpace(t[0])
  {
    if s != [] && IsSpace(s[0]) then TrimStart(s[1..]) else s
  }

  /** `s` without its trailing whitespace. */
  function TrimEnd(s: seq<char>): (t: seq<char>)
    ensures |t| <= |s|
    ensures t == [] || !IsSpace(t[|t| - 1])
  {
    if s != [] && IsSpace(s[|s| - 1]) then TrimEnd(s[..|s| - 1]) else s
  }

  function Trim(s: seq<char>): seq<char> {
    TrimEnd(TrimStart(s))
  }

  /** An optional `+` or `-` followed by at least one digit, and nothing else. */
  function ParseSigned(s: seq<char>): (r: Option<int>)
    ensures r.Some? ==> |s| > 0 && (r.value < 0 ==> s[0] == '-')
  {
    if |s| > 0 && (s[0] == '+' || s[0] == '-') then
      var ds := s[1..];
      if ds != [] && AllDigits(ds) then
        var v: int := DecimalValue(ds);
        Some(if s[0] == '-' then -v else v)
      else None
    else if s != [] && AllDigits(s) then Some(DecimalValue(s))
    else None
  }

  /** QString::toInt(&ok) with base 10: `None` where Qt reports ok == false. */
  function ToInt(s: seq<char>): (r: Option<int>)
    ensures r.Some? ==> IntMin <= r.value <= IntMax
  {
    match ParseSigned(Trim(s))
    case Some(v) => if IntMin <= v <= IntMax then Some(v) else None
    case None => None
  }

  /** QString::toUInt(&ok) with base 10: `None` where Qt reports ok == false. */
  function ToUInt(s: seq<char>): (r: Option<int>)
    ensures r.Some? ==> 0 <= r.value <= UIntMax
  {
    match ParseSigned(Trim(s))
    case Some(v) => if 0 <= v <= UIntMax then Some(v) else None
    case None => None
  }

  // ---------------------------------------------------------------------
  // Properties
  // ---------------------------------------------------------------------

  /** Reading back the decimal text of a natural number gives that number. */
  lemma {:induction false} DecimalRoundTrip(n: nat)
    ensures DecimalValue(Decimal(n)) == n
  {
    if n >= 10 {
      var ds := Decimal(n);
      assert ds[..|ds| - 1] == Decimal(n / 10);
      DecimalRoundTrip(n / 10);
    }
  }

  /** Every 32-bit integer survives a trip through its decimal text. */
  lemma ToIntFormat(n: int)
    requires IntMin <= n <= IntMax
    ensures ToInt(Format(n)) == Some(n)
  {
    var t := Format(n);
    var ds := Decimal(if n < 0 then -n else n);
    DecimalRoundTrip(if n < 0 then -n else n);
    assert !IsSpace(t[0]) && !IsSpace(t[|t| - 1]);
    assert TrimStart(t) == t;
    assert Trim(t) == t;
    if n < 0 {
      assert t[1..] == ds;
    }
  }

  /** Every unsigned 32-bit value survives a trip through its decimal text. */
  lemma ToUIntDecimal(n: nat)
    requires n <= UIntMax
    ensures ToUInt(Decimal(n)) == Some(n)
  {
    var t := Decimal(n);
    DecimalRoundTrip(n);
    DigitsParse(t);
    assert ParseSigned(Trim(t)) == Some(n);
  }

  /** Text that neither starts nor ends with whitespace is left alone by trimming. */
  lemma TrimKeepsBare(t: seq<char>)
    requires t != [] && !IsSpace(t[0]) && !IsSpace(t[|t| - 1])
    ensures Trim(t) == t
  {
    assert TrimStart(t) == t;
  }

  /** A run of digits is left alone by trimming and parses to its value. */
  lemma DigitsParse(t: seq<char>)
    requires t != [] && AllDigits(t)
    ensures Trim(t) == t
    ensures ParseSigned(t) == Some(DecimalValue(t))
  {
    assert IsDigit(t[0]) && IsDigit(t[|t| - 1]);
    TrimKeepsBare(t);
  }

  /** Trimming the front leaves a suffix. */
  lemma {:induction false} TrimStartSuffix(s: seq<char>)
    ensures TrimStart(s) == s[|s| - |TrimStart(s)|..]
  {
    if s != [] && IsSpace(s[0]) {
      TrimStartSuffix(s[1..]);
    }
  }

  /** Trimming the back leaves a prefix. */
  lemma {:induction false} TrimEndPrefix(s: seq<char>)
    ensures TrimEnd(s) == s[..|TrimEnd(s)|]
  {
    if s != [] && IsSpace(s[|s| - 1]) {
      TrimEndPrefix(s[..|s| - 1]);
    }
  }

  /** Only digits, and a sign in front, survive parsing. */
  lemma ParseSignedAlphabet(s: seq<char>, i: int)
    requires ParseSigned(s).Some? && 0 <= i < |s|
    ensures IsDigit(s[i]) || (i == 0 && s[i] in "+-")
  {
    if i > 0 && s[0] in "+-" {
      assert s[i] == s[1..][i - 1];
    }
  }

  /** Everything trimming removes from the front is whitespace. */
  lemma {:induction false} TrimStartDropsSpace(s: seq<char>, i: int)
    requires 0 <= i < |s| - |TrimStart(s)|
    ensures IsSpace(s[i])
  {
    if i > 0 {
      TrimStartDropsSpace(s[1..], i - 1);
    }
  }

  /** Everything trimming removes from the back is whitespace. */
  lemma {:induction false} TrimEndDropsSpace(s: seq<char>, i: int)
    requires |TrimEnd(s)| <= i < |s|
    ensures IsSpace(s[i])
  {
    if i < |s| - 1 {
      TrimEndDropsSpace(s[..|s| - 1], i);
    }
  }

  /** Text that parses once trimmed consists of whitespace, signs and digits only. */
  lemma ParsedAlphabet(s: seq<char>, i: int)
    requires ParseSigned(Trim(s)).Some? && 0 <= i < |s|
    ensures IsDigit(s[i]) || IsSpace(s[i]) || s[i] in "+-"
  {
    var a := TrimStart(s);
    var t := TrimEnd(a);
    var start := |s| - |a|;
    TrimStartSuffix(s);
    TrimEndPrefix(a);
    if i < start {
      TrimStartDropsSpace(s, i);
    } else if i < start + |t| {
      assert s[i] == t[i - start];
      ParseSignedAlphabet(t, i - start);
    } else {
      assert s[i] == a[i - start];
      TrimEndDropsSpace(a, i - start);
    }
  }

  /** Whatever toInt converts consists of whitespace, one sign and digits only. */
  lemma ToIntAlphabet(s: seq<char>, i: int)
    requires ToInt(s).Some? && 0 <= i < |s|
    ensures IsDigit(s[i]) || IsSpace(s[i]) || s[i] in "+-"
  {
    ParsedAlphabet(s, i);
  }

  /** Whatever toUInt converts consists of whitespace, one sign and digits only. */
  lemma ToUIntAlphabet(s: seq<char>, i: int)
    requires ToUInt(s).Some? && 0 <= i < |s|
    ensures IsDigit(s[i]) || IsSpace(s[i]) || s[i] in "+-"
  {
    ParsedAlphabet(s, i);
  }

  /** Text outside the 32-bit range parses, but toInt rejects it. */
  lemma ToIntRejectsOverflow(n: int)
    requires n > IntMax
    ensures ToInt(Format(n)) == None
  {
    var t := Decimal(n);
    assert Format(n) == t;
    DecimalRoundTrip(n);
    DigitsParse(t);
    assert ParseSigned(Trim(t)) == Some(n);
  }
}
