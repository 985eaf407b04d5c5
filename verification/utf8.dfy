/**
 * QString::toUtf8 for text made of Unicode scalar values, and the matching
 * decoder used to state that the encoding loses nothing.
 */
module Utf8 {
  import opened Basics

  /** A byte that continues a multi-byte sequence: 10xxxxxx. */
  predicate IsContinuation(b: byte) {
    0x80 <= b < 0xC0
  }

  /** Number of bytes a sequence starting with lead byte `b` occupies, 0 if `b` cannot lead. */
  function SequenceLength(b: byte): nat {
    if b < 0x80 then 1
    else if 0xC2 <= b < 0xE0 then 2
    else if 0xE0 <= b < 0xF0 then 3
    else if 0xF0 <= b < 0xF5 then 4
    else 0
  }

  /** The UTF-8 bytes of one scalar value. */
  function EncodeChar(c: char): (bs: seq<byte>)
    ensures 1 <= |bs| <= 4 && SequenceLength(bs[0]) == |bs|
    ensures forall i :: 1 <= i < |bs| ==> IsContinuation(bs[i])
    ensures |bs| == 1 <==> c as int < 0x80
  {
    var cp := c as int;
    if cp < 0x80 then [cp]
    else if cp < 0x800 then [0xC0 + cp / 64, 0x80 + cp % 64]
    else if cp < 0x1_0000 then [0xE0 + cp / 4096, 0x80 + (cp / 64) % 64, 0x80 + cp % 64]
    else [0xF0 + cp / 262144, 0x80 + (cp / 4096) % 64, 0x80 + (cp / 64) % 64, 0x80 + cp % 64]
  }

  /** QString::toUtf8. */
  function Encode(s: seq<char>): (bs: seq<byte>)
    ensures |s| <= |bs| <= 4 * |s|
  {
    if s == [] then [] else EncodeChar(s[0]) + Encode(s[1..])
  }

  /** The scalar value a complete sequence `bs` spells, when it is well formed. */
  function DecodeScalar(bs: seq<byte>): (r: Option<char>)
    requires 1 <= |bs| <= 4 && SequenceLength(bs[0]) == |bs|
  {
    if exists i :: 1 <= i < |bs| && !IsContinuation(bs[i]) then None
    else
      var b: seq<int> := bs;
      var cp :=
        if |b| == 1 then b[0]
        else if |b| == 2 then (b[0] - 0xC0) * 64 + (b[1] - 0x80)
        else if |b| == 3 then ((b[0] - 0xE0) * 64 + (b[1] - 0x80)) * 64 + (b[2] - 0x80)
        else (((b[0] - 0xF0) * 64 + (b[1] - 0x80)) * 64 + (b[2] - 0x80)) * 64 + (b[3] - 0x80);
      if MinScalar(|bs|) <= cp <= 0x10_FFFF && !(0xD800 <= cp < 0xE000) then Some(cp as char) else None
  }

  /** Smallest scalar value that needs `n` bytes; smaller ones would be overlong. */
  function MinScalar(n: nat): int {
    if n <= 1 then 0 else if n == 2 then 0x80 else if n == 3 then 0x800 else 0x1_0000
  }

  /** Strict UTF-8 decoding; `None` on any malformed, overlong or truncated sequence. */
  function Decode(bs: seq<byte>): (r: Option<seq<char>>)
    decreases |bs|
  {
    if bs == [] then Some([])
    else
      var n := SequenceLength(bs[0]);
      if n == 0 || n > |bs| then None
      else
        match DecodeScalar(bs[..n])
        case None => None
        case Some(c) =>
          match Decode(bs[n..])
          case None => None
          case Some(rest) => Some([c] + rest)
  }

  // ---------------------------------------------------------------------
  // Properties
  // ---------------------------------------------------------------------

  lemma DecodeEncodeChar(c: char)
    ensures DecodeScalar(EncodeChar(c)) == Some(c)
  {
    var cp := c as int;
    var bs: seq<int> := EncodeChar(c);
    if cp < 0x80 {
    } else if cp < 0x800 {
      assert (bs[0] - 0xC0) * 64 + (bs[1] - 0x80) == cp;
    } else if cp < 0x1_0000 {
      var q := cp / 64;
      assert q / 64 == cp / 4096;
      assert (bs[0] - 0xE0) * 64 + (bs[1] - 0x80) == q;
      assert q * 64 + (bs[2] - 0x80) == cp;
    } else {
      var q := cp / 64;
      var q2 := q / 64;
      assert q2 == cp / 4096;
      assert q2 / 64 == cp / 262144;
      assert (bs[0] - 0xF0) * 64 + (bs[1] - 0x80) == q2;
      assert q2 * 64 + (bs[2] - 0x80) == q;
      assert q * 64 + (bs[3] - 0x80) == cp;
    }
  }

  /** toUtf8 loses nothing: strict decoding gives the original text back. */
  lemma {:induction false} DecodeEncode(s: seq<char>)
    ensures Decode(Encode(s)) == Some(s)
  {
    if s != [] {
      var head := EncodeChar(s[0]);
      var bs := Encode(s);
      assert bs == head + Encode(s[1..]);
      assert bs[..|head|] == head;
      assert bs[|head|..] == Encode(s[1..]);
      DecodeEncodeChar(s[0]);
      DecodeEncode(s[1..]);
      assert [s[0]] + s[1..] == s;
    }
  }

  /** Encoding distributes over concatenation. */
  lemma {:induction false} EncodeAppend(a: seq<char>, b: seq<char>)
    ensures Encode(a + b) == Encode(a) + Encode(b)
  {
    if a != [] {
      assert (a + b)[0] == a[0];
      assert (a + b)[1..] == a[1..] + b;
      EncodeAppend(a[1..], b);
    } else {
      assert a + b == b;
    }
  }

  /** ASCII text encodes to one byte per character, each equal to its code. */
  lemma {:induction false} EncodeAscii(s: seq<char>)
    requires forall i :: 0 <= i < |s| ==> s[i] as int < 0x80
    ensures |Encode(s)| == |s|
    ensures forall i :: 0 <= i < |s| ==> Encode(s)[i] == s[i] as int
  {
    if s != [] {
      EncodeAscii(s[1..]);
    }
  }
}
