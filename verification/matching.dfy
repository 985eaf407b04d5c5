/**
 * Consumption of the receive buffer by a `<` line: the expected bytes must
 * occur in what has been received, starting before the configured maximum
 * buffer size, and everything up to and including their leftmost
 * occurrence is dropped.
 */
module Matching {
  import opened Basics

  predicate OccursAt(hay: seq<byte>, needle: seq<byte>, pos: int) {
    0 <= pos && pos + |needle| <= |hay| && hay[pos..pos + |needle|] == needle
  }

  /** `pos` is where QByteArray::indexOf finds `needle`: its leftmost occurrence. */
  predicate FirstOccurrence(hay: seq<byte>, needle: seq<byte>, pos: int) {
    OccursAt(hay, needle, pos) && forall q :: 0 <= q < pos ==> !OccursAt(hay, needle, q)
  }

  /** QByteArray::indexOf(needle, from): leftmost occurrence at or after `from`, or -1. */
  function IndexOfFrom(hay: seq<byte>, needle: seq<byte>, from: nat): (r: int)
    ensures r == -1 || (from <= r && OccursAt(hay, needle, r))
    ensures forall q :: from <= q && (r == -1 || q < r) ==> !OccursAt(hay, needle, q)
    decreases |hay| - from
  {
    if from + |needle| > |hay| then -1
    else if hay[from..from + |needle|] == needle then from
    else IndexOfFrom(hay, needle, from + 1)
  }

  function IndexOf(hay: seq<byte>, needle: seq<byte>): (r: int)
    ensures r == -1 <==> forall q :: !OccursAt(hay, needle, q)
    ensures r != -1 ==> FirstOccurrence(hay, needle, r)
  {
    IndexOfFrom(hay, needle, 0)
  }

  /**
   * The buffer left after consuming `pattern` from `recv`, or `None` when
   * the receive buffer is shorter than the pattern, does not contain it, or
   * contains it first at or beyond `maxBuf`.
   */
  function Consume(recv: seq<byte>, pattern: seq<byte>, maxBuf: int): (r: Option<seq<byte>>)
    ensures |recv| < |pattern| ==> r == None
    ensures r.Some? <==> exists pos :: FirstOccurrence(recv, pattern, pos) && pos < maxBuf
    ensures forall pos :: FirstOccurrence(recv, pattern, pos) && pos < maxBuf ==>
              r == Some(recv[pos + |pattern|..]) && |r.value| == |recv| - pos - |pattern|
  {
    if |recv| >= |pattern| then
      var pos := IndexOf(recv, pattern);
      if pos != -1 && pos < maxBuf then Some(recv[|recv| - (|recv| - pos - |pattern|)..])
      else None
    else None
  }

  // ---------------------------------------------------------------------
  // Properties
  // ---------------------------------------------------------------------

  /** What is consumed is a prefix ending in the pattern; nothing else is lost. */
  lemma ConsumeSplits(recv: seq<byte>, pattern: seq<byte>, maxBuf: int)
    requires Consume(recv, pattern, maxBuf).Some?
    ensures exists skipped: seq<byte> ::
      |skipped| < maxBuf && recv == skipped + pattern + Consume(recv, pattern, maxBuf).value
  {
    var pos := IndexOf(recv, pattern);
    var skipped := recv[..pos];
    assert recv == skipped + recv[pos..pos + |pattern|] + recv[pos + |pattern|..];
  }

  /** The empty pattern is found at once and consumes nothing, whenever maxBuf > 0. */
  lemma ConsumeEmptyPattern(recv: seq<byte>, maxBuf: int)
    requires maxBuf > 0
    ensures Consume(recv, [], maxBuf) == Some(recv)
  {
    assert FirstOccurrence(recv, [], 0);
  }
}
