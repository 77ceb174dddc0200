/**
 The byte stream behind an operation fingerprint.

 Every part is preceded by its length as eight big-endian bytes, so the stream
 can be taken apart again: different lists of parts give different streams.
 */
module Fingerprint {
  import opened Wrappers
  import opened Arithmetic

  type Part = seq<Byte>

  const LENGTH_BYTES: nat := 8

  function Pow256(n: nat): (p: nat)
    ensures p > 0
  {
    if n == 0 then 1 else 256 * Pow256(n - 1)
  }

  /** Big-endian, in `width` bytes; what does not fit is cut off. */
  function BigEndian(value: nat, width: nat): (bytes: Part)
    ensures |bytes| == width
  {
    if width == 0 then [] else BigEndian(value / 256, width - 1) + [value % 256]
  }

  function Value(bytes: Part): (value: nat) {
    if bytes == [] then 0 else 256 * Value(bytes[..|bytes| - 1]) + bytes[|bytes| - 1]
  }

  lemma {:induction false} ValueOfBigEndian(value: nat, width: nat)
    requires value < Pow256(width)
    ensures Value(BigEndian(value, width)) == value
  {
    if width > 0 {
      ValueOfBigEndian(value / 256, width - 1);
      var bytes := BigEndian(value, width);
      assert bytes[..|bytes| - 1] == BigEndian(value / 256, width - 1);
    }
  }

  function Frame(part: Part): (bytes: Part) {
    BigEndian(|part|, LENGTH_BYTES) + part
  }

  function Stream(parts: seq<Part>): (bytes: Part) {
    if parts == [] then [] else Frame(parts[0]) + Stream(parts[1..])
  }

  /** Take a stream apart; nothing if it is not one. */
  function Parts(bytes: Part): (parts: Option<seq<Part>>)
    decreases |bytes|
  {
    if bytes == [] then Some([])
    else if |bytes| < LENGTH_BYTES then None
    else
      var end := LENGTH_BYTES + Value(bytes[..LENGTH_BYTES]);
      if end > |bytes| then None
      else
        var rest := Parts(bytes[end..]);
        if rest.None? then None else Some([bytes[LENGTH_BYTES..end]] + rest.value)
  }

  ghost predicate LengthsFit(parts: seq<Part>) {
    forall i :: 0 <= i < |parts| ==> |parts[i]| < Pow256(LENGTH_BYTES)
  }

  /** The stream can be decoded. */
  lemma {:induction false} PartsOfStream(parts: seq<Part>)
    requires LengthsFit(parts)
    ensures Parts(Stream(parts)) == Some(parts)
    decreases |parts|
  {
    if parts != [] {
      var bytes, first := Stream(parts), parts[0];
      var end := LENGTH_BYTES + |first|;
      PartsOfStream(parts[1..]);
      ValueOfBigEndian(|first|, LENGTH_BYTES);
      assert bytes[..LENGTH_BYTES] == BigEndian(|first|, LENGTH_BYTES);
      assert bytes[LENGTH_BYTES..end] == first;
      assert bytes[end..] == Stream(parts[1..]);
      assert parts == [first] + parts[1..];
    }
  }

  /** Different lists of parts, of any number, are digested as different streams. */
  lemma StreamIsInjective(a: seq<Part>, b: seq<Part>)
    requires LengthsFit(a) && LengthsFit(b) && Stream(a) == Stream(b)
    ensures a == b
  {
    PartsOfStream(a);
    PartsOfStream(b);
  }

  /** Whatever decodes is the stream of what it decodes to. */
  lemma {:induction false} StreamOfParts(bytes: Part)
    requires Parts(bytes).Some?
    ensures Stream(Parts(bytes).value) == bytes
    decreases |bytes|
  {
    if bytes != [] {
      var end := LENGTH_BYTES + Value(bytes[..LENGTH_BYTES]);
      StreamOfParts(bytes[end..]);
      BigEndianOfValue(bytes[..LENGTH_BYTES]);
      assert bytes == bytes[..LENGTH_BYTES] + bytes[LENGTH_BYTES..end] + bytes[end..];
      var parts := Parts(bytes).value;
      assert parts[1..] == Parts(bytes[end..]).value;
    }
  }

  lemma {:induction false} BigEndianOfValue(bytes: Part)
    ensures BigEndian(Value(bytes), |bytes|) == bytes
  {
    if bytes != [] {
      BigEndianOfValue(bytes[..|bytes| - 1]);
      assert bytes == bytes[..|bytes| - 1] + [bytes[|bytes| - 1]];
    }
  }

  /** The digest is fed part by part. */
  method Feed(parts: seq<Part>) returns (stream: Part)
    ensures stream == Stream(parts)
  {
    stream := [];
    var i := 0;
    while i < |parts|
      invariant 0 <= i <= |parts| && stream + Stream(parts[i..]) == Stream(parts)
    {
      var length := BigEndian(|parts[i]|, LENGTH_BYTES);
      assert parts[i..][1..] == parts[i + 1..];
      assert stream + length + parts[i] + Stream(parts[i + 1..]) == stream + Stream(parts[i..]);
      stream := stream + length;
      stream := stream + parts[i];
      i := i + 1;
    }
  }
}
