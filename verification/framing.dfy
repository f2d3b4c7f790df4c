/**
 * The block primitive shared by the top-level stream and the file
 * sub-streams: a u16 tag, a u32 length and that many payload bytes, the
 * payload omitted when the length is 0.
 */
module Framing {
  import opened Wrappers
  import opened LittleEndian
  import opened Failures

  /** One block; `data` is `None` for the null payload of `WriteObject(w, tag, null)`. */
  datatype Block = Block(tag: u16, data: Option<NetBytes>)

  function Size(data: Option<NetBytes>): (n: nat)
    ensures n <= MaxArrayLength
    ensures n == 0 <==> data == None || data == Some([])
  {
    match data
    case None => 0
    case Some(d) => |d|
  }

  /** The payload as the reader returns it: a zero length reads back as null. */
  function Canon(b: Block): (c: Block)
    ensures c.tag == b.tag
    ensures c.data == None <==> Size(b.data) == 0
    ensures c.data.Some? ==> c.data == b.data
  {
    if Size(b.data) == 0 then Block(b.tag, None) else b
  }

  /** `WriteObject`: tag, payload length, and the payload bytes when there are any. */
  function WriteObject(b: Block): (r: Bytes)
    ensures |r| == 6 + Size(b.data)
    ensures r[..2] == UInt16ToBytes(b.tag)
    ensures r[2..6] == UInt32ToBytes(Size(b.data))
    ensures b.data.Some? ==> r[6..] == b.data.value
  {
    UInt16ToBytes(b.tag) + UInt32ToBytes(Size(b.data))
      + (if b.data.Some? then b.data.value else [])
  }

  /** A block stream: each block written after the one before. */
  function Serialize(bs: seq<Block>): (r: Bytes)
  {
    if |bs| == 0 then [] else WriteObject(bs[0]) + Serialize(bs[1..])
  }

  /**
   * `ReadObject`: a header cut short is a corrupted file; a length of 0
   * gives a null payload; a length above `int.MaxValue` turns negative in
   * the `(int)` cast and makes `ReadBytes` throw, which is caught as a
   * corrupted file too; otherwise `ReadBytes` returns as many of the
   * declared bytes as remain, possibly fewer.
   */
  function ReadObject(s: Bytes): (r: Result<(Block, Bytes), Failure>)
    ensures |s| < 6 ==> r == Err(Corrupted)
    ensures r.Ok? <==> |s| >= 6 && BytesToUInt32(s[2..6]) <= MaxArrayLength
    ensures r.Err? ==> r == Err(Corrupted)
    ensures r.Ok? ==> var (b, rest) := r.value;
      && 6 <= |s| - |rest|
      && rest == s[|s| - |rest|..]
      && b.tag == BytesToUInt16(s[..2])
      && (b.data == None <==> BytesToUInt32(s[2..6]) == 0)
      && (b.data.Some? ==> s[6..|s| - |rest|] == b.data.value && (|b.data.value| == BytesToUInt32(s[2..6]) || rest == []))
  {
    if |s| < 6 then Err(Corrupted)
    else
      var tag := BytesToUInt16(s[..2]);
      var length := BytesToUInt32(s[2..6]);
      if length == 0 then Ok((Block(tag, None), s[6..]))
      else if length > MaxArrayLength then Err(Corrupted)
      else
        var n := if length <= |s| - 6 then length else |s| - 6;
        Ok((Block(tag, Some(s[6..6 + n])), s[6 + n..]))
  }

  /**
   * When all the declared payload bytes are there, the read takes exactly
   * those bytes and leaves everything after them.
   */
  lemma ReadFullObject(s: Bytes)
    requires |s| >= 6 && 0 < BytesToUInt32(s[2..6]) <= MaxArrayLength
    requires BytesToUInt32(s[2..6]) <= |s| - 6
    ensures var n := BytesToUInt32(s[2..6]);
      ReadObject(s) == Ok((Block(BytesToUInt16(s[..2]), Some(s[6..6 + n])), s[6 + n..]))
  {
  }

  /**
   * When fewer bytes remain than declared, `ReadBytes` hands back what is
   * left instead of throwing, and the stream is exhausted.
   */
  lemma ReadShortObject(s: Bytes)
    requires |s| >= 6 && BytesToUInt32(s[2..6]) <= MaxArrayLength
    requires BytesToUInt32(s[2..6]) > |s| - 6
    ensures ReadObject(s) == Ok((Block(BytesToUInt16(s[..2]), Some(s[6..])), []))
  {
    assert s[6..6 + (|s| - 6)] == s[6..];
    assert s[6 + (|s| - 6)..] == [];
  }

  /** Reading back a written block recovers its tag and payload and leaves what follows. */
  lemma ReadWriteObject(b: Block, rest: Bytes)
    ensures ReadObject(WriteObject(b) + rest) == Ok((Canon(b), rest))
  {
    var w := WriteObject(b) + rest;
    assert w[..2] == UInt16ToBytes(b.tag);
    assert w[2..6] == UInt32ToBytes(Size(b.data));
    UInt16RoundTrip(b.tag);
    UInt32RoundTrip(Size(b.data));
    if Size(b.data) > 0 {
      assert w[6..6 + Size(b.data)] == b.data.value;
      assert w[6 + Size(b.data)..] == rest;
    } else {
      assert w[6..] == rest;
    }
  }

  /**
   * A written block cut short either fails to read or reads as a block with
   * the same tag, a non-empty declared payload, and nothing after it.
   */
  lemma ReadTruncatedObject(b: Block, k: nat)
    requires k < |WriteObject(b)|
    ensures var r := ReadObject(WriteObject(b)[..k]);
      r.Ok? ==> r.value.0.tag == b.tag && r.value.1 == [] && Size(b.data) > 0
  {
    var w := WriteObject(b);
    var p := w[..k];
    if 6 <= k {
      assert p[..2] == w[..2] && p[2..6] == w[2..6];
      UInt16RoundTrip(b.tag);
      UInt32RoundTrip(Size(b.data));
    }
  }

  lemma SerializeAppend(a: seq<Block>, b: seq<Block>)
    ensures Serialize(a + b) == Serialize(a) + Serialize(b)
  {
    if |a| == 0 {
      assert a + b == b;
    } else {
      assert (a + b)[1..] == a[1..] + b;
      SerializeAppend(a[1..], b);
    }
  }
}
