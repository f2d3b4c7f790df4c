/**
 * A package cut short anywhere fails to read. `ReadBytes` returns a short
 * payload instead of throwing, so a block whose payload is cut still reads.
 * What happens next depends on the block. A fixed-size field (the UUID, a
 * version or prerequisite number) is handed to its parser at the wrong size,
 * which throws `ArgumentException` at that block (`CutInsideUuid`). A cut
 * `File` block fails at that block, as a corrupted file, because its
 * sub-stream ends before its `EOF` sub-block. Any other block is taken as
 * it is, and the read fails one block later, when the next header is
 * missing. So a truncated package is not always reported
 * as a corrupted file.
 */
module Truncation {
  import opened Wrappers
  import opened LittleEndian
  import opened Failures
  import opened Framing
  import opened Package
  import opened Writer
  import opened Reader
  import opened RoundTrip

  /** Reading stops with an error once the bytes run out before an `EOF` block. */
  lemma ReadLoopEmpty(st: Reading, lib: Collaborators, flavour: Flavour)
    ensures ReadLoop([], st, lib, flavour) == Err(Corrupted)
  {
  }

  /** A written block cut short is the last thing read: what follows is a missing header. */
  lemma TruncatedBlock(b: Block, j: nat, st: Reading, lib: Collaborators, flavour: Flavour)
    requires b.tag != PlgxEOF && j < |WriteObject(b)|
    ensures ReadLoop(WriteObject(b)[..j], st, lib, flavour).Err?
  {
    ReadTruncatedObject(b, j);
    var r := ReadObject(WriteObject(b)[..j]);
    if r.Ok? {
      var (b', rest) := r.value;
      match Step(st, b', lib, flavour)
      case Err(e) =>
      case Ok(st') => ReadLoopEmpty(st', lib, flavour);
    }
  }

  /** The final `EOF` block cut short is a missing header. */
  lemma TruncatedEOF(j: nat, st: Reading, lib: Collaborators, flavour: Flavour)
    requires j < |WriteObject(Block(PlgxEOF, None))|
    ensures ReadLoop(WriteObject(Block(PlgxEOF, None))[..j], st, lib, flavour) == Err(Corrupted)
  {
    ReadTruncatedObject(Block(PlgxEOF, None), j);
  }

  lemma NoEOFTail(body: seq<Block>)
    requires |body| > 0 && NoEOF(body)
    ensures body[0].tag != PlgxEOF && NoEOF(body[1..])
  {
    var tail := body[1..];
    forall i | 0 <= i < |tail| ensures tail[i].tag != PlgxEOF {
      assert tail[i] == body[i + 1];
    }
  }

  lemma PrefixOfAppend(a: Bytes, b: Bytes, j: nat)
    requires |a| <= j <= |a| + |b|
    ensures (a + b)[..j] == a + b[..j - |a|]
  {
  }

  lemma StreamCons(body: seq<Block>)
    requires |body| > 0
    ensures Stream(body) == WriteObject(body[0]) + Stream(body[1..])
  {
  }

  /** The stream after the header, cut anywhere before its end, fails to read. */
  lemma {:induction false} TruncatedStream(body: seq<Block>, j: nat, st: Reading, lib: Collaborators, flavour: Flavour)
    requires NoEOF(body) && j < |Stream(body)|
    ensures ReadLoop(Stream(body)[..j], st, lib, flavour).Err?
    decreases |body|, 1
  {
    if |body| == 0 {
      assert Stream(body) == WriteObject(Block(PlgxEOF, None));
      TruncatedEOF(j, st, lib, flavour);
    } else {
      var w := WriteObject(body[0]);
      StreamCons(body);
      NoEOFTail(body);
      if j < |w| {
        assert Stream(body)[..j] == w[..j];
        TruncatedBlock(body[0], j, st, lib, flavour);
      } else {
        TruncatedAfter(body, j, st, lib, flavour);
      }
    }
  }

  /** A cut after the first block: that block is read and the cut falls in the rest. */
  lemma {:induction false} TruncatedAfter(body: seq<Block>, j: nat, st: Reading, lib: Collaborators, flavour: Flavour)
    requires NoEOF(body) && |body| > 0 && |WriteObject(body[0])| <= j < |Stream(body)|
    ensures ReadLoop(Stream(body)[..j], st, lib, flavour).Err?
    decreases |body|, 0
  {
    var w := WriteObject(body[0]);
    StreamCons(body);
    NoEOFTail(body);
    var cut := Stream(body[1..])[..j - |w|];
    PrefixOfAppend(w, Stream(body[1..]), j);
    ReadLoopWritten(body[0], cut, st, lib, flavour);
    var r := Step(st, Canon(body[0]), lib, flavour);
    if r.Ok? {
      TruncatedStream(body[1..], j - |w|, r.value, lib, flavour);
    }
  }

  /** A header followed by the stream of an `EOF`-free body, cut anywhere before its end, fails to read. */
  lemma TruncatedBytes(version: u32, body: seq<Block>, k: nat, lib: Collaborators, flavour: Flavour)
    requires NoEOF(body) && k < 12 + |Stream(body)|
    ensures ReadFile((Header(version) + Stream(body))[..k], lib, flavour).Err?
    ensures k < 12 ==> ReadFile((Header(version) + Stream(body))[..k], lib, flavour) == Err(EndOfStream)
  {
    if k >= 12 {
      var cut := Stream(body)[..k - 12];
      PrefixOfAppend(Header(version), Stream(body), k);
      ReadHeader(version, cut, lib, flavour);
      if VersionSupported(version) {
        TruncatedStream(body, k - 12, Start(version), lib, flavour);
      }
    }
  }

  /**
   * Every proper prefix of a written package fails to read: fewer than 12
   * bytes end the stream inside the header, and a longer prefix either
   * meets the version gate or runs out before the final `EOF` block.
   */
  lemma TruncatedPackage(info: PlgxInfo, lib: Collaborators, flavour: Flavour, k: nat)
    requires WriteFile(info, lib).Ok? && k < |WriteFile(info, lib).value|
    ensures ReadFile(WriteFile(info, lib).value[..k], lib, flavour).Err?
    ensures k < 12 ==> ReadFile(WriteFile(info, lib).value[..k], lib, flavour) == Err(EndOfStream)
  {
    PackageShape(info, lib);
    BodyNoEOF(info, lib);
    TruncatedBytes(info.version, Body(info, lib), k, lib, flavour);
  }

  /** The UUID block's payload cut to five of its sixteen bytes is read, and `new PwUuid` rejects it. */
  lemma ReadLoopCutUuid(u: Uuid, st: Reading, lib: Collaborators, flavour: Flavour)
    ensures ReadLoop(WriteObject(Block(PlgxFileUuid, Some(u)))[..11], st, lib, flavour) == Err(ArgumentException(WrongSize))
  {
    var w := WriteObject(Block(PlgxFileUuid, Some(u)));
    var cut := w[..11];
    assert cut[..2] == w[..2] && cut[2..6] == w[2..6];
    UInt16RoundTrip(PlgxFileUuid);
    UInt32RoundTrip(16);
    var r := ReadObject(cut);
    assert r.Ok? && r.value.0.tag == PlgxFileUuid;
    assert |r.value.0.data.value| == 5;
  }

  /** A header and a stream that opens with a UUID block, cut five bytes into the UUID. */
  lemma CutUuidBytes(version: u32, body: seq<Block>, u: Uuid, lib: Collaborators, flavour: Flavour)
    requires |body| > 0 && body[0] == Block(PlgxFileUuid, Some(u)) && VersionSupported(version)
    ensures |Header(version) + Stream(body)| > 23
    ensures ReadFile((Header(version) + Stream(body))[..23], lib, flavour) == Err(ArgumentException(WrongSize))
  {
    var w := WriteObject(body[0]);
    StreamCons(body);
    PrefixOfAppend(Header(version), Stream(body), 23);
    assert Stream(body)[..11] == w[..11];
    ReadHeader(version, w[..11], lib, flavour);
    ReadLoopCutUuid(u, Start(version), lib, flavour);
  }

  /**
   * A written package cut five bytes into its UUID payload fails with
   * `ArgumentException` from `new PwUuid`, not as a corrupted file.
   */
  lemma CutInsideUuid(info: PlgxInfo, lib: Collaborators, flavour: Flavour)
    requires Plan(info, lib).Ok? && VersionSupported(info.version)
    ensures |WriteFile(info, lib).value| > 23
    ensures ReadFile(WriteFile(info, lib).value[..23], lib, flavour) == Err(ArgumentException(WrongSize))
  {
    assert Body(info, lib)[0] == Block(PlgxFileUuid, Some(info.fileUuid.value));
    PackageShape(info, lib);
    CutUuidBytes(info.version, Body(info, lib), info.fileUuid.value, lib, flavour);
  }
}
