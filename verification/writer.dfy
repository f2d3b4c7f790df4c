/** `PlgxInfo.WriteFile` and its helpers `WriteObject` and `AddFile`. */
module Writer {
  import opened Wrappers
  import opened LittleEndian
  import opened Failures
  import opened Framing
  import opened Package

  /** The two signature words and the version word that open every package. */
  function Header(version: u32): (r: Bytes)
    ensures |r| == 12
    ensures BytesToUInt32(r[..4]) == PlgxSignature1
    ensures BytesToUInt32(r[4..8]) == PlgxSignature2
    ensures BytesToUInt32(r[8..12]) == version
  {
    var r := UInt32ToBytes(PlgxSignature1) + UInt32ToBytes(PlgxSignature2) + UInt32ToBytes(version);
    assert r[..4] == UInt32ToBytes(PlgxSignature1);
    assert r[4..8] == UInt32ToBytes(PlgxSignature2);
    assert r[8..12] == UInt32ToBytes(version);
    UInt32RoundTrip(PlgxSignature1);
    UInt32RoundTrip(PlgxSignature2);
    UInt32RoundTrip(version);
    r
  }

  function Tags(bs: seq<Block>): seq<u16> {
    seq(|bs|, i requires 0 <= i < |bs| => bs[i].tag)
  }

  predicate StrictlyIncreasing(ts: seq<u16>) {
    forall i, j :: 0 <= i < j < |ts| ==> ts[i] < ts[j]
  }

  /** A string field written as its UTF-8 bytes. */
  function TextBlock(tag: u16, s: string, lib: Collaborators): Block {
    Block(tag, Some(lib.utf8GetBytes(s)))
  }

  /** `[t]` when `present`, otherwise nothing. */
  function TagIf(present: bool, t: u16): seq<u16> {
    if present then [t] else []
  }

  /**
   * The tags of the metadata blocks, in the order the writer emits them:
   * the five required fields, then each prerequisite or build command
   * that is set (a `Nullable` with a value, a string neither null nor
   * empty).
   */
  function MetadataTags(info: PlgxInfo): seq<u16> {
    [PlgxFileUuid, PlgxBaseFileName, PlgxCreationTime, PlgxGeneratorName, PlgxGeneratorVersion]
      + TagIf(info.prereqKP.Some?, PlgxPrereqKP)
      + TagIf(info.prereqNet.Some?, PlgxPrereqNet)
      + TagIf(info.prereqOS.Some? && info.prereqOS.value != "", PlgxPrereqOS)
      + TagIf(info.prereqPtr.Some?, PlgxPrereqPtr)
      + TagIf(info.buildPre.Some? && info.buildPre.value != "", PlgxBuildPre)
      + TagIf(info.buildPost.Some? && info.buildPost.value != "", PlgxBuildPost)
  }

  /** A `ulong?` prerequisite: written only when it has a value. */
  function OptionalU64(tag: u16, v: Option<u64>): (bs: seq<Block>)
    ensures Tags(bs) == TagIf(v.Some?, tag)
  {
    if v.Some? then [Block(tag, Some(UInt64ToBytes(v.value)))] else []
  }

  /** A `uint?` prerequisite: written only when it has a value. */
  function OptionalU32(tag: u16, v: Option<u32>): (bs: seq<Block>)
    ensures Tags(bs) == TagIf(v.Some?, tag)
  {
    if v.Some? then [Block(tag, Some(UInt32ToBytes(v.value)))] else []
  }

  /** An optional string: written only when `!string.IsNullOrEmpty`. */
  function OptionalText(tag: u16, s: Option<string>, lib: Collaborators): (bs: seq<Block>)
    ensures Tags(bs) == TagIf(s.Some? && s.value != "", tag)
  {
    if s.Some? && s.value != "" then [TextBlock(tag, s.value, lib)] else []
  }

  lemma TagsAppend(a: seq<Block>, b: seq<Block>)
    ensures Tags(a + b) == Tags(a) + Tags(b)
  {
  }

  /** The fields `WriteFile` dereferences unconditionally are present: the UUID and the three required strings. */
  predicate RequiredPresent(info: PlgxInfo) {
    info.fileUuid.Some? && info.baseFileName.Some? && info.creationTime.Some? && info.generatorName.Some?
  }

  /** The metadata blocks ahead of the content section, one per field that is written. */
  function MetadataBlocks(info: PlgxInfo, lib: Collaborators): (bs: seq<Block>)
    requires RequiredPresent(info)
  {
    [ Block(PlgxFileUuid, Some(info.fileUuid.value)),
      TextBlock(PlgxBaseFileName, info.baseFileName.value, lib),
      TextBlock(PlgxCreationTime, info.creationTime.value, lib),
      TextBlock(PlgxGeneratorName, info.generatorName.value, lib),
      Block(PlgxGeneratorVersion, Some(UInt64ToBytes(info.generatorVersion)))]
    + OptionalU64(PlgxPrereqKP, info.prereqKP)
    + OptionalU64(PlgxPrereqNet, info.prereqNet)
    + OptionalText(PlgxPrereqOS, info.prereqOS, lib)
    + OptionalU32(PlgxPrereqPtr, info.prereqPtr)
    + OptionalText(PlgxBuildPre, info.buildPre, lib)
    + OptionalText(PlgxBuildPost, info.buildPost, lib)
  }

  /** The blocks the writer emits carry exactly the tags `MetadataTags` lists. */
  lemma MetadataBlockTags(info: PlgxInfo, lib: Collaborators)
    requires RequiredPresent(info)
    ensures Tags(MetadataBlocks(info, lib)) == MetadataTags(info)
  {
    var b0 := [
      Block(PlgxFileUuid, Some(info.fileUuid.value)),
      TextBlock(PlgxBaseFileName, info.baseFileName.value, lib),
      TextBlock(PlgxCreationTime, info.creationTime.value, lib),
      TextBlock(PlgxGeneratorName, info.generatorName.value, lib),
      Block(PlgxGeneratorVersion, Some(UInt64ToBytes(info.generatorVersion)))];
    var o1 := OptionalU64(PlgxPrereqKP, info.prereqKP);
    var o2 := OptionalU64(PlgxPrereqNet, info.prereqNet);
    var o3 := OptionalText(PlgxPrereqOS, info.prereqOS, lib);
    var o4 := OptionalU32(PlgxPrereqPtr, info.prereqPtr);
    var o5 := OptionalText(PlgxBuildPre, info.buildPre, lib);
    var o6 := OptionalText(PlgxBuildPost, info.buildPost, lib);
    TagsAppend(b0, o1);
    TagsAppend(b0 + o1, o2);
    TagsAppend(b0 + o1 + o2, o3);
    TagsAppend(b0 + o1 + o2 + o3, o4);
    TagsAppend(b0 + o1 + o2 + o3 + o4, o5);
    TagsAppend(b0 + o1 + o2 + o3 + o4 + o5, o6);
    assert Tags(b0) == [PlgxFileUuid, PlgxBaseFileName, PlgxCreationTime, PlgxGeneratorName, PlgxGeneratorVersion];
  }

  /**
   * The metadata is emitted in increasing tag order, the required fields
   * first, and each optional field appears exactly when it is set.
   */
  lemma EmissionOrder(info: PlgxInfo)
    ensures MetadataTags(info)[..5] == [PlgxFileUuid, PlgxBaseFileName, PlgxCreationTime, PlgxGeneratorName, PlgxGeneratorVersion]
    ensures StrictlyIncreasing(MetadataTags(info))
    ensures PlgxPrereqKP in MetadataTags(info) <==> info.prereqKP.Some?
    ensures PlgxPrereqNet in MetadataTags(info) <==> info.prereqNet.Some?
    ensures PlgxPrereqOS in MetadataTags(info) <==> info.prereqOS.Some? && info.prereqOS.value != ""
    ensures PlgxPrereqPtr in MetadataTags(info) <==> info.prereqPtr.Some?
    ensures PlgxBuildPre in MetadataTags(info) <==> info.buildPre.Some? && info.buildPre.value != ""
    ensures PlgxBuildPost in MetadataTags(info) <==> info.buildPost.Some? && info.buildPost.value != ""
    ensures forall t :: t in MetadataTags(info) ==> PlgxFileUuid <= t <= PlgxBuildPost
    ensures PlgxBeginContent !in MetadataTags(info) && PlgxFile !in MetadataTags(info) && PlgxEndContent !in MetadataTags(info)
  {
    MetadataIncreasing(info);
    var ts := MetadataTags(info);
    var s0: seq<u16> := [PlgxFileUuid, PlgxBaseFileName, PlgxCreationTime, PlgxGeneratorName, PlgxGeneratorVersion];
    assert ts[..5] == s0;
    forall t | t in ts
      ensures PlgxFileUuid <= t <= PlgxBuildPost
    {
      OptionalTagsInRange(info, t);
    }
    PresentIff(info, PlgxPrereqKP, info.prereqKP.Some?);
    PresentIff(info, PlgxPrereqNet, info.prereqNet.Some?);
    PresentIff(info, PlgxPrereqOS, info.prereqOS.Some? && info.prereqOS.value != "");
    PresentIff(info, PlgxPrereqPtr, info.prereqPtr.Some?);
    PresentIff(info, PlgxBuildPre, info.buildPre.Some? && info.buildPre.value != "");
    PresentIff(info, PlgxBuildPost, info.buildPost.Some? && info.buildPost.value != "");
    OptionalTagsInRange(info, PlgxBeginContent);
    OptionalTagsInRange(info, PlgxFile);
    OptionalTagsInRange(info, PlgxEndContent);
  }

  /** The optional tags follow the five required ones and are all prerequisites or build commands. */
  lemma OptionalTagsInRange(info: PlgxInfo, t: u16)
    ensures t in MetadataTags(info) <==>
      t in [PlgxFileUuid, PlgxBaseFileName, PlgxCreationTime, PlgxGeneratorName, PlgxGeneratorVersion]
      || (t in MetadataTags(info)[5..] && PlgxPrereqKP <= t <= PlgxBuildPost)
  {
    var ts := MetadataTags(info);
    var s0: seq<u16> := [PlgxFileUuid, PlgxBaseFileName, PlgxCreationTime, PlgxGeneratorName, PlgxGeneratorVersion];
    assert ts == s0 + ts[5..];
  }

  /** An optional tag is in the metadata exactly when its field is written. */
  lemma PresentIff(info: PlgxInfo, t: u16, written: bool)
    requires PlgxPrereqKP <= t <= PlgxBuildPost
    requires t == PlgxPrereqKP ==> written == info.prereqKP.Some?
    requires t == PlgxPrereqNet ==> written == info.prereqNet.Some?
    requires t == PlgxPrereqOS ==> written == (info.prereqOS.Some? && info.prereqOS.value != "")
    requires t == PlgxPrereqPtr ==> written == info.prereqPtr.Some?
    requires t == PlgxBuildPre ==> written == (info.buildPre.Some? && info.buildPre.value != "")
    requires t == PlgxBuildPost ==> written == (info.buildPost.Some? && info.buildPost.value != "")
    ensures t in MetadataTags(info) <==> written
  {
  }

  lemma MetadataIncreasing(info: PlgxInfo)
    ensures StrictlyIncreasing(MetadataTags(info))
  {
    var a := TagIf(info.prereqKP.Some?, PlgxPrereqKP);
    var b := TagIf(info.prereqNet.Some?, PlgxPrereqNet);
    var c := TagIf(info.prereqOS.Some? && info.prereqOS.value != "", PlgxPrereqOS);
    var d := TagIf(info.prereqPtr.Some?, PlgxPrereqPtr);
    var e := TagIf(info.buildPre.Some? && info.buildPre.value != "", PlgxBuildPre);
    var f := TagIf(info.buildPost.Some? && info.buildPost.value != "", PlgxBuildPost);
    var s0: seq<u16> := [PlgxFileUuid, PlgxBaseFileName, PlgxCreationTime, PlgxGeneratorName, PlgxGeneratorVersion];
    IncreasingAppend(s0, a, PlgxPrereqKP);
    IncreasingAppend(s0 + a, b, PlgxPrereqNet);
    IncreasingAppend(s0 + a + b, c, PlgxPrereqOS);
    IncreasingAppend(s0 + a + b + c, d, PlgxPrereqPtr);
    IncreasingAppend(s0 + a + b + c + d, e, PlgxBuildPre);
    IncreasingAppend(s0 + a + b + c + d + e, f, PlgxBuildPost);
    assert MetadataTags(info) == s0 + a + b + c + d + e + f;
  }

  lemma IncreasingAppend(a: seq<u16>, b: seq<u16>, bound: u16)
    requires StrictlyIncreasing(a) && StrictlyIncreasing(b)
    requires forall x :: x in a ==> x < bound
    requires forall y :: y in b ==> y == bound
    ensures StrictlyIncreasing(a + b)
    ensures forall x :: x in a + b ==> x <= bound
  {
    var ab := a + b;
    forall i, j | 0 <= i < j < |ab|
      ensures ab[i] < ab[j]
    {
      if j < |a| {
        assert ab[i] == a[i] && ab[j] == a[j];
      } else if i >= |a| {
        assert ab[i] == b[i - |a|] && ab[j] == b[j - |a|];
      } else {
        assert ab[i] == a[i] && a[i] in a;
        assert ab[j] == b[j - |a|] && b[j - |a|] in b;
      }
    }
  }

  /** The payload of one file block: a `Path` block, a `Data` block and a sub-stream `EOF`. */
  function FilePayload(path: NetBytes, compressed: NetBytes): (r: Bytes)
    ensures |r| == 18 + |path| + |compressed|
  {
    WriteObject(Block(PlgxfPath, Some(path))) + WriteObject(Block(PlgxfData, Some(compressed)))
      + WriteObject(Block(PlgxfEOF, None))
  }

  /**
   * `AddFile`: builds the file block for one entry, refusing entries of
   * 1 GB or more, a sub-stream too long for a .NET array, and content that
   * does not decompress back to itself.
   */
  function AddFile(e: Entry, lib: Collaborators): (r: Result<Block, Failure>)
    ensures 6 + |lib.utf8GetBytes(e.path)| > MaxArrayLength ==> r == Err(StreamTooLong)
    ensures |e.data| >= MaxEntryLength && 6 + |lib.utf8GetBytes(e.path)| <= MaxArrayLength ==> r == Err(OutOfMemory)
    ensures var c := lib.compress(e.data);
      |e.data| < MaxEntryLength && 18 + |lib.utf8GetBytes(e.path)| + |c| <= MaxArrayLength ==>
        && (lib.decompress(c).None? ==> r == Err(InvalidData))
        && (lib.decompress(c).Some? && lib.decompress(c).value != e.data ==> r == Err(InvalidOperation))
        && (lib.decompress(c) == Some(e.data) ==> r.Ok?)
    ensures r.Ok? ==> && |e.data| < MaxEntryLength
                      && lib.decompress(lib.compress(e.data)) == Some(e.data)
                      && 18 + |lib.utf8GetBytes(e.path)| + |lib.compress(e.data)| <= MaxArrayLength
                      && r.value == Block(PlgxFile, Some(FilePayload(lib.utf8GetBytes(e.path), lib.compress(e.data))))
  {
    var path := lib.utf8GetBytes(e.path);
    if 6 + |path| > MaxArrayLength then Err(StreamTooLong)
    else if |e.data| >= MaxEntryLength then Err(OutOfMemory)
    else
      var compressed := lib.compress(e.data);
      if 18 + |path| + |compressed| > MaxArrayLength then Err(StreamTooLong)
      else match lib.decompress(compressed)
        case None => Err(InvalidData)
        case Some(restored) =>
          if restored != e.data then Err(InvalidOperation)
          else Ok(Block(PlgxFile, Some(FilePayload(path, compressed))))
  }

  /** Entry `k` is the first one `AddFile` refuses, and `e` is what it throws. */
  predicate FirstRefused(files: seq<Entry>, lib: Collaborators, k: int, e: Failure) {
    && 0 <= k < |files|
    && (forall j :: 0 <= j < k ==> AddFile(files[j], lib).Ok?)
    && AddFile(files[k], lib) == Err(e)
  }

  /** A refusal after an accepted first entry is the first refusal of the whole sequence, one place later. */
  lemma FirstRefusedCons(files: seq<Entry>, lib: Collaborators, e: Failure)
    requires |files| > 0 && AddFile(files[0], lib).Ok?
    requires exists k :: FirstRefused(files[1..], lib, k, e)
    ensures exists k :: FirstRefused(files, lib, k, e)
  {
    var k :| FirstRefused(files[1..], lib, k, e);
    forall j | 0 <= j < k + 1 ensures AddFile(files[j], lib).Ok? {
      if j > 0 {
        assert files[j] == files[1..][j - 1];
      }
    }
    assert FirstRefused(files, lib, k + 1, e);
  }

  /** The file blocks for `files`, in order; the first entry `AddFile` refuses ends the write. */
  function FileBlocks(files: seq<Entry>, lib: Collaborators): (r: Result<seq<Block>, Failure>)
    ensures r.Ok? <==> forall i :: 0 <= i < |files| ==> AddFile(files[i], lib).Ok?
    ensures r.Ok? ==> |r.value| == |files| && forall i :: 0 <= i < |files| ==> r.value[i] == AddFile(files[i], lib).value
    ensures r.Err? ==> exists k :: FirstRefused(files, lib, k, r.error)
  {
    if |files| == 0 then Ok([])
    else match AddFile(files[0], lib)
      case Err(e) =>
        assert FirstRefused(files, lib, 0, e);
        Err(e)
      case Ok(b) =>
        match FileBlocks(files[1..], lib)
        case Err(e) =>
          FirstRefusedCons(files, lib, e);
          Err(e)
        case Ok(rest) =>
          assert forall i :: 1 <= i < |files| ==> files[i] == files[1..][i - 1];
          Ok([b] + rest)
  }

  /** Every block `WriteFile` emits after the header, in order. */
  function Plan(info: PlgxInfo, lib: Collaborators): (r: Result<seq<Block>, Failure>)
    ensures info.fileUuid.None? ==> r == Err(NullReference)
    ensures info.fileUuid.Some? && !RequiredPresent(info) ==> r == Err(ArgumentNull)
    ensures r.Ok? <==> RequiredPresent(info) && forall i :: 0 <= i < |info.files| ==> AddFile(info.files[i], lib).Ok?
    ensures r.Err? && RequiredPresent(info) ==> exists k :: FirstRefused(info.files, lib, k, r.error)
    ensures r.Ok? ==> |r.value| >= 3 && r.value[|r.value| - 1] == Block(PlgxEOF, None)
  {
    if info.fileUuid.None? then Err(NullReference)
    else if !RequiredPresent(info) then Err(ArgumentNull)
    else match FileBlocks(info.files, lib)
      case Err(e) => Err(e)
      case Ok(fileBlocks) =>
        Ok(MetadataBlocks(info, lib) + [Block(PlgxBeginContent, None)] + fileBlocks
           + [Block(PlgxEndContent, None), Block(PlgxEOF, None)])
  }

  /** A block sequence ending in `EOF` serializes to bytes ending in that block's six bytes. */
  lemma SerializeEndsWithEOF(bs: seq<Block>)
    requires |bs| > 0 && bs[|bs| - 1] == Block(PlgxEOF, None)
    ensures |Serialize(bs)| >= 6 && Serialize(bs)[|Serialize(bs)| - 6..] == WriteObject(Block(PlgxEOF, None))
  {
    var front := bs[..|bs| - 1];
    assert bs == front + [Block(PlgxEOF, None)];
    SerializeAppend(front, [Block(PlgxEOF, None)]);
    assert Serialize([Block(PlgxEOF, None)]) == WriteObject(Block(PlgxEOF, None)) + Serialize([]);
  }

  /** `out` starts with both signatures and `version` and ends with a zero-length `EOF` block. */
  predicate Framed(out: Bytes, version: u32) {
    && |out| >= 18
    && BytesToUInt32(out[..4]) == PlgxSignature1
    && BytesToUInt32(out[4..8]) == PlgxSignature2
    && BytesToUInt32(out[8..12]) == version
    && out[|out| - 6..] == WriteObject(Block(PlgxEOF, None))
  }

  lemma SliceOfPrefix(a: Bytes, b: Bytes, i: nat, j: nat)
    requires i <= j <= |a|
    ensures (a + b)[i..j] == a[i..j]
  {
  }

  lemma SuffixOfAppend(a: Bytes, b: Bytes, k: nat)
    requires k <= |b|
    ensures (a + b)[|a + b| - k..] == b[|b| - k..]
  {
  }

  /** The header followed by a block sequence that ends in `EOF` is framed. */
  lemma FramedShape(version: u32, bs: seq<Block>)
    requires |bs| > 0 && bs[|bs| - 1] == Block(PlgxEOF, None)
    ensures Framed(Header(version) + Serialize(bs), version)
  {
    var h := Header(version);
    var tail := Serialize(bs);
    SerializeEndsWithEOF(bs);
    SliceOfPrefix(h, tail, 0, 4);
    SliceOfPrefix(h, tail, 4, 8);
    SliceOfPrefix(h, tail, 8, 12);
    SuffixOfAppend(h, tail, 6);
  }

  /**
   * `WriteFile`: the bytes of the package, or the exception that ends the
   * write. A written package starts with both signatures and the version
   * and ends with a zero-length `EOF` block.
   */
  function WriteFile(info: PlgxInfo, lib: Collaborators): (r: Result<Bytes, Failure>)
    ensures info.fileUuid.None? ==> r == Err(NullReference)
    ensures info.fileUuid.Some? && !RequiredPresent(info) ==> r == Err(ArgumentNull)
    ensures r.Ok? <==> RequiredPresent(info) && forall i :: 0 <= i < |info.files| ==> AddFile(info.files[i], lib).Ok?
    ensures r.Err? && RequiredPresent(info) ==> exists k :: FirstRefused(info.files, lib, k, r.error)
    ensures r.Ok? ==> Framed(r.value, info.version)
  {
    match Plan(info, lib)
    case Err(e) => Err(e)
    case Ok(blocks) =>
      FramedShape(info.version, blocks);
      Ok(Header(info.version) + Serialize(blocks))
  }
}
