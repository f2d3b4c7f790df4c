/**
 * The round trip: what either reader makes of the writer's output, block by
 * block, from the metadata through the file entries to the final `EOF`.
 */
module RoundTrip {
  import opened Wrappers
  import opened LittleEndian
  import opened Failures
  import opened Framing
  import opened Package
  import opened Writer
  import opened Reader

  /** The reader's steps over a sequence of blocks, each read back as `Canon` describes. */
  function Fold(st: Reading, bs: seq<Block>, lib: Collaborators, flavour: Flavour): Result<Reading, Failure>
    decreases |bs|
  {
    if |bs| == 0 then Ok(st)
    else match Step(st, Canon(bs[0]), lib, flavour)
      case Err(e) => Err(e)
      case Ok(st') => Fold(st', bs[1..], lib, flavour)
  }

  /** The reader's steps over `bs`, taken after a step that produced `r`. */
  function FoldAfter(r: Result<Reading, Failure>, bs: seq<Block>, lib: Collaborators, flavour: Flavour): Result<Reading, Failure> {
    match r
    case Err(e) => Err(e)
    case Ok(st) => Fold(st, bs, lib, flavour)
  }

  /** The top-level loop over `s`, run after a step that produced `r`. */
  function ReadAfter(r: Result<Reading, Failure>, s: Bytes, lib: Collaborators, flavour: Flavour): Result<Reading, Failure> {
    match r
    case Err(e) => Err(e)
    case Ok(st) => ReadLoop(s, st, lib, flavour)
  }

  predicate NoEOF(bs: seq<Block>) {
    forall i :: 0 <= i < |bs| ==> bs[i].tag != PlgxEOF
  }

  lemma {:induction false} FoldAppend(st: Reading, a: seq<Block>, b: seq<Block>, lib: Collaborators, flavour: Flavour)
    ensures Fold(st, a + b, lib, flavour) == FoldAfter(Fold(st, a, lib, flavour), b, lib, flavour)
    decreases |a|
  {
    if |a| == 0 {
      assert a + b == b;
    } else {
      assert (a + b)[0] == a[0] && (a + b)[1..] == a[1..] + b;
      match Step(st, Canon(a[0]), lib, flavour)
      case Err(e) =>
      case Ok(st') => FoldAppend(st', a[1..], b, lib, flavour);
    }
  }

  /** A written block that is not `EOF` is read back and handed to `Step`. */
  lemma ReadLoopWritten(b: Block, rest: Bytes, st: Reading, lib: Collaborators, flavour: Flavour)
    requires b.tag != PlgxEOF
    ensures ReadLoop(WriteObject(b) + rest, st, lib, flavour) == ReadAfter(Step(st, Canon(b), lib, flavour), rest, lib, flavour)
  {
    ReadWriteObject(b, rest);
  }

  lemma SerializeCons(bs: seq<Block>, tail: Bytes)
    requires |bs| > 0
    ensures Serialize(bs) + tail == WriteObject(bs[0]) + (Serialize(bs[1..]) + tail)
  {
  }

  lemma FoldCons(st: Reading, bs: seq<Block>, lib: Collaborators, flavour: Flavour)
    requires |bs| > 0
    ensures Fold(st, bs, lib, flavour) == FoldAfter(Step(st, Canon(bs[0]), lib, flavour), bs[1..], lib, flavour)
  {
  }

  /** One block of `ReadLoopOverBlocks`, given the claim for the blocks after it. */
  lemma ReadLoopOverBlocksCons(bs: seq<Block>, tail: Bytes, st: Reading, lib: Collaborators, flavour: Flavour)
    requires |bs| > 0 && bs[0].tag != PlgxEOF
    requires var r := Step(st, Canon(bs[0]), lib, flavour);
      r.Ok? ==> ReadLoop(Serialize(bs[1..]) + tail, r.value, lib, flavour) == ReadAfter(Fold(r.value, bs[1..], lib, flavour), tail, lib, flavour)
    ensures ReadLoop(Serialize(bs) + tail, st, lib, flavour) == ReadAfter(Fold(st, bs, lib, flavour), tail, lib, flavour)
  {
    SerializeCons(bs, tail);
    ReadLoopWritten(bs[0], Serialize(bs[1..]) + tail, st, lib, flavour);
    FoldCons(st, bs, lib, flavour);
  }

  /** Reading a serialized block stream without `EOF` takes exactly the reader's steps over its blocks. */
  lemma {:induction false} ReadLoopOverBlocks(bs: seq<Block>, tail: Bytes, st: Reading, lib: Collaborators, flavour: Flavour)
    requires NoEOF(bs)
    ensures ReadLoop(Serialize(bs) + tail, st, lib, flavour) == ReadAfter(Fold(st, bs, lib, flavour), tail, lib, flavour)
    decreases |bs|
  {
    if |bs| == 0 {
      assert Serialize(bs) + tail == tail;
    } else {
      var r := Step(st, Canon(bs[0]), lib, flavour);
      if r.Ok? {
        assert NoEOF(bs[1..]) by {
          forall i | 0 <= i < |bs[1..]| ensures bs[1..][i].tag != PlgxEOF {
            assert bs[1..][i] == bs[i + 1];
          }
        }
        ReadLoopOverBlocks(bs[1..], tail, r.value, lib, flavour);
      }
      ReadLoopOverBlocksCons(bs, tail, st, lib, flavour);
    }
  }

  // ---------------------------------------------------------------------
  // What the reader is expected to return
  // ---------------------------------------------------------------------

  /** An optional string as it reads back: an empty one is never written, so it reads as null. */
  function NonEmpty(s: Option<string>): Option<string> {
    if s.Some? && s.value != "" then s else None
  }

  /** `info` as the reader sees it once written: optional strings that were empty come back null. */
  function Canonical(info: PlgxInfo): PlgxInfo {
    info.(prereqOS := NonEmpty(info.prereqOS), buildPre := NonEmpty(info.buildPre), buildPost := NonEmpty(info.buildPost))
  }

  /** An entry as a reader returns it: the tools reader decompresses, the inspector keeps the stored bytes. */
  function StoredEntry(e: Entry, lib: Collaborators, flavour: Flavour): Entry {
    if flavour == PlgxTools then e else Entry(e.path, lib.compress(e.data))
  }

  function Stored(files: seq<Entry>, lib: Collaborators, flavour: Flavour): (r: seq<Entry>)
    ensures |r| == |files|
    ensures forall i :: 0 <= i < |files| ==> r[i] == StoredEntry(files[i], lib, flavour)
  {
    seq(|files|, i requires 0 <= i < |files| => StoredEntry(files[i], lib, flavour))
  }

  /** `Canonical(info)` with each entry as `flavour` returns it. */
  function Expected(info: PlgxInfo, lib: Collaborators, flavour: Flavour): PlgxInfo {
    Canonical(info).(files := Stored(info.files, lib, flavour))
  }

  /** An optional string, when it is written, survives UTF-8. */
  ghost predicate OptionalTextRoundTrips(lib: Collaborators, s: Option<string>) {
    s.Some? && s.value != "" ==> TextRoundTrips(lib, s.value)
  }

  /** One entry reads back: a non-empty path that survives UTF-8, and compressed data that is not empty. */
  ghost predicate EntryReadable(e: Entry, lib: Collaborators) {
    e.path != "" && TextRoundTrips(lib, e.path) && |lib.compress(e.data)| > 0
  }

  /**
   * What the round trip needs beyond a successful write: every string that
   * is written survives UTF-8 and encodes to at least one byte (a zero-length
   * block reads back as null), entry paths are distinct and non-empty, and no
   * entry compresses to nothing.
   */
  ghost predicate Readable(info: PlgxInfo, lib: Collaborators) {
    && RequiredPresent(info)
    && TextRoundTrips(lib, info.baseFileName.value)
    && TextRoundTrips(lib, info.creationTime.value)
    && TextRoundTrips(lib, info.generatorName.value)
    && OptionalTextRoundTrips(lib, info.prereqOS)
    && OptionalTextRoundTrips(lib, info.buildPre)
    && OptionalTextRoundTrips(lib, info.buildPost)
    && DistinctPaths(info.files)
    && (forall i :: 0 <= i < |info.files| ==> EntryReadable(info.files[i], lib))
  }

  // ---------------------------------------------------------------------
  // The metadata blocks
  // ---------------------------------------------------------------------

  function Start(version: u32): Reading {
    Reading(Fresh(version), Unopened)
  }

  /** The five required blocks set the five required fields. */
  lemma FoldRequired(info: PlgxInfo, lib: Collaborators, flavour: Flavour)
    requires Readable(info, lib)
    ensures Fold(Start(info.version), MetadataBlocks(info, lib)[..5], lib, flavour)
      == Ok(Reading(Fresh(info.version).(fileUuid := info.fileUuid, baseFileName := info.baseFileName,
                                         creationTime := info.creationTime, generatorName := info.generatorName,
                                         generatorVersion := info.generatorVersion), Unopened))
  {
    var bs := MetadataBlocks(info, lib)[..5];
    UInt64RoundTrip(info.generatorVersion);
    var m0 := Fresh(info.version);
    var m1 := m0.(fileUuid := info.fileUuid);
    var m2 := m1.(baseFileName := info.baseFileName);
    var m3 := m2.(creationTime := info.creationTime);
    var m4 := m3.(generatorName := info.generatorName);
    var m5 := m4.(generatorVersion := info.generatorVersion);
    assert Step(Reading(m0, Unopened), Canon(bs[0]), lib, flavour) == Ok(Reading(m1, Unopened));
    assert Step(Reading(m1, Unopened), Canon(bs[1]), lib, flavour) == Ok(Reading(m2, Unopened));
    assert Step(Reading(m2, Unopened), Canon(bs[2]), lib, flavour) == Ok(Reading(m3, Unopened));
    assert Step(Reading(m3, Unopened), Canon(bs[3]), lib, flavour) == Ok(Reading(m4, Unopened));
    assert Step(Reading(m4, Unopened), Canon(bs[4]), lib, flavour) == Ok(Reading(m5, Unopened));
    assert Fold(Reading(m5, Unopened), bs[5..], lib, flavour) == Ok(Reading(m5, Unopened));
    assert Fold(Reading(m4, Unopened), bs[4..], lib, flavour) == Ok(Reading(m5, Unopened));
    assert Fold(Reading(m3, Unopened), bs[3..], lib, flavour) == Ok(Reading(m5, Unopened));
    assert Fold(Reading(m2, Unopened), bs[2..], lib, flavour) == Ok(Reading(m5, Unopened));
    assert Fold(Reading(m1, Unopened), bs[1..], lib, flavour) == Ok(Reading(m5, Unopened));
  }

  lemma FoldPrereqKP(m: PlgxInfo, v: Option<u64>, lib: Collaborators, flavour: Flavour)
    requires m.prereqKP == None
    ensures Fold(Reading(m, Unopened), OptionalU64(PlgxPrereqKP, v), lib, flavour) == Ok(Reading(m.(prereqKP := v), Unopened))
  {
    if v.Some? {
      UInt64RoundTrip(v.value);
    }
  }

  lemma FoldPrereqNet(m: PlgxInfo, v: Option<u64>, lib: Collaborators, flavour: Flavour)
    requires m.prereqNet == None
    ensures Fold(Reading(m, Unopened), OptionalU64(PlgxPrereqNet, v), lib, flavour) == Ok(Reading(m.(prereqNet := v), Unopened))
  {
    if v.Some? {
      UInt64RoundTrip(v.value);
    }
  }

  lemma FoldPrereqPtr(m: PlgxInfo, v: Option<u32>, lib: Collaborators, flavour: Flavour)
    requires m.prereqPtr == None
    ensures Fold(Reading(m, Unopened), OptionalU32(PlgxPrereqPtr, v), lib, flavour) == Ok(Reading(m.(prereqPtr := v), Unopened))
  {
    if v.Some? {
      UInt32RoundTrip(v.value);
    }
  }

  lemma FoldPrereqOS(m: PlgxInfo, s: Option<string>, lib: Collaborators, flavour: Flavour)
    requires m.prereqOS == None && OptionalTextRoundTrips(lib, s)
    ensures Fold(Reading(m, Unopened), OptionalText(PlgxPrereqOS, s, lib), lib, flavour)
      == Ok(Reading(m.(prereqOS := NonEmpty(s)), Unopened))
  {
  }

  lemma FoldBuildPre(m: PlgxInfo, s: Option<string>, lib: Collaborators, flavour: Flavour)
    requires m.buildPre == None && OptionalTextRoundTrips(lib, s)
    ensures Fold(Reading(m, Unopened), OptionalText(PlgxBuildPre, s, lib), lib, flavour)
      == Ok(Reading(m.(buildPre := NonEmpty(s)), Unopened))
  {
  }

  lemma FoldBuildPost(m: PlgxInfo, s: Option<string>, lib: Collaborators, flavour: Flavour)
    requires m.buildPost == None && OptionalTextRoundTrips(lib, s)
    ensures Fold(Reading(m, Unopened), OptionalText(PlgxBuildPost, s, lib), lib, flavour)
      == Ok(Reading(m.(buildPost := NonEmpty(s)), Unopened))
  {
  }

  /** Reading the metadata blocks from a fresh `PlgxInfo` recovers every metadata field. */
  lemma FoldMetadata(info: PlgxInfo, lib: Collaborators, flavour: Flavour)
    requires Readable(info, lib)
    ensures Fold(Start(info.version), MetadataBlocks(info, lib), lib, flavour)
      == Ok(Reading(Canonical(info).(files := []), Unopened))
  {
    var bs := MetadataBlocks(info, lib);
    var o1 := OptionalU64(PlgxPrereqKP, info.prereqKP);
    var o2 := OptionalU64(PlgxPrereqNet, info.prereqNet);
    var o3 := OptionalText(PlgxPrereqOS, info.prereqOS, lib);
    var o4 := OptionalU32(PlgxPrereqPtr, info.prereqPtr);
    var o5 := OptionalText(PlgxBuildPre, info.buildPre, lib);
    var o6 := OptionalText(PlgxBuildPost, info.buildPost, lib);
    var b0 := bs[..5];
    assert bs == b0 + o1 + o2 + o3 + o4 + o5 + o6;
    FoldRequired(info, lib, flavour);
    var m5 := Fresh(info.version).(fileUuid := info.fileUuid, baseFileName := info.baseFileName,
                                   creationTime := info.creationTime, generatorName := info.generatorName,
                                   generatorVersion := info.generatorVersion);
    var m6 := m5.(prereqKP := info.prereqKP);
    var m7 := m6.(prereqNet := info.prereqNet);
    var m8 := m7.(prereqOS := NonEmpty(info.prereqOS));
    var m9 := m8.(prereqPtr := info.prereqPtr);
    var m10 := m9.(buildPre := NonEmpty(info.buildPre));
    var m11 := m10.(buildPost := NonEmpty(info.buildPost));
    FoldAppend(Start(info.version), b0, o1, lib, flavour);
    FoldPrereqKP(m5, info.prereqKP, lib, flavour);
    FoldAppend(Start(info.version), b0 + o1, o2, lib, flavour);
    FoldPrereqNet(m6, info.prereqNet, lib, flavour);
    FoldAppend(Start(info.version), b0 + o1 + o2, o3, lib, flavour);
    FoldPrereqOS(m7, info.prereqOS, lib, flavour);
    FoldAppend(Start(info.version), b0 + o1 + o2 + o3, o4, lib, flavour);
    FoldPrereqPtr(m8, info.prereqPtr, lib, flavour);
    FoldAppend(Start(info.version), b0 + o1 + o2 + o3 + o4, o5, lib, flavour);
    FoldBuildPre(m9, info.buildPre, lib, flavour);
    FoldAppend(Start(info.version), b0 + o1 + o2 + o3 + o4 + o5, o6, lib, flavour);
    FoldBuildPost(m10, info.buildPost, lib, flavour);
    assert m11 == Canonical(info).(files := []);
  }

  // ---------------------------------------------------------------------
  // The content section
  // ---------------------------------------------------------------------

  /** A written non-empty `Path` sub-block sets the path to its decoded text. */
  lemma ExtractPathWritten(path: NetBytes, rest: Bytes, held: Option<string>, contents: Option<NetBytes>, lib: Collaborators)
    requires |path| > 0
    ensures ExtractLoop(WriteObject(Block(PlgxfPath, Some(path))) + rest, held, contents, lib)
      == ExtractLoop(rest, Some(lib.utf8GetString(path)), contents, lib)
  {
    ReadWriteObject(Block(PlgxfPath, Some(path)), rest);
  }

  /** A written non-empty `Data` sub-block sets the data to its payload. */
  lemma ExtractDataWritten(data: NetBytes, rest: Bytes, held: Option<string>, contents: Option<NetBytes>, lib: Collaborators)
    requires |data| > 0
    ensures ExtractLoop(WriteObject(Block(PlgxfData, Some(data))) + rest, held, contents, lib)
      == ExtractLoop(rest, held, Some(data), lib)
  {
    ReadWriteObject(Block(PlgxfData, Some(data)), rest);
  }

  /** A lone written `EOF` sub-block ends the sub-stream with what was collected. */
  lemma ExtractEOFWritten(held: Option<string>, contents: Option<NetBytes>, lib: Collaborators)
    ensures ExtractLoop(WriteObject(Block(PlgxfEOF, None)), held, contents, lib) == Ok((held, contents))
  {
    var s := WriteObject(Block(PlgxfEOF, None));
    ReadWriteObject(Block(PlgxfEOF, None), []);
    assert s + [] == s;
  }

  /** The sub-stream `AddFile` writes reads back as its path and its compressed data. */
  lemma ExtractWrittenFile(path: NetBytes, compressed: NetBytes, lib: Collaborators)
    requires |path| > 0 && |compressed| > 0 && 18 + |path| + |compressed| <= MaxArrayLength
    ensures ExtractLoop(FilePayload(path, compressed), None, None, lib)
      == Ok((Some(lib.utf8GetString(path)), Some(compressed)))
  {
    var s2 := WriteObject(Block(PlgxfEOF, None));
    var s1 := WriteObject(Block(PlgxfData, Some(compressed))) + s2;
    assert FilePayload(path, compressed) == WriteObject(Block(PlgxfPath, Some(path))) + s1;
    var name := Some(lib.utf8GetString(path));
    ExtractPathWritten(path, s1, None, None, lib);
    ExtractDataWritten(compressed, s2, name, None, lib);
    ExtractEOFWritten(name, Some(compressed), lib);
  }

  /** The file block of a readable entry describes that entry, as the reader returns it. */
  lemma ExtractAddedFile(e: Entry, lib: Collaborators, flavour: Flavour)
    requires AddFile(e, lib).Ok? && EntryReadable(e, lib)
    ensures Canon(AddFile(e, lib).value) == AddFile(e, lib).value
    ensures ExtractFile(AddFile(e, lib).value.data, lib, flavour) == Ok(Some(StoredEntry(e, lib, flavour)))
  {
    var path := lib.utf8GetBytes(e.path);
    var c := lib.compress(e.data);
    ExtractWrittenFile(path, c, lib);
    assert ExtractLoop(AddFile(e, lib).value.data.value, None, None, lib) == Ok((Some(e.path), Some(c)));
  }

  /** Inside the content section, a file block whose entry has a new path appends that entry. */
  lemma StepNewFile(st: Reading, data: Option<NetBytes>, x: Entry, lib: Collaborators, flavour: Flavour)
    requires st.content == Open
    requires ExtractFile(data, lib, flavour) == Ok(Some(x))
    requires x.path !in Paths(st.info.files)
    ensures Step(st, Block(PlgxFile, data), lib, flavour) == Ok(st.(info := st.info.(files := st.info.files + [x])))
  {
    assert AddEntry(st.info, x.path, x.data) == Ok(st.info.(files := st.info.files + [x]));
  }

  /** The file block of a readable entry adds that entry, as the reader returns it, and nothing else. */
  lemma StepAddFile(st: Reading, e: Entry, lib: Collaborators, flavour: Flavour)
    requires st.content == Open
    requires AddFile(e, lib).Ok? && EntryReadable(e, lib)
    requires e.path !in Paths(st.info.files)
    ensures Step(st, Canon(AddFile(e, lib).value), lib, flavour)
      == Ok(st.(info := st.info.(files := st.info.files + [StoredEntry(e, lib, flavour)])))
  {
    ExtractAddedFile(e, lib, flavour);
    StepNewFile(st, AddFile(e, lib).value.data, StoredEntry(e, lib, flavour), lib, flavour);
  }

  lemma FileBlocksCons(files: seq<Entry>, lib: Collaborators)
    requires |files| > 0 && FileBlocks(files, lib).Ok?
    ensures FileBlocks(files[1..], lib).Ok?
    ensures FileBlocks(files, lib).value == [AddFile(files[0], lib).value] + FileBlocks(files[1..], lib).value
  {
  }

  /** Entries whose paths are distinct and not yet among `present`. */
  ghost predicate FreshPaths(present: seq<Entry>, files: seq<Entry>, lib: Collaborators) {
    && DistinctPaths(files)
    && (forall i :: 0 <= i < |files| ==> EntryReadable(files[i], lib))
    && (forall i, j :: 0 <= i < |present| && 0 <= j < |files| ==> present[i].path != files[j].path)
  }

  lemma FreshPathsTail(present: seq<Entry>, files: seq<Entry>, stored: Entry, lib: Collaborators)
    requires |files| > 0 && FreshPaths(present, files, lib) && stored.path == files[0].path
    ensures FreshPaths(present + [stored], files[1..], lib)
    ensures files[0].path !in Paths(present) && EntryReadable(files[0], lib)
  {
    var rest := files[1..];
    assert forall j :: 0 <= j < |rest| ==> rest[j] == files[j + 1];
    forall i, j | 0 <= i < |present + [stored]| && 0 <= j < |rest|
      ensures (present + [stored])[i].path != rest[j].path
    {
      if i < |present| {
        assert (present + [stored])[i] == present[i];
      }
    }
  }

  lemma StoredCons(files: seq<Entry>, lib: Collaborators, flavour: Flavour)
    requires |files| > 0
    ensures Stored(files, lib, flavour) == [StoredEntry(files[0], lib, flavour)] + Stored(files[1..], lib, flavour)
  {
  }

  /** The first file block of a sequence adds the first entry. */
  lemma FoldFirstFile(st: Reading, files: seq<Entry>, lib: Collaborators, flavour: Flavour)
    requires st.content == Open && |files| > 0
    requires FileBlocks(files, lib).Ok?
    requires FreshPaths(st.info.files, files, lib)
    ensures FileBlocks(files[1..], lib).Ok?
    ensures Fold(st, FileBlocks(files, lib).value, lib, flavour)
      == Fold(st.(info := st.info.(files := st.info.files + [StoredEntry(files[0], lib, flavour)])),
              FileBlocks(files[1..], lib).value, lib, flavour)
  {
    FileBlocksCons(files, lib);
    FreshPathsTail(st.info.files, files, StoredEntry(files[0], lib, flavour), lib);
    StepAddFile(st, files[0], lib, flavour);
  }

  function AddStored(st: Reading, files: seq<Entry>, lib: Collaborators, flavour: Flavour): Reading {
    st.(info := st.info.(files := st.info.files + Stored(files, lib, flavour)))
  }

  /** The inductive step of `FoldFiles`: the first block, then the rest as the hypothesis says. */
  lemma FoldFilesCons(st: Reading, files: seq<Entry>, lib: Collaborators, flavour: Flavour)
    requires st.content == Open && |files| > 0
    requires FileBlocks(files, lib).Ok?
    requires FreshPaths(st.info.files, files, lib)
    requires FileBlocks(files[1..], lib).Ok?
    requires var st' := st.(info := st.info.(files := st.info.files + [StoredEntry(files[0], lib, flavour)]));
      Fold(st', FileBlocks(files[1..], lib).value, lib, flavour) == Ok(AddStored(st', files[1..], lib, flavour))
    ensures Fold(st, FileBlocks(files, lib).value, lib, flavour) == Ok(AddStored(st, files, lib, flavour))
  {
    FoldFirstFile(st, files, lib, flavour);
    AddStoredCons(st, files, lib, flavour);
  }

  lemma AddStoredCons(st: Reading, files: seq<Entry>, lib: Collaborators, flavour: Flavour)
    requires |files| > 0
    ensures AddStored(st.(info := st.info.(files := st.info.files + [StoredEntry(files[0], lib, flavour)])), files[1..], lib, flavour)
      == AddStored(st, files, lib, flavour)
  {
    StoredCons(files, lib, flavour);
    assert st.info.files + [StoredEntry(files[0], lib, flavour)] + Stored(files[1..], lib, flavour)
      == st.info.files + Stored(files, lib, flavour);
  }

  /** Reading the file blocks of distinct, readable entries appends those entries in order. */
  lemma {:induction false} FoldFiles(st: Reading, files: seq<Entry>, lib: Collaborators, flavour: Flavour)
    requires st.content == Open
    requires FileBlocks(files, lib).Ok?
    requires FreshPaths(st.info.files, files, lib)
    ensures Fold(st, FileBlocks(files, lib).value, lib, flavour) == Ok(AddStored(st, files, lib, flavour))
    decreases |files|
  {
    if |files| == 0 {
      assert st.info.files + Stored(files, lib, flavour) == st.info.files;
    } else {
      var stored := StoredEntry(files[0], lib, flavour);
      var st' := st.(info := st.info.(files := st.info.files + [stored]));
      FileBlocksCons(files, lib);
      FreshPathsTail(st.info.files, files, stored, lib);
      FoldFiles(st', files[1..], lib, flavour);
      FoldFilesCons(st, files, lib, flavour);
    }
  }

  // ---------------------------------------------------------------------
  // The whole package
  // ---------------------------------------------------------------------

  /** Everything the writer emits before the final `EOF` block. */
  function Body(info: PlgxInfo, lib: Collaborators): seq<Block>
    requires Plan(info, lib).Ok?
  {
    MetadataBlocks(info, lib) + [Block(PlgxBeginContent, None)] + FileBlocks(info.files, lib).value
      + [Block(PlgxEndContent, None)]
  }

  lemma PlanBody(info: PlgxInfo, lib: Collaborators)
    requires Plan(info, lib).Ok?
    ensures Plan(info, lib).value == Body(info, lib) + [Block(PlgxEOF, None)]
  {
  }

  /** No metadata block carries the `EOF` tag. */
  lemma MetadataNoEOF(info: PlgxInfo, lib: Collaborators)
    requires RequiredPresent(info)
    ensures NoEOF(MetadataBlocks(info, lib))
  {
    var meta := MetadataBlocks(info, lib);
    MetadataBlockTags(info, lib);
    EmissionOrder(info);
    forall i | 0 <= i < |meta|
      ensures meta[i].tag != PlgxEOF
    {
      assert Tags(meta)[i] == meta[i].tag;
      assert meta[i].tag in MetadataTags(info);
    }
  }

  lemma BodyNoEOF(info: PlgxInfo, lib: Collaborators)
    requires Plan(info, lib).Ok?
    ensures NoEOF(Body(info, lib))
  {
    MetadataNoEOF(info, lib);
    var meta := MetadataBlocks(info, lib);
    var fbs := FileBlocks(info.files, lib).value;
    var body := Body(info, lib);
    forall i | 0 <= i < |body|
      ensures body[i].tag != PlgxEOF
    {
      if i < |meta| {
        assert body[i] == meta[i];
      } else if i == |meta| {
      } else if i < |meta| + 1 + |fbs| {
        assert body[i] == fbs[i - |meta| - 1] == AddFile(info.files[i - |meta| - 1], lib).value;
      }
    }
  }

  /** The blocks after the header: the body, then one zero-length `EOF` block. */
  function Stream(body: seq<Block>): Bytes {
    Serialize(body) + WriteObject(Block(PlgxEOF, None))
  }

  /** The writer's output is the header followed by the body's stream. */
  lemma PackageShape(info: PlgxInfo, lib: Collaborators)
    requires Plan(info, lib).Ok?
    ensures WriteFile(info, lib).value == Header(info.version) + Stream(Body(info, lib))
  {
    var eof := Block(PlgxEOF, None);
    PlanBody(info, lib);
    SerializeAppend(Body(info, lib), [eof]);
    assert Serialize([eof]) == WriteObject(eof) + Serialize([]);
  }

  /** A lone zero-length `EOF` block ends the read with the state unchanged. */
  lemma ReadLoopEOF(st: Reading, lib: Collaborators, flavour: Flavour)
    ensures ReadLoop(WriteObject(Block(PlgxEOF, None)), st, lib, flavour) == Ok(st)
  {
    var eof := WriteObject(Block(PlgxEOF, None));
    ReadWriteObject(Block(PlgxEOF, None), []);
    assert eof + [] == eof;
  }

  /** What `ReadFile` makes of the loop's final state. */
  function PackageRead(r: Result<Reading, Failure>): Result<PlgxInfo, Failure> {
    match r
    case Err(e) => Err(e)
    case Ok(st) => Ok(st.info)
  }

  /** A written header passes the signature check and leaves the version gate to decide. */
  lemma ReadHeader(version: u32, rest: Bytes, lib: Collaborators, flavour: Flavour)
    ensures ReadFile(Header(version) + rest, lib, flavour)
      == if VersionSupported(version) then PackageRead(ReadLoop(rest, Start(version), lib, flavour))
         else Err(PlgxException(FileVersionUnsupported))
  {
    var s := Header(version) + rest;
    assert s[..4] == Header(version)[..4] && s[4..8] == Header(version)[4..8];
    assert s[8..12] == Header(version)[8..12] && s[12..] == rest;
  }

  /** A lone zero-length block takes one reader step. */
  lemma FoldMarker(st: Reading, tag: u16, st': Reading, lib: Collaborators, flavour: Flavour)
    requires Step(st, Block(tag, None), lib, flavour) == Ok(st')
    ensures Fold(st, [Block(tag, None)], lib, flavour) == Ok(st')
  {
    assert [Block(tag, None)][1..] == [];
  }

  /** The stream of an `EOF`-free body reads back as the body's fold. */
  lemma ReadStream(body: seq<Block>, st: Reading, last: Reading, lib: Collaborators, flavour: Flavour)
    requires NoEOF(body)
    requires Fold(st, body, lib, flavour) == Ok(last)
    ensures ReadLoop(Stream(body), st, lib, flavour) == Ok(last)
  {
    ReadLoopOverBlocks(body, WriteObject(Block(PlgxEOF, None)), st, lib, flavour);
    ReadLoopEOF(last, lib, flavour);
  }

  /** A header and the stream of an `EOF`-free body read back as the body's fold, when the version passes. */
  lemma ReadPackageBytes(version: u32, body: seq<Block>, last: Reading, lib: Collaborators, flavour: Flavour)
    requires NoEOF(body)
    requires Fold(Start(version), body, lib, flavour) == Ok(last)
    ensures ReadFile(Header(version) + Stream(body), lib, flavour)
      == if VersionSupported(version) then Ok(last.info) else Err(PlgxException(FileVersionUnsupported))
  {
    ReadHeader(version, Stream(body), lib, flavour);
    ReadStream(body, Start(version), last, lib, flavour);
  }

  /** The body's blocks, read from a fresh state, give the expected package with the content section closed. */
  lemma FoldBody(info: PlgxInfo, lib: Collaborators, flavour: Flavour)
    requires Plan(info, lib).Ok?
    requires Readable(info, lib)
    ensures Fold(Start(info.version), Body(info, lib), lib, flavour) == Ok(Reading(Expected(info, lib, flavour), Closed))
  {
    var meta := MetadataBlocks(info, lib);
    var begin := [Block(PlgxBeginContent, None)];
    var fbs := FileBlocks(info.files, lib).value;
    var end := [Block(PlgxEndContent, None)];
    var m := Canonical(info).(files := []);
    FoldMetadata(info, lib, flavour);
    FoldAppend(Start(info.version), meta, begin, lib, flavour);
    FoldMarker(Reading(m, Unopened), PlgxBeginContent, Reading(m, Open), lib, flavour);
    FoldAppend(Start(info.version), meta + begin, fbs, lib, flavour);
    assert FreshPaths(m.files, info.files, lib);
    FoldFiles(Reading(m, Open), info.files, lib, flavour);
    var full := AddStored(Reading(m, Open), info.files, lib, flavour);
    assert m.files + Stored(info.files, lib, flavour) == Stored(info.files, lib, flavour);
    assert full.info == Expected(info, lib, flavour);
    FoldAppend(Start(info.version), meta + begin + fbs, end, lib, flavour);
    FoldMarker(full, PlgxEndContent, full.(content := Closed), lib, flavour);
  }

  /**
   * The round trip: whatever the writer produces, either reader gives back
   * every field it wrote and every entry in write order (decompressed by
   * the tools reader, as stored by the inspector), provided the version is
   * one the readers accept.
   */
  lemma RoundTripPackage(info: PlgxInfo, lib: Collaborators, flavour: Flavour)
    requires Plan(info, lib).Ok?
    requires Readable(info, lib)
    ensures ReadFile(WriteFile(info, lib).value, lib, flavour)
      == if VersionSupported(info.version) then Ok(Expected(info, lib, flavour))
         else Err(PlgxException(FileVersionUnsupported))
  {
    PackageShape(info, lib);
    BodyNoEOF(info, lib);
    FoldBody(info, lib, flavour);
    ReadPackageBytes(info.version, Body(info, lib), Reading(Expected(info, lib, flavour), Closed), lib, flavour);
  }
}
