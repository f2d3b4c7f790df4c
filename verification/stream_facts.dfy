/**
 * What both readers do with block streams the round trip does not cover:
 * unknown tags, an early `EOF`, repeated fields, content blocks out of
 * place, and file sub-streams with unknown, repeated or empty parts. Some
 * of these the writer produces itself: an empty `Data` sub-block when a
 * file compresses to nothing, and a package whose required string encodes
 * to no bytes.
 */
module StreamFacts {
  import opened Wrappers
  import opened LittleEndian
  import opened Failures
  import opened Framing
  import opened Package
  import opened Writer
  import opened Reader
  import opened RoundTrip

  // ---------------------------------------------------------------------
  // The top-level loop
  // ---------------------------------------------------------------------

  /** A block with a tag the reader does not know is consumed and changes nothing. */
  lemma UnknownTagSkipped(b: Block, s: Bytes, st: Reading, lib: Collaborators, flavour: Flavour)
    requires !KnownTag(b.tag)
    ensures ReadLoop(WriteObject(b) + s, st, lib, flavour) == ReadLoop(s, st, lib, flavour)
  {
    ReadLoopWritten(b, s, st, lib, flavour);
  }

  /** An `EOF` block ends the read, whatever its payload and whatever follows it. */
  lemma EOFStops(d: Option<NetBytes>, s: Bytes, st: Reading, lib: Collaborators, flavour: Flavour)
    ensures ReadLoop(WriteObject(Block(PlgxEOF, d)) + s, st, lib, flavour) == Ok(st)
  {
    ReadWriteObject(Block(PlgxEOF, d), s);
  }

  /** A tag that sets one field of the package. */
  predicate ScalarTag(t: u16) {
    t == PlgxFileUuid || t == PlgxBaseFileName || PlgxCreationTime <= t <= PlgxBuildPost
  }

  /** A second block with the same scalar tag overwrites what the first one set. */
  lemma StepOverwrite(st: Reading, b1: Block, b2: Block, lib: Collaborators, flavour: Flavour)
    requires ScalarTag(b1.tag) && b2.tag == b1.tag
    requires Step(st, b1, lib, flavour).Ok?
    ensures Step(Step(st, b1, lib, flavour).value, b2, lib, flavour) == Step(st, b2, lib, flavour)
  {
  }

  /** In a stream, of two blocks with the same scalar tag the second one wins, once the first one is well formed. */
  lemma RepeatedScalar(b1: Block, b2: Block, s: Bytes, st: Reading, lib: Collaborators, flavour: Flavour)
    requires ScalarTag(b1.tag) && b2.tag == b1.tag
    requires Step(st, Canon(b1), lib, flavour).Ok?
    ensures ReadLoop(WriteObject(b1) + (WriteObject(b2) + s), st, lib, flavour)
      == ReadLoop(WriteObject(b2) + s, st, lib, flavour)
  {
    var st1 := Step(st, Canon(b1), lib, flavour).value;
    ReadLoopWritten(b1, WriteObject(b2) + s, st, lib, flavour);
    ReadLoopWritten(b2, s, st1, lib, flavour);
    ReadLoopWritten(b2, s, st, lib, flavour);
    StepOverwrite(st, Canon(b1), Canon(b2), lib, flavour);
  }

  /** `BeginContent` once the section has been opened, even after it was closed, corrupts the file. */
  lemma BeginTwiceFails(d: Option<NetBytes>, s: Bytes, st: Reading, lib: Collaborators, flavour: Flavour)
    requires st.content != Unopened
    ensures ReadLoop(WriteObject(Block(PlgxBeginContent, d)) + s, st, lib, flavour) == Err(Corrupted)
  {
    ReadLoopWritten(Block(PlgxBeginContent, d), s, st, lib, flavour);
  }

  /** A file block outside an open content section corrupts the file. */
  lemma FileOutsideFails(d: Option<NetBytes>, s: Bytes, st: Reading, lib: Collaborators, flavour: Flavour)
    requires st.content != Open
    ensures ReadLoop(WriteObject(Block(PlgxFile, d)) + s, st, lib, flavour) == Err(Corrupted)
  {
    ReadLoopWritten(Block(PlgxFile, d), s, st, lib, flavour);
  }

  /** `EndContent` outside an open content section corrupts the file. */
  lemma EndOutsideFails(d: Option<NetBytes>, s: Bytes, st: Reading, lib: Collaborators, flavour: Flavour)
    requires st.content != Open
    ensures ReadLoop(WriteObject(Block(PlgxEndContent, d)) + s, st, lib, flavour) == Err(Corrupted)
  {
    ReadLoopWritten(Block(PlgxEndContent, d), s, st, lib, flavour);
  }

  /** Opening, closing and reopening the content section corrupts the file. */
  lemma ReopenFails(d1: Option<NetBytes>, d2: Option<NetBytes>, d3: Option<NetBytes>, s: Bytes, st: Reading,
                    lib: Collaborators, flavour: Flavour)
    requires st.content == Unopened
    ensures ReadLoop(WriteObject(Block(PlgxBeginContent, d1)) + (WriteObject(Block(PlgxEndContent, d2))
                     + (WriteObject(Block(PlgxBeginContent, d3)) + s)), st, lib, flavour) == Err(Corrupted)
  {
    var tail := WriteObject(Block(PlgxBeginContent, d3)) + s;
    ReadLoopWritten(Block(PlgxBeginContent, d1), WriteObject(Block(PlgxEndContent, d2)) + tail, st, lib, flavour);
    ReadLoopWritten(Block(PlgxEndContent, d2), tail, st.(content := Open), lib, flavour);
    BeginTwiceFails(d3, s, st.(content := Closed), lib, flavour);
  }

  // ---------------------------------------------------------------------
  // The file sub-stream
  // ---------------------------------------------------------------------

  /** A sub-block with a tag other than `EOF`, `Path` and `Data` is skipped. */
  lemma ExtractSkipsUnknown(b: Block, s: Bytes, path: Option<string>, contents: Option<NetBytes>, lib: Collaborators)
    requires b.tag != PlgxfEOF && b.tag != PlgxfPath && b.tag != PlgxfData
    ensures ExtractLoop(WriteObject(b) + s, path, contents, lib) == ExtractLoop(s, path, contents, lib)
  {
    ReadWriteObject(b, s);
  }

  /** The sub-stream's `EOF` ends it with what has been collected so far. */
  lemma ExtractStopsAtEOF(d: Option<NetBytes>, s: Bytes, path: Option<string>, contents: Option<NetBytes>, lib: Collaborators)
    ensures ExtractLoop(WriteObject(Block(PlgxfEOF, d)) + s, path, contents, lib) == Ok((path, contents))
  {
    ReadWriteObject(Block(PlgxfEOF, d), s);
  }

  /** Of two `Data` sub-blocks the second one wins, including an empty one, which resets the data to null. */
  lemma ExtractLastDataWins(d1: Option<NetBytes>, d2: Option<NetBytes>, s: Bytes, path: Option<string>,
                            contents: Option<NetBytes>, lib: Collaborators)
    ensures ExtractLoop(WriteObject(Block(PlgxfData, d1)) + (WriteObject(Block(PlgxfData, d2)) + s), path, contents, lib)
      == ExtractLoop(s, path, Canon(Block(PlgxfData, d2)).data, lib)
  {
    ReadWriteObject(Block(PlgxfData, d1), WriteObject(Block(PlgxfData, d2)) + s);
    ReadWriteObject(Block(PlgxfData, d2), s);
  }

  /** Of two non-empty `Path` sub-blocks the second one wins. */
  lemma ExtractLastPathWins(p1: NetBytes, p2: NetBytes, s: Bytes, path: Option<string>, contents: Option<NetBytes>,
                            lib: Collaborators)
    requires |p1| > 0 && |p2| > 0
    ensures ExtractLoop(WriteObject(Block(PlgxfPath, Some(p1))) + (WriteObject(Block(PlgxfPath, Some(p2))) + s),
                        path, contents, lib)
      == ExtractLoop(s, Some(lib.utf8GetString(p2)), contents, lib)
  {
    ReadWriteObject(Block(PlgxfPath, Some(p1)), WriteObject(Block(PlgxfPath, Some(p2))) + s);
    ReadWriteObject(Block(PlgxfPath, Some(p2)), s);
  }

  /** A `Path` sub-block of length 0 reads as null, and `GetString(null)` throws. */
  lemma ExtractEmptyPathFails(d: Option<NetBytes>, s: Bytes, path: Option<string>, contents: Option<NetBytes>,
                              lib: Collaborators)
    requires Size(d) == 0
    ensures ExtractLoop(WriteObject(Block(PlgxfPath, d)) + s, path, contents, lib) == Err(ArgumentNull)
  {
    ReadWriteObject(Block(PlgxfPath, d), s);
  }

  /** An entry whose data compressed to nothing is dropped: its `Data` block reads as null. */
  lemma EmptyDataDropped(path: NetBytes, lib: Collaborators, flavour: Flavour)
    requires |path| > 0 && 18 + |path| <= MaxArrayLength
    ensures ExtractFile(Some(FilePayload(path, [])), lib, flavour) == Ok(None)
  {
    var p := Block(PlgxfPath, Some(path));
    var d := Block(PlgxfData, Some([]));
    var e := Block(PlgxfEOF, None);
    var s2 := WriteObject(e);
    var s1 := WriteObject(d) + s2;
    var s0 := WriteObject(p) + s1;
    assert FilePayload(path, []) == s0;
    var name := Some(lib.utf8GetString(path));
    ExtractStopsAtEOF(None, [], name, None, lib);
    assert s2 + [] == s2;
    ReadWriteObject(d, s2);
    assert ExtractLoop(s1, name, None, lib) == Ok((name, None));
    ReadWriteObject(p, s1);
    assert ExtractLoop(s0, None, None, lib) == Ok((name, None));
  }

  /** An entry whose path decodes to the empty string is dropped. */
  lemma EmptyPathDropped(path: NetBytes, compressed: NetBytes, lib: Collaborators, flavour: Flavour)
    requires |path| > 0 && |compressed| > 0 && 18 + |path| + |compressed| <= MaxArrayLength
    requires lib.utf8GetString(path) == ""
    ensures ExtractFile(Some(FilePayload(path, compressed)), lib, flavour) == Ok(None)
  {
    ExtractWrittenFile(path, compressed, lib);
  }

  /** A file block that describes no entry leaves the package as it was. */
  lemma DroppedFileChangesNothing(st: Reading, data: Option<NetBytes>, lib: Collaborators, flavour: Flavour)
    requires st.content == Open
    requires ExtractFile(data, lib, flavour) == Ok(None)
    ensures Step(st, Block(PlgxFile, data), lib, flavour) == Ok(st)
  {
  }

  /** A file block whose path is already taken fails as `Files.Add` does. */
  lemma DuplicatePathFails(st: Reading, data: Option<NetBytes>, x: Entry, lib: Collaborators, flavour: Flavour)
    requires st.content == Open
    requires ExtractFile(data, lib, flavour) == Ok(Some(x))
    requires x.path in Paths(st.info.files)
    ensures Step(st, Block(PlgxFile, data), lib, flavour) == Err(ArgumentException(DuplicateKey))
  {
    var i :| 0 <= i < |st.info.files| && Paths(st.info.files)[i] == x.path;
    assert st.info.files[i].path == x.path;
  }

  // ---------------------------------------------------------------------
  // Required strings that encode to nothing
  // ---------------------------------------------------------------------

  /** A required string whose UTF-8 form is empty. */
  predicate EmptyRequired(info: PlgxInfo, lib: Collaborators)
    requires RequiredPresent(info)
  {
    || |lib.utf8GetBytes(info.baseFileName.value)| == 0
    || |lib.utf8GetBytes(info.creationTime.value)| == 0
    || |lib.utf8GetBytes(info.generatorName.value)| == 0
  }

  /** The first required string that encodes to nothing is read as null, and `GetString(null)` throws. */
  lemma FoldEmptyRequired(info: PlgxInfo, lib: Collaborators, flavour: Flavour)
    requires RequiredPresent(info) && EmptyRequired(info, lib)
    ensures Fold(Start(info.version), MetadataBlocks(info, lib)[..5], lib, flavour) == Err(ArgumentNull)
  {
    var bs := MetadataBlocks(info, lib)[..5];
    var m0 := Reading(Fresh(info.version), Unopened);
    var m1 := m0.(info := m0.info.(fileUuid := info.fileUuid));
    var m2 := m1.(info := m1.info.(baseFileName := Some(lib.utf8GetString(lib.utf8GetBytes(info.baseFileName.value)))));
    var m3 := m2.(info := m2.info.(creationTime := Some(lib.utf8GetString(lib.utf8GetBytes(info.creationTime.value)))));
    assert Step(m0, Canon(bs[0]), lib, flavour) == Ok(m1);
    if |lib.utf8GetBytes(info.baseFileName.value)| == 0 {
      assert Step(m1, Canon(bs[1]), lib, flavour) == Err(ArgumentNull);
      assert Fold(m1, bs[1..], lib, flavour) == Err(ArgumentNull);
    } else {
      assert Step(m1, Canon(bs[1]), lib, flavour) == Ok(m2);
      if |lib.utf8GetBytes(info.creationTime.value)| == 0 {
        assert Step(m2, Canon(bs[2]), lib, flavour) == Err(ArgumentNull);
        assert Fold(m2, bs[2..], lib, flavour) == Err(ArgumentNull);
      } else {
        assert Step(m2, Canon(bs[2]), lib, flavour) == Ok(m3);
        assert Step(m3, Canon(bs[3]), lib, flavour) == Err(ArgumentNull);
        assert Fold(m3, bs[3..], lib, flavour) == Err(ArgumentNull);
        assert Fold(m2, bs[2..], lib, flavour) == Err(ArgumentNull);
      }
      assert Fold(m1, bs[1..], lib, flavour) == Err(ArgumentNull);
    }
  }

  /** The writer's body fails to read once a required string encodes to nothing. */
  lemma FoldBodyEmptyRequired(info: PlgxInfo, lib: Collaborators, flavour: Flavour)
    requires Plan(info, lib).Ok? && EmptyRequired(info, lib)
    ensures Fold(Start(info.version), Body(info, lib), lib, flavour) == Err(ArgumentNull)
  {
    var body := Body(info, lib);
    FoldEmptyRequired(info, lib, flavour);
    assert body == MetadataBlocks(info, lib)[..5] + body[5..];
    FoldAppend(Start(info.version), MetadataBlocks(info, lib)[..5], body[5..], lib, flavour);
  }

  /**
   * The writer accepts an empty base file name, creation time or generator
   * name, but no reader can read the result: the string's block has length
   * 0, reads as null, and `GetString(null)` throws.
   */
  lemma EmptyRequiredUnreadable(info: PlgxInfo, lib: Collaborators, flavour: Flavour)
    requires Plan(info, lib).Ok? && EmptyRequired(info, lib)
    requires VersionSupported(info.version)
    ensures ReadFile(WriteFile(info, lib).value, lib, flavour) == Err(ArgumentNull)
  {
    var body := Body(info, lib);
    PackageShape(info, lib);
    BodyNoEOF(info, lib);
    FoldBodyEmptyRequired(info, lib, flavour);
    ReadHeader(info.version, Stream(body), lib, flavour);
    ReadLoopOverBlocks(body, WriteObject(Block(PlgxEOF, None)), Start(info.version), lib, flavour);
  }
}
