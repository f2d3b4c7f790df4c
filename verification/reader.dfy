/**
 * The PLGX reader: `ReadFile`, `ReadObject` and `ExtractFile` of
 * `PlgxTools/PlgxInfo.cs`, and their near-copy in the inspector's
 * `Program.cs`. One reader serves both; `Flavour` selects the two points
 * where they differ.
 */
module Reader {
  import opened Wrappers
  import opened LittleEndian
  import opened Failures
  import opened Framing
  import opened Package

  /**
   * Which reader: the tools library decompresses file data and reports a
   * bad signature as a `PlgxException`; the inspector keeps file data
   * compressed and throws a plain `Exception`.
   */
  datatype Flavour = PlgxTools | PlgxInspector

  /** The reader's `bool? content`: null before `BeginContent`, true inside the section, false after it. */
  datatype Content = Unopened | Open | Closed

  /** Everything the top-level loop carries from one block to the next. */
  datatype Reading = Reading(info: PlgxInfo, content: Content)

  function SignatureFailure(flavour: Flavour): Failure {
    match flavour
    case PlgxTools => PlgxException(InvalidSignature)
    case PlgxInspector => PlainException
  }

  /** `StrUtil.Utf8.GetString` on a payload; a null payload throws. */
  function GetString(data: Option<NetBytes>, lib: Collaborators): (r: Result<string, Failure>)
    ensures r.Ok? <==> data.Some?
    ensures r.Ok? ==> r.value == lib.utf8GetString(data.value)
    ensures r.Err? ==> r.error == ArgumentNull
  {
    match data
    case None => Err(ArgumentNull)
    case Some(b) => Ok(lib.utf8GetString(b))
  }

  /** `new PwUuid(payload)`: null throws, and so does any length but 16. */
  function GetUuid(data: Option<NetBytes>): (r: Result<Uuid, Failure>)
    ensures r.Ok? <==> data.Some? && |data.value| == 16
    ensures r.Ok? ==> r.value == data.value
  {
    match data
    case None => Err(ArgumentNull)
    case Some(b) => if |b| == 16 then Ok(b) else Err(ArgumentException(WrongSize))
  }

  /** `MemUtil.BytesToUInt64(payload)`: null throws, and so does any length but 8. */
  function GetUInt64(data: Option<NetBytes>): (r: Result<u64, Failure>)
    ensures r.Ok? <==> data.Some? && |data.value| == 8
    ensures r.Ok? ==> UInt64ToBytes(r.value) == data.value
  {
    match data
    case None => Err(ArgumentNull)
    case Some(b) => if |b| == 8 then Ok(BytesToUInt64(b)) else Err(ArgumentException(WrongSize))
  }

  /** `MemUtil.BytesToUInt32(payload)`: null throws, and so does any length but 4. */
  function GetUInt32(data: Option<NetBytes>): (r: Result<u32, Failure>)
    ensures r.Ok? <==> data.Some? && |data.value| == 4
    ensures r.Ok? ==> UInt32ToBytes(r.value) == data.value
  {
    match data
    case None => Err(ArgumentNull)
    case Some(b) => if |b| == 4 then Ok(BytesToUInt32(b)) else Err(ArgumentException(WrongSize))
  }

  /** Whether a `Path` sub-block is read before the sub-stream's `EOF` (or before the sub-stream breaks off). */
  predicate PathSeen(s: Bytes)
    decreases |s|
  {
    match ReadObject(s)
    case Err(_) => false
    case Ok((b, rest)) => b.tag != PlgxfEOF && (b.tag == PlgxfPath || PathSeen(rest))
  }

  /**
   * The loop of `ExtractFile`: reads sub-blocks up to the sub-stream's
   * `EOF`, keeping the last path and the last data payload seen and
   * skipping unknown sub-tags. A later `Data` block of length 0 resets the
   * data to null, as the assignment in the source does.
   */
  function ExtractLoop(s: Bytes, path: Option<string>, contents: Option<NetBytes>, lib: Collaborators)
    : (r: Result<(Option<string>, Option<NetBytes>), Failure>)
    ensures r.Err? ==> r.error == Corrupted || r.error == ArgumentNull
    ensures r.Ok? ==> (r.value.0.Some? <==> path.Some? || PathSeen(s))
    ensures r.Ok? && !PathSeen(s) ==> r.value.0 == path
    decreases |s|
  {
    match ReadObject(s)
    case Err(e) => Err(e)
    case Ok((b, rest)) =>
      if b.tag == PlgxfEOF then Ok((path, contents))
      else if b.tag == PlgxfPath then
        var p :- GetString(b.data, lib);
        ExtractLoop(rest, Some(p), contents, lib)
      else if b.tag == PlgxfData then ExtractLoop(rest, path, b.data, lib)
      else ExtractLoop(rest, path, contents, lib)
  }

  /**
   * `ExtractFile(byte[])`: the entry a file block describes, or `None`
   * when its path is null or empty or it has no data. The tools reader
   * decompresses the data; the inspector returns it as stored.
   */
  function ExtractFile(data: Option<NetBytes>, lib: Collaborators, flavour: Flavour): (r: Result<Option<Entry>, Failure>)
    ensures data.None? ==> r == Err(ArgumentNull)
    ensures r.Ok? && r.value.Some? ==> r.value.value.path != ""
    ensures r.Ok? && r.value.Some? && flavour == PlgxInspector ==>
      ExtractLoop(data.value, None, None, lib) == Ok((Some(r.value.value.path), Some(r.value.value.data)))
    ensures r.Ok? && r.value.Some? && flavour == PlgxTools ==>
      exists c :: ExtractLoop(data.value, None, None, lib) == Ok((Some(r.value.value.path), Some(c)))
        && lib.decompress(c) == Some(r.value.value.data)
    ensures data.Some? && ExtractLoop(data.value, None, None, lib).Err? ==> r == Err(ExtractLoop(data.value, None, None, lib).error)
    ensures data.Some? && ExtractLoop(data.value, None, None, lib).Ok? ==>
      var (p, c) := ExtractLoop(data.value, None, None, lib).value;
      && (p.None? || p.value == "" || c.None? ==> r == Ok(None))
      && (p.Some? && p.value != "" && c.Some? && flavour == PlgxInspector ==> r == Ok(Some(Entry(p.value, c.value))))
      && (p.Some? && p.value != "" && c.Some? && flavour == PlgxTools ==>
            r == match lib.decompress(c.value)
                 case None => Err(InvalidData)
                 case Some(d) => Ok(Some(Entry(p.value, d))))
  {
    match data
    case None => Err(ArgumentNull)
    case Some(payload) =>
      match ExtractLoop(payload, None, None, lib)
      case Err(e) => Err(e)
      case Ok((path, contents)) =>
        if path.None? || path.value == "" || contents.None? then Ok(None)
        else if flavour == PlgxInspector then Ok(Some(Entry(path.value, contents.value)))
        else match lib.decompress(contents.value)
          case None => Err(InvalidData)
          case Some(raw) => Ok(Some(Entry(path.value, raw)))
  }

  /** A tag the reader acts on; every other tag is skipped. */
  predicate KnownTag(t: u16) {
    t <= PlgxBuildPost
  }

  /**
   * One turn of the top-level loop for a block other than `EOF`: a scalar
   * tag sets its field (the last occurrence wins), the content tags drive
   * the open/closed state, a file block adds its entry, and an unknown tag
   * changes nothing.
   */
  function Step(st: Reading, b: Block, lib: Collaborators, flavour: Flavour): (r: Result<Reading, Failure>)
    ensures b.tag == PlgxBeginContent ==>
      && (r.Ok? <==> st.content == Unopened)
      && (r.Ok? ==> r.value == st.(content := Open))
      && (r.Err? ==> r.error == Corrupted)
    ensures b.tag == PlgxEndContent ==>
      && (r.Ok? <==> st.content == Open)
      && (r.Ok? ==> r.value == st.(content := Closed))
      && (r.Err? ==> r.error == Corrupted)
    ensures b.tag == PlgxFile && st.content != Open ==> r == Err(Corrupted)
    ensures !KnownTag(b.tag) ==> r == Ok(st)
    ensures r.Ok? ==> r.value.info.version == st.info.version
    ensures r.Ok? && b.tag !in {PlgxBeginContent, PlgxEndContent} ==> r.value.content == st.content
    ensures r.Ok? && b.tag != PlgxFile ==> r.value.info.files == st.info.files
    ensures r.Ok? && b.tag == PlgxFile ==>
      || r.value == st
      || exists e :: r.value.info == st.info.(files := st.info.files + [e]) && e.path != "" && e.path !in Paths(st.info.files)
  {
    var info := st.info;
    if b.tag == PlgxFileUuid then
      var u :- GetUuid(b.data);
      Ok(st.(info := info.(fileUuid := Some(u))))
    else if b.tag == PlgxBaseFileName then
      var v :- GetString(b.data, lib);
      Ok(st.(info := info.(baseFileName := Some(v))))
    else if b.tag == PlgxCreationTime then
      var v :- GetString(b.data, lib);
      Ok(st.(info := info.(creationTime := Some(v))))
    else if b.tag == PlgxGeneratorName then
      var v :- GetString(b.data, lib);
      Ok(st.(info := info.(generatorName := Some(v))))
    else if b.tag == PlgxGeneratorVersion then
      var v :- GetUInt64(b.data);
      Ok(st.(info := info.(generatorVersion := v)))
    else if b.tag == PlgxPrereqKP then
      var v :- GetUInt64(b.data);
      Ok(st.(info := info.(prereqKP := Some(v))))
    else if b.tag == PlgxPrereqNet then
      var v :- GetUInt64(b.data);
      Ok(st.(info := info.(prereqNet := Some(v))))
    else if b.tag == PlgxPrereqOS then
      var v :- GetString(b.data, lib);
      Ok(st.(info := info.(prereqOS := Some(v))))
    else if b.tag == PlgxPrereqPtr then
      var v :- GetUInt32(b.data);
      Ok(st.(info := info.(prereqPtr := Some(v))))
    else if b.tag == PlgxBuildPre then
      var v :- GetString(b.data, lib);
      Ok(st.(info := info.(buildPre := Some(v))))
    else if b.tag == PlgxBuildPost then
      var v :- GetString(b.data, lib);
      Ok(st.(info := info.(buildPost := Some(v))))
    else if b.tag == PlgxBeginContent then
      if st.content != Unopened then Err(Corrupted) else Ok(st.(content := Open))
    else if b.tag == PlgxFile then
      if st.content != Open then Err(Corrupted)
      else
        var found :- ExtractFile(b.data, lib, flavour);
        match found
        case None => Ok(st)
        case Some(entry) =>
          var info' :- AddEntry(info, entry.path, entry.data);
          Ok(st.(info := info'))
    else if b.tag == PlgxEndContent then
      if st.content != Open then Err(Corrupted) else Ok(st.(content := Closed))
    else Ok(st)
  }

  /**
   * The top-level loop: read a block, stop at the first `EOF` (whatever
   * follows it is never read), otherwise take a step. Any failure ends the
   * whole read.
   */
  function ReadLoop(s: Bytes, st: Reading, lib: Collaborators, flavour: Flavour): (r: Result<Reading, Failure>)
    ensures r.Ok? ==> r.value.info.version == st.info.version
    ensures r.Ok? ==> |st.info.files| <= |r.value.info.files| && r.value.info.files[..|st.info.files|] == st.info.files
    ensures r.Ok? && DistinctPaths(st.info.files) ==> DistinctPaths(r.value.info.files)
    ensures r.Ok? && NonEmptyPaths(st.info.files) ==> NonEmptyPaths(r.value.info.files)
    decreases |s|
  {
    match ReadObject(s)
    case Err(e) => Err(e)
    case Ok((b, rest)) =>
      if b.tag == PlgxEOF then Ok(st)
      else match Step(st, b, lib, flavour)
        case Err(e) => Err(e)
        case Ok(st') =>
          StepGrows(st, b, lib, flavour);
          var r := ReadLoop(rest, st', lib, flavour);
          if r.Ok? then PrefixTrans(st.info.files, st'.info.files, r.value.info.files); r else r
  }

  /** What one step does to the entries: keeps them as a prefix, with distinct non-empty paths if they had them. */
  lemma StepGrows(st: Reading, b: Block, lib: Collaborators, flavour: Flavour)
    requires Step(st, b, lib, flavour).Ok?
    ensures var files := Step(st, b, lib, flavour).value.info.files;
      && |st.info.files| <= |files| && files[..|st.info.files|] == st.info.files
      && (DistinctPaths(st.info.files) ==> DistinctPaths(files))
      && (NonEmptyPaths(st.info.files) ==> NonEmptyPaths(files))
  {
    var files := Step(st, b, lib, flavour).value.info.files;
    if files != st.info.files {
      var e :| files == st.info.files + [e] && e.path != "" && e.path !in Paths(st.info.files);
      assert files[..|st.info.files|] == st.info.files;
      if DistinctPaths(st.info.files) {
        forall i, j | 0 <= i < j < |files|
          ensures files[i].path != files[j].path
        {
          if j == |st.info.files| {
            assert files[i].path == Paths(st.info.files)[i];
          }
        }
      }
    }
  }

  lemma PrefixTrans(a: seq<Entry>, b: seq<Entry>, c: seq<Entry>)
    requires |a| <= |b| && b[..|a|] == a
    requires |b| <= |c| && c[..|b|] == b
    ensures c[..|a|] == a
  {
    assert c[..|a|] == c[..|b|][..|a|];
  }

  /** The first two words of `s` are the PLGX signatures. */
  predicate SignaturesMatch(s: Bytes)
    requires |s| >= 12
  {
    BytesToUInt32(s[..4]) == PlgxSignature1 && BytesToUInt32(s[4..8]) == PlgxSignature2
  }

  /**
   * `ReadFile`: the two signature words and the version are read before
   * anything is checked; then the signatures, then the version gate, then
   * the blocks.
   */
  function ReadFile(s: Bytes, lib: Collaborators, flavour: Flavour): (r: Result<PlgxInfo, Failure>)
    ensures |s| < 12 ==> r == Err(EndOfStream)
    ensures |s| >= 12 && !SignaturesMatch(s) ==> r == Err(SignatureFailure(flavour))
    ensures |s| >= 12 && SignaturesMatch(s) && !VersionSupported(BytesToUInt32(s[8..12]))
      ==> r == Err(PlgxException(FileVersionUnsupported))
    ensures r.Ok? ==> && r.value.version == BytesToUInt32(s[8..12])
                      && VersionSupported(r.value.version)
                      && DistinctPaths(r.value.files)
                      && NonEmptyPaths(r.value.files)
  {
    if |s| < 12 then Err(EndOfStream)
    else
      var signature1 := BytesToUInt32(s[..4]);
      var signature2 := BytesToUInt32(s[4..8]);
      var version := BytesToUInt32(s[8..12]);
      if signature1 != PlgxSignature1 || signature2 != PlgxSignature2 then Err(SignatureFailure(flavour))
      else if !VersionSupported(version) then Err(PlgxException(FileVersionUnsupported))
      else match ReadLoop(s[12..], Reading(Fresh(version), Unopened), lib, flavour)
        case Err(e) => Err(e)
        case Ok(st) => Ok(st.info)
  }
}
