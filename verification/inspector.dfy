/**
 * The inspector's reader (`PlgxInspector/Program.cs`) against the tools
 * reader: both run the same loop over the same blocks, so they fail on the
 * same inputs with the same exceptions, except that the tools reader alone
 * decompresses, and so alone can fail with `InvalidData`, and that a bad
 * signature is a plain `Exception` in the inspector. The inspector's own
 * `PlgxInfo` has non-nullable prerequisites, which read as 0 when absent.
 */
module Inspector {
  import opened Wrappers
  import opened LittleEndian
  import opened Failures
  import opened Framing
  import opened Package
  import opened Writer
  import opened Reader
  import opened RoundTrip

  /** The inspector's `PlgxInfo`: the same fields, but `PrereqKP`, `PrereqNet` and `PrereqPtr` are plain integers. */
  datatype InspectorInfo = InspectorInfo(
    version: u32,
    fileUuid: Option<Uuid>,
    baseFileName: Option<string>,
    creationTime: Option<string>,
    generatorName: Option<string>,
    generatorVersion: u64,
    prereqKP: u64,
    prereqNet: u64,
    prereqOS: Option<string>,
    prereqPtr: u32,
    buildPre: Option<string>,
    buildPost: Option<string>,
    files: seq<Entry>)

  /** The inspector's view of a package: an absent prerequisite is the property's default, 0. */
  function Project(info: PlgxInfo): InspectorInfo {
    InspectorInfo(info.version, info.fileUuid, info.baseFileName, info.creationTime, info.generatorName,
                  info.generatorVersion, info.prereqKP.GetOr(0), info.prereqNet.GetOr(0), info.prereqOS,
                  info.prereqPtr.GetOr(0), info.buildPre, info.buildPost, info.files)
  }

  /** The inspector's `ReadFile`. */
  function Inspect(s: Bytes, lib: Collaborators): (r: Result<InspectorInfo, Failure>)
    ensures |s| < 12 ==> r == Err(EndOfStream)
    ensures |s| >= 12 && !SignaturesMatch(s) ==> r == Err(PlainException)
    ensures |s| >= 12 && SignaturesMatch(s) && !VersionSupported(BytesToUInt32(s[8..12]))
      ==> r == Err(PlgxException(FileVersionUnsupported))
    ensures r.Ok? ==> r.value.version == BytesToUInt32(s[8..12]) && DistinctPaths(r.value.files)
  {
    match ReadFile(s, lib, PlgxInspector)
    case Err(e) => Err(e)
    case Ok(info) => Ok(Project(info))
  }

  /**
   * What the inspector shows for a package the writer produced: every
   * field, an absent prerequisite as 0, and each entry's data as stored.
   */
  lemma InspectWritten(info: PlgxInfo, lib: Collaborators)
    requires Plan(info, lib).Ok? && Readable(info, lib) && VersionSupported(info.version)
    ensures var r := Inspect(WriteFile(info, lib).value, lib);
      && r == Ok(Project(Expected(info, lib, PlgxInspector)))
      && r.value.prereqKP == info.prereqKP.GetOr(0)
      && r.value.prereqNet == info.prereqNet.GetOr(0)
      && r.value.prereqPtr == info.prereqPtr.GetOr(0)
      && r.value.generatorVersion == info.generatorVersion
      && r.value.baseFileName == info.baseFileName
      && |r.value.files| == |info.files|
      && forall i :: 0 <= i < |info.files| ==>
           r.value.files[i] == Entry(info.files[i].path, lib.compress(info.files[i].data))
  {
    RoundTripPackage(info, lib, PlgxInspector);
  }

  // ---------------------------------------------------------------------
  // The two readers side by side
  // ---------------------------------------------------------------------

  /** The inspector's entries are the tools reader's entries with their data as stored, before decompression. */
  ghost predicate FilesRelated(tools: seq<Entry>, inspector: seq<Entry>, lib: Collaborators) {
    && |tools| == |inspector|
    && forall k :: 0 <= k < |tools| ==>
         tools[k].path == inspector[k].path && lib.decompress(inspector[k].data) == Some(tools[k].data)
  }

  /** Two packages that differ only in how their entries' data is held. */
  ghost predicate InfoRelated(tools: PlgxInfo, inspector: PlgxInfo, lib: Collaborators) {
    tools.(files := []) == inspector.(files := []) && FilesRelated(tools.files, inspector.files, lib)
  }

  ghost predicate Related(tools: Reading, inspector: Reading, lib: Collaborators) {
    tools.content == inspector.content && InfoRelated(tools.info, inspector.info, lib)
  }

  /**
   * The tools reader's outcome against the inspector's: it fails to
   * decompress, or both succeed with related results, or both fail with
   * the same exception.
   */
  ghost predicate Simulates<T>(tools: Result<T, Failure>, inspector: Result<T, Failure>, rel: (T, T) -> bool) {
    || tools == Err(InvalidData)
    || (tools.Ok? && inspector.Ok? && rel(tools.value, inspector.value))
    || (tools.Err? && inspector.Err? && tools.error == inspector.error)
  }

  lemma RelatedPaths(tools: seq<Entry>, inspector: seq<Entry>, lib: Collaborators)
    requires FilesRelated(tools, inspector, lib)
    ensures Paths(tools) == Paths(inspector)
  {
  }

  /** The two readers' `ExtractFile` on the same payload. */
  lemma ExtractRelated(data: Option<NetBytes>, lib: Collaborators)
    ensures var t := ExtractFile(data, lib, PlgxTools);
            var i := ExtractFile(data, lib, PlgxInspector);
      || t == Err(InvalidData)
      || (t.Err? && i.Err? && t.error == i.error)
      || (t == Ok(None) && i == Ok(None))
      || (t.Ok? && t.value.Some? && i.Ok? && i.value.Some? && t.value.value.path == i.value.value.path
          && lib.decompress(i.value.value.data) == Some(t.value.value.data))
  {
  }

  /** A file block, inside an open section, keeps the two readers related. */
  lemma StepFileRelated(t: Reading, i: Reading, b: Block, lib: Collaborators)
    requires Related(t, i, lib) && b.tag == PlgxFile && t.content == Open
    ensures Simulates(Step(t, b, lib, PlgxTools), Step(i, b, lib, PlgxInspector),
                      (x, y) => Related(x, y, lib))
  {
    ExtractRelated(b.data, lib);
    RelatedPaths(t.info.files, i.info.files, lib);
    var et := ExtractFile(b.data, lib, PlgxTools);
    var ei := ExtractFile(b.data, lib, PlgxInspector);
    if et.Ok? && et.value.Some? && ei.Ok? && ei.value.Some? {
      var x := et.value.value;
      var y := ei.value.value;
      var at := AddEntry(t.info, x.path, x.data);
      var ai := AddEntry(i.info, y.path, y.data);
      assert at.Err? <==> ai.Err?;
      if at.Ok? {
        assert FilesRelated(at.value.files, ai.value.files, lib) by {
          forall k | 0 <= k < |at.value.files|
            ensures at.value.files[k].path == ai.value.files[k].path
            ensures lib.decompress(ai.value.files[k].data) == Some(at.value.files[k].data)
          {
            if k < |t.info.files| {
              assert at.value.files[k] == t.info.files[k];
              assert ai.value.files[k] == i.info.files[k];
            }
          }
        }
      }
    }
  }

  /** Any block other than a file block takes both readers to related states, or fails both alike. */
  lemma StepOtherRelated(t: Reading, i: Reading, b: Block, lib: Collaborators)
    requires Related(t, i, lib) && b.tag != PlgxFile
    ensures Simulates(Step(t, b, lib, PlgxTools), Step(i, b, lib, PlgxInspector),
                      (x, y) => Related(x, y, lib))
  {
  }

  lemma StepRelated(t: Reading, i: Reading, b: Block, lib: Collaborators)
    requires Related(t, i, lib)
    ensures Simulates(Step(t, b, lib, PlgxTools), Step(i, b, lib, PlgxInspector),
                      (x, y) => Related(x, y, lib))
  {
    if b.tag != PlgxFile {
      StepOtherRelated(t, i, b, lib);
    } else if t.content == Open {
      StepFileRelated(t, i, b, lib);
    }
  }

  /** The two top-level loops, run over the same bytes from related states. */
  lemma {:induction false} ReadLoopRelated(s: Bytes, t: Reading, i: Reading, lib: Collaborators)
    requires Related(t, i, lib)
    ensures Simulates(ReadLoop(s, t, lib, PlgxTools), ReadLoop(s, i, lib, PlgxInspector),
                      (x, y) => Related(x, y, lib))
    decreases |s|
  {
    match ReadObject(s)
    case Err(e) =>
    case Ok((b, rest)) =>
      if b.tag != PlgxEOF {
        StepRelated(t, i, b, lib);
        var rt := Step(t, b, lib, PlgxTools);
        var ri := Step(i, b, lib, PlgxInspector);
        if rt.Ok? && ri.Ok? && Related(rt.value, ri.value, lib) {
          ReadLoopRelated(rest, rt.value, ri.value, lib);
        }
      }
  }

  /**
   * The two readers agree on every input: once the signatures match, the
   * tools reader either fails to decompress some entry or does exactly
   * what the inspector does, returning the same package with each entry's
   * data decompressed, or failing with the same exception.
   */
  lemma ReadersAgree(s: Bytes, lib: Collaborators)
    requires |s| >= 12 && SignaturesMatch(s)
    ensures Simulates(ReadFile(s, lib, PlgxTools), ReadFile(s, lib, PlgxInspector),
                      (x, y) => InfoRelated(x, y, lib))
  {
    var version := BytesToUInt32(s[8..12]);
    if VersionSupported(version) {
      var st := Reading(Fresh(version), Unopened);
      ReadLoopRelated(s[12..], st, st, lib);
    }
  }

  /** What the inspector cannot read, the tools reader cannot read either. */
  lemma InspectorFailureIsShared(s: Bytes, lib: Collaborators)
    requires ReadFile(s, lib, PlgxInspector).Err?
    ensures ReadFile(s, lib, PlgxTools).Err?
  {
    if |s| >= 12 && SignaturesMatch(s) {
      ReadersAgree(s, lib);
    }
  }
}
