/**
 * The in-memory package (`PlgxInfo`), the format's constants, and the
 * KeePassLib helpers the codec leans on.
 */
module Package {
  import opened Wrappers
  import opened LittleEndian
  import opened Failures

  const PlgxSignature1: u32 := 0x65D9_0719
  const PlgxSignature2: u32 := 0x3DDD_0503
  const PlgxVersion1: u32 := 0x0001_0000

  // Top-level block tags.
  const PlgxEOF: u16 := 0
  const PlgxFileUuid: u16 := 1
  const PlgxBaseFileName: u16 := 2
  const PlgxBeginContent: u16 := 3
  const PlgxFile: u16 := 4
  const PlgxEndContent: u16 := 5
  const PlgxCreationTime: u16 := 6
  const PlgxGeneratorName: u16 := 7
  const PlgxGeneratorVersion: u16 := 8
  const PlgxPrereqKP: u16 := 9    // KeePass version
  const PlgxPrereqNet: u16 := 10  // .NET Framework version
  const PlgxPrereqOS: u16 := 11   // operating system
  const PlgxPrereqPtr: u16 := 12  // pointer size
  const PlgxBuildPre: u16 := 13
  const PlgxBuildPost: u16 := 14

  // Tags inside a file block's payload.
  const PlgxfEOF: u16 := 0
  const PlgxfPath: u16 := 1
  const PlgxfData: u16 := 2

  /** Entries at least this long are refused by the writer (`int.MaxValue / 2`, about 1 GB). */
  const MaxEntryLength: nat := MaxArrayLength / 2

  /** `Version & PlgxVersionMask`: the version word with its low 16 bits cleared. */
  function MajorBits(v: u32): (r: u32)
    ensures r <= v < r + 0x1_0000
    ensures r % 0x1_0000 == 0
  {
    (v / 0x1_0000) * 0x1_0000
  }

  /** The readers' gate: the masked version may not exceed the masked `PlgxVersion1`. */
  predicate VersionSupported(v: u32) {
    MajorBits(v) <= MajorBits(PlgxVersion1)
  }

  /** A version is accepted exactly when its major half is 0 or 1; the minor half never matters. */
  lemma VersionGate(v: u32)
    ensures VersionSupported(v) <==> v < 0x2_0000
    ensures VersionSupported(v) <==> VersionSupported(MajorBits(v))
  {
    assert MajorBits(PlgxVersion1) == 0x1_0000;
    if v < 0x2_0000 {
      assert v / 0x1_0000 <= 1;
    } else {
      assert v / 0x1_0000 >= 2;
    }
  }

  /** A `PwUuid`'s bytes. */
  type Uuid = b: Bytes | |b| == 16 witness [0, 0, 0, 0, 0, 0, 0, 0, 0, 0, 0, 0, 0, 0, 0, 0]

  /** One file of the package: its relative path and its contents (compressed in the inspector's view). */
  datatype Entry = Entry(path: string, data: NetBytes)

  /**
   * `PlgxInfo`. Nullable fields are `Option`s; `files` keeps the
   * dictionary's enumeration order, which is insertion order.
   */
  datatype PlgxInfo = PlgxInfo(
    version: u32,
    fileUuid: Option<Uuid>,
    baseFileName: Option<string>,
    creationTime: Option<string>,
    generatorName: Option<string>,
    generatorVersion: u64,
    prereqKP: Option<u64>,
    prereqNet: Option<u64>,
    prereqOS: Option<string>,
    prereqPtr: Option<u32>,
    buildPre: Option<string>,
    buildPost: Option<string>,
    files: seq<Entry>)

  /** A freshly constructed `PlgxInfo` with only its version set, as both readers start. */
  function Fresh(version: u32): (info: PlgxInfo)
    ensures info.version == version && info.files == []
  {
    PlgxInfo(version, None, None, None, None, 0, None, None, None, None, None, None, [])
  }

  function Paths(files: seq<Entry>): (ps: seq<string>)
    ensures |ps| == |files|
    ensures forall i :: 0 <= i < |files| ==> ps[i] == files[i].path
  {
    seq(|files|, i requires 0 <= i < |files| => files[i].path)
  }

  /** No path occurs twice: what a dictionary keyed by path guarantees. */
  predicate DistinctPaths(files: seq<Entry>) {
    forall i, j :: 0 <= i < j < |files| ==> files[i].path != files[j].path
  }

  /** Every entry has a path: what both readers demand before they keep an entry. */
  predicate NonEmptyPaths(files: seq<Entry>) {
    forall i :: 0 <= i < |files| ==> files[i].path != ""
  }

  /**
   * `Files.Add(path, data)`: appends the entry, or throws
   * `ArgumentException` when the path is already a key.
   */
  function AddEntry(info: PlgxInfo, path: string, data: NetBytes): (r: Result<PlgxInfo, Failure>)
    ensures r.Err? <==> exists i :: 0 <= i < |info.files| && info.files[i].path == path
    ensures r.Err? ==> r.error == ArgumentException(DuplicateKey)
    ensures r.Ok? ==> r.value == info.(files := info.files + [Entry(path, data)])
    ensures r.Ok? && DistinctPaths(info.files) ==> DistinctPaths(r.value.files)
    ensures r.Ok? && NonEmptyPaths(info.files) && path != "" ==> NonEmptyPaths(r.value.files)
  {
    if path in Paths(info.files) then Err(ArgumentException(DuplicateKey))
    else Ok(info.(files := info.files + [Entry(path, data)]))
  }

  /**
   * The KeePassLib helpers the codec calls, whose code is not part of this
   * model: `StrUtil.Utf8.GetBytes`/`GetString` and `MemUtil.Compress`/
   * `Decompress` (`None` when decompression throws).
   */
  datatype Collaborators = Collaborators(
    utf8GetBytes: string -> NetBytes,
    utf8GetString: NetBytes -> string,
    compress: NetBytes -> NetBytes,
    decompress: NetBytes -> Option<NetBytes>)

  /** `s` survives UTF-8 encoding and decoding and does not encode to zero bytes. */
  ghost predicate TextRoundTrips(lib: Collaborators, s: string) {
    && |lib.utf8GetBytes(s)| > 0
    && lib.utf8GetString(lib.utf8GetBytes(s)) == s
  }
}
