/**
 * Writing what the tools reader returns reproduces the package byte for
 * byte: the only thing a round trip loses is the difference between a null
 * and an empty optional string, and the writer never sees that difference.
 */
module Rewrite {
  import opened Wrappers
  import opened LittleEndian
  import opened Failures
  import opened Package
  import opened Writer
  import opened Reader
  import opened RoundTrip

  /** An empty optional string and a null one are written the same way: not at all. */
  lemma OptionalTextNonEmpty(tag: u16, s: Option<string>, lib: Collaborators)
    ensures OptionalText(tag, NonEmpty(s), lib) == OptionalText(tag, s, lib)
  {
  }

  /** The writer's output does not depend on whether an absent optional string is null or empty. */
  lemma WriteCanonical(info: PlgxInfo, lib: Collaborators)
    ensures WriteFile(Canonical(info), lib) == WriteFile(info, lib)
  {
    var c := Canonical(info);
    if RequiredPresent(info) {
      OptionalTextNonEmpty(PlgxPrereqOS, info.prereqOS, lib);
      OptionalTextNonEmpty(PlgxBuildPre, info.buildPre, lib);
      OptionalTextNonEmpty(PlgxBuildPost, info.buildPost, lib);
      assert MetadataBlocks(c, lib) == MetadataBlocks(info, lib);
    }
    assert Plan(c, lib) == Plan(info, lib);
  }

  /** The tools reader returns each entry's data as it was before compression. */
  lemma StoredTools(files: seq<Entry>, lib: Collaborators)
    ensures Stored(files, lib, PlgxTools) == files
  {
  }

  /**
   * Read back by the tools reader and written again, a readable package
   * comes out byte for byte the same.
   */
  lemma RewriteIdentical(info: PlgxInfo, lib: Collaborators)
    requires Plan(info, lib).Ok? && Readable(info, lib) && VersionSupported(info.version)
    ensures ReadFile(WriteFile(info, lib).value, lib, PlgxTools).Ok?
    ensures WriteFile(ReadFile(WriteFile(info, lib).value, lib, PlgxTools).value, lib) == WriteFile(info, lib)
  {
    RoundTripPackage(info, lib, PlgxTools);
    StoredTools(info.files, lib);
    assert Expected(info, lib, PlgxTools) == Canonical(info);
    WriteCanonical(info, lib);
  }

  /** Reading is idempotent over a rewrite: the rewritten package reads back as the same package. */
  lemma ReadRewritten(info: PlgxInfo, lib: Collaborators)
    requires Plan(info, lib).Ok? && Readable(info, lib) && VersionSupported(info.version)
    ensures var once := ReadFile(WriteFile(info, lib).value, lib, PlgxTools);
      once.Ok? && WriteFile(once.value, lib).Ok?
      && ReadFile(WriteFile(once.value, lib).value, lib, PlgxTools) == once
  {
    RewriteIdentical(info, lib);
  }
}
