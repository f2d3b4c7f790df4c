# PLGX package codec

A Dafny model of the PLGX container that KeePass plugins ship in, as the
KeePass plugin developer tools write and read it. The model covers:

- the writer `PlgxInfo.WriteFile` with `WriteObject` and `AddFile`;
- the reader `PlgxInfo.ReadFile` with `ReadObject` and `ExtractFile(byte[])`
  (`PlgxTools/PlgxInfo.cs`);
- the inspector's copy of that reader (`PlgxInspector/Program.cs`).

A package is little-endian throughout. It holds two signature words, a
version word, and then a stream of blocks. Each block is a `u16` tag, a
`u32` length and a payload, and the payload is left out when it is null or
empty. The metadata blocks come first. They are followed by a
`BeginContent`/`EndContent` section with one `File` block per entry and by
a final `EOF` block. A `File` block's payload is itself a block stream of
`Path`, `Data` and `EOF`.

Modules, one per file:

- `Wrappers` holds `Option` and `Result`.
- `LittleEndian` holds the byte type, the `u16`/`u32`/`u64` encodings and
  their round trips.
- `Failures` holds the exceptions the code throws.
- `Framing` models `WriteObject`/`ReadObject` and block streams.
- `Package` holds the constants, the in-memory `PlgxInfo`, the version mask,
  `Files.Add`, and the KeePassLib collaborators.
- `Writer` and `Reader` model the two halves. One `Reader` serves both
  programs, and its `Flavour` parameter selects the two places where they
  differ.
- `RoundTrip` proves the round trip.
- `Truncation` proves that a cut-short package fails to read.
- `Rewrite` proves that rewriting what was read reproduces the bytes.
- `StreamFacts` proves what the readers do with streams the round trip does
  not cover, among them the writer's own output when a required string
  encodes to no bytes or a file compresses to nothing.
- `Inspector` models the inspector's `PlgxInfo` and proves that its reader
  agrees with the tools reader.

UTF-8 and DEFLATE come from KeePassLib, whose code is not part of this
model. They are the four function-valued fields of `Package.Collaborators`,
passed as a parameter, and no property of them is assumed globally. The
round trip instead requires, string by string and entry by entry, what it
needs (`RoundTrip.Readable`):

- every written string decodes back to itself and encodes to at least one
  byte;
- entry paths are distinct and non-empty;
- no entry compresses to nothing.

`decompress(compress(x)) == x` needs no assumption, because the writer
itself checks it.

## Model

| member | source | states |
|---|---|---|
| LittleEndian.UInt16RoundTrip | PlgxTools/PlgxInfo.cs:306 | a tag written as two little-endian bytes reads back as the same tag |
| LittleEndian.UInt32RoundTrip | PlgxTools/PlgxInfo.cs:232-234 | a `u32` written as four little-endian bytes reads back as the same value |
| LittleEndian.UInt64RoundTrip | PlgxTools/PlgxInfo.cs:143-144 | a `u64` written as eight little-endian bytes reads back as the same value |
| Framing.WriteObject | PlgxTools/PlgxInfo.cs:184-193 | a block is 6 + payload bytes: the tag, the payload length (0 for null), then the payload, which is left out when null or empty |
| Framing.ReadObject | PlgxTools/PlgxInfo.cs:302-313 | the read succeeds exactly when there are 6 header bytes and the declared length is at most `int.MaxValue`; a header cut short is `FileCorrupted` and so is every other failure; the tag comes from the header, a zero length is a null payload, a non-null payload is the bytes after the header, and it is either as long as declared or runs to the end of the input |
| Framing.ReadFullObject | PlgxTools/PlgxInfo.cs:305-307 | when all the declared bytes are present, the payload is exactly those bytes and the rest of the input is left after them |
| Framing.ReadShortObject | PlgxTools/PlgxInfo.cs:305-307 | when fewer bytes remain than declared (and the length is at most `int.MaxValue`), `ReadBytes` returns what remains and nothing is left |
| Framing.ReadWriteObject | PlgxTools/PlgxInfo.cs:308 | a written block reads back with its tag and payload, an empty payload as null, and leaves exactly the bytes after it |
| Framing.ReadTruncatedObject | PlgxTools/PlgxInfo.cs:306-308 | a written block cut short either fails, or reads as a block with the same tag and nothing after it, which can happen only to a block that has a payload |
| Package.VersionGate | PlgxTools/PlgxInfo.cs:238-239 | a version is accepted exactly when it is below 0x20000; its low 16 bits never decide |
| Package.MajorBits | PlgxTools/PlgxInfo.cs:26 | masking with 0xFFFF0000 gives the multiple of 0x10000 at most 0xFFFF below the version |
| Package.AddEntry | PlgxTools/PlgxInfo.cs:284 | `Files.Add` as both readers call it: `ArgumentException` exactly when the path is already a key; otherwise the entry is appended, distinct paths stay distinct, and non-empty paths stay non-empty when the new path is non-empty |
| Writer.Header | PlgxTools/PlgxInfo.cs:133-135 | the first 12 bytes decode to signature 1, signature 2 and the version |
| Writer.OptionalU64 | PlgxTools/PlgxInfo.cs:146-152 | a `ulong?` prerequisite gets a block exactly when it has a value |
| Writer.OptionalU32 | PlgxTools/PlgxInfo.cs:158-161 | the pointer-size prerequisite gets a block exactly when it has a value |
| Writer.OptionalText | PlgxTools/PlgxInfo.cs:154-156 | an optional string gets a block exactly when it is neither null nor empty |
| Writer.MetadataBlockTags | PlgxTools/PlgxInfo.cs:136-169 | the metadata blocks carry exactly the tags of the reference tag list, in order |
| Writer.EmissionOrder | PlgxTools/PlgxInfo.cs:136-169 | the five required tags come first, tags strictly increase, each optional tag is present exactly when its field is set, and no metadata block is `EOF` or a content tag |
| Writer.FilePayload | PlgxTools/PlgxInfo.cs:200-211 | a file payload is the path, data and `EOF` sub-blocks: 18 bytes plus path and compressed data |
| Writer.AddFile | PlgxTools/PlgxInfo.cs:196-219 | entries of `int.MaxValue / 2` bytes or more throw `OutOfMemoryException`; a throwing `Decompress` is `InvalidDataException` and a decompression that differs from the data is `InvalidOperationException`; a written entry decompresses back to its data, and its block wraps its path and compressed data |
| Writer.FileBlocks | PlgxTools/PlgxInfo.cs:173-175 | one `File` block per entry in order, or the exception of the first entry `AddFile` refuses |
| Writer.Plan | PlgxTools/PlgxInfo.cs:136-178 | a missing UUID is a `NullReferenceException`, a missing required string an `ArgumentNullException`; the write succeeds exactly when both are present and every entry is accepted |
| Writer.WriteFile | PlgxTools/PlgxInfo.cs:122-182 | a missing UUID is `NullReferenceException`, a missing required string `ArgumentNullException`, otherwise the first refused entry's exception; a written package starts with both signatures and the version and ends with a zero-length `EOF` block |
| Reader.GetString | PlgxTools/PlgxInfo.cs:251 | UTF-8 decoding of a null payload throws `ArgumentNullException` |
| Reader.GetUuid | PlgxTools/PlgxInfo.cs:249 | a UUID is read exactly when the payload has 16 bytes |
| Reader.GetUInt64 | PlgxTools/PlgxInfo.cs:257 | a `u64` field is read exactly when the payload has 8 bytes, and is the value those bytes encode |
| Reader.GetUInt32 | PlgxTools/PlgxInfo.cs:265 | the pointer size is read exactly when the payload has 4 bytes, and is the value those bytes encode |
| Reader.ExtractLoop | PlgxTools/PlgxInfo.cs:323-333 | the sub-stream loop fails only with `FileCorrupted` or a null path payload, and ends with a path exactly when it started with one or read a `Path` sub-block; without such a block the starting path is kept |
| Reader.ExtractFile | PlgxTools/PlgxInfo.cs:315-345 | a null payload throws and a failing sub-stream fails alike; the entry is kept exactly when the last path is non-empty and data is present, with that path and that data, decompressed by the tools reader (`InvalidDataException` when that throws); otherwise nothing is kept |
| Reader.Step | PlgxTools/PlgxInfo.cs:247-296 | `BeginContent` succeeds only before the section and opens it, `EndContent` only inside it and closes it, a `File` block outside it fails, an unknown tag changes nothing, and a `File` block adds at most one entry with a new non-empty path |
| Reader.StepGrows | PlgxTools/PlgxInfo.cs:282-285 | one step keeps the entries read so far as a prefix, and keeps their paths distinct and non-empty |
| Reader.ReadLoop | PlgxTools/PlgxInfo.cs:243-297 | the loop keeps the version and all entries read so far, and preserves distinct and non-empty paths |
| Reader.ReadFile | PlgxTools/PlgxInfo.cs:227-300 | fewer than 12 bytes end the stream; a bad signature and an unsupported version throw; a package read has the header's version and distinct non-empty paths |
| RoundTrip.ReadLoopOverBlocks | PlgxTools/PlgxInfo.cs:243-247 | reading the bytes of an `EOF`-free block stream takes the reader's steps over those blocks, in order |
| RoundTrip.FoldMetadata | PlgxTools/PlgxInfo.cs:247-269 | the written metadata blocks read back into every metadata field, an empty optional string as null |
| RoundTrip.ExtractWrittenFile | PlgxTools/PlgxInfo.cs:323-333 | the file payload the writer builds reads back as its path and its compressed data |
| RoundTrip.StepAddFile | PlgxTools/PlgxInfo.cs:277-286 | the file block of a readable entry adds that entry, as the flavour returns it, and nothing else |
| RoundTrip.FoldFiles | PlgxTools/PlgxInfo.cs:173-175 | the file blocks of distinct readable entries read back as those entries, in write order |
| RoundTrip.BodyNoEOF | PlgxTools/PlgxInfo.cs:136-177 | no block before the final one is an `EOF` block |
| RoundTrip.PackageShape | PlgxTools/PlgxInfo.cs:171-178 | the output is the header, the body's blocks, and one zero-length `EOF` block |
| RoundTrip.ReadHeader | PlgxTools/PlgxInfo.cs:232-239 | a written header passes the signature check and leaves acceptance to the version gate |
| RoundTrip.RoundTripPackage | PlgxTools/PlgxInfo.cs:122-182 | either reader gives back every field written and every entry in write order, or rejects the version |
| Truncation.TruncatedStream | PlgxTools/PlgxInfo.cs:243-247 | the block stream cut anywhere before its final `EOF` fails to read |
| Truncation.TruncatedPackage | PlgxTools/PlgxInfo.cs:302-313 | every proper prefix of a written package fails to read, and one shorter than the header ends the stream |
| Truncation.CutInsideUuid | PlgxTools/PlgxInfo.cs:248-249 | a written package cut five bytes into its UUID payload fails with `ArgumentException` from `new PwUuid`, not as a corrupted file |
| Rewrite.WriteCanonical | PlgxTools/PlgxInfo.cs:154-169 | a null and an empty optional string are written the same way |
| Rewrite.RewriteIdentical | PlgxTools/PlgxInfo.cs:122-182 | a package read by the tools reader and written again comes out byte for byte the same |
| Rewrite.ReadRewritten | PlgxTools/PlgxInfo.cs:227-300 | reading a rewritten package gives the same package as reading the original |
| StreamFacts.UnknownTagSkipped | PlgxTools/PlgxInfo.cs:294-296 | an unknown top-level block is consumed and changes nothing |
| StreamFacts.EOFStops | PlgxTools/PlgxInfo.cs:247 | an `EOF` block ends the read whatever follows |
| StreamFacts.StepOverwrite | PlgxTools/PlgxInfo.cs:248-269 | a second block with the same scalar tag undoes the first one's effect |
| StreamFacts.RepeatedScalar | PlgxTools/PlgxInfo.cs:248-269 | of two blocks with the same scalar tag, the second one wins |
| StreamFacts.BeginTwiceFails | PlgxTools/PlgxInfo.cs:270-276 | `BeginContent` after the section was opened, even once closed, is `FileCorrupted` |
| StreamFacts.FileOutsideFails | PlgxTools/PlgxInfo.cs:277-280 | a `File` block outside an open section is `FileCorrupted` |
| StreamFacts.EndOutsideFails | PlgxTools/PlgxInfo.cs:287-290 | `EndContent` outside an open section is `FileCorrupted` |
| StreamFacts.ReopenFails | PlgxTools/PlgxInfo.cs:270-293 | opening, closing and reopening the section is `FileCorrupted` |
| StreamFacts.ExtractSkipsUnknown | PlgxTools/PlgxInfo.cs:332 | an unknown sub-block is skipped |
| StreamFacts.ExtractStopsAtEOF | PlgxTools/PlgxInfo.cs:327 | the sub-stream's `EOF` ends it with what was collected |
| StreamFacts.ExtractLastDataWins | PlgxTools/PlgxInfo.cs:330-331 | of two `Data` sub-blocks the last wins, and an empty one resets the data to null |
| StreamFacts.ExtractLastPathWins | PlgxTools/PlgxInfo.cs:328-329 | of two `Path` sub-blocks the last wins |
| StreamFacts.ExtractEmptyPathFails | PlgxTools/PlgxInfo.cs:328-329 | an empty `Path` sub-block reads as null and decoding it throws `ArgumentNullException` |
| StreamFacts.EmptyDataDropped | PlgxTools/PlgxInfo.cs:338-344 | an entry whose data compressed to nothing is dropped |
| StreamFacts.EmptyPathDropped | PlgxTools/PlgxInfo.cs:338-344 | an entry whose path decodes to the empty string is dropped |
| StreamFacts.DroppedFileChangesNothing | PlgxTools/PlgxInfo.cs:282-285 | a `File` block that yields no entry changes nothing |
| StreamFacts.DuplicatePathFails | PlgxTools/PlgxInfo.cs:284 | a `File` block whose path is already present throws `ArgumentException` |
| StreamFacts.EmptyRequiredUnreadable | PlgxTools/PlgxInfo.cs:137-142 | a required string that encodes to no bytes is written but makes the package unreadable, with `ArgumentNullException` |
| Inspector.Inspect | PlgxInspector/Program.cs:67-142 | the inspector's reader: fewer than 12 bytes end the stream, a bad signature is a plain `Exception`, an unsupported version is a `PlgxException` |
| Inspector.InspectWritten | PlgxInspector/PlgxInfo.cs:42-57 | for a written package the inspector shows every field, an absent prerequisite as 0, and each entry's data still compressed |
| Inspector.ExtractRelated | PlgxInspector/Program.cs:157-185 | the inspector's `ExtractFile` keeps the same entries as the tools one, with the data before decompression |
| Inspector.StepRelated | PlgxInspector/Program.cs:112-135 | one block takes both readers to related states, fails both alike, or fails the tools reader's decompression |
| Inspector.ReadLoopRelated | PlgxInspector/Program.cs:84-139 | the two block loops over the same bytes end related, fail alike, or the tools reader fails to decompress |
| Inspector.ReadersAgree | PlgxInspector/Program.cs:67-142 | past the signature check, the two readers return the same package up to decompression, or the same exception kind, or the tools reader alone fails to decompress |
| Inspector.InspectorFailureIsShared | PlgxInspector/Program.cs:75-78 | whatever the inspector cannot read, the tools reader cannot read either |

## Left out

- Streams, file names and the file system are not modelled. `WriteFile`
  returns the bytes instead of writing `BaseFileName.plgx` under a
  directory. `ReadFile` reads a byte sequence from its start instead of a
  stream from its current position.
- A failed write is modelled without the partial output the C# leaves
  behind. The C# has already written the earlier blocks, and it writes an
  entry's `File` block before it checks the decompression.
- `ReadBytes` is modelled as returning as many bytes as remain, or throwing
  for a negative length. Its `OutOfMemoryException` on a large declared
  length is not modelled.
- The KeePassLib helpers `StrUtil.Utf8` and `MemUtil.Compress`/`Decompress`
  are not part of this model. They are parameters, so DEFLATE and UTF-8 are
  never interpreted.
- `new PwUuid(byte[])` and `MemUtil.BytesToUInt64`/`BytesToUInt32` are
  assumed to throw `ArgumentNullException` on null and `ArgumentException`
  on a wrong size. Their code is not part of this model.
- `MemUtil.Decompress` is assumed to throw only `InvalidDataException`.
  Its code is not part of this model. The collaborator's `None` stands for
  that exception in both `AddFile` and the tools reader's `ExtractFile`,
  and `Inspector.ReadersAgree` relies on it being the only way the tools
  reader alone can fail.
- Truncation.TruncatedPackage: promises only that a cut-short package fails
  to read, not that it fails as a corrupted file. A cut inside a fixed-size
  payload (the UUID, the generator version, a prerequisite number) reaches
  `new PwUuid` or `BytesToUInt*` at the wrong size. Those throw
  `ArgumentException` at that block (`Truncation.CutInsideUuid`).
- `MemUtil.UInt64ToBytes`/`UInt32ToBytes` are modelled as plain
  little-endian encodings.
- The exception messages are not modelled, only the exception kinds.
- .NET's limit on array length is modelled as `MaxArrayLength`. `AddFile` fails
  with `StreamTooLong` when a file sub-stream would outgrow it, where the
  C# `MemoryStream` throws. The runtime's exact exception type is not
  modelled.
- `Debug.Assert(false)` in `ExtractFile` is taken as a no-op, as in a
  release build.
- `Dictionary` iteration order is taken to be insertion order: entries are a
  sequence.
- Both readers add entries with `Files.Add`, which throws
  `ArgumentException` on a repeated path. A package with two `File` blocks
  for one path is therefore unreadable (`StreamFacts.DuplicatePathFails`).
- An entry's data is never null in the model. `Files` is a public
  dictionary, so C# code can add a null value, and `WriteFile` then throws
  `NullReferenceException` at `file.Value.LongLength`. That path is not
  modelled.
- Dafny strings hold only Unicode scalar values. A C# string is UTF-16 and
  can hold lone surrogates, which UTF-8 encoding replaces. Such paths and
  names are not modelled; the UTF-8 collaborator is applied to scalar-value
  strings only.
- The inspector throws `KeePass.Plugins.PlgxException` and the tools
  reader its own `KeePassPluginDevTools.PlgxTools.PlgxException`. They are
  distinct .NET types, but the model has one `Failure.PlgxException` for
  both. `Inspector.ReadersAgree` and `Inspector.InspectorFailureIsShared`
  therefore compare exception kinds and reasons, not .NET types.
- `ToString(bool)` and `PrintData` are console formatting through
  `StrUtil.VersionToString`, which is not part of this model.
  `ToString(false)` returns `BaseFileName`.
- `ExtractFile(byte[], string)` and `ExtractFile(string, byte[])` only write
  to disk, so they are left out.
- `PwUuid` generation and creation timestamps come from randomness and the
  clock. They are inputs.
- Command-line parsing, `.csproj` reading, the builder and the test
  utilities are outside the codec and are left out.
