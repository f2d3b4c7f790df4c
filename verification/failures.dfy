/**
 * The exceptions the PLGX reader and writer can end with. `PlgxException`
 * carries the reason the codec itself detected; the others are the .NET
 * exceptions raised by the runtime or by KeePassLib helpers the codec calls.
 */
module Failures {

  /** The message a `PlgxException` is built with. */
  datatype PlgxReason =
    | InvalidSignature        // "Invalid signature at start of file"
    | FileVersionUnsupported  // KLRes.FileVersionUnsupported
    | FileCorrupted           // KLRes.FileCorrupted

  /** Why an `ArgumentException` was raised. */
  datatype ArgumentCause =
    | WrongSize     // a UUID or integer payload of the wrong length
    | DuplicateKey  // `Files.Add` with a path already present

  datatype Failure =
    | PlgxException(reason: PlgxReason)
    | PlainException      // the inspector's `new Exception("Invalid signature")`
    | EndOfStream         // a signature or version word read past the end of the input
    | ArgumentNull        // a helper handed a null array or string
    | ArgumentException(cause: ArgumentCause)
    | NullReference       // the writer dereferencing a missing UUID
    | OutOfMemory         // the writer's 1 GB entry guard
    | StreamTooLong       // a file sub-stream outgrowing a .NET array
    | InvalidData         // the decompressor rejecting its input
    | InvalidOperation    // the writer's compression self-check failing

  const Corrupted: Failure := PlgxException(FileCorrupted)
}
