/** Fixed-width rows, file references and errors (record.rs, usn.rs, error.rs). */
module Records {
  import opened Basics

  /** Sentinel parent index of roots and orphans; also `u32::MAX`. */
  const PARENT_NONE: nat := 0xFFFF_FFFF

  /** Record number of the root directory. */
  const ROOT_FRS: nat := 5

  /** Record numbers have 48 bits. */
  const RECORD_NUMBERS: nat := 0x1_0000_0000_0000

  /**
   A 64-bit NTFS file reference: 16 bits of sequence number above a 48-bit
   record number. Masking off the sequence bits is taking the second part.
   */
  datatype FileRef = FileRef(sequence: nat, number: nat)

  function MftRecordNumber(fileRef: FileRef): nat { fileRef.number }

  function RefValue(r: FileRef): nat { r.sequence * RECORD_NUMBERS + r.number }

  function RefOf(n: nat): FileRef { FileRef(n / RECORD_NUMBERS, n % RECORD_NUMBERS) }

  /** Flag bits 0x0001 and 0x0002 of a record. */
  predicate HasDirectoryFlag(flags: nat) { flags % 2 == 1 }

  predicate HasTombstoneFlag(flags: nat) { flags / 2 % 2 == 1 }

  datatype EsRecord = EsRecord(
    fileRef: FileRef, nameOffset: nat, parentIdx: nat, nameLen: nat, flags: nat, extId: nat, rank: nat)
  {
    predicate IsDirectory() { HasDirectoryFlag(flags) }
    predicate IsTombstone() { HasTombstoneFlag(flags) }
    function Number(): nat { MftRecordNumber(fileRef) }
  }

  datatype UsnEventKind = Create | Delete | Rename | Move | Metadata

  datatype UsnEvent = UsnEvent(
    kind: UsnEventKind, fileRef: FileRef, parentRef: Option<FileRef>, name: Option<string>, flags: Option<nat>)

  /** Position in one USN journal. */
  datatype UsnCursor = UsnCursor(journalId: nat, lastUsn: int)

  /** What is wrong with a cache file, one constructor for each reason that the program names. */
  datatype CacheFault =
    | FileTooSmall | MagicMismatch | VersionMismatch | HeaderSizeMismatch | RecordSizeMismatch | VolumeSerialMismatch
    | RecordCountOverflow | RecordsOutOfBounds | NamesOutOfBounds | ChildrenOffsetsOutOfBounds | ChildrenIndicesInverted
    | ChildrenIndicesOutOfBounds | FileRefMapInverted | FileRefMapOutOfBounds | FileRefMapTruncated

  datatype EsError =
    | RecordIndexOutOfRange(index: nat)
    | InvalidNameRange(index: nat)
    | PathNotFound(path: string)
    | ParentCycle(index: nat)
    | NameTooLong(len: nat)
    | NamesBlobTooLarge(len: nat)
    | RecordCountTooLarge(len: nat)
    | CacheHeader(fault: CacheFault)
}
