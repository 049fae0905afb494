/** Results and the error values of the source packages. */
module Outcomes {

  datatype Option<+T> = None | Some(value: T)

  datatype Result<+T> = Ok(value: T) | Err(error: Error)

  /** How an atomic write of a state file ends: done, failed without effect, or reported failed after the rename. */
  datatype Write = Landed | Lost | LandedUnsynced

  datatype Error =
    // caller context, operating system and blob store
    | Canceled
    | IOFailure
    // model.go
    | NamespaceEmpty
    | NamespaceTooLarge
    | LogicalKeyEmpty
    | LogicalKeyTooLarge
    | AuthorityEmpty
    | AuthorityTooLarge
    | AuthorityNotPrintable
    | InvalidState
    | InvalidBlobKey
    | ZeroVersion
    | RecordTooLarge
    | Conflict
    | DuplicateLogicalKey
    // journal.go
    | JournalCorrupt
    | JournalChecksum
    | JournalVersionOrder
    | JournalLimit
    | CheckpointCorrupt
    | CheckpointChecksum
    | CheckpointTooLarge
    | CompactionUnsafe
    | CompactionNoProgress
    | CompactionWatermark
    | CompactionBaseMismatch
    | PeerBehindWatermark
    | SnapshotStale
    // lifecycle_cli.go: refusals to open
    | CheckpointFloorMismatch
    | CheckpointRequired
    // apply.go
    | BlobMissing
    | BlobMismatch
    // repair.go
    | RepairLimit
    | RepairFrameTooLarge
    | RepairOrder
    | RepairWatermarkMismatch
    | RepairSnapshotRequired
    | RepairSnapshotWatermark
    // watermark.go
    | WatermarkCorrupt
    | WatermarkChecksum
    | WatermarkLimit
    | WatermarkPeerInvalid
    | WatermarkRegression
    | RepairAcknowledgement
    // membership.go
    | MembershipCorrupt
    | MembershipChecksum
    | MembershipNotConfigured
    | MembershipLimit
    | MembershipPeerInvalid
    | MembershipDuplicate
    | MembershipWatermarkInvalid
    | MembershipBehind
    // authority.go
    | AuthorityVersion
    | AuthorityExhausted
    // storage and inventory
    | KeyEmpty
    | KeyTooLarge
    | KeysEmpty
    | TooManyKeys
    | FrameTooLarge
    | InventoryPagerInvalid
}
