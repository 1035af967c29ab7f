/**
 * The records and errors of the `sector_builder` crate that the FFI layer and
 * the simple builder exchange: piece and sector metadata, seal status, sector
 * health and the two error enums.
 */
module SectorTypes {
  import opened Wrappers

  /** Rust's `u8`. */
  type u8 = x: int | 0 <= x < 0x100

  /** Rust's `u64`. */
  type u64 = x: int | 0 <= x < 0x1_0000_0000_0000_0000

  /** `SectorId` is a `u64` newtype; the FFI converts it with `u64::from`/`into`. */
  type SectorId = u64

  /** `UnpaddedBytesAmount` is a `u64` newtype. */
  type UnpaddedBytesAmount = u64

  /** A `[u8; 32]` commitment (comm_p, comm_d, comm_r, comm_r_star, ticket bytes). */
  type Commitment = s: seq<u8> | |s| == 32
    witness [0, 0, 0, 0, 0, 0, 0, 0, 0, 0, 0, 0, 0, 0, 0, 0, 0, 0, 0, 0, 0, 0, 0, 0, 0, 0, 0, 0, 0, 0, 0, 0]

  /** `[0; 32]`, also what `Default::default()` gives for a `[u8; 32]`. */
  const ZeroCommitment: Commitment :=
    [0, 0, 0, 0, 0, 0, 0, 0, 0, 0, 0, 0, 0, 0, 0, 0, 0, 0, 0, 0, 0, 0, 0, 0, 0, 0, 0, 0, 0, 0, 0, 0]

  /** Replica auxiliary data; produced and consumed only by the proofs library. */
  type PAux = seq<u8>

  /** The seal ticket; only its bytes are read by the code modelled here. */
  datatype SealTicket = SealTicket(ticketBytes: Commitment)

  const ZeroTicket: SealTicket := SealTicket(ZeroCommitment)

  datatype PieceMetadata = PieceMetadata(
    pieceKey: string,
    numBytes: UnpaddedBytesAmount,
    commP: Option<Commitment>,
    inclusionProof: Option<seq<u8>>)

  /**
   * Sealed-sector metadata. The two source files disagree on its fields:
   * the FFI layer reads `comm_r_star` and never sets `p_aux`/`seal_ticket`,
   * the simple builder sets `p_aux`/`seal_ticket` and never `comm_r_star`.
   * This record carries all of them; each construction site fills the ones
   * its version lacks with the zero value.
   */
  datatype SealedSectorMetadata = SealedSectorMetadata(
    sectorId: SectorId,
    sectorAccess: string,
    pieces: seq<PieceMetadata>,
    commRStar: Commitment,
    commR: Commitment,
    commD: Commitment,
    proof: seq<u8>,
    pAux: PAux,
    blake2bChecksum: seq<u8>,
    len: u64,
    sealTicket: SealTicket)

  /**
   * `SealStatus`. The FFI layer matches `Sealing` as a unit variant while the
   * simple builder builds it with a ticket; the ticket is kept here and the
   * FFI mappings ignore it.
   */
  datatype SealStatus =
    | Failed(message: string)
    | Pending
    | Sealing(ticket: SealTicket)
    | Sealed(meta: SealedSectorMetadata)

  datatype StagedSectorMetadata = StagedSectorMetadata(
    sectorId: SectorId,
    sectorAccess: string,
    pieces: seq<PieceMetadata>,
    sealStatus: SealStatus)

  datatype SealedSectorHealth = Ok | ErrorInvalidChecksum | ErrorInvalidLength | ErrorMissing

  datatype GetSealedSectorResult =
    | WithHealth(health: SealedSectorHealth, meta: SealedSectorMetadata)
    | WithoutHealth(meta: SealedSectorMetadata)

  /** The builder's own error enum (its non-string fields are not read anywhere modelled). */
  datatype SectorBuilderErr =
    | OverflowError
    | IncompleteWriteError
    | Unrecoverable(message: string)
    | PieceNotFound(pieceKey: string)

  /** The sector manager's error enum. */
  datatype SectorManagerErr =
    | UnclassifiedError(message: string)
    | CallerError(message: string)
    | ReceiverError(message: string)

  /**
   * A `failure::Error`, seen through what the FFI layer can ask of it: its
   * display text and the results of `downcast_ref` to each of the two enums.
   * A real error has one concrete type, so at most one downcast succeeds; the
   * model does not forbid both, which keeps the order of the checks visible.
   */
  datatype Error = Error(
    display: string,
    asBuilderErr: Option<SectorBuilderErr>,
    asManagerErr: Option<SectorManagerErr>)

  /** `err_piecenotfound(key)`; the key stands in for the display text. */
  function ErrPieceNotFound(key: string): Error {
    Error(key, Some(PieceNotFound(key)), None)
  }

  /**
   * `err_unrecov(cause)`: wraps any error as `SectorBuilderErr::Unrecoverable`;
   * the cause's text stands in for the display text.
   */
  function ErrUnrecov(cause: Error): Error {
    Error(cause.display, Some(Unrecoverable(cause.display)), None)
  }

  /** `failure::Error::from(e)` for a sector manager error; its inner message stands in for the display text. */
  function FromManagerErr(e: SectorManagerErr): Error {
    Error(e.message, None, Some(e))
  }
}
