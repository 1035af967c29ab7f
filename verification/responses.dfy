/**
 * The C-facing records of the FFI crate: status and health enums with their
 * fixed discriminants, the error classification every entry point uses, the
 * response records and their initial (default) shapes.
 */
module Responses {
  import opened Wrappers
  import opened SectorTypes

  /** A `(ptr, len)` pair: a null pointer with length 0, or a buffer of elements. */
  datatype CArray<T> = Null | Array(items: seq<T>) {

    /** The `len` field that accompanies the pointer. */
    function Len(): nat {
      if Null? then 0 else |items|
    }

    /** What `from_raw_parts(ptr, len).to_vec()` reads back. */
    function Elems(): seq<T> {
      if Null? then [] else items
    }
  }

  /** A `*const c_char` that may be null. */
  type CStr = Option<string>

  // ---------------------------------------------------------------------
  // Enums and their discriminants

  datatype FFISealedSectorHealth = Unknown | Ok | ErrorInvalidChecksum | ErrorInvalidLength | ErrorMissing

  datatype FCPResponseStatus = FCPNoError | FCPUnclassifiedError | FCPCallerError | FCPReceiverError

  datatype FFISealStatus = Sealed | Pending | Failed | Sealing

  function HealthDiscriminant(h: FFISealedSectorHealth): nat {
    match h
    case Unknown => 0
    case Ok => 1
    case ErrorInvalidChecksum => 2
    case ErrorInvalidLength => 3
    case ErrorMissing => 4
  }

  /** The C integer read back as a health value; out-of-range values name none. */
  function HealthFromDiscriminant(n: int): (h: Option<FFISealedSectorHealth>)
    ensures h.Some? <==> 0 <= n <= 4
    ensures h.Some? ==> HealthDiscriminant(h.value) == n
  {
    if n == 0 then Some(Unknown)
    else if n == 1 then Some(FFISealedSectorHealth.Ok)
    else if n == 2 then Some(FFISealedSectorHealth.ErrorInvalidChecksum)
    else if n == 3 then Some(FFISealedSectorHealth.ErrorInvalidLength)
    else if n == 4 then Some(FFISealedSectorHealth.ErrorMissing)
    else None
  }

  function StatusDiscriminant(s: FCPResponseStatus): nat {
    match s
    case FCPNoError => 0
    case FCPUnclassifiedError => 1
    case FCPCallerError => 2
    case FCPReceiverError => 3
  }

  function StatusFromDiscriminant(n: int): (s: Option<FCPResponseStatus>)
    ensures s.Some? <==> 0 <= n <= 3
    ensures s.Some? ==> StatusDiscriminant(s.value) == n
  {
    if n == 0 then Some(FCPNoError)
    else if n == 1 then Some(FCPUnclassifiedError)
    else if n == 2 then Some(FCPCallerError)
    else if n == 3 then Some(FCPReceiverError)
    else None
  }

  function SealStatusDiscriminant(s: FFISealStatus): nat {
    match s
    case Sealed => 0
    case Pending => 1
    case Failed => 2
    case Sealing => 3
  }

  function SealStatusFromDiscriminant(n: int): (s: Option<FFISealStatus>)
    ensures s.Some? <==> 0 <= n <= 3
    ensures s.Some? ==> SealStatusDiscriminant(s.value) == n
  {
    if n == 0 then Some(FFISealStatus.Sealed)
    else if n == 1 then Some(FFISealStatus.Pending)
    else if n == 2 then Some(FFISealStatus.Failed)
    else if n == 3 then Some(FFISealStatus.Sealing)
    else None
  }

  /** Distinct enum values have distinct discriminants, so the C side can tell them apart. */
  lemma DiscriminantsAreInjective(a: FCPResponseStatus, b: FCPResponseStatus,
                                  c: FFISealStatus, d: FFISealStatus,
                                  g: FFISealedSectorHealth, h: FFISealedSectorHealth)
    ensures StatusDiscriminant(a) == StatusDiscriminant(b) ==> a == b
    ensures SealStatusDiscriminant(c) == SealStatusDiscriminant(d) ==> c == d
    ensures HealthDiscriminant(g) == HealthDiscriminant(h) ==> g == h
  {
  }

  // ---------------------------------------------------------------------
  // Health conversion

  /** `From<SealedSectorHealth> for FFISealedSectorHealth`. */
  function FromSealedSectorHealth(h: SealedSectorHealth): (f: FFISealedSectorHealth)
    ensures f != Unknown
    ensures ToSealedSectorHealth(f) == Some(h)
  {
    match h
    case Ok => FFISealedSectorHealth.Ok
    case ErrorInvalidChecksum => FFISealedSectorHealth.ErrorInvalidChecksum
    case ErrorInvalidLength => FFISealedSectorHealth.ErrorInvalidLength
    case ErrorMissing => FFISealedSectorHealth.ErrorMissing
  }

  /** The inverse direction: every FFI health except `Unknown` names one builder health. */
  function ToSealedSectorHealth(f: FFISealedSectorHealth): Option<SealedSectorHealth> {
    match f
    case Unknown => None
    case Ok => Some(SealedSectorHealth.Ok)
    case ErrorInvalidChecksum => Some(SealedSectorHealth.ErrorInvalidChecksum)
    case ErrorInvalidLength => Some(SealedSectorHealth.ErrorInvalidLength)
    case ErrorMissing => Some(SealedSectorHealth.ErrorMissing)
  }

  /** The conversion is injective, and its image is exactly the non-`Unknown` values. */
  lemma HealthConversionIsBijective(a: SealedSectorHealth, b: SealedSectorHealth, f: FFISealedSectorHealth)
    ensures FromSealedSectorHealth(a) == FromSealedSectorHealth(b) ==> a == b
    ensures f != Unknown <==> exists h :: FromSealedSectorHealth(h) == f
  {
    if FromSealedSectorHealth(a) == FromSealedSectorHealth(b) {
      assert Some(a) == ToSealedSectorHealth(FromSealedSectorHealth(a));
    }
    if f != Unknown {
      var h := ToSealedSectorHealth(f).value;
      assert FromSealedSectorHealth(h) == f;
    }
  }

  // ---------------------------------------------------------------------
  // Error classification

  /**
   * `err_code_and_msg`: the status code an error is reported with, and its
   * display text. A builder error is classified first; only when the error is
   * not a builder error is it tried as a sector manager error; anything else is
   * unclassified.
   */
  function ErrCodeAndMsg(err: Error): (r: (FCPResponseStatus, string))
    ensures r.0 != FCPNoError
    ensures r.1 == err.display
    ensures err.asBuilderErr == Some(OverflowError) ==> r.0 == FCPCallerError
    ensures err.asBuilderErr == Some(IncompleteWriteError) ==> r.0 == FCPReceiverError
    ensures err.asBuilderErr.Some? && err.asBuilderErr.value.Unrecoverable? ==> r.0 == FCPReceiverError
    ensures err.asBuilderErr.Some? && err.asBuilderErr.value.PieceNotFound? ==> r.0 == FCPCallerError
    ensures err.asBuilderErr.None? && err.asManagerErr.Some? ==>
      (r.0 == FCPUnclassifiedError <==> err.asManagerErr.value.UnclassifiedError?) &&
      (r.0 == FCPCallerError <==> err.asManagerErr.value.CallerError?) &&
      (r.0 == FCPReceiverError <==> err.asManagerErr.value.ReceiverError?)
    ensures err.asBuilderErr.None? && err.asManagerErr.None? ==> r.0 == FCPUnclassifiedError
  {
    match err.asBuilderErr
    case Some(OverflowError) => (FCPCallerError, err.display)
    case Some(IncompleteWriteError) => (FCPReceiverError, err.display)
    case Some(Unrecoverable(_)) => (FCPReceiverError, err.display)
    case Some(PieceNotFound(_)) => (FCPCallerError, err.display)
    case None =>
      match err.asManagerErr
      case Some(UnclassifiedError(_)) => (FCPUnclassifiedError, err.display)
      case Some(CallerError(_)) => (FCPCallerError, err.display)
      case Some(ReceiverError(_)) => (FCPReceiverError, err.display)
      case None => (FCPUnclassifiedError, err.display)
  }

  /** The builder classification wins: what the manager downcast says never matters then. */
  lemma BuilderClassificationTakesPriority(err: Error, other: Option<SectorManagerErr>)
    requires err.asBuilderErr.Some?
    ensures ErrCodeAndMsg(err.(asManagerErr := other)) == ErrCodeAndMsg(err)
  {
  }

  // ---------------------------------------------------------------------
  // C records

  datatype FFIPieceMetadata = FFIPieceMetadata(
    pieceKey: string,
    numBytes: u64,
    commP: Commitment,
    inclusionProof: CArray<u8>)

  datatype FFIPendingStagedSectorMetadata = FFIPendingStagedSectorMetadata(
    sectorAccess: string,
    sectorId: u64,
    pieces: CArray<FFIPieceMetadata>)

  datatype FFIStagedSectorMetadata = FFIStagedSectorMetadata(
    sectorAccess: string,
    sectorId: u64,
    pieces: CArray<FFIPieceMetadata>,
    sealStatusCode: FFISealStatus,
    sealErrorMsg: CStr)

  datatype FFISealedSectorMetadata = FFISealedSectorMetadata(
    commD: Commitment,
    commR: Commitment,
    commRStar: Commitment,
    pieces: CArray<FFIPieceMetadata>,
    proofs: CArray<u8>,
    sectorAccess: string,
    sectorId: u64,
    health: FFISealedSectorHealth)

  datatype FFIChallenge = FFIChallenge(sector: u64, leaf: u64)

  /** An opaque pointer to a builder object handed out to C. */
  type BuilderHandle = nat

  /** Every response starts with a status code and an error message; `payload` is the rest. */
  datatype Response<P> = Response(status: FCPResponseStatus, errorMsg: CStr, payload: P)

  /** The fields of `GetSealStatusResponse` after its status code and error message. */
  datatype SealStatusPayload = SealStatusPayload(
    sealStatusCode: FFISealStatus,
    sealErrorMsg: CStr,
    commD: Commitment,
    commR: Commitment,
    commRStar: Commitment,
    sectorAccess: CStr,
    sectorId: u64,
    proof: CArray<u8>,
    pieces: CArray<FFIPieceMetadata>)

  type GeneratePoStResponse = Response<CArray<u8>>
  type InitSectorBuilderResponse = Response<Option<BuilderHandle>>
  type InitSimpleSectorBuilderResponse = Response<Option<BuilderHandle>>
  type AddPieceResponse = Response<u64>
  type AddPieceFirstResponse = Response<u64>
  type AddPieceSecondResponse = Response<CArray<FFIPendingStagedSectorMetadata>>
  type SealStagedSectorResponse = Response<CArray<FFISealedSectorMetadata>>
  type GeneratePoStFirstResponse = Response<CArray<FFIChallenge>>
  type GetSectorsReadyForSealingResponse = Response<CArray<u64>>
  type ReadPieceFromSealedSectorResponse = Response<CArray<u8>>
  type SealAllStagedSectorsResponse = Response<()>
  type GetSealStatusResponse = Response<SealStatusPayload>
  type GetSealedSectorsResponse = Response<CArray<FFISealedSectorMetadata>>
  type GetStagedSectorsResponse = Response<CArray<FFIStagedSectorMetadata>>

  // ---------------------------------------------------------------------
  // Default shapes

  /** The `Default` of a response: no error, null message, the given empty payload. */
  function DefaultResponse<P>(empty: P): Response<P> {
    Response(FCPNoError, None, empty)
  }

  /** The fields of `GetSealStatusResponse::default()` after the status and message. */
  function DefaultSealStatusPayload(): SealStatusPayload {
    SealStatusPayload(FFISealStatus.Failed, None, ZeroCommitment, ZeroCommitment, ZeroCommitment, None, 0, Null, Null)
  }

  function DefaultGeneratePoStResponse(): GeneratePoStResponse { DefaultResponse(Null) }
  function DefaultInitSectorBuilderResponse(): InitSectorBuilderResponse { DefaultResponse(None) }
  function DefaultInitSimpleSectorBuilderResponse(): InitSimpleSectorBuilderResponse { DefaultResponse(None) }
  function DefaultAddPieceResponse(): AddPieceResponse { DefaultResponse(0) }
  function DefaultAddPieceFirstResponse(): AddPieceFirstResponse { DefaultResponse(0) }
  function DefaultAddPieceSecondResponse(): AddPieceSecondResponse { DefaultResponse(Null) }
  function DefaultSealStagedSectorResponse(): SealStagedSectorResponse { DefaultResponse(Null) }
  function DefaultGeneratePoStFirstResponse(): GeneratePoStFirstResponse { DefaultResponse(Null) }
  function DefaultGetSectorsReadyForSealingResponse(): GetSectorsReadyForSealingResponse { DefaultResponse(Null) }
  function DefaultReadPieceFromSealedSectorResponse(): ReadPieceFromSealedSectorResponse { DefaultResponse(Null) }
  function DefaultSealAllStagedSectorsResponse(): SealAllStagedSectorsResponse { DefaultResponse(()) }
  function DefaultGetSealStatusResponse(): GetSealStatusResponse { DefaultResponse(DefaultSealStatusPayload()) }
  function DefaultGetSealedSectorsResponse(): GetSealedSectorsResponse { DefaultResponse(Null) }
  function DefaultGetStagedSectorsResponse(): GetStagedSectorsResponse { DefaultResponse(Null) }

  /** Every default response reports no error, has a null message, and carries a null or zero payload. */
  lemma DefaultResponsesAreEmpty()
    ensures var r := DefaultGeneratePoStResponse();
      r.status == FCPNoError && r.errorMsg.None? && r.payload.Null?
    ensures var r := DefaultInitSectorBuilderResponse();
      r.status == FCPNoError && r.errorMsg.None? && r.payload.None?
    ensures var r := DefaultInitSimpleSectorBuilderResponse();
      r.status == FCPNoError && r.errorMsg.None? && r.payload.None?
    ensures var r := DefaultAddPieceResponse();
      r.status == FCPNoError && r.errorMsg.None? && r.payload == 0
    ensures var r := DefaultAddPieceFirstResponse();
      r.status == FCPNoError && r.errorMsg.None? && r.payload == 0
    ensures var r := DefaultAddPieceSecondResponse();
      r.status == FCPNoError && r.errorMsg.None? && r.payload.Null?
    ensures var r := DefaultSealStagedSectorResponse();
      r.status == FCPNoError && r.errorMsg.None? && r.payload.Null?
    ensures var r := DefaultGeneratePoStFirstResponse();
      r.status == FCPNoError && r.errorMsg.None? && r.payload.Null?
    ensures var r := DefaultGetSectorsReadyForSealingResponse();
      r.status == FCPNoError && r.errorMsg.None? && r.payload.Null?
    ensures var r := DefaultReadPieceFromSealedSectorResponse();
      r.status == FCPNoError && r.errorMsg.None? && r.payload.Null?
    ensures var r := DefaultSealAllStagedSectorsResponse();
      r.status == FCPNoError && r.errorMsg.None?
    ensures var r := DefaultGetSealedSectorsResponse();
      r.status == FCPNoError && r.errorMsg.None? && r.payload.Null?
    ensures var r := DefaultGetStagedSectorsResponse();
      r.status == FCPNoError && r.errorMsg.None? && r.payload.Null?
  {
  }

  /**
   * `GetSealStatusResponse::default()` is the one default that is not neutral:
   * its seal status says `Failed`, though with no seal error message; all its
   * other fields are zero, null or empty.
   */
  lemma DefaultSealStatusIsFailed()
    ensures var r := DefaultGetSealStatusResponse();
      && r.status == FCPNoError && r.errorMsg.None?
      && r.payload.sealStatusCode == FFISealStatus.Failed && r.payload.sealErrorMsg.None?
      && r.payload.commD == ZeroCommitment && r.payload.commR == ZeroCommitment
      && r.payload.commRStar == ZeroCommitment
      && r.payload.sectorAccess.None? && r.payload.sectorId == 0
      && r.payload.proof.Null? && r.payload.pieces.Null?
  {
  }
}
