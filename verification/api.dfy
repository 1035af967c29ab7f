/**
 * The marshalling done by the FFI entry points: splitting flattened
 * commitments, converting piece and sector metadata between the builder's
 * records and the C records, the seal-status and health mappings of the
 * listings, turning an operation's outcome into a response, and rebuilding
 * the builder's sector maps from C arrays.
 */
module Api {
  import opened Wrappers
  import opened SectorTypes
  import opened Responses
  import SimpleBuilder

  // ---------------------------------------------------------------------
  // into_commitments

  /** The flat buffer that holds `comms` back to back. */
  function Flatten(comms: seq<Commitment>): (flat: seq<u8>)
    ensures |flat| == 32 * |comms|
  {
    if |comms| == 0 then [] else Flatten(comms[..|comms| - 1]) + comms[|comms| - 1]
  }

  /** `comms` are the consecutive 32-byte windows of `flat`, and nothing is left over. */
  predicate SplitsInto(flat: seq<u8>, comms: seq<Commitment>) {
    && |flat| == 32 * |comms|
    && forall i :: 0 <= i < |comms| ==> comms[i] == flat[32 * i .. 32 * i + 32]
  }

  /**
   * `into_commitments`: steps through the buffer 32 bytes at a time and copies
   * each window. The source reads a full window at every step, so a length that
   * is not a multiple of 32 would read past the buffer; callers must not pass one.
   */
  method IntoCommitments(flat: seq<u8>) returns (comms: seq<Commitment>)
    requires |flat| % 32 == 0
    ensures SplitsInto(flat, comms)
    ensures Flatten(comms) == flat
  {
    comms := [];
    var offset := 0;
    while offset < |flat|
      invariant 0 <= offset <= |flat| && offset == 32 * |comms|
      invariant forall i :: 0 <= i < |comms| ==> comms[i] == flat[32 * i .. 32 * i + 32]
      invariant Flatten(comms) == flat[..offset]
    {
      var window: Commitment := flat[offset .. offset + 32];
      assert (comms + [window])[..|comms|] == comms;
      assert flat[..offset] + window == flat[..offset + 32];
      comms := comms + [window];
      offset := offset + 32;
    }
    assert flat[..offset] == flat;
  }

  /** Splitting the flattening of any commitments gives them back. */
  lemma {:induction false} FlattenSplits(comms: seq<Commitment>)
    ensures SplitsInto(Flatten(comms), comms)
  {
    if |comms| > 0 {
      var init := comms[..|comms| - 1];
      FlattenSplits(init);
      var flat := Flatten(comms);
      assert flat == Flatten(init) + comms[|comms| - 1];
      forall i | 0 <= i < |comms|
        ensures comms[i] == flat[32 * i .. 32 * i + 32]
      {
        if i < |comms| - 1 {
          assert comms[i] == init[i];
          assert flat[32 * i .. 32 * i + 32] == Flatten(init)[32 * i .. 32 * i + 32];
        } else {
          assert flat[32 * i .. 32 * i + 32] == comms[|comms| - 1];
        }
      }
    }
  }

  /** Flattening a split gives back the buffer, so a split is unique. */
  lemma {:induction false} SplitFlattens(flat: seq<u8>, comms: seq<Commitment>)
    requires SplitsInto(flat, comms)
    ensures Flatten(comms) == flat
  {
    if |comms| > 0 {
      var n := |comms| - 1;
      var init := comms[..n];
      assert SplitsInto(flat[..32 * n], init) by {
        forall i | 0 <= i < n
          ensures init[i] == flat[..32 * n][32 * i .. 32 * i + 32]
        {
          assert flat[..32 * n][32 * i .. 32 * i + 32] == flat[32 * i .. 32 * i + 32];
        }
      }
      SplitFlattens(flat[..32 * n], init);
      assert flat == flat[..32 * n] + flat[32 * n .. 32 * n + 32];
    }
  }

  // ---------------------------------------------------------------------
  // from_ffi_sector_class

  datatype FFISectorClass = FFISectorClass(sectorSize: u64, porepProofPartitions: u8)

  datatype SectorSize = SectorSize(bytes: u64)

  datatype PoRepProofPartitions = PoRepProofPartitions(count: u8)

  datatype SectorClass = SectorClass(size: SectorSize, partitions: PoRepProofPartitions)

  /** `from_ffi_sector_class`: rewraps both numbers, changing neither. */
  function FromFfiSectorClass(fsc: FFISectorClass): (c: SectorClass)
    ensures ToFfiSectorClass(c) == fsc
  {
    SectorClass(SectorSize(fsc.sectorSize), PoRepProofPartitions(fsc.porepProofPartitions))
  }

  /** The C record a sector class is passed as. */
  function ToFfiSectorClass(c: SectorClass): FFISectorClass {
    FFISectorClass(c.size.bytes, c.partitions.count)
  }

  /** Every sector class has exactly one C form, and distinct C forms name distinct classes. */
  lemma SectorClassRoundTrip(c: SectorClass, a: FFISectorClass, b: FFISectorClass)
    ensures FromFfiSectorClass(ToFfiSectorClass(c)) == c
    ensures FromFfiSectorClass(a) == FromFfiSectorClass(b) ==> a == b
  {
  }

  // ---------------------------------------------------------------------
  // Piece metadata

  /**
   * `into_ffi_piece_metadata`: a missing commitment becomes 32 zero bytes and
   * a missing inclusion proof a null pointer of length 0.
   */
  function IntoFfiPieceMetadata(p: PieceMetadata): (f: FFIPieceMetadata)
    ensures f.pieceKey == p.pieceKey && f.numBytes == p.numBytes
    ensures p.commP.Some? ==> f.commP == p.commP.value
    ensures p.commP.None? ==> f.commP == ZeroCommitment
    ensures p.inclusionProof.Some? ==>
      f.inclusionProof.Array? && f.inclusionProof.items == p.inclusionProof.value
    ensures p.inclusionProof.None? ==> f.inclusionProof.Null? && f.inclusionProof.Len() == 0
  {
    var proof := match p.inclusionProof
      case Some(bytes) => Array(bytes)
      case None => Null;
    FFIPieceMetadata(p.pieceKey, p.numBytes, p.commP.GetOr(ZeroCommitment), proof)
  }

  /** The piece conversion inside `into_staged_sector_metadata`/`into_sealed_sector_metadata`. */
  function FromFfiPiece(f: FFIPieceMetadata): (p: PieceMetadata)
    ensures p.pieceKey == f.pieceKey && p.numBytes == f.numBytes
    ensures p.commP == Some(f.commP)
    ensures p.inclusionProof == Some(f.inclusionProof.Elems())
    ensures |p.inclusionProof.value| == f.inclusionProof.Len()
  {
    PieceMetadata(f.pieceKey, f.numBytes, Some(f.commP), Some(f.inclusionProof.Elems()))
  }

  /** A piece as it comes back from a trip through C: both optional fields present. */
  function Normalized(p: PieceMetadata): PieceMetadata {
    p.(commP := Some(p.commP.GetOr(ZeroCommitment)),
       inclusionProof := Some(p.inclusionProof.GetOr([])))
  }

  /**
   * A piece sent to C and read back keeps its key, length, commitment and
   * proof bytes; a missing commitment comes back as zeros and a missing proof
   * as an empty one. A piece with both present comes back unchanged.
   */
  lemma PieceRoundTrip(p: PieceMetadata)
    ensures FromFfiPiece(IntoFfiPieceMetadata(p)) == Normalized(p)
    ensures p.commP.Some? && p.inclusionProof.Some? ==> FromFfiPiece(IntoFfiPieceMetadata(p)) == p
  {
  }

  /** A C piece read in and sent back out is unchanged, unless its proof pointer was null. */
  lemma FfiPieceRoundTrip(f: FFIPieceMetadata)
    ensures f.inclusionProof.Array? ==> IntoFfiPieceMetadata(FromFfiPiece(f)) == f
    ensures f.inclusionProof.Null? ==>
      IntoFfiPieceMetadata(FromFfiPiece(f)) == f.(inclusionProof := Array([]))
  {
  }

  function IntoFfiPieces(ps: seq<PieceMetadata>): seq<FFIPieceMetadata> {
    seq(|ps|, i requires 0 <= i < |ps| => IntoFfiPieceMetadata(ps[i]))
  }

  function FromFfiPieces(fs: seq<FFIPieceMetadata>): seq<PieceMetadata> {
    seq(|fs|, i requires 0 <= i < |fs| => FromFfiPiece(fs[i]))
  }

  // ---------------------------------------------------------------------
  // Staged and sealed sector metadata

  /** `into_staged_sector_metadata`: a C staged sector always comes in as `Pending`. */
  function IntoStagedSectorMetadata(s: FFIPendingStagedSectorMetadata): (m: StagedSectorMetadata)
    ensures m.sealStatus == SealStatus.Pending
    ensures m.sectorId == s.sectorId && m.sectorAccess == s.sectorAccess
    ensures |m.pieces| == s.pieces.Len()
    ensures forall i :: 0 <= i < |m.pieces| ==> m.pieces[i] == FromFfiPiece(s.pieces.Elems()[i])
  {
    StagedSectorMetadata(s.sectorId, s.sectorAccess, FromFfiPieces(s.pieces.Elems()), SealStatus.Pending)
  }

  /** The C form of a staged sector returned by `add_piece_second`. */
  function ToFfiPendingStagedSector(m: StagedSectorMetadata): (f: FFIPendingStagedSectorMetadata)
    ensures f.sectorId == m.sectorId && f.sectorAccess == m.sectorAccess
    ensures f.pieces.Array? && f.pieces.Len() == |m.pieces|
    ensures forall i :: 0 <= i < |m.pieces| ==> f.pieces.Elems()[i] == IntoFfiPieceMetadata(m.pieces[i])
  {
    FFIPendingStagedSectorMetadata(m.sectorAccess, m.sectorId, Array(IntoFfiPieces(m.pieces)))
  }

  /**
   * A staged sector returned to C by `add_piece_second` and passed back in
   * keeps its id, access and pieces (normalised) and comes back `Pending`.
   */
  lemma StagedRoundTrip(m: StagedSectorMetadata)
    ensures IntoStagedSectorMetadata(ToFfiPendingStagedSector(m))
      == m.(pieces := seq(|m.pieces|, i requires 0 <= i < |m.pieces| => Normalized(m.pieces[i])),
            sealStatus := SealStatus.Pending)
  {
  }

  /** `into_sealed_sector_metadata`: the fields the C record lacks are left unset. */
  function IntoSealedSectorMetadata(s: FFISealedSectorMetadata): (m: SealedSectorMetadata)
    ensures m.sectorId == s.sectorId && m.sectorAccess == s.sectorAccess
    ensures m.commD == s.commD && m.commR == s.commR && m.commRStar == s.commRStar
    ensures m.proof == s.proofs.Elems()
    ensures |m.pieces| == s.pieces.Len()
    ensures forall i :: 0 <= i < |m.pieces| ==> m.pieces[i] == FromFfiPiece(s.pieces.Elems()[i])
    ensures m.blake2bChecksum == [] && m.len == 0
  {
    SealedSectorMetadata(
      s.sectorId, s.sectorAccess, FromFfiPieces(s.pieces.Elems()),
      s.commRStar, s.commR, s.commD, s.proofs.Elems(),
      [], [], 0, ZeroTicket)
  }

  /** The C form of a sealed sector, as built by the sealed listing and by `seal_staged_sector`. */
  function ToFfiSealedSector(m: SealedSectorMetadata, health: FFISealedSectorHealth): FFISealedSectorMetadata {
    FFISealedSectorMetadata(
      m.commD, m.commR, m.commRStar, Array(IntoFfiPieces(m.pieces)), Array(m.proof),
      m.sectorAccess, m.sectorId, health)
  }

  /**
   * A sealed sector handed to C and read back keeps its id, access,
   * commitments, proof and (normalised) pieces; what C never sees (checksum,
   * length, replica data, ticket) comes back unset.
   */
  lemma SealedRoundTrip(m: SealedSectorMetadata, health: FFISealedSectorHealth)
    ensures IntoSealedSectorMetadata(ToFfiSealedSector(m, health))
      == m.(pieces := seq(|m.pieces|, i requires 0 <= i < |m.pieces| => Normalized(m.pieces[i])),
            pAux := [], blake2bChecksum := [], len := 0, sealTicket := ZeroTicket)
  {
  }

  // ---------------------------------------------------------------------
  // Listings and seal status

  /** The seal status code and error message a staged-sector listing reports. */
  function StagedStatusFields(s: SealStatus): (r: (FFISealStatus, CStr))
    ensures r.0 == FFISealStatus.Failed <==> s.Failed?
    ensures r.0 == FFISealStatus.Sealing <==> s.Sealing?
    ensures r.0 == FFISealStatus.Pending <==> s.Pending?
    ensures r.0 == FFISealStatus.Sealed <==> s.Sealed?
    ensures r.1.Some? <==> s.Failed?
    ensures s.Failed? ==> r.1 == Some(s.message)
  {
    match s
    case Failed(message) => (FFISealStatus.Failed, Some(message))
    case Sealing(_) => (FFISealStatus.Sealing, None)
    case Pending => (FFISealStatus.Pending, None)
    case Sealed(_) => (FFISealStatus.Sealed, None)
  }

  /** The per-sector closure of `get_staged_sectors`. */
  function ToFfiStagedSector(m: StagedSectorMetadata): (f: FFIStagedSectorMetadata)
    ensures f.sectorId == m.sectorId && f.sectorAccess == m.sectorAccess
    ensures f.pieces.Len() == |m.pieces|
    ensures forall i :: 0 <= i < |m.pieces| ==> f.pieces.Elems()[i] == IntoFfiPieceMetadata(m.pieces[i])
    ensures (f.sealStatusCode, f.sealErrorMsg) == StagedStatusFields(m.sealStatus)
  {
    var (code, msg) := StagedStatusFields(m.sealStatus);
    FFIStagedSectorMetadata(m.sectorAccess, m.sectorId, Array(IntoFfiPieces(m.pieces)), code, msg)
  }

  /** The per-sector closure of `get_sealed_sectors`: no health read means `Unknown`. */
  function SealedListingEntry(w: GetSealedSectorResult): (f: FFISealedSectorMetadata)
    ensures w.WithoutHealth? ==> f.health == Unknown
    ensures w.WithHealth? ==> f.health == FromSealedSectorHealth(w.health)
    ensures f.sectorId == w.meta.sectorId && f.sectorAccess == w.meta.sectorAccess
    ensures f.pieces.Len() == |w.meta.pieces|
    ensures forall i :: 0 <= i < |w.meta.pieces| ==> f.pieces.Elems()[i] == IntoFfiPieceMetadata(w.meta.pieces[i])
    ensures f.commD == w.meta.commD && f.commR == w.meta.commR && f.commRStar == w.meta.commRStar
    ensures f.proofs.Elems() == w.meta.proof
  {
    var health := match w
      case WithHealth(h, _) => FromSealedSectorHealth(h)
      case WithoutHealth(_) => Unknown;
    ToFfiSealedSector(w.meta, health)
  }

  /** The health a sealed listing reports decodes to exactly the health that was checked, if any. */
  lemma SealedListingHealthRoundTrip(w: GetSealedSectorResult)
    ensures ToSealedSectorHealth(SealedListingEntry(w).health)
      == (if w.WithHealth? then Some(w.health) else None)
  {
  }

  /** The fields of a seal-status query answer, given the status found. */
  function SealStatusPayloadOf(s: SealStatus): SealStatusPayload {
    var d := DefaultSealStatusPayload();
    match s
    case Sealed(meta) =>
      d.(commD := meta.commD, commR := meta.commR, commRStar := meta.commRStar,
         pieces := Array(IntoFfiPieces(meta.pieces)), proof := Array(meta.proof),
         sealStatusCode := FFISealStatus.Sealed, sectorAccess := Some(meta.sectorAccess),
         sectorId := meta.sectorId)
    case Sealing(_) => d.(sealStatusCode := FFISealStatus.Sealing)
    case Pending => d.(sealStatusCode := FFISealStatus.Pending)
    case Failed(message) => d.(sealStatusCode := FFISealStatus.Failed, sealErrorMsg := Some(message))
  }

  // ---------------------------------------------------------------------
  // Responses

  /**
   * The status and message of a response agree with the outcome it reports:
   * no error and a null message on success; on failure the code
   * `err_code_and_msg` gives and the error's text.
   */
  predicate Completed<T, P>(r: Result<T, Error>, resp: Response<P>) {
    && (resp.status == FCPNoError <==> r.Success?)
    && (resp.errorMsg.Some? <==> r.Failure?)
    && (r.Failure? ==>
          resp.status == ErrCodeAndMsg(r.error).0 && resp.errorMsg == Some(r.error.display))
  }

  /**
   * The pattern every entry point follows: start from the default response;
   * on success report no error and fill in the payload; on failure report the
   * error's status code and message and leave the payload at its default.
   */
  function Complete<T, P>(r: Result<T, Error>, fill: T -> P, empty: P): (resp: Response<P>)
    ensures Completed(r, resp)
    ensures r.Success? ==> resp.payload == fill(r.value)
    ensures r.Failure? ==> resp.payload == empty
  {
    match r
    case Success(v) => Response(FCPNoError, None, fill(v))
    case Failure(e) =>
      var (code, msg) := ErrCodeAndMsg(e);
      Response(code, Some(msg), empty)
  }

  /** `sector_builder_ffi_get_seal_status`, given the builder's answer. */
  function GetSealStatus(r: Result<SealStatus, Error>): (resp: GetSealStatusResponse)
    ensures Completed(r, resp)
    ensures r.Failure? ==> resp.payload == DefaultSealStatusPayload()
    ensures r.Success? ==>
      var s := r.value;
      && (resp.payload.sealErrorMsg.Some? <==> s.Failed?)
      && (s.Failed? ==> resp.payload.sealErrorMsg == Some(s.message))
      && (resp.payload.sealStatusCode == FFISealStatus.Sealed <==> s.Sealed?)
      && (resp.payload.sealStatusCode == FFISealStatus.Failed <==> s.Failed?)
      && (resp.payload.sealStatusCode == FFISealStatus.Sealing <==> s.Sealing?)
      && (resp.payload.sealStatusCode == FFISealStatus.Pending <==> s.Pending?)
      && (s.Sealed? ==>
            && resp.payload.sectorId == s.meta.sectorId
            && resp.payload.sectorAccess == Some(s.meta.sectorAccess)
            && resp.payload.commD == s.meta.commD && resp.payload.commR == s.meta.commR
            && resp.payload.commRStar == s.meta.commRStar
            && resp.payload.proof.Elems() == s.meta.proof
            && resp.payload.pieces.Len() == |s.meta.pieces|
            && (forall i :: 0 <= i < |s.meta.pieces| ==>
                  resp.payload.pieces.Elems()[i] == IntoFfiPieceMetadata(s.meta.pieces[i])))
      && (!s.Sealed? ==>
            resp.payload == DefaultSealStatusPayload().(sealStatusCode := resp.payload.sealStatusCode,
                                                        sealErrorMsg := resp.payload.sealErrorMsg))
  {
    Complete(r, SealStatusPayloadOf, DefaultSealStatusPayload())
  }

  /**
   * The seal-status query and the staged-sector listing, written separately in
   * the source, report the same status code and the same seal error message.
   */
  lemma SealStatusQueryAgreesWithListing(m: StagedSectorMetadata)
    ensures GetSealStatus(Success(m.sealStatus)).payload.sealStatusCode
      == ToFfiStagedSector(m).sealStatusCode
    ensures GetSealStatus(Success(m.sealStatus)).payload.sealErrorMsg
      == ToFfiStagedSector(m).sealErrorMsg
  {
  }

  /** `sector_builder_ffi_get_staged_sectors`, given the builder's answer. */
  function GetStagedSectors(r: Result<seq<StagedSectorMetadata>, Error>): (resp: GetStagedSectorsResponse)
    ensures Completed(r, resp)
    ensures r.Failure? ==> resp.payload.Null?
    ensures r.Success? ==> resp.payload.Len() == |r.value|
    ensures r.Success? ==> forall i :: 0 <= i < |r.value| ==>
      var f := resp.payload.Elems()[i];
      var m := r.value[i];
      && f.sectorId == m.sectorId
      && f.pieces.Len() == |m.pieces|
      && (f.sealErrorMsg.Some? <==> m.sealStatus.Failed?)
      && f.sealStatusCode == StagedStatusFields(m.sealStatus).0
    ensures r.Success? ==> forall i :: 0 <= i < |r.value| ==>
      resp.payload.Elems()[i] == ToFfiStagedSector(r.value[i])
  {
    Complete(r, (ms: seq<StagedSectorMetadata>) =>
      Array(seq(|ms|, i requires 0 <= i < |ms| => ToFfiStagedSector(ms[i]))), Null)
  }

  /** `sector_builder_ffi_get_sealed_sectors`, given the builder's answer. */
  function GetSealedSectors(r: Result<seq<GetSealedSectorResult>, Error>): (resp: GetSealedSectorsResponse)
    ensures Completed(r, resp)
    ensures r.Failure? ==> resp.payload.Null?
    ensures r.Success? ==> resp.payload.Len() == |r.value|
    ensures r.Success? ==> forall i :: 0 <= i < |r.value| ==>
      var f := resp.payload.Elems()[i];
      var w := r.value[i];
      && f.sectorId == w.meta.sectorId
      && f.pieces.Len() == |w.meta.pieces|
      && (w.WithoutHealth? ==> f.health == Unknown)
      && (w.WithHealth? ==> f.health == FromSealedSectorHealth(w.health))
    ensures r.Success? ==> forall i :: 0 <= i < |r.value| ==>
      resp.payload.Elems()[i] == SealedListingEntry(r.value[i])
  {
    Complete(r, (ws: seq<GetSealedSectorResult>) =>
      Array(seq(|ws|, i requires 0 <= i < |ws| => SealedListingEntry(ws[i]))), Null)
  }

  /** `sector_builder_ffi_add_piece_second`: on success, one C staged sector. */
  function AddPieceSecond(r: Result<StagedSectorMetadata, Error>): (resp: AddPieceSecondResponse)
    ensures Completed(r, resp)
    ensures resp.payload.Len() == (if r.Success? then 1 else 0)
    ensures r.Success? ==> IntoStagedSectorMetadata(resp.payload.Elems()[0]).sectorId == r.value.sectorId
    ensures r.Success? ==> resp.payload.Elems()[0] == ToFfiPendingStagedSector(r.value)
  {
    Complete(r, (m: StagedSectorMetadata) => Array([ToFfiPendingStagedSector(m)]), Null)
  }

  /** `sector_builder_ffi_seal_staged_sector`: on success, one C sealed sector of unknown health. */
  function SealStagedSector(r: Result<SealedSectorMetadata, Error>): (resp: SealStagedSectorResponse)
    ensures Completed(r, resp)
    ensures resp.payload.Len() == (if r.Success? then 1 else 0)
    ensures r.Success? ==>
      resp.payload.Elems()[0].health == Unknown &&
      resp.payload.Elems()[0].sectorId == r.value.sectorId
    ensures r.Success? ==> resp.payload.Elems()[0] == SealedListingEntry(WithoutHealth(r.value))
  {
    Complete(r, (m: SealedSectorMetadata) => Array([ToFfiSealedSector(m, Unknown)]), Null)
  }

  /** `sector_builder_ffi_add_piece_first`: on success, the id of the sector the piece goes to. */
  function AddPieceFirst(r: Result<SectorId, Error>): (resp: AddPieceResponse)
    ensures Completed(r, resp)
    ensures resp.payload == (if r.Success? then r.value else 0)
  {
    Complete(r, (id: SectorId) => id, 0)
  }

  /** `sector_builder_ffi_read_piece_from_specified_sealed_sector`: on success, the unsealed bytes. */
  function ReadPieceFromSealedSector(r: Result<seq<u8>, Error>): (resp: ReadPieceFromSealedSectorResponse)
    ensures Completed(r, resp)
    ensures r.Success? ==> resp.payload.Array? && resp.payload.Elems() == r.value
    ensures r.Failure? ==> resp.payload.Null?
  {
    Complete(r, (bytes: seq<u8>) => Array(bytes), Null)
  }

  /**
   * `sector_builder_ffi_get_sectors_ready_for_sealing`: the builder's answer
   * cannot fail, so the response always reports no error.
   */
  function GetSectorsReadyForSealing(ids: seq<SectorId>): (resp: GetSectorsReadyForSealingResponse)
    ensures resp.status == FCPNoError && resp.errorMsg.None?
    ensures resp.payload.Elems() == ids
  {
    DefaultGetSectorsReadyForSealingResponse().(payload := Array(ids))
  }

  /** A PoSt challenge as the proofs code produces and consumes it. */
  datatype Challenge = Challenge(sector: SectorId, leaf: u64)

  function IntoFfiChallenge(c: Challenge): FFIChallenge {
    FFIChallenge(c.sector, c.leaf)
  }

  /** The challenge conversion in `sector_builder_ffi_generate_post_second`. */
  function FromFfiChallenge(f: FFIChallenge): Challenge {
    Challenge(f.sector, f.leaf)
  }

  /** The two challenge conversions are inverse to each other. */
  lemma ChallengeRoundTrip(c: Challenge, f: FFIChallenge)
    ensures FromFfiChallenge(IntoFfiChallenge(c)) == c
    ensures IntoFfiChallenge(FromFfiChallenge(f)) == f
  {
  }

  /** `sector_builder_ffi_generate_post_first`: on success, the challenges in C form, in order. */
  function GeneratePostFirst(r: Result<seq<Challenge>, Error>): (resp: GeneratePoStFirstResponse)
    ensures Completed(r, resp)
    ensures r.Success? ==> resp.payload.Len() == |r.value|
    ensures r.Success? ==> forall i :: 0 <= i < |r.value| ==>
      FromFfiChallenge(resp.payload.Elems()[i]) == r.value[i]
    ensures r.Failure? ==> resp.payload.Null?
  {
    Complete(r, (cs: seq<Challenge>) =>
      Array(seq(|cs|, i requires 0 <= i < |cs| => IntoFfiChallenge(cs[i]))), Null)
  }

  /**
   * The challenges `sector_builder_ffi_generate_post_second` hands to the
   * proofs code are exactly those `sector_builder_ffi_generate_post_first`
   * returned to C.
   */
  lemma PostChallengesRoundTrip(cs: seq<Challenge>)
    ensures var resp := GeneratePostFirst(Success(cs));
      seq(resp.payload.Len(), i requires 0 <= i < resp.payload.Len() =>
        FromFfiChallenge(resp.payload.Elems()[i])) == cs
  {
  }

  /** `sector_builder_ffi_generate_post_second`: on success, the proof bytes. */
  function GeneratePostSecond(r: Result<seq<u8>, Error>): (resp: GeneratePoStResponse)
    ensures Completed(r, resp)
    ensures r.Success? ==> resp.payload.Array? && resp.payload.Elems() == r.value
    ensures r.Failure? ==> resp.payload.Null?
  {
    Complete(r, (proof: seq<u8>) => Array(proof), Null)
  }

  /**
   * A seal that fails after the task was prepared reaches C as a receiver
   * error with a null sector array; the builder's copy of the staged sector
   * has been moved to `Sealing` (the entry point then drops that copy).
   */
  lemma SealFailureIsReceiverError(
    staged: StagedSectorMetadata, ticket: SealTicket, sealedAccess: string,
    seal: Result<SimpleBuilder.SealOutput, Error>, checksum: Result<seq<u8>, Error>,
    fileLen: Result<u64, Error>)
    requires seal.Failure? || checksum.Failure? || fileLen.Failure?
    ensures var (staged', r) := SimpleBuilder.SealStagedSector(
        staged, ticket, Success(sealedAccess), seal, checksum, fileLen);
      var resp := SealStagedSector(r);
      && staged'.sealStatus == SealStatus.Sealing(ticket)
      && resp.status == FCPReceiverError
      && resp.payload.Null?
  {
  }

  /** A read of a piece the sector does not hold reaches C as a caller error. */
  lemma MissingPieceIsCallerError(
    sealed: SealedSectorMetadata, key: string, stagingAccess: Result<string, SectorManagerErr>)
    requires !SimpleBuilder.HasPiece(sealed.pieces, key)
    ensures var r := SimpleBuilder.CreateRetrievePieceTaskProto(sealed, key, stagingAccess);
      r.Failure? && ErrCodeAndMsg(r.error).0 == FCPCallerError
  {
  }

  // ---------------------------------------------------------------------
  // Sector maps rebuilt from C arrays

  /** No position after `i` (and before `n`) holds the id at `i`. */
  predicate LastBefore(ids: seq<SectorId>, i: int, n: int)
    requires 0 <= i < |ids| && n <= |ids|
  {
    forall j :: i < j < n ==> ids[j] != ids[i]
  }

  /** Position `i` is the last one holding its id, so its entry is the one kept. */
  predicate IsLastOccurrence(ids: seq<SectorId>, i: int) {
    0 <= i < |ids| && LastBefore(ids, i, |ids|)
  }

  /**
   * The loop `for s in sectors { map.insert(id(s), convert(s)) }`, given the
   * ids and the converted values in array order: every id present gets an
   * entry, and when ids repeat the last one wins.
   */
  method IndexById<V>(ids: seq<SectorId>, values: seq<V>) returns (m: map<SectorId, V>)
    requires |ids| == |values|
    ensures forall id :: id in m <==> id in ids
    ensures forall i :: IsLastOccurrence(ids, i) ==> ids[i] in m && m[ids[i]] == values[i]
    ensures forall id :: id in m ==> exists i :: 0 <= i < |ids| && ids[i] == id && m[id] == values[i]
  {
    m := map[];
    var n := 0;
    while n < |ids|
      invariant 0 <= n <= |ids|
      invariant forall id :: id in m <==> id in ids[..n]
      invariant forall i :: 0 <= i < n && LastBefore(ids, i, n) ==> ids[i] in m && m[ids[i]] == values[i]
      invariant forall id :: id in m ==> exists i :: 0 <= i < n && ids[i] == id && m[id] == values[i]
    {
      m := m[ids[n] := values[n]];
      n := n + 1;
    }
  }

  /** The ids of C staged sectors, in array order. */
  function PendingIds(sectors: seq<FFIPendingStagedSectorMetadata>): seq<SectorId> {
    seq(|sectors|, i requires 0 <= i < |sectors| => sectors[i].sectorId)
  }

  /** The ids of C sealed sectors, in array order. */
  function SealedIds(sectors: seq<FFISealedSectorMetadata>): seq<SectorId> {
    seq(|sectors|, i requires 0 <= i < |sectors| => sectors[i].sectorId)
  }

  /** The staged-sector map `add_piece_first` and `get_sectors_ready_for_sealing` rebuild. */
  method StagedSectorsById(sectors: seq<FFIPendingStagedSectorMetadata>)
    returns (m: map<SectorId, StagedSectorMetadata>)
    ensures forall id :: id in m <==> id in PendingIds(sectors)
    ensures forall i :: IsLastOccurrence(PendingIds(sectors), i) ==>
      sectors[i].sectorId in m && m[sectors[i].sectorId] == IntoStagedSectorMetadata(sectors[i])
    ensures forall id :: id in m ==> m[id].sectorId == id && m[id].sealStatus.Pending?
  {
    var ids := PendingIds(sectors);
    m := IndexById(ids, seq(|sectors|, i requires 0 <= i < |sectors| => IntoStagedSectorMetadata(sectors[i])));
  }

  /** The sealed-sector map `generate_post_first`/`generate_post_second` rebuild. */
  method SealedSectorsById(sectors: seq<FFISealedSectorMetadata>)
    returns (m: map<SectorId, SealedSectorMetadata>)
    ensures forall id :: id in m <==> id in SealedIds(sectors)
    ensures forall i :: IsLastOccurrence(SealedIds(sectors), i) ==>
      sectors[i].sectorId in m && m[sectors[i].sectorId] == IntoSealedSectorMetadata(sectors[i])
    ensures SimpleBuilder.KeyedById(m)
  {
    var ids := SealedIds(sectors);
    m := IndexById(ids, seq(|sectors|, i requires 0 <= i < |sectors| => IntoSealedSectorMetadata(sectors[i])));
  }

  /**
   * `sector_builder_ffi_generate_post_first` up to the proofs call: the sectors
   * to challenge are the distinct ids of the C sectors, and the faults are
   * passed on as given.
   */
  method GeneratePostFirstInputs(faults: seq<u64>, sectors: seq<FFISealedSectorMetadata>)
    returns (challenged: set<SectorId>, faultIds: seq<SectorId>)
    ensures forall id :: id in challenged <==> id in SealedIds(sectors)
    ensures faultIds == faults
  {
    var sealed := SealedSectorsById(sectors);
    challenged := SimpleBuilder.GeneratePostFirstSectors(sealed);
    faultIds := faults;
  }

  /**
   * `sector_builder_ffi_generate_post_second` up to the proofs call: one
   * replica per distinct C sector id, built from the last C sector with that
   * id, faulty exactly when the id is listed as a fault.
   */
  method GeneratePostSecondInputs(faults: seq<u64>, sectors: seq<FFISealedSectorMetadata>)
    returns (replicas: map<SectorId, SimpleBuilder.PrivateReplicaInfo>)
    ensures forall id :: id in replicas <==> id in SealedIds(sectors)
    ensures forall id :: id in replicas ==> (replicas[id].faulty <==> id in faults)
    ensures forall i :: IsLastOccurrence(SealedIds(sectors), i) ==>
      sectors[i].sectorId in replicas &&
      replicas[sectors[i].sectorId]
        == SimpleBuilder.ReplicaOf(IntoSealedSectorMetadata(sectors[i]), sectors[i].sectorId in faults)
  {
    var sealed := SealedSectorsById(sectors);
    replicas := SimpleBuilder.GeneratePostSecondReplicas(faults, sealed);
  }
}
