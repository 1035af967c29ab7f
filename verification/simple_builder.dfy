/**
 * The pure part of `SimpleSectorBuilder`: locating a piece to unseal,
 * preparing a seal task, merging the seal output into sealed-sector metadata
 * and building the replica set handed to proof-of-spacetime generation.
 *
 * Everything that touches disk or the proofs library (allocating sector
 * access names, sealing, checksums, file lengths) enters as a parameter
 * holding that call's outcome.
 */
module SimpleBuilder {
  import opened Wrappers
  import opened SectorTypes

  /** The inputs of an unseal, as far as this crate computes them. */
  datatype UnsealTaskPrototype = UnsealTaskPrototype(
    commD: Commitment,
    sourceAccess: string,              // sealed sector the bytes come from
    destinationAccess: string,         // freshly allocated staging sector
    sectorId: SectorId,
    precedingPieceLens: seq<UnpaddedBytesAmount>,  // handed to get_piece_start_byte
    pieceLen: UnpaddedBytesAmount,
    sealTicket: SealTicket)

  /** The inputs of a seal, as far as this crate computes them. */
  datatype SealTaskPrototype = SealTaskPrototype(
    pieceLens: seq<UnpaddedBytesAmount>,
    sealTicket: SealTicket,
    sealedSectorAccess: string,
    sectorId: SectorId,
    stagedSectorAccess: string)

  /** What the proofs library's `seal` returns; inclusion proofs already serialised. */
  datatype SealOutput = SealOutput(
    commR: Commitment,
    commD: Commitment,
    pAux: PAux,
    proof: seq<u8>,
    commPs: seq<Commitment>,
    pieceInclusionProofs: seq<seq<u8>>)

  /** A replica as handed to PoSt generation; the path is abstracted to the access name. */
  datatype PrivateReplicaInfo = PrivateReplicaInfo(
    sectorAccess: string,
    commR: Commitment,
    pAux: PAux,
    faulty: bool)

  predicate HasPiece(pieces: seq<PieceMetadata>, key: string) {
    exists i :: 0 <= i < |pieces| && pieces[i].pieceKey == key
  }

  // ---------------------------------------------------------------------
  // create_retrieve_piece_task_proto

  /** `pieces.iter().find(|p| p.piece_key == key)`, as the index of the piece found. */
  function FirstPieceWithKey(pieces: seq<PieceMetadata>, key: string): (r: Option<nat>)
    ensures r.None? <==> !HasPiece(pieces, key)
    ensures r.Some? ==> r.value < |pieces| && pieces[r.value].pieceKey == key
    ensures r.Some? ==> forall j :: 0 <= j < r.value ==> pieces[j].pieceKey != key
  {
    if |pieces| == 0 then None
    else if pieces[0].pieceKey == key then Some(0)
    else
      match FirstPieceWithKey(pieces[1..], key)
      case None =>
        assert forall i :: 1 <= i < |pieces| ==> pieces[i] == pieces[1..][i - 1];
        None
      case Some(i) => Some(i + 1)
  }

  /** `take_while(|p| p.piece_key != key).map(|p| p.num_bytes)`. */
  function LengthsBefore(pieces: seq<PieceMetadata>, key: string): (r: seq<UnpaddedBytesAmount>)
    ensures |r| <= |pieces|
    ensures forall j :: 0 <= j < |r| ==> r[j] == pieces[j].numBytes && pieces[j].pieceKey != key
    ensures |r| < |pieces| ==> pieces[|r|].pieceKey == key
  {
    if |pieces| == 0 || pieces[0].pieceKey == key then []
    else [pieces[0].numBytes] + LengthsBefore(pieces[1..], key)
  }

  /**
   * `create_retrieve_piece_task_proto`. `stagingAccess` is the outcome of
   * allocating a staging sector access, which is attempted only once the piece
   * has been found.
   */
  function CreateRetrievePieceTaskProto(
    sealed: SealedSectorMetadata, key: string, stagingAccess: Result<string, SectorManagerErr>)
    : (r: Result<UnsealTaskPrototype, Error>)
    ensures !HasPiece(sealed.pieces, key) ==> r == Failure(ErrPieceNotFound(key))
    ensures HasPiece(sealed.pieces, key) && stagingAccess.Failure? ==>
      r == Failure(FromManagerErr(stagingAccess.error))
    ensures r.Success? <==> HasPiece(sealed.pieces, key) && stagingAccess.Success?
    ensures r.Success? ==>
      var t := r.value;
      var i := |t.precedingPieceLens|;
      && i < |sealed.pieces|
      && sealed.pieces[i].pieceKey == key
      && (forall j :: 0 <= j < i ==>
            sealed.pieces[j].pieceKey != key && t.precedingPieceLens[j] == sealed.pieces[j].numBytes)
      && t.pieceLen == sealed.pieces[i].numBytes
      && t.sectorId == sealed.sectorId
      && t.commD == sealed.commD
      && t.sealTicket == sealed.sealTicket
      && t.sourceAccess == sealed.sectorAccess
      && t.destinationAccess == stagingAccess.value
  {
    match FirstPieceWithKey(sealed.pieces, key)
    case None => Failure(ErrPieceNotFound(key))
    case Some(i) =>
      var lens := LengthsBefore(sealed.pieces, key);
      match stagingAccess
      case Failure(e) => Failure(FromManagerErr(e))
      case Success(access) =>
        Success(UnsealTaskPrototype(
          sealed.commD, sealed.sectorAccess, access, sealed.sectorId,
          lens, sealed.pieces[i].numBytes, sealed.sealTicket))
  }

  // ---------------------------------------------------------------------
  // create_seal_task_proto

  /** `pieces.iter().map(|p| p.num_bytes).collect()`. */
  function PieceLens(pieces: seq<PieceMetadata>): (r: seq<UnpaddedBytesAmount>)
    ensures |r| == |pieces|
    ensures forall i :: 0 <= i < |r| ==> r[i] == pieces[i].numBytes
  {
    if |pieces| == 0 then [] else [pieces[0].numBytes] + PieceLens(pieces[1..])
  }

  /**
   * `create_seal_task_proto`: returns the staged sector as the caller sees it
   * afterwards, and the task. `sealedAccess` is the outcome of allocating the
   * sealed sector access; when it fails the sector is left as it was.
   */
  function CreateSealTaskProto(
    staged: StagedSectorMetadata, ticket: SealTicket, sealedAccess: Result<string, SectorManagerErr>)
    : (r: (StagedSectorMetadata, Result<SealTaskPrototype, Error>))
    ensures sealedAccess.Failure? ==>
      r.0 == staged && r.1 == Failure(FromManagerErr(sealedAccess.error))
    ensures sealedAccess.Success? ==> r.1.Success?
    ensures r.1.Success? ==>
      && r.0.sealStatus == Sealing(ticket)
      && r.0.sectorId == staged.sectorId
      && r.0.sectorAccess == staged.sectorAccess
      && r.0.pieces == staged.pieces
    ensures r.1.Success? ==>
      var t := r.1.value;
      && |t.pieceLens| == |staged.pieces|
      && (forall i :: 0 <= i < |t.pieceLens| ==> t.pieceLens[i] == staged.pieces[i].numBytes)
      && t.sealTicket == ticket
      && t.sectorId == staged.sectorId
      && t.sealedSectorAccess == sealedAccess.value
      && t.stagedSectorAccess == staged.sectorAccess
  {
    match sealedAccess
    case Failure(e) => (staged, Failure(FromManagerErr(e)))
    case Success(access) =>
      var lens := PieceLens(staged.pieces);
      (staged.(sealStatus := Sealing(ticket)),
       Success(SealTaskPrototype(lens, ticket, access, staged.sectorId, staged.sectorAccess)))
  }

  // ---------------------------------------------------------------------
  // seal_staged_sector

  function Min3(a: nat, b: nat, c: nat): nat {
    if a <= b && a <= c then a else if b <= c then b else c
  }

  /**
   * `pieces.into_iter().zip(comm_ps).zip(proofs).map(..)`: each staged piece
   * paired with its commitment and inclusion proof; the shortest input decides
   * the length.
   */
  function ZipPieces(pieces: seq<PieceMetadata>, commPs: seq<Commitment>, proofs: seq<seq<u8>>)
    : (r: seq<PieceMetadata>)
    ensures |r| == Min3(|pieces|, |commPs|, |proofs|)
    ensures forall i :: 0 <= i < |r| ==>
      && r[i].pieceKey == pieces[i].pieceKey
      && r[i].numBytes == pieces[i].numBytes
      && r[i].commP == Some(commPs[i])
      && r[i].inclusionProof == Some(proofs[i])
  {
    if |pieces| == 0 || |commPs| == 0 || |proofs| == 0 then []
    else
      [PieceMetadata(pieces[0].pieceKey, pieces[0].numBytes, Some(commPs[0]), Some(proofs[0]))]
      + ZipPieces(pieces[1..], commPs[1..], proofs[1..])
  }

  /**
   * `seal_staged_sector`. Returns the staged sector as the caller sees it
   * afterwards and the outcome. The outcomes of the calls into the proofs
   * library and the file system are parameters: `seal`, the checksum of the
   * sealed file, and its length. An error from any of those three is wrapped
   * as unrecoverable; an error preparing the task is passed on as it is.
   */
  function SealStagedSector(
    staged: StagedSectorMetadata,
    ticket: SealTicket,
    sealedAccess: Result<string, SectorManagerErr>,
    seal: Result<SealOutput, Error>,
    checksum: Result<seq<u8>, Error>,
    fileLen: Result<u64, Error>)
    : (r: (StagedSectorMetadata, Result<SealedSectorMetadata, Error>))
    ensures sealedAccess.Failure? ==>
      r.0 == staged && r.1 == Failure(FromManagerErr(sealedAccess.error))
    ensures sealedAccess.Success? ==> r.0 == staged.(sealStatus := Sealing(ticket))
    ensures sealedAccess.Success? && seal.Failure? ==> r.1 == Failure(ErrUnrecov(seal.error))
    ensures sealedAccess.Success? && seal.Success? && checksum.Failure? ==>
      r.1 == Failure(ErrUnrecov(checksum.error))
    ensures sealedAccess.Success? && seal.Success? && checksum.Success? && fileLen.Failure? ==>
      r.1 == Failure(ErrUnrecov(fileLen.error))
    ensures r.1.Success? <==>
      sealedAccess.Success? && seal.Success? && checksum.Success? && fileLen.Success?
    ensures r.1.Success? ==>
      var m := r.1.value;
      var out := seal.value;
      && m.sectorId == staged.sectorId
      && m.sectorAccess == sealedAccess.value
      && |m.pieces| == Min3(|staged.pieces|, |out.commPs|, |out.pieceInclusionProofs|)
      && (forall i :: 0 <= i < |m.pieces| ==>
            && m.pieces[i].pieceKey == staged.pieces[i].pieceKey
            && m.pieces[i].numBytes == staged.pieces[i].numBytes
            && m.pieces[i].commP == Some(out.commPs[i])
            && m.pieces[i].inclusionProof == Some(out.pieceInclusionProofs[i]))
      && m.commR == out.commR && m.commD == out.commD && m.pAux == out.pAux
      && m.proof == out.proof
      && m.blake2bChecksum == checksum.value && m.len == fileLen.value
      && m.sealTicket == ticket
  {
    var (staged', proto) := CreateSealTaskProto(staged, ticket, sealedAccess);
    match proto
    case Failure(e) => (staged', Failure(e))
    case Success(task) =>
      if seal.Failure? then (staged', Failure(ErrUnrecov(seal.error)))
      else if checksum.Failure? then (staged', Failure(ErrUnrecov(checksum.error)))
      else if fileLen.Failure? then (staged', Failure(ErrUnrecov(fileLen.error)))
      else
        var out := seal.value;
        var pieces := ZipPieces(staged'.pieces, out.commPs, out.pieceInclusionProofs);
        (staged', Success(SealedSectorMetadata(
          staged'.sectorId, task.sealedSectorAccess, pieces,
          ZeroCommitment, out.commR, out.commD, out.proof, out.pAux,
          checksum.value, fileLen.value, ticket)))
  }

  /** Two piece lists with the same keys and lengths in the same order. */
  predicate SameLayout(a: seq<PieceMetadata>, b: seq<PieceMetadata>) {
    && |a| == |b|
    && forall i :: 0 <= i < |a| ==> a[i].pieceKey == b[i].pieceKey && a[i].numBytes == b[i].numBytes
  }

  /** With a commitment and a proof for every piece, sealing keeps the piece layout. */
  lemma SealKeepsLayout(
    staged: StagedSectorMetadata, ticket: SealTicket, sealedAccess: string, out: SealOutput,
    checksum: seq<u8>, fileLen: u64)
    requires |out.commPs| >= |staged.pieces| && |out.pieceInclusionProofs| >= |staged.pieces|
    ensures var r := SealStagedSector(staged, ticket, Success(sealedAccess), Success(out),
                                      Success(checksum), Success(fileLen));
      r.1.Success? && SameLayout(r.1.value.pieces, staged.pieces)
  {
  }

  /** Locating a piece depends only on the layout, and finds it at the layout's offsets. */
  lemma UnsealFollowsLayout(sealed: SealedSectorMetadata, pieces: seq<PieceMetadata>, key: string,
                            stagingAccess: string, i: nat)
    requires SameLayout(sealed.pieces, pieces)
    requires i < |pieces| && pieces[i].pieceKey == key
    ensures CreateRetrievePieceTaskProto(sealed, key, Success(stagingAccess)).Success?
    ensures var t := CreateRetrievePieceTaskProto(sealed, key, Success(stagingAccess)).value;
      |t.precedingPieceLens| < |pieces|
    ensures var t := CreateRetrievePieceTaskProto(sealed, key, Success(stagingAccess)).value;
      t.precedingPieceLens == PieceLens(pieces)[..|t.precedingPieceLens|]
    ensures var t := CreateRetrievePieceTaskProto(sealed, key, Success(stagingAccess)).value;
      t.pieceLen == PieceLens(pieces)[|t.precedingPieceLens|]
  {
  }

  /**
   * Unsealing a piece of a sector this builder sealed locates it in the layout
   * the sector was sealed with: the lengths preceding the piece are a prefix
   * of the seal task's piece lengths, and the piece's own length follows them.
   */
  lemma UnsealLayoutMatchesSealLayout(
    staged: StagedSectorMetadata, ticket: SealTicket, sealedAccess: string, out: SealOutput,
    checksum: seq<u8>, fileLen: u64, key: string, stagingAccess: string)
    requires |out.commPs| >= |staged.pieces| && |out.pieceInclusionProofs| >= |staged.pieces|
    requires HasPiece(staged.pieces, key)
    ensures
      var task := CreateSealTaskProto(staged, ticket, Success(sealedAccess)).1.value;
      var sealed := SealStagedSector(staged, ticket, Success(sealedAccess), Success(out),
                                     Success(checksum), Success(fileLen)).1.value;
      var unseal := CreateRetrievePieceTaskProto(sealed, key, Success(stagingAccess));
      && unseal.Success?
      && |unseal.value.precedingPieceLens| < |task.pieceLens|
      && unseal.value.precedingPieceLens == task.pieceLens[..|unseal.value.precedingPieceLens|]
      && unseal.value.pieceLen == task.pieceLens[|unseal.value.precedingPieceLens|]
  {
  }

  // ---------------------------------------------------------------------
  // generate_post_first / generate_post_second

  /** Every entry of a sector map is filed under its own sector id. */
  predicate KeyedById(sealed: map<SectorId, SealedSectorMetadata>) {
    forall id :: id in sealed ==> sealed[id].sectorId == id
  }

  function ReplicaOf(sector: SealedSectorMetadata, faulty: bool): PrivateReplicaInfo {
    PrivateReplicaInfo(sector.sectorAccess, sector.commR, sector.pAux, faulty)
  }

  /** `generate_post_first` passes the map's keys on as the sectors to challenge. */
  function GeneratePostFirstSectors(sealed: map<SectorId, SealedSectorMetadata>): (sectors: set<SectorId>)
    ensures |sectors| == |sealed|
    ensures forall id :: id in sectors <==> id in sealed
  {
    sealed.Keys
  }

  /**
   * The replica map `generate_post_second` builds: it walks the map's values
   * in an order it does not control and files each one under the value's own
   * sector id, marked faulty exactly when that id is listed in `faults`.
   */
  method GeneratePostSecondReplicas(faults: seq<SectorId>, sealed: map<SectorId, SealedSectorMetadata>)
    returns (replicas: map<SectorId, PrivateReplicaInfo>)
    ensures replicas.Keys == set k | k in sealed :: sealed[k].sectorId
    ensures forall id :: id in replicas ==> (replicas[id].faulty <==> id in faults)
    ensures forall id :: id in replicas ==>
      exists k :: k in sealed && sealed[k].sectorId == id && replicas[id] == ReplicaOf(sealed[k], id in faults)
    ensures KeyedById(sealed) ==>
      forall id :: id in replicas ==> replicas[id] == ReplicaOf(sealed[id], id in faults)
  {
    var faultSet := set id | id in faults;
    replicas := map[];
    var remaining := sealed.Keys;
    while remaining != {}
      invariant remaining <= sealed.Keys
      invariant replicas.Keys == set k | k in sealed && k !in remaining :: sealed[k].sectorId
      invariant forall id :: id in replicas ==>
        exists k :: k in sealed && k !in remaining && sealed[k].sectorId == id
          && replicas[id] == ReplicaOf(sealed[k], id in faults)
      decreases remaining
    {
      var k :| k in remaining;
      var sector := sealed[k];
      replicas := replicas[sector.sectorId := ReplicaOf(sector, sector.sectorId in faultSet)];
      remaining := remaining - {k};
    }
  }

  /** The faulty replicas are exactly the listed faults that are sealed; the rest are healthy. */
  lemma FaultPartition(faults: seq<SectorId>, replicas: map<SectorId, PrivateReplicaInfo>)
    requires forall id :: id in replicas ==> (replicas[id].faulty <==> id in faults)
    ensures (set id | id in replicas && replicas[id].faulty) == replicas.Keys * (set id | id in faults)
    ensures (set id | id in replicas && !replicas[id].faulty) == replicas.Keys - (set id | id in faults)
  {
  }
}
