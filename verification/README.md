# Sector builder FFI — a Dafny model

This project models the data logic of the Filecoin sector builder's C
interface and of the `SimpleSectorBuilder` beneath it:

- the **response layer** (`sector-builder-ffi/src/responses.rs`):
  - the C enums and their fixed discriminants;
  - the health conversion;
  - the classification of errors into the four response status codes;
  - the `Default` shape of every response;
- the **marshalling** in the FFI entry points (`sector-builder-ffi/src/api.rs`):
  - splitting flattened commitments;
  - the sector-class conversion;
  - piece, staged-sector and sealed-sector conversions in both directions;
  - the seal-status and health switches of the listings;
  - the common "start from `Default`, fill in on `Ok`, classify on `Err`" pattern;
  - rebuilding the builder's sector maps from C arrays;
- the **simple builder** (`sector-builder/src/simple_builder.rs`):
  - locating a piece to unseal and the lengths that precede it;
  - preparing a seal task, which moves the staged sector to `Sealing`;
  - merging the seal output into sealed-sector metadata;
  - building the replica set for proof-of-spacetime, with its fault partition.

Modules, in dependency order:

| file | module | contents |
|---|---|---|
| `wrappers.dfy` | `Wrappers` | `Option`, `Result` |
| `sector_types.dfy` | `SectorTypes` | the sector builder crate's records, seal status, health, and the two error enums |
| `responses.dfy` | `Responses` | C enums, C records, responses and their defaults, `ErrCodeAndMsg` |
| `simple_builder.dfy` | `SimpleBuilder` | task prototypes, seal merging, replica set |
| `api.dfy` | `Api` | conversions, listings, entry-point responses, sector maps |

## How the model abstracts the source

- **Pointers.** A pointer-and-length pair becomes a `CArray<T>`, which is `Null` or `Array(items)`. A null pointer reads back as the empty sequence, and a nullable C string becomes `Option<string>`. Allocation, `mem::forget` and the destructors have no counterpart.
- **Errors.** A `failure::Error` is a record. It holds:
  - the error's display text;
  - the outcome of `downcast_ref::<SectorBuilderErr>()`;
  - the outcome of `downcast_ref::<SectorManagerErr>()`.

  This makes the order in which `err_code_and_msg` tries the two downcasts observable.
- **Foreign calls become parameters.** The outcomes of these calls to the proofs library, the sector manager or the filesystem become `Result` parameters:
  - allocating a sector access;
  - `seal`;
  - the checksum;
  - the file length.

  How the remaining foreign calls are treated is listed under "## Left out".
- **Paths.** The sector manager's `sealed_sector_path` and `staged_sector_path` are not called. A sector path is represented by the access name it is built from.
- **`HashMap` iteration.** `generate_post_second` walks a `HashMap` in an unspecified order. The model picks the next entry nondeterministically, so its contract holds for every order. When every entry is keyed by its own sector id, the result does not depend on the order. That is always true of the maps the FFI builds, and it is proved for them.
- **Source files that disagree with each other.** The files do not agree on some types. The model follows `simple_builder.rs`, and the FFI side ignores what it does not see:
  - `SealStatus::Sealing` carries a ticket in `simple_builder.rs`, but `api.rs` matches it as a unit variant.
  - `SealedSectorMetadata` has `comm_r_star` in `api.rs`, but `p_aux` and `seal_ticket` in `simple_builder.rs`. The model has all of these fields, and each construction site leaves the fields it does not know empty or zero.
  - `seal_staged_sector` takes a seal ticket in `simple_builder.rs`, but the FFI entry point calls it without one.
  - `prover_id` is 31 bytes in one file and 32 in the other. It is only passed on to foreign code, so it is not modelled.

## Model

| member | source | states |
|---|---|---|
| Responses.HealthFromDiscriminant | sector-builder-ffi/src/responses.rs:15-21 | a C health integer names a value exactly when it is 0..4, and that value's discriminant is the integer |
| Responses.StatusFromDiscriminant | sector-builder-ffi/src/responses.rs:36-42 | a C status integer names a value exactly when it is 0..3 (NoError 0, Unclassified 1, Caller 2, Receiver 3), and decoding inverts the discriminant |
| Responses.SealStatusFromDiscriminant | sector-builder-ffi/src/responses.rs:46-51 | a C seal-status integer names a value exactly when it is 0..3 (Sealed 0, Pending 1, Failed 2, Sealing 3), and decoding inverts the discriminant |
| Responses.DiscriminantsAreInjective | sector-builder-ffi/src/responses.rs:15-51 | no two values of any of the three C enums share a discriminant |
| Responses.FromSealedSectorHealth | sector-builder-ffi/src/responses.rs:23-32 | the C health of a checked sector is never `Unknown` and converts back to the health it came from |
| Responses.HealthConversionIsBijective | sector-builder-ffi/src/responses.rs:23-32 | the health conversion is injective, and its image is exactly the C values other than `Unknown` |
| Responses.ErrCodeAndMsg | sector-builder-ffi/src/responses.rs:79-102 | never `FCPNoError`; the message is the error's display text; overflow and missing piece give a caller error; incomplete write and unrecoverable give a receiver error; manager errors map one-to-one when the builder downcast fails; anything else is unclassified |
| Responses.BuilderClassificationTakesPriority | sector-builder-ffi/src/responses.rs:86-92 | when the error is a sector-builder error, whatever it also is as a manager error does not change the code or the message |
| Responses.DefaultResponsesAreEmpty | sector-builder-ffi/src/responses.rs:65-74 | every response other than the seal-status one starts with no error, a null message, and a null or zero payload |
| Responses.DefaultSealStatusIsFailed | sector-builder-ffi/src/responses.rs:358-376 | the seal-status response starts as `Failed` with no error, null pointers, zero lengths, zero commitments and sector id 0 |
| SimpleBuilder.FirstPieceWithKey | sector-builder/src/simple_builder.rs:254-258 | absent exactly when no piece has the key; otherwise the index of the first piece that has it |
| SimpleBuilder.LengthsBefore | sector-builder/src/simple_builder.rs:260-265 | the lengths of the leading pieces without the key, stopping at the first piece with it |
| SimpleBuilder.CreateRetrievePieceTaskProto | sector-builder/src/simple_builder.rs:248-289 | `PieceNotFound` exactly when no piece has the key; a failed staging allocation passes through; on success the preceding lengths are those of the pieces before the first match, the piece length is that piece's, and sector id, commitment, sealed access and ticket are copied from the sector |
| SimpleBuilder.PieceLens | sector-builder/src/simple_builder.rs:331-335 | one length per piece, in piece order |
| SimpleBuilder.CreateSealTaskProto | sector-builder/src/simple_builder.rs:309-350 | if allocating the sealed access fails, the error passes through and the sector is unchanged; otherwise the sector becomes `Sealing(ticket)` with nothing else changed, and the task carries the pieces' lengths, the ticket, the ids and both accesses |
| SimpleBuilder.ZipPieces | sector-builder/src/simple_builder.rs:140-152 | as many pieces as the shortest of pieces, commitments and proofs; piece i keeps its key and length and gains `Some(comm_ps[i])` and `Some(proofs[i])` |
| SimpleBuilder.SealStagedSector | sector-builder/src/simple_builder.rs:101-172 | allocation errors pass through unwrapped; seal, checksum and file-length errors are wrapped as unrecoverable; success exactly when all four succeed; the sealed metadata keeps the staged sector's id and takes its access, commitments, auxiliary data, proof, checksum, length and ticket from the outputs |
| SimpleBuilder.SealKeepsLayout | sector-builder/src/simple_builder.rs:140-152 | with a commitment and a proof for every piece, sealing keeps every piece's key and length in order |
| SimpleBuilder.UnsealFollowsLayout | sector-builder/src/simple_builder.rs:254-286 | locating a piece depends only on the keys and lengths; it finds the piece, the preceding lengths are a prefix of the layout, and the piece length follows that prefix |
| SimpleBuilder.UnsealLayoutMatchesSealLayout | sector-builder/src/simple_builder.rs:260-286 | unsealing a piece of a sector this builder sealed uses a prefix of the seal task's piece lengths, and the piece's own length comes right after it |
| SimpleBuilder.GeneratePostFirstSectors | sector-builder/src/simple_builder.rs:180 | the challenged sectors are exactly the map's keys |
| SimpleBuilder.GeneratePostSecondReplicas | sector-builder/src/simple_builder.rs:198-218 | one replica per distinct sector id among the values; faulty exactly when that id is in the fault list; each replica comes from a sector with that id, and is that sector's entry when the map is keyed by id |
| SimpleBuilder.FaultPartition | sector-builder/src/simple_builder.rs:211-215 | the faulty replicas are exactly the ids in both the replica set and the fault list, and the healthy ones are the rest |
| Api.IntoCommitments | sector-builder-ffi/src/api.rs:1094-1108 | for a buffer of 32·n bytes, n commitments, where commitment i is bytes [32i, 32i+32), and concatenating them gives the buffer back |
| Api.FlattenSplits | sector-builder-ffi/src/api.rs:1094-1108 | splitting the concatenation of any commitments gives them back |
| Api.SplitFlattens | sector-builder-ffi/src/api.rs:1094-1108 | a buffer has at most one split, namely the one whose concatenation it is |
| Api.FromFfiSectorClass | sector-builder-ffi/src/api.rs:1110-1120 | sector size and partition count are carried over unchanged |
| Api.SectorClassRoundTrip | sector-builder-ffi/src/api.rs:1110-1120 | the conversion is a bijection between C sector classes and sector classes |
| Api.IntoFfiPieceMetadata | sector-builder-ffi/src/api.rs:1122-1144 | key and length unchanged; the commitment is `c` for `Some(c)` and 32 zero bytes for `None`; the proof is an array of the same bytes for `Some`, and a null pointer of length 0 for `None` |
| Api.FromFfiPiece | sector-builder-ffi/src/api.rs:962-967 | key and length unchanged, the commitment wrapped in `Some`, and the proof as `Some` of the C bytes, empty for a null pointer |
| Api.PieceRoundTrip | sector-builder-ffi/src/api.rs:962-967 | a piece sent to C and read back keeps key, length, commitment and proof bytes; a missing commitment comes back as zeros and a missing proof as `Some([])`; a piece with both present comes back unchanged |
| Api.FfiPieceRoundTrip | sector-builder-ffi/src/api.rs:1122-1144 | a C piece read in and sent back out is unchanged, except that a null proof pointer becomes an empty array |
| Api.IntoStagedSectorMetadata | sector-builder-ffi/src/api.rs:956-971 | always `Pending`; id and access kept; one piece per C piece, in order |
| Api.ToFfiPendingStagedSector | sector-builder-ffi/src/api.rs:642-653 | the C staged sector keeps the id and access, and carries a non-null array with each piece converted in place |
| Api.StagedRoundTrip | sector-builder-ffi/src/api.rs:648-653 | a staged sector returned by `add_piece_second` and passed back in keeps id, access and normalised pieces, and comes back `Pending` |
| Api.IntoSealedSectorMetadata | sector-builder-ffi/src/api.rs:974-995 | id, access, the three commitments and the proof bytes are kept; one piece per C piece, in order; checksum empty and length 0 |
| Api.SealedRoundTrip | sector-builder-ffi/src/api.rs:745-756 | a sealed sector handed to C and read back keeps id, access, commitments, proof and normalised pieces; auxiliary data, checksum, length and ticket come back unset |
| Api.StagedStatusFields | sector-builder-ffi/src/api.rs:275-298 | each seal status maps to the C status of the same name, and the error message is non-null exactly for `Failed`, where it is the failure message |
| Api.ToFfiStagedSector | sector-builder-ffi/src/api.rs:268-303 | id, access and pieces are converted one by one; the status code and message are the ones the status switch gives |
| Api.SealedListingEntry | sector-builder-ffi/src/api.rs:204-237 | `WithoutHealth` reports `Unknown` and `WithHealth(h)` reports the converted `h`; id, access, commitments and proof are kept, and each piece is the C conversion of the piece at the same position |
| Api.SealedListingHealthRoundTrip | sector-builder-ffi/src/api.rs:205-210 | the health a sealed listing reports decodes to exactly the health that was checked, and to none when no health was read |
| Api.Complete | sector-builder-ffi/src/api.rs:587-603 | `FCPNoError` exactly on success; a non-null message exactly on failure; on success the filled payload; on failure the classified code, the error's text and the default payload |
| Api.GetSealStatus | sector-builder-ffi/src/api.rs:132-187 | no error and a null message exactly on success, and on failure the classified code, the error's text and the default payload; the C status matches the builder's status; a seal error message only for `Failed`; for `Sealed` the id, access, commitments, proof and each piece converted in place; for any other status every field other than the code and the seal message is the default's |
| Api.SealStatusQueryAgreesWithListing | sector-builder-ffi/src/api.rs:144-178 | the seal-status query and the staged listing report the same status code and the same seal error message for a sector |
| Api.GetStagedSectors | sector-builder-ffi/src/api.rs:256-321 | no error and a null message exactly on success, and on failure the classified code and the error's text; one C sector per staged sector, in order, each exactly the per-sector conversion (id, access, each piece converted, the mapped status, and the failure text only for failed seals) |
| Api.GetSealedSectors | sector-builder-ffi/src/api.rs:191-253 | no error and a null message exactly on success, and on failure the classified code and the error's text; one C sector per sealed sector, in order, each exactly the listing entry (id, access, commitments, proof, each piece converted, and the defaulted health) |
| Api.AddPieceFirst | sector-builder-ffi/src/api.rs:569-605 | no error and a null message exactly on success, and on failure the classified code and the error's text; the sector id on success and 0 otherwise |
| Api.AddPieceSecond | sector-builder-ffi/src/api.rs:620-668 | no error and a null message exactly on success, and on failure the classified code and the error's text; exactly one C staged sector on success, the C form of the builder's sector (id, access, each piece converted), and none on failure |
| Api.ReadPieceFromSealedSector | sector-builder-ffi/src/api.rs:678-711 | no error and a null message exactly on success, and on failure the classified code and the error's text; the unsealed bytes on success and a null buffer on failure |
| Api.SealStagedSector | sector-builder-ffi/src/api.rs:721-773 | no error and a null message exactly on success, and on failure the classified code and the error's text; exactly one C sealed sector on success, equal to the sealed listing's entry for that sector without a health check (so `Unknown` health, with id, access, commitments, proof and pieces), and none on failure |
| Api.GetSectorsReadyForSealing | sector-builder-ffi/src/api.rs:920-946 | always no error and a null message; the payload is the builder's ids |
| Api.ChallengeRoundTrip | sector-builder-ffi/src/api.rs:880-883 | the challenge conversions to and from C are inverse to each other |
| Api.GeneratePostFirst | sector-builder-ffi/src/api.rs:783-840 | no error and a null message exactly on success, and on failure the classified code and the error's text; the challenges in C form, one per challenge and in order, each converting back to the original |
| Api.PostChallengesRoundTrip | sector-builder-ffi/src/api.rs:869-884 | the challenges handed to the proofs code in the second PoSt phase are exactly those the first phase returned to C |
| Api.GeneratePostSecond | sector-builder-ffi/src/api.rs:850-910 | no error and a null message exactly on success, and on failure the classified code and the error's text; the proof bytes on success and a null buffer on failure |
| Api.SealFailureIsReceiverError | sector-builder/src/simple_builder.rs:169-171 | once the task is prepared, a failed seal, checksum or length read reaches C as a receiver error with no sector, and the builder's copy of the staged sector is `Sealing` |
| Api.MissingPieceIsCallerError | sector-builder/src/simple_builder.rs:254-258 | reading a piece the sector does not hold fails and reaches C as a caller error |
| Api.IndexById | sector-builder-ffi/src/api.rs:800-805 | given ids and converted values in array order, the keys are exactly the ids present; every entry is the value at some position holding that id; when ids repeat, the last position wins |
| Api.StagedSectorsById | sector-builder-ffi/src/api.rs:581-585 | one entry per distinct C sector id, built from the last C sector with that id; every entry is `Pending` and carries its own key as id |
| Api.SealedSectorsById | sector-builder-ffi/src/api.rs:800-805 | one entry per distinct C sector id, built from the last C sector with that id; every entry carries its own key as id |
| Api.GeneratePostFirstInputs | sector-builder-ffi/src/api.rs:795-811 | the sectors challenged are exactly the distinct ids of the C sectors, and the faults are passed on unchanged |
| Api.GeneratePostSecondInputs | sector-builder-ffi/src/api.rs:864-884 | one replica per distinct C sector id, built from the last C sector with that id, and faulty exactly when the id is listed as a fault |

## Left out

- `sector-builder/src/builder.rs`: the scheduler, worker threads and channels are concurrency, and its file checks are I/O.
- `sector-builder/src/lib.rs`: it holds only module declarations and re-exports.
- Memory plumbing: `mem::forget`, `CString` allocation, `Box::from_raw` destructors, `raw_ptr` and `FileDescriptorRef` are not modelled. Pointers are sequences.
- C strings: NUL bytes and UTF-8 decoding are not modelled. A C string is a `string`, and `CString::new(..).unwrap()` is assumed not to panic.
- `from_raw_parts` on a null pointer: the model reads it as empty, although Rust leaves it undefined.
- Foreign proofs code is not modelled. The outcomes of `seal`, of allocating a sector access, of the checksum and of the file length enter as parameters, and so do the outcomes of the proofs library's `generate_post_*` in the two PoSt responses.
- `get_piece_start_byte` is not called. The unseal prototype keeps its inputs, the lengths of the preceding pieces and the piece's own length, in place of the byte offset it computes.
- The `verify_*`, `generate_piece_commitment` and `sector_builder_ffi_get_max_user_bytes_per_staged_sector` entry points and `max_unsealed_bytes_per_sector` are not modelled at all. Each only forwards to the proofs library.
- `get_unsealed_range` and `read_unsealed_bytes_from` are foreign code and file I/O. Their combined outcome, the bytes read or the error, is the parameter of `ReadPieceFromSealedSector`.
- Checksums, `std::fs::metadata`, path construction and `porep_config` are I/O or configuration. Paths are represented by access names.
- Logging (`init_log`, `info!`) has no behaviour to state.
- `add_piece_first`, `add_piece_second` and `get_sectors_ready_for_sealing` in the simple builder delegate to helpers that are not part of this model. Only their FFI wrapping and the maps they receive are modelled.
- The `SectorBuilder` entry points (`init_sector_builder`, `add_piece`, `read_piece_from_sealed_sector`, `seal_all_staged_sectors`, `generate_post`) forward to `builder.rs`. Only the response shapes they share are modelled: `Complete`, the defaults and the listing switches.
- SectorTypes.ErrPieceNotFound: the display text is a stand-in (the bare key), because `crate::error`'s display formats are not part of this model. Only the classification as `PieceNotFound(key)` is claimed, so the exact message C receives for a missing piece is not promised.
- SectorTypes.FromManagerErr: the display text is a stand-in (the manager error's inner message), because the display format of `SectorManagerErr` is not part of this model. Only the classification as that manager error is claimed, so the exact message C receives for a failed sector allocation is not promised.
- SectorTypes.ErrUnrecov: the display text is a stand-in (the cause's own text), for the same reason. Only the classification as `Unrecoverable` is claimed, so the exact message C receives for a failed seal is not promised.
- `sector_builder_ffi_init_simple_sector_builder` (`sector-builder-ffi/src/api.rs:523-554`) is `FromFfiSectorClass` followed by the `Complete` pattern around `SimpleSectorBuilder::new`. That constructor checks the parameter cache on disk (`ensure_parameter_cache_hydrated`) and builds a sector store over the two directories (`new_simple_sector_store`). Both are file I/O and foreign code, so the entry point itself is not modelled.
- `prover_id`, miner names and file descriptors are only passed through to foreign code.
- Api.IntoCommitments: requires a buffer length that is a multiple of 32. The source reads a full 32-byte window at each step, so any other length reads past the end of the buffer.
- SimpleBuilder.GeneratePostSecondReplicas: states that the result is independent of iteration order only for maps keyed by sector id. Otherwise, the source keeps whichever of the colliding sectors `HashMap` yields last.
