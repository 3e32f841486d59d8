# Frontier RPC transaction types, modelled in Dafny

This project models `client/rpc-core/src/types/transaction.rs` of Frontier, the
Ethereum-compatibility layer for Substrate. The file has two parts.

- **The normaliser.** Three `From` conversions turn a decoded signed transaction
  of any generation into the RPC `Transaction` record. The generations are
  legacy (`TransactionV0`), EIP-2930 (`TransactionV1`) and EIP-1559
  (`TransactionV2`). Each conversion re-encodes the EIP-2718 envelope into
  `raw`, sets `hash` to the Keccak-256 of those bytes, and copies or derives the
  fee, signature, chain-id and access-list fields by generation. Fields that
  need block, execution or signature-recovery context stay unset.
- **The status encoder.** `LocalTransactionStatus` has nine arms. Its
  hand-written `Serialize` impl first declares a field count, then writes
  `status` and the arm's payload fields to a struct serializer.

Files and modules:

- `primitives.dfy` (`Primitives`): the fixed-width types `U8`, `U64`, `U256`,
  `H160`, `H256`, `H512` and `Bytes`, with the big-endian reading that
  `U256::from(&[u8])` performs.
- `envelope.dfy` (`Envelope`): the three generations, the envelope, and the
  `Library` record. `Library` carries the outside operations the conversions
  call: envelope serialisation, Keccak-256, and the legacy signature's
  `chain_id()` and `standard_v()`. These are passed in as functions.
- `canonical.dfy` (`Canonical`): the record, the three conversions as written,
  and `NormalizedFrom`, which states the conversion contract step by step.
  It also holds `Normalize`, a single routine driven by a per-generation
  descriptor, and the lemmas.
- `serde.dfy` (`Serde`): serde values and fields, and the `StructSerializer`
  class. The class holds the declared length and the growing list of
  `(name, value)` fields. The file also models derived struct serialisation with
  `skip_serializing_if`.
- `transaction_serde.dfy` (`TransactionSerde`): the derived serialisation of the
  record. It covers field order, camelCase names, and the four fields skipped
  when unset under the `std` feature.
- `status.dfy` (`Status`): `LocalTransactionStatus` and its encoder, a method
  that drives a `StructSerializer`.
- `outputs.dfy` (`Outputs`): `RichRawTransaction` with its `tx` rename, and
  `PendingTransaction::new`.

The code sets `to` to `None` for every envelope, including one whose action is
a call to an address (lines 96, 130, 164). A recipient would only be expected to
be missing for contract creation. The model follows the code, and
`ContextFieldsAlwaysUnset` states this. For EIP-2930 and EIP-1559 envelopes, `v`
is the raw parity bit, the same as `standardV` (lines 141-142, 175-176). The
source marks this `// TODO`. The model keeps it as written.

## Model

| member | source | states |
|---|---|---|
| `Canonical.FromV0` | client/rpc-core/src/types/transaction.rs:81-113 | The legacy conversion meets `NormalizedFrom`. `raw` is the serialised V0 envelope and `hash` is Keccak-256 of `raw`. The gas price is set and both fee-market fields are `None`. Chain id, `standardV` and `v` come from the signature accessors, and `r`/`s` are the big-endian values of the signature's components. There is no access list and every context field is unset. |
| `Canonical.FromV1` | client/rpc-core/src/types/transaction.rs:115-147 | The EIP-2930 conversion meets `NormalizedFrom`. The gas price is set and the fee-market fields are `None`. `chainId` is `Some(chain_id)`. `standardV == v`, which is 1 exactly when `odd_y_parity` holds, so it is at most 1. The access list is `Some` of the envelope's list, unchanged. |
| `Canonical.FromV2` | client/rpc-core/src/types/transaction.rs:149-181 | The EIP-1559 conversion meets `NormalizedFrom`. The gas price is `None` and both fee-market fields are `Some` of the envelope's values. Chain id and parity are as for V1, and the access list is `Some` of the envelope's list. |
| `Canonical.FromEnvelope` | client/rpc-core/src/types/transaction.rs:81-182 | Whatever the generation, the matching conversion's output meets `NormalizedFrom` for the envelope. |
| `Canonical.Normalize` | client/rpc-core/src/types/transaction.rs:81-182 | A single routine with one descriptor per generation (fee source, signature source, access list). It also meets `NormalizedFrom`. |
| `Canonical.NormalizedFromUnique` | client/rpc-core/src/types/transaction.rs:87-112 | `NormalizedFrom` fixes every one of the record's 22 fields. Two records that meet it for the same envelope are equal. |
| `Canonical.ConversionsMatchNormalize` | client/rpc-core/src/types/transaction.rs:81-182 | The three conversions, as written, agree with the descriptor-driven routine on every envelope. |
| `Canonical.HashIsDigestOfRaw` | client/rpc-core/src/types/transaction.rs:83-104 | `raw` is exactly the envelope's wire encoding, and `hash` is the Keccak-256 digest of `raw`. |
| `Canonical.CommonFieldsCopied` | client/rpc-core/src/types/transaction.rs:91-102 | `nonce`, `value` and `input` are copied unchanged, and `gas` is the envelope's `gas_limit`. This holds for all generations. |
| `Canonical.ContextFieldsAlwaysUnset` | client/rpc-core/src/types/transaction.rs:92-105 | Block hash, block number and index are `None`. `from` is the zero address. `to`, `creates` and `publicKey` are `None`. `to` is `None` whatever the envelope's action. |
| `Canonical.FeeExclusivity` | client/rpc-core/src/types/transaction.rs:98-168 | Exactly one fee family is populated. The gas price is set if and only if the generation is not EIP-1559. Each fee-market field is set if and only if it is. |
| `Canonical.AccessListPresence` | client/rpc-core/src/types/transaction.rs:111-179 | The access list is present if and only if the envelope is not legacy. For V1 and V2 it is the envelope's list, unchanged and possibly empty. |
| `Canonical.TypedSignatureParity` | client/rpc-core/src/types/transaction.rs:140-176 | For typed envelopes, `standardV == v <= 1` and the chain id is present. |
| `Canonical.GenerationRecoverable` | client/rpc-core/src/types/transaction.rs:98-179 | The source generation is determined by the record's fee and access-list fields alone: the reader `ClassifyGeneration` (fee-market fields mean EIP-1559, otherwise an access list means EIP-2930, otherwise legacy) returns the envelope's generation for every converted record. |
| `Primitives.BigEndian` | client/rpc-core/src/types/transaction.rs:109-110 | `U256::from(bytes)` reads bytes most-significant first. An `n`-byte string gives a value below `256^n`. |
| `Primitives.BigEndianInjective` | client/rpc-core/src/types/transaction.rs:143-144 | Equal-length byte strings with the same value are equal, so `r` and `s` are carried without loss. |
| `Primitives.U256FromH256` | client/rpc-core/src/types/transaction.rs:177-178 | The conversion never truncates: the big-endian value of any 32-byte hash is proved to fit `U256`, the result type. |
| `Primitives.U256FromBool` | client/rpc-core/src/types/transaction.rs:141-142 | `odd_y_parity as u8` converts to a `U256` that is at most 1, and is 1 exactly when the flag is set. |
| `Primitives.ZeroAddress` | client/rpc-core/src/types/transaction.rs:95 | `H160::default()` is 20 zero bytes. |
| `Serde.StructSerializer.constructor` | client/rpc-core/src/types/transaction.rs:223 | `serialize_struct` records the name and the declared field count and starts with no fields. |
| `Serde.StructSerializer.SerializeField` | client/rpc-core/src/types/transaction.rs:225 | `serialize_field` appends exactly one `(name, value)` entry, and nothing else changes. |
| `Serde.StructSerializer.End` | client/rpc-core/src/types/transaction.rs:260 | `end` yields the struct with the fields written so far, in order. |
| `Serde.EmitPresence` | client/rpc-core/src/types/transaction.rs:48-55 | In a derived serialisation whose fields have distinct names, a field is written with its value exactly when it is not skipped. A skipped field's name does not appear at all. |
| `Serde.EmitInjective` | client/rpc-core/src/types/transaction.rs:28-78 | For a fixed field shape with distinct names, where no set field holds an explicit `null`, a derived serialisation loses nothing, skipped fields included. Without that condition, `Some(null)` and an unset field would both be written as `null`. |
| `TransactionSerde.TransactionSlotsShape` | client/rpc-core/src/types/transaction.rs:28-78 | Every record has the same 22 distinct camelCase names in declaration order. The skip mark is on exactly `gasPrice`, `maxFeePerGas`, `maxPriorityFeePerGas` and `accessList`. No set field is written as `null`. |
| `TransactionSerde.TransactionValue` | client/rpc-core/src/types/transaction.rs:28-30 | The derived serialisation is a struct named `Transaction` with at most 22 fields. |
| `TransactionSerde.TransactionFieldPresence` | client/rpc-core/src/types/transaction.rs:48-77 | A name appears if and only if its field is not skipped. So the 18 unmarked fields always appear, with `null` when unset. Each marked field appears when it is set or when `std` is off. |
| `TransactionSerde.FieldsWritten` | client/rpc-core/src/types/transaction.rs:31-78 | Every field that is not skipped is written under its camelCase name with its value. |
| `TransactionSerde.FeeMarketRecordFields` | client/rpc-core/src/types/transaction.rs:48-55 | An EIP-1559 record serialised with `std` has no `gasPrice` key. It has `maxFeePerGas` and `maxPriorityFeePerGas` with the envelope's values. |
| `TransactionSerde.TransactionValueInjective` | client/rpc-core/src/types/transaction.rs:28-78 | Distinct records serialise differently, with or without `std`. |
| `Status.SerializeStatus` | client/rpc-core/src/types/transaction.rs:207-262 | The encoder writes `StatusFields`, and the declared field count equals the number of fields written. The count is 1 for Pending/Future, 2 for Mined/Culled/Dropped/Invalid/Canceled, 3 for Rejected and 4 for Replaced. |
| `Status.StatusFieldOrder` | client/rpc-core/src/types/transaction.rs:224-258 | `status` comes first with the arm's tag, then `transaction` holding the record. Rejected then writes `error`. Replaced writes `hash` (third payload component) before `gasPrice` (second payload component). |
| `Status.StatusFieldNames` | client/rpc-core/src/types/transaction.rs:220-257 | The exact name sequence per arm: `[status]`, `[status, transaction]`, `[status, transaction, error]` or `[status, transaction, hash, gasPrice]`. |
| `Status.TagIdentifiesArm` | client/rpc-core/src/types/transaction.rs:225-253 | Every tag is a lowercase word. Two statuses have the same tag if and only if they are the same arm. |
| `Status.StatusFieldsInjective` | client/rpc-core/src/types/transaction.rs:213-258 | If the record's serialisation loses nothing, the status encoding loses nothing either. |
| `Status.StatusEncodingLossless` | client/rpc-core/src/types/transaction.rs:207-262 | With the record's derived serialisation, distinct statuses serialise differently. |
| `Outputs.RichRawTransactionValue` | client/rpc-core/src/types/transaction.rs:264-272 | `RichRawTransaction` serialises as exactly `raw`, then the record under the renamed key `tx`. |
| `Outputs.RichRawTransactionLossless` | client/rpc-core/src/types/transaction.rs:265-272 | Both the raw bytes and the record can be recovered from that output. |
| `Outputs.NewPendingTransaction` | client/rpc-core/src/types/transaction.rs:279-283 | `PendingTransaction::new` stores the record and the submission height unchanged. |

## Left out

- `PendingTransactions` (line 285): the shared map behind a `Mutex`. It is locking plumbing with no logic in this file.
- `ethereum::Transaction::serialize`, `Keccak256::digest`, `TransactionSignature::chain_id` and `TransactionSignature::standard_v` are library code, so they are not part of this model. They enter as the functions of a `Library` value. Their own properties are not modelled: the EIP-2718 byte layout, the EIP-155 decoding, and collision resistance. In particular, the 0-or-1 range of the legacy `standard_v()` belongs to the library and is not stated, so the range of `standardV` is proved only for typed envelopes. So the reference hash of a known transaction cannot be checked here.
- Decoding `raw` back into the envelope is done by the upstream decoder, which is not part of this model. So the round trip from `raw` back to the input is not stated.
- Serializer errors: every `?` in the status encoder is taken on its success path only.
- The serde data model: values are shown as a JSON serializer sees them. `Some(x)` is `x` and `None` is `null`. Quantities and byte strings are kept as numbers and byte sequences, not as their `0x` hex text. An access list is an opaque value, because its serialisation lives in the `ethereum` crate.
- TransactionValue: the field count that derived `Serialize` passes to `serialize_struct` is not modelled. Only the fields it writes are.
- The `Debug`, `Default`, `Clone` and `PartialEq` derives are left out. They carry no logic of this file.
