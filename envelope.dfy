/** The three signed-transaction generations of the `ethereum` crate, the typed
    envelope that wraps them, and the library operations the normaliser calls
    but whose code is not part of this model. */
module Envelope {
  import opened Primitives

  /** Call a contract / send to an address, or create a contract. */
  datatype TransactionAction = Call(address: H160) | Create

  /** One access-list entry (EIP-2930): an address and the storage keys it pre-declares. */
  datatype AccessListItem = AccessListItem(address: H160, storageKeys: seq<H256>)

  /** The signature carried by a legacy transaction: the recovery id `v` as stored
      (27/28, or EIP-155 encoded with a chain id), and the components `r`, `s`. */
  datatype TransactionSignature = TransactionSignature(v: U64, r: H256, s: H256)

  /** Legacy transaction (generation 0). */
  datatype TransactionV0 = TransactionV0(
    nonce: U256,
    gasPrice: U256,
    gasLimit: U256,
    action: TransactionAction,
    value: U256,
    input: Bytes,
    signature: TransactionSignature)

  /** EIP-2930 transaction (generation 1): explicit chain id and access list. */
  datatype TransactionV1 = TransactionV1(
    chainId: U64,
    nonce: U256,
    gasPrice: U256,
    gasLimit: U256,
    action: TransactionAction,
    value: U256,
    input: Bytes,
    accessList: seq<AccessListItem>,
    oddYParity: bool,
    r: H256,
    s: H256)

  /** EIP-1559 transaction (generation 2): fee market instead of a gas price. */
  datatype TransactionV2 = TransactionV2(
    chainId: U64,
    nonce: U256,
    maxPriorityFeePerGas: U256,
    maxFeePerGas: U256,
    gasLimit: U256,
    action: TransactionAction,
    value: U256,
    input: Bytes,
    accessList: seq<AccessListItem>,
    oddYParity: bool,
    r: H256,
    s: H256)

  /** `ethereum::Transaction`: the EIP-2718 envelope over the three generations. */
  datatype TransactionEnvelope =
    | V0(legacy: TransactionV0)
    | V1(eip2930: TransactionV1)
    | V2(eip1559: TransactionV2)
  {
    /** Fields every generation carries, read uniformly. */
    function Nonce(): U256
    {
      match this
      case V0(t) => t.nonce
      case V1(t) => t.nonce
      case V2(t) => t.nonce
    }

    function GasLimit(): U256
    {
      match this
      case V0(t) => t.gasLimit
      case V1(t) => t.gasLimit
      case V2(t) => t.gasLimit
    }

    function Value(): U256
    {
      match this
      case V0(t) => t.value
      case V1(t) => t.value
      case V2(t) => t.value
    }

    function Input(): Bytes
    {
      match this
      case V0(t) => t.input
      case V1(t) => t.input
      case V2(t) => t.input
    }
  }

  /** Library operations used by the conversions, supplied from outside:
      - `serialize`: `ethereum::Transaction::serialize`, the EIP-2718 wire encoding
        (version byte plus RLP body; plain RLP for legacy transactions);
      - `keccak256`: `Keccak256::digest`, a 32-byte digest;
      - `chainIdOf`, `standardVOf`: `TransactionSignature::chain_id` and
        `TransactionSignature::standard_v`, which decode the EIP-155 recovery id
        (the 0-or-1 range of `standard_v` is the library's and is not stated here). */
  datatype Library = Library(
    serialize: TransactionEnvelope -> Bytes,
    keccak256: Bytes -> H256,
    chainIdOf: TransactionSignature -> Option<U64>,
    standardVOf: TransactionSignature -> U8)
}
