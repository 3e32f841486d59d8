/** The canonical RPC transaction record and the three conversions
    (`From<TransactionV0/V1/V2> for Transaction`) that normalise a decoded
    envelope of any generation into it. */
module Canonical {
  import opened Primitives
  import opened Envelope

  /** The RPC `Transaction` record. Fields that need context the conversions do
      not have (block placement, sender, created contract, public key) stay unset. */
  datatype Transaction = Transaction(
    hash: H256,
    nonce: U256,
    blockHash: Option<H256>,
    blockNumber: Option<U256>,
    transactionIndex: Option<U256>,
    from: H160,
    to: Option<H160>,
    value: U256,
    gasPrice: Option<U256>,
    maxFeePerGas: Option<U256>,
    maxPriorityFeePerGas: Option<U256>,
    gas: U256,
    input: Bytes,
    creates: Option<H160>,
    raw: Bytes,
    publicKey: Option<H512>,
    chainId: Option<U64>,
    standardV: U256,
    v: U256,
    r: U256,
    s: U256,
    accessList: Option<seq<AccessListItem>>)

  datatype Generation = Legacy | Eip2930 | Eip1559

  function GenerationOf(e: TransactionEnvelope): Generation
  {
    match e
    case V0(_) => Legacy
    case V1(_) => Eip2930
    case V2(_) => Eip1559
  }

  // ---------------------------------------------------------------------------
  // What a conversion must produce, stated per normalisation step.

  /** Block placement, sender, recipient, created contract and public key are unset. */
  predicate ContextFieldsUnset(r: Transaction)
  {
    && r.blockHash.None? && r.blockNumber.None? && r.transactionIndex.None?
    && r.from == ZeroAddress()
    && r.to.None?
    && r.creates.None?
    && r.publicKey.None?
  }

  /** Exactly one fee family is populated: the gas price, or both fee-market fields. */
  predicate FeeFamilyExclusive(r: Transaction)
  {
    || (r.gasPrice.Some? && r.maxFeePerGas.None? && r.maxPriorityFeePerGas.None?)
    || (r.gasPrice.None? && r.maxFeePerGas.Some? && r.maxPriorityFeePerGas.Some?)
  }

  /** Fees: generations 0 and 1 keep their gas price; generation 2 its two fee-market fields. */
  predicate FeesFrom(r: Transaction, e: TransactionEnvelope)
  {
    match e
    case V0(t) => r.gasPrice == Some(t.gasPrice) && r.maxFeePerGas.None? && r.maxPriorityFeePerGas.None?
    case V1(t) => r.gasPrice == Some(t.gasPrice) && r.maxFeePerGas.None? && r.maxPriorityFeePerGas.None?
    case V2(t) =>
      && r.gasPrice.None?
      && r.maxFeePerGas == Some(t.maxFeePerGas)
      && r.maxPriorityFeePerGas == Some(t.maxPriorityFeePerGas)
  }

  /** Signature: the legacy signature is decoded by the library (EIP-155); typed
      envelopes give their parity bit as both `standardV` and `v`, and their chain id. */
  predicate SignatureFrom(r: Transaction, e: TransactionEnvelope, lib: Library)
  {
    match e
    case V0(t) =>
      && r.chainId == lib.chainIdOf(t.signature)
      && r.standardV == lib.standardVOf(t.signature)
      && r.v == t.signature.v
      && r.r == BigEndian(t.signature.r) && r.s == BigEndian(t.signature.s)
    case V1(t) =>
      && r.chainId == Some(t.chainId)
      && r.standardV == r.v && (r.v == 1 <==> t.oddYParity) && r.v <= 1
      && r.r == BigEndian(t.r) && r.s == BigEndian(t.s)
    case V2(t) =>
      && r.chainId == Some(t.chainId)
      && r.standardV == r.v && (r.v == 1 <==> t.oddYParity) && r.v <= 1
      && r.r == BigEndian(t.r) && r.s == BigEndian(t.s)
  }

  /** Access list: absent for legacy transactions, the envelope's own list otherwise. */
  predicate AccessListFrom(r: Transaction, e: TransactionEnvelope)
  {
    match e
    case V0(_) => r.accessList.None?
    case V1(t) => r.accessList == Some(t.accessList)
    case V2(t) => r.accessList == Some(t.accessList)
  }

  /** `r` is the canonical record of envelope `e`: `raw` is the envelope's wire
      encoding and `hash` its Keccak-256 digest, the common fields are copied,
      fees, signature and access list follow the generation, and every
      context-dependent field is unset. */
  predicate NormalizedFrom(r: Transaction, e: TransactionEnvelope, lib: Library)
  {
    && r.raw == lib.serialize(e)
    && r.hash == lib.keccak256(r.raw)
    && r.nonce == e.Nonce() && r.value == e.Value() && r.input == e.Input()
    && r.gas == e.GasLimit()
    && ContextFieldsUnset(r)
    && FeesFrom(r, e)
    && SignatureFrom(r, e, lib)
    && AccessListFrom(r, e)
  }

  // ---------------------------------------------------------------------------
  // The three conversions, one per generation.

  /** `From<TransactionV0> for Transaction`. */
  function FromV0(transaction: TransactionV0, lib: Library): (r: Transaction)
    ensures NormalizedFrom(r, V0(transaction), lib)
  {
    var serialized := lib.serialize(V0(transaction));
    Transaction(
      hash := lib.keccak256(serialized),
      nonce := transaction.nonce,
      blockHash := None,
      blockNumber := None,
      transactionIndex := None,
      from := ZeroAddress(),
      to := None,
      value := transaction.value,
      gasPrice := Some(transaction.gasPrice),
      maxFeePerGas := None,
      maxPriorityFeePerGas := None,
      gas := transaction.gasLimit,
      input := transaction.input,
      creates := None,
      raw := serialized,
      publicKey := None,
      chainId := lib.chainIdOf(transaction.signature),
      standardV := lib.standardVOf(transaction.signature),
      v := transaction.signature.v,
      r := U256FromH256(transaction.signature.r),
      s := U256FromH256(transaction.signature.s),
      accessList := None)
  }

  /** `From<TransactionV1> for Transaction`. */
  function FromV1(transaction: TransactionV1, lib: Library): (r: Transaction)
    ensures NormalizedFrom(r, V1(transaction), lib)
  {
    var serialized := lib.serialize(V1(transaction));
    Transaction(
      hash := lib.keccak256(serialized),
      nonce := transaction.nonce,
      blockHash := None,
      blockNumber := None,
      transactionIndex := None,
      from := ZeroAddress(),
      to := None,
      value := transaction.value,
      gasPrice := Some(transaction.gasPrice),
      maxFeePerGas := None,
      maxPriorityFeePerGas := None,
      gas := transaction.gasLimit,
      input := transaction.input,
      creates := None,
      raw := serialized,
      publicKey := None,
      chainId := Some(transaction.chainId),
      standardV := U256FromBool(transaction.oddYParity),
      v := U256FromBool(transaction.oddYParity),
      r := U256FromH256(transaction.r),
      s := U256FromH256(transaction.s),
      accessList := Some(transaction.accessList))
  }

  /** `From<TransactionV2> for Transaction`. */
  function FromV2(transaction: TransactionV2, lib: Library): (r: Transaction)
    ensures NormalizedFrom(r, V2(transaction), lib)
  {
    var serialized := lib.serialize(V2(transaction));
    Transaction(
      hash := lib.keccak256(serialized),
      nonce := transaction.nonce,
      blockHash := None,
      blockNumber := None,
      transactionIndex := None,
      from := ZeroAddress(),
      to := None,
      value := transaction.value,
      gasPrice := None,
      maxFeePerGas := Some(transaction.maxFeePerGas),
      maxPriorityFeePerGas := Some(transaction.maxPriorityFeePerGas),
      gas := transaction.gasLimit,
      input := transaction.input,
      creates := None,
      raw := serialized,
      publicKey := None,
      chainId := Some(transaction.chainId),
      standardV := U256FromBool(transaction.oddYParity),
      v := U256FromBool(transaction.oddYParity),
      r := U256FromH256(transaction.r),
      s := U256FromH256(transaction.s),
      accessList := Some(transaction.accessList))
  }

  /** The conversion for whichever generation the envelope holds. */
  function FromEnvelope(e: TransactionEnvelope, lib: Library): (r: Transaction)
    ensures NormalizedFrom(r, e, lib)
  {
    match e
    case V0(t) => FromV0(t, lib)
    case V1(t) => FromV1(t, lib)
    case V2(t) => FromV2(t, lib)
  }

  // ---------------------------------------------------------------------------
  // A single routine parameterised by a per-generation descriptor, as a
  // reference the three conversions are checked against.

  datatype FeeFields = GasPriceFee(gasPrice: U256) | MarketFee(maxFeePerGas: U256, maxPriorityFeePerGas: U256)

  datatype SignatureFields = SignatureFields(chainId: Option<U64>, standardV: U256, v: U256, r: U256, s: U256)

  /** What differs between generations: fee source, signature source, access list. */
  datatype Descriptor = Descriptor(fees: FeeFields, signature: SignatureFields, accessList: Option<seq<AccessListItem>>)

  function Describe(e: TransactionEnvelope, lib: Library): Descriptor
  {
    match e
    case V0(t) =>
      var sig := t.signature;
      Descriptor(GasPriceFee(t.gasPrice),
                 SignatureFields(lib.chainIdOf(sig), lib.standardVOf(sig), sig.v, U256FromH256(sig.r), U256FromH256(sig.s)),
                 None)
    case V1(t) =>
      var parity := U256FromBool(t.oddYParity);
      Descriptor(GasPriceFee(t.gasPrice),
                 SignatureFields(Some(t.chainId), parity, parity, U256FromH256(t.r), U256FromH256(t.s)),
                 Some(t.accessList))
    case V2(t) =>
      var parity := U256FromBool(t.oddYParity);
      Descriptor(MarketFee(t.maxFeePerGas, t.maxPriorityFeePerGas),
                 SignatureFields(Some(t.chainId), parity, parity, U256FromH256(t.r), U256FromH256(t.s)),
                 Some(t.accessList))
  }

  function Normalize(e: TransactionEnvelope, lib: Library): (r: Transaction)
    ensures NormalizedFrom(r, e, lib)
  {
    var raw := lib.serialize(e);
    var d := Describe(e, lib);
    Transaction(
      hash := lib.keccak256(raw),
      nonce := e.Nonce(),
      blockHash := None,
      blockNumber := None,
      transactionIndex := None,
      from := ZeroAddress(),
      to := None,
      value := e.Value(),
      gasPrice := if d.fees.GasPriceFee? then Some(d.fees.gasPrice) else None,
      maxFeePerGas := if d.fees.MarketFee? then Some(d.fees.maxFeePerGas) else None,
      maxPriorityFeePerGas := if d.fees.MarketFee? then Some(d.fees.maxPriorityFeePerGas) else None,
      gas := e.GasLimit(),
      input := e.Input(),
      creates := None,
      raw := raw,
      publicKey := None,
      chainId := d.signature.chainId,
      standardV := d.signature.standardV,
      v := d.signature.v,
      r := d.signature.r,
      s := d.signature.s,
      accessList := d.accessList)
  }

  // ---------------------------------------------------------------------------
  // Properties of every canonical record.

  /** The canonical record of an envelope is unique: the specification leaves no field open. */
  lemma NormalizedFromUnique(r1: Transaction, r2: Transaction, e: TransactionEnvelope, lib: Library)
    requires NormalizedFrom(r1, e, lib) && NormalizedFrom(r2, e, lib)
    ensures r1 == r2
  {
    assert r1.from == ZeroAddress() == r2.from;
    match e
    case V0(t) =>
    case V1(t) =>
      assert r1.v == r2.v;
    case V2(t) =>
      assert r1.v == r2.v;
  }

  /** The three hand-written conversions agree with the descriptor-driven routine. */
  lemma ConversionsMatchNormalize(e: TransactionEnvelope, lib: Library)
    ensures FromEnvelope(e, lib) == Normalize(e, lib)
  {
    NormalizedFromUnique(FromEnvelope(e, lib), Normalize(e, lib), e, lib);
  }

  /** `hash` is the Keccak-256 digest of `raw`, and `raw` the wire encoding of the envelope. */
  lemma HashIsDigestOfRaw(r: Transaction, e: TransactionEnvelope, lib: Library)
    requires NormalizedFrom(r, e, lib)
    ensures r.raw == lib.serialize(e) && r.hash == lib.keccak256(r.raw)
  {
  }

  /** `nonce`, `value` and `input` are copied, and `gas` is the envelope's gas limit. */
  lemma CommonFieldsCopied(r: Transaction, e: TransactionEnvelope, lib: Library)
    requires NormalizedFrom(r, e, lib)
    ensures r.nonce == e.Nonce() && r.value == e.Value() && r.input == e.Input() && r.gas == e.GasLimit()
  {
  }

  /** Fields that need block, execution or recovery context are unset for every
      generation; the recipient too, whatever the envelope's action. */
  lemma ContextFieldsAlwaysUnset(r: Transaction, e: TransactionEnvelope, lib: Library)
    requires NormalizedFrom(r, e, lib)
    ensures r.blockHash == None && r.blockNumber == None && r.transactionIndex == None
    ensures r.from == ZeroAddress()
    ensures r.to == None && r.creates == None && r.publicKey == None
  {
  }

  /** Exactly one fee family is populated, and which one depends on the generation only. */
  lemma FeeExclusivity(r: Transaction, e: TransactionEnvelope, lib: Library)
    requires NormalizedFrom(r, e, lib)
    ensures FeeFamilyExclusive(r)
    ensures r.gasPrice.Some? <==> GenerationOf(e) != Eip1559
    ensures r.maxFeePerGas.Some? <==> GenerationOf(e) == Eip1559
    ensures r.maxPriorityFeePerGas.Some? <==> GenerationOf(e) == Eip1559
  {
  }

  /** The access list is absent exactly for legacy transactions, and otherwise is
      the envelope's list unchanged (possibly empty). */
  lemma AccessListPresence(r: Transaction, e: TransactionEnvelope, lib: Library)
    requires NormalizedFrom(r, e, lib)
    ensures r.accessList.Some? <==> GenerationOf(e) != Legacy
    ensures e.V1? ==> r.accessList == Some(e.eip2930.accessList)
    ensures e.V2? ==> r.accessList == Some(e.eip1559.accessList)
  {
  }

  /** For typed envelopes `standardV` and `v` are the same parity bit and the
      chain id is always present. */
  lemma TypedSignatureParity(r: Transaction, e: TransactionEnvelope, lib: Library)
    requires NormalizedFrom(r, e, lib)
    requires GenerationOf(e) != Legacy
    ensures r.standardV == r.v && r.v <= 1 && r.chainId.Some?
  {
  }

  /** Reading the generation back from a record: fee-market fields mean EIP-1559,
      otherwise an access list means EIP-2930, otherwise legacy. */
  function ClassifyGeneration(r: Transaction): (g: Option<Generation>)
    ensures g.None? <==> !FeeFamilyExclusive(r)
  {
    if r.gasPrice.None? && r.maxFeePerGas.Some? && r.maxPriorityFeePerGas.Some? then Some(Eip1559)
    else if r.gasPrice.Some? && r.maxFeePerGas.None? && r.maxPriorityFeePerGas.None? then
      (if r.accessList.Some? then Some(Eip2930) else Some(Legacy))
    else None
  }

  /** The generation of the source envelope is recoverable from the record alone. */
  lemma GenerationRecoverable(r: Transaction, e: TransactionEnvelope, lib: Library)
    requires NormalizedFrom(r, e, lib)
    ensures ClassifyGeneration(r) == Some(GenerationOf(e))
  {
  }
}
