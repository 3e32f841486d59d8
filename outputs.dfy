/** The two small wrappers around the record: the `eth_signTransaction` output
    (raw bytes plus the record, the latter under the key `tx`) and the entry kept
    for a transaction submitted but not yet included. */
module Outputs {
  import opened Primitives
  import opened Canonical
  import opened Serde
  import opened TransactionSerde

  datatype RichRawTransaction = RichRawTransaction(raw: Bytes, transaction: Transaction)

  /** Derived `Serialize` for `RichRawTransaction`: `raw`, then the record renamed to `tx`. */
  function RichRawTransactionValue(rich: RichRawTransaction, std: bool): (v: Value)
    ensures v.Struct? && Names(v.fields) == ["raw", "tx"]
    ensures v.fields[0].value == Data(rich.raw)
    ensures v.fields[1].value == TransactionValue(rich.transaction, std)
  {
    Struct("RichRawTransaction", [Field("raw", Data(rich.raw)), Field("tx", TransactionValue(rich.transaction, std))])
  }

  /** Both parts are recoverable from the output. */
  lemma RichRawTransactionLossless(a: RichRawTransaction, b: RichRawTransaction, std: bool)
    requires RichRawTransactionValue(a, std) == RichRawTransactionValue(b, std)
    ensures a == b
  {
    TransactionValueInjective(a.transaction, b.transaction, std);
  }

  /** A record and the height of the block at which it was submitted. */
  datatype PendingTransaction = PendingTransaction(transaction: Transaction, atBlock: U64)

  /** `PendingTransaction::new`. */
  function NewPendingTransaction(transaction: Transaction, atBlock: U64): (p: PendingTransaction)
    ensures p.transaction == transaction && p.atBlock == atBlock
  {
    PendingTransaction(transaction, atBlock)
  }
}
