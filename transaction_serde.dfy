/** The derived serialisation of the RPC `Transaction` record: camelCase names in
    declaration order; with the `std` feature, `gasPrice`, `maxFeePerGas`,
    `maxPriorityFeePerGas` and `accessList` are left out when unset, while every
    other optional field is written as `null`. */
module TransactionSerde {
  import opened Primitives
  import opened Envelope
  import opened Canonical
  import opened Serde

  function OptData(o: Option<seq<byte>>): Option<Value>
  {
    match o
    case Some(b) => Some(Data(b))
    case None => None
  }

  function OptQuantity(o: Option<nat>): Option<Value>
  {
    match o
    case Some(n) => Some(Quantity(n))
    case None => None
  }

  function OptAccessList(o: Option<seq<AccessListItem>>): Option<Value>
  {
    match o
    case Some(items) => Some(AccessList(items))
    case None => None
  }

  /** The wire names of the record's fields, in declaration order. */
  const FieldOrder: seq<string> :=
    [ "hash", "nonce", "blockHash", "blockNumber", "transactionIndex", "from", "to", "value",
      "gasPrice", "maxFeePerGas", "maxPriorityFeePerGas", "gas", "input", "creates", "raw",
      "publicKey", "chainId", "standardV", "v", "r", "s", "accessList" ]

  /** Positions in `FieldOrder` of the four fields that carry the skip mark
      (`gasPrice`, `maxFeePerGas`, `maxPriorityFeePerGas`, `accessList`). */
  const SkippableFields: set<nat> := {8, 9, 10, 21}

  /** The value of the field at position `i` of `FieldOrder` (`None` when unset). */
  function FieldValue(t: Transaction, i: nat): Option<Value>
  {
    match i
    case 0 => Some(Data(t.hash))
    case 1 => Some(Quantity(t.nonce))
    case 2 => OptData(t.blockHash)
    case 3 => OptQuantity(t.blockNumber)
    case 4 => OptQuantity(t.transactionIndex)
    case 5 => Some(Data(t.from))
    case 6 => OptData(t.to)
    case 7 => Some(Quantity(t.value))
    case 8 => OptQuantity(t.gasPrice)
    case 9 => OptQuantity(t.maxFeePerGas)
    case 10 => OptQuantity(t.maxPriorityFeePerGas)
    case 11 => Some(Quantity(t.gas))
    case 12 => Some(Data(t.input))
    case 13 => OptData(t.creates)
    case 14 => Some(Data(t.raw))
    case 15 => OptData(t.publicKey)
    case 16 => OptQuantity(t.chainId)
    case 17 => Some(Quantity(t.standardV))
    case 18 => Some(Quantity(t.v))
    case 19 => Some(Quantity(t.r))
    case 20 => Some(Quantity(t.s))
    case _ => OptAccessList(t.accessList)
  }

  /** The record's fields as declared, with their skip marks. */
  function TransactionSlots(t: Transaction): (slots: seq<Slot>)
    ensures |slots| == |FieldOrder|
  {
    seq(|FieldOrder|, i requires 0 <= i < |FieldOrder| => Slot(FieldOrder[i], FieldValue(t, i), i in SkippableFields))
  }

  lemma FieldOrderDistinct()
    ensures forall i, j :: 0 <= i < j < |FieldOrder| ==> FieldOrder[i] != FieldOrder[j]
  {
  }

  /** Every record has the same declared shape: the names of `FieldOrder`, all
      distinct, the skip mark on the four fee and access-list fields, and no
      set field written as `null`. */
  lemma TransactionSlotsShape(t: Transaction)
    ensures forall i :: 0 <= i < |FieldOrder| ==> TransactionSlots(t)[i].name == FieldOrder[i]
    ensures forall i :: 0 <= i < |FieldOrder| ==> (TransactionSlots(t)[i].skipIfNone <==> i in SkippableFields)
    ensures NamesDistinct(TransactionSlots(t))
    ensures NoExplicitNull(TransactionSlots(t))
  {
    FieldOrderDistinct();
  }

  function TransactionFields(t: Transaction, std: bool): seq<Field>
  {
    Emit(TransactionSlots(t), std)
  }

  /** `impl Serialize for Transaction` (derived). */
  function TransactionValue(t: Transaction, std: bool): (v: Value)
    ensures v.Struct? && v.name == "Transaction"
    ensures |v.fields| <= |FieldOrder|
  {
    Struct("Transaction", TransactionFields(t, std))
  }

  /** A field is skipped when it carries the mark, is unset and `std` is on. */
  predicate FieldSkipped(t: Transaction, std: bool, i: nat)
  {
    std && i in SkippableFields && FieldValue(t, i).None?
  }

  /** Which names appear: exactly those of the fields not skipped, so the
      eighteen unmarked fields always (an unset one as `null`), and each marked
      field when it is set or `std` is off. */
  lemma TransactionFieldPresence(t: Transaction, std: bool)
    ensures forall i :: 0 <= i < |FieldOrder| ==>
      (FieldOrder[i] in Names(TransactionFields(t, std)) <==> !FieldSkipped(t, std, i))
  {
    var slots := TransactionSlots(t);
    var fields := TransactionFields(t, std);
    TransactionSlotsShape(t);
    forall i | 0 <= i < |FieldOrder|
      ensures FieldOrder[i] in Names(fields) <==> !FieldSkipped(t, std, i)
    {
      EmitPresence(slots, std, i);
      if !Skipped(slots[i], std) {
        FieldNameListed(Field(slots[i].name, ValueOrNull(slots[i].value)), fields);
      }
    }
  }

  /** Every field not skipped is written under its name with its value, `null`
      standing for an unset one. */
  lemma FieldsWritten(t: Transaction, std: bool)
    ensures forall i :: 0 <= i < |FieldOrder| && !FieldSkipped(t, std, i) ==>
      Field(FieldOrder[i], ValueOrNull(FieldValue(t, i))) in TransactionFields(t, std)
  {
    var slots := TransactionSlots(t);
    TransactionSlotsShape(t);
    forall i | 0 <= i < |FieldOrder| && !FieldSkipped(t, std, i)
      ensures Field(FieldOrder[i], ValueOrNull(FieldValue(t, i))) in TransactionFields(t, std)
    {
      EmitPresence(slots, std, i);
    }
  }

  /** A fee-market record written with `std`: no `gasPrice` key, and both fee-market
      keys with the envelope's values. */
  lemma FeeMarketRecordFields(transaction: TransactionV2, lib: Library)
    ensures var fields := TransactionFields(FromV2(transaction, lib), true);
      && "gasPrice" !in Names(fields)
      && Field("maxFeePerGas", Quantity(transaction.maxFeePerGas)) in fields
      && Field("maxPriorityFeePerGas", Quantity(transaction.maxPriorityFeePerGas)) in fields
  {
    var t := FromV2(transaction, lib);
    TransactionFieldPresence(t, true);
    FieldsWritten(t, true);
    assert FieldOrder[8] == "gasPrice" && FieldSkipped(t, true, 8);
    assert FieldOrder[9] == "maxFeePerGas" && FieldValue(t, 9) == Some(Quantity(transaction.maxFeePerGas));
    assert FieldOrder[10] == "maxPriorityFeePerGas" && FieldValue(t, 10) == Some(Quantity(transaction.maxPriorityFeePerGas));
  }

  /** Distinct records serialise differently: the serialisation loses nothing. */
  lemma TransactionValueInjective(t1: Transaction, t2: Transaction, std: bool)
    requires TransactionValue(t1, std) == TransactionValue(t2, std)
    ensures t1 == t2
  {
    TransactionSlotsShape(t1);
    TransactionSlotsShape(t2);
    EmitInjective(TransactionSlots(t1), TransactionSlots(t2), std);
    SlotsDetermineRecord(t1, t2);
  }

  lemma SlotsDetermineRecord(t1: Transaction, t2: Transaction)
    requires TransactionSlots(t1) == TransactionSlots(t2)
    ensures t1 == t2
  {
    forall i | 0 <= i < |FieldOrder| ensures FieldValue(t1, i) == FieldValue(t2, i) {
      assert TransactionSlots(t1)[i] == TransactionSlots(t2)[i];
    }
    assert FieldValue(t1, 0) == FieldValue(t2, 0) && FieldValue(t1, 1) == FieldValue(t2, 1);
    assert FieldValue(t1, 2) == FieldValue(t2, 2) && FieldValue(t1, 3) == FieldValue(t2, 3);
    assert FieldValue(t1, 4) == FieldValue(t2, 4) && FieldValue(t1, 5) == FieldValue(t2, 5);
    assert FieldValue(t1, 6) == FieldValue(t2, 6) && FieldValue(t1, 7) == FieldValue(t2, 7);
    assert FieldValue(t1, 8) == FieldValue(t2, 8) && FieldValue(t1, 9) == FieldValue(t2, 9);
    assert FieldValue(t1, 10) == FieldValue(t2, 10) && FieldValue(t1, 11) == FieldValue(t2, 11);
    assert FieldValue(t1, 12) == FieldValue(t2, 12) && FieldValue(t1, 13) == FieldValue(t2, 13);
    assert FieldValue(t1, 14) == FieldValue(t2, 14) && FieldValue(t1, 15) == FieldValue(t2, 15);
    assert FieldValue(t1, 16) == FieldValue(t2, 16) && FieldValue(t1, 17) == FieldValue(t2, 17);
    assert FieldValue(t1, 18) == FieldValue(t2, 18) && FieldValue(t1, 19) == FieldValue(t2, 19);
    assert FieldValue(t1, 20) == FieldValue(t2, 20) && FieldValue(t1, 21) == FieldValue(t2, 21);
  }
}
