/** `LocalTransactionStatus` and its hand-written `Serialize` impl: a struct whose
    field count is declared up front and whose fields depend on the arm. */
module Status {
  import opened Primitives
  import opened Canonical
  import opened Serde
  import opened TransactionSerde

  datatype LocalTransactionStatus =
    | Pending
    | Future
    | Mined(tx: Transaction)
    | Culled(tx: Transaction)
    | Dropped(tx: Transaction)
    | Replaced(tx: Transaction, gasPrice: U256, hash: H256)
    | Rejected(tx: Transaction, reason: string)
    | Invalid(tx: Transaction)
    | Canceled(tx: Transaction)

  /** The value of the `status` field. */
  function Tag(s: LocalTransactionStatus): string
  {
    match s
    case Pending => "pending"
    case Future => "future"
    case Mined(_) => "mined"
    case Culled(_) => "culled"
    case Dropped(_) => "dropped"
    case Canceled(_) => "canceled"
    case Invalid(_) => "invalid"
    case Rejected(_, _) => "rejected"
    case Replaced(_, _, _) => "replaced"
  }

  /** Position of the arm in the declaration, to compare arms. */
  function Arm(s: LocalTransactionStatus): nat
  {
    match s
    case Pending => 0
    case Future => 1
    case Mined(_) => 2
    case Culled(_) => 3
    case Dropped(_) => 4
    case Replaced(_, _, _) => 5
    case Rejected(_, _) => 6
    case Invalid(_) => 7
    case Canceled(_) => 8
  }

  /** The fields written for each arm, in order; the record is written by its own
      serialisation `encode`. */
  function StatusFields(s: LocalTransactionStatus, encode: Transaction -> Value): seq<Field>
  {
    var head := [Field("status", Str(Tag(s)))];
    match s
    case Pending | Future => head
    case Rejected(tx, reason) =>
      head + [Field("transaction", encode(tx)), Field("error", Str(reason))]
    case Replaced(tx, gasPrice, hash) =>
      head + [Field("transaction", encode(tx)), Field("hash", Data(hash)), Field("gasPrice", Quantity(gasPrice))]
    case _ =>
      head + [Field("transaction", encode(s.tx))]
  }

  /** `impl Serialize for LocalTransactionStatus`: opens a struct with the arm's
      declared count, writes the arm's fields, ends it. `declared` is the count
      passed to `serialize_struct`; `encode` is the record's own `Serialize` impl
      (`RecordEncoding(std)`), which the struct serializer calls for the
      `transaction` field. */
  method SerializeStatus(s: LocalTransactionStatus, encode: Transaction -> Value) returns (out: Value, declared: nat)
    ensures out == Struct("LocalTransactionStatus", StatusFields(s, encode))
    ensures declared == |out.fields|
    ensures s.Pending? || s.Future? ==> declared == 1
    ensures s.Mined? || s.Culled? || s.Dropped? || s.Invalid? || s.Canceled? ==> declared == 2
    ensures s.Rejected? ==> declared == 3
    ensures s.Replaced? ==> declared == 4
  {
    var elems := match s
      case Pending | Future => 1
      case Mined(_) | Culled(_) | Dropped(_) | Invalid(_) | Canceled(_) => 2
      case Rejected(_, _) => 3
      case Replaced(_, _, _) => 4;
    var status := "status";
    var transaction := "transaction";
    var struc := new StructSerializer("LocalTransactionStatus", elems);
    match s {
      case Pending =>
        struc.SerializeField(status, Str("pending"));
      case Future =>
        struc.SerializeField(status, Str("future"));
      case Mined(tx) =>
        struc.SerializeField(status, Str("mined"));
        struc.SerializeField(transaction, encode(tx));
      case Culled(tx) =>
        struc.SerializeField(status, Str("culled"));
        struc.SerializeField(transaction, encode(tx));
      case Dropped(tx) =>
        struc.SerializeField(status, Str("dropped"));
        struc.SerializeField(transaction, encode(tx));
      case Canceled(tx) =>
        struc.SerializeField(status, Str("canceled"));
        struc.SerializeField(transaction, encode(tx));
      case Invalid(tx) =>
        struc.SerializeField(status, Str("invalid"));
        struc.SerializeField(transaction, encode(tx));
      case Rejected(tx, reason) =>
        struc.SerializeField(status, Str("rejected"));
        struc.SerializeField(transaction, encode(tx));
        struc.SerializeField("error", Str(reason));
      case Replaced(tx, gasPrice, hash) =>
        struc.SerializeField(status, Str("replaced"));
        struc.SerializeField(transaction, encode(tx));
        struc.SerializeField("hash", Data(hash));
        struc.SerializeField("gasPrice", Quantity(gasPrice));
    }
    out := struc.End();
    declared := struc.len;
  }

  /** Field layout per arm: `status` first with the arm's tag, then the record,
      then the reason for `Rejected`, or the replacement hash before the
      replacement gas price for `Replaced`. */
  lemma StatusFieldOrder(s: LocalTransactionStatus, encode: Transaction -> Value)
    ensures var fields := StatusFields(s, encode);
      && fields[0] == Field("status", Str(Tag(s)))
      && (s.Pending? || s.Future? ==> |fields| == 1)
      && (s.Mined? || s.Culled? || s.Dropped? || s.Invalid? || s.Canceled? ==> |fields| == 2)
      && (!s.Pending? && !s.Future? ==> fields[1] == Field("transaction", encode(s.tx)))
      && (s.Rejected? ==> |fields| == 3 && fields[2] == Field("error", Str(s.reason)))
      && (s.Replaced? ==>
            && |fields| == 4
            && fields[2] == Field("hash", Data(s.hash))
            && fields[3] == Field("gasPrice", Quantity(s.gasPrice)))
  {
  }

  /** Field names per arm, in order. */
  lemma StatusFieldNames(s: LocalTransactionStatus, encode: Transaction -> Value)
    ensures var names := Names(StatusFields(s, encode));
      && (s.Pending? || s.Future? ==> names == ["status"])
      && (s.Mined? || s.Culled? || s.Dropped? || s.Invalid? || s.Canceled? ==> names == ["status", "transaction"])
      && (s.Rejected? ==> names == ["status", "transaction", "error"])
      && (s.Replaced? ==> names == ["status", "transaction", "hash", "gasPrice"])
  {
  }

  predicate IsLowercase(text: string)
  {
    forall k :: 0 <= k < |text| ==> 'a' <= text[k] <= 'z'
  }

  /** Tags are fixed lowercase words, one per arm: the `status` field alone tells the arm. */
  lemma TagIdentifiesArm(a: LocalTransactionStatus, b: LocalTransactionStatus)
    ensures IsLowercase(Tag(a))
    ensures Tag(a) == Tag(b) <==> Arm(a) == Arm(b)
  {
  }

  /** Different statuses serialise differently whenever the record's own
      serialisation does. */
  lemma StatusFieldsInjective(a: LocalTransactionStatus, b: LocalTransactionStatus, encode: Transaction -> Value)
    requires forall t1, t2 :: encode(t1) == encode(t2) ==> t1 == t2
    requires StatusFields(a, encode) == StatusFields(b, encode)
    ensures a == b
  {
    assert StatusFields(a, encode)[0] == Field("status", Str(Tag(a)));
    TagIdentifiesArm(a, b);
    if !a.Pending? && !a.Future? {
      assert StatusFields(a, encode)[1] == Field("transaction", encode(a.tx));
      assert StatusFields(b, encode)[1] == Field("transaction", encode(b.tx));
    }
    if a.Rejected? {
      assert StatusFields(a, encode)[2] == StatusFields(b, encode)[2];
    }
    if a.Replaced? {
      assert StatusFields(a, encode)[2] == StatusFields(b, encode)[2];
      assert StatusFields(a, encode)[3] == StatusFields(b, encode)[3];
    }
  }

  /** The derived `Serialize` of the record, with or without the `std` feature. */
  function RecordEncoding(std: bool): Transaction -> Value
  {
    t => TransactionValue(t, std)
  }

  /** With the record's derived serialisation, the status encoding loses nothing:
      the arm, the record, the reason, the replacement price and hash are all
      recoverable from the output. */
  lemma StatusEncodingLossless(a: LocalTransactionStatus, b: LocalTransactionStatus, std: bool)
    requires StatusFields(a, RecordEncoding(std)) == StatusFields(b, RecordEncoding(std))
    ensures a == b
  {
    var encode := RecordEncoding(std);
    forall t1, t2 | encode(t1) == encode(t2) ensures t1 == t2 {
      TransactionValueInjective(t1, t2, std);
    }
    StatusFieldsInjective(a, b, encode);
  }
}
