/** The part of serde's data model the module emits: a struct is opened with a
    declared field count, receives named fields one at a time, and is ended.
    Values are shown as they reach a JSON serializer: `Some(x)` is `x` itself,
    `None` is `null`. */
module Serde {
  import opened Primitives
  import opened Envelope

  datatype Value =
    | Null
    | Str(text: string)
    /** A `U256`/`U64` quantity. */
    | Quantity(n: nat)
    /** Fixed hashes, addresses and `Bytes`. */
    | Data(bytes: seq<byte>)
    /** An access list, emitted by the `ethereum` crate's own serialisation. */
    | AccessList(items: seq<AccessListItem>)
    | Struct(name: string, fields: seq<Field>)

  datatype Field = Field(name: string, value: Value)

  function Names(fields: seq<Field>): (names: seq<string>)
    ensures |names| == |fields|
    ensures forall k :: 0 <= k < |fields| ==> names[k] == fields[k].name
  {
    seq(|fields|, k requires 0 <= k < |fields| => fields[k].name)
  }

  lemma FieldNameListed(f: Field, fields: seq<Field>)
    requires f in fields
    ensures f.name in Names(fields)
  {
    var k :| 0 <= k < |fields| && fields[k] == f;
    assert Names(fields)[k] == f.name;
  }

  /** A struct under construction (serde's `SerializeStruct`): the name and field
      count declared by `serialize_struct`, and the fields sent so far. */
  class StructSerializer {
    const name: string
    const len: nat
    var fields: seq<Field>
    var ended: bool

    /** `Serializer::serialize_struct(name, len)`. */
    constructor (name: string, len: nat)
      ensures this.name == name && this.len == len
      ensures fields == [] && !ended
    {
      this.name := name;
      this.len := len;
      fields := [];
      ended := false;
    }

    /** `SerializeStruct::serialize_field(key, value)`: appends one named field. */
    method SerializeField(key: string, value: Value)
      requires !ended
      modifies this
      ensures fields == old(fields) + [Field(key, value)]
      ensures !ended
    {
      fields := fields + [Field(key, value)];
    }

    /** `SerializeStruct::end()`: closes the struct and yields what was written. */
    method End() returns (out: Value)
      requires !ended
      modifies this
      ensures ended && fields == old(fields)
      ensures out == Struct(name, fields)
    {
      ended := true;
      out := Struct(name, fields);
    }
  }

  // ---------------------------------------------------------------------------
  // `#[derive(Serialize)]` on a struct: each declared field in order, except that
  // a field marked `skip_serializing_if = "Option::is_none"` is left out when it
  // is `None`. In this module the mark is only present with the `std` feature.

  /** One declared field: its wire name, its value (`None` for an unset `Option`)
      and whether it carries the skip mark. */
  datatype Slot = Slot(name: string, value: Option<Value>, skipIfNone: bool)

  predicate Skipped(slot: Slot, std: bool)
  {
    std && slot.skipIfNone && slot.value.None?
  }

  function ValueOrNull(o: Option<Value>): Value
  {
    match o
    case Some(v) => v
    case None => Null
  }

  predicate NamesDistinct(slots: seq<Slot>)
  {
    forall i, j :: 0 <= i < j < |slots| ==> slots[i].name != slots[j].name
  }

  /** `null` is only ever the encoding of an unset `Option`. */
  predicate NoExplicitNull(slots: seq<Slot>)
  {
    forall i :: 0 <= i < |slots| ==> slots[i].value != Some(Null)
  }

  /** The fields a derived serialisation emits, in declaration order. */
  function Emit(slots: seq<Slot>, std: bool): (fields: seq<Field>)
    ensures |fields| <= |slots|
  {
    if slots == [] then []
    else
      var head := if Skipped(slots[0], std) then [] else [Field(slots[0].name, ValueOrNull(slots[0].value))];
      head + Emit(slots[1..], std)
  }

  /** Every emitted name is a declared one. */
  lemma {:induction false} EmitNamesDeclared(slots: seq<Slot>, std: bool)
    ensures forall k :: 0 <= k < |Emit(slots, std)| ==>
      exists j :: 0 <= j < |slots| && slots[j].name == Emit(slots, std)[k].name
  {
    if slots != [] {
      var rest := Emit(slots[1..], std);
      EmitNamesDeclared(slots[1..], std);
      forall k | 0 <= k < |rest|
        ensures exists j :: 0 <= j < |slots| && slots[j].name == rest[k].name
      {
        var j :| 0 <= j < |slots| - 1 && slots[1..][j].name == rest[k].name;
        assert slots[j + 1].name == rest[k].name;
      }
      var head := if Skipped(slots[0], std) then [] else [Field(slots[0].name, ValueOrNull(slots[0].value))];
      var fields := Emit(slots, std);
      assert fields == head + rest;
      forall k | 0 <= k < |fields|
        ensures exists j :: 0 <= j < |slots| && slots[j].name == fields[k].name
      {
        if k < |head| {
          assert slots[0].name == fields[k].name;
        } else {
          assert fields[k] == rest[k - |head|];
        }
      }
    } else {
      assert Emit(slots, std) == [];
    }
  }

  /** A field is emitted exactly when it is not skipped, with its value (or null). */
  lemma {:induction false} EmitPresence(slots: seq<Slot>, std: bool, i: nat)
    requires i < |slots|
    requires NamesDistinct(slots)
    ensures !Skipped(slots[i], std) ==> Field(slots[i].name, ValueOrNull(slots[i].value)) in Emit(slots, std)
    ensures Skipped(slots[i], std) ==> slots[i].name !in Names(Emit(slots, std))
  {
    var rest := Emit(slots[1..], std);
    assert Emit(slots, std) == (if Skipped(slots[0], std) then [] else [Field(slots[0].name, ValueOrNull(slots[0].value))]) + rest;
    if i == 0 {
      if Skipped(slots[0], std) {
        LaterNameDiffers(slots, std);
      }
    } else {
      EmitPresence(slots[1..], std, i - 1);
      assert slots[1..][i - 1] == slots[i];
      if Skipped(slots[i], std) && !Skipped(slots[0], std) {
        assert slots[0].name != slots[i].name;
      }
    }
  }

  /** Two slot lists of the same shape that emit the same fields are equal: a
      derived serialisation loses nothing, skipped fields included. */
  lemma {:induction false} EmitInjective(a: seq<Slot>, b: seq<Slot>, std: bool)
    requires |a| == |b|
    requires forall i :: 0 <= i < |a| ==> a[i].name == b[i].name && a[i].skipIfNone == b[i].skipIfNone
    requires NamesDistinct(a)
    requires NoExplicitNull(a) && NoExplicitNull(b)
    requires Emit(a, std) == Emit(b, std)
    ensures a == b
  {
    if a != [] {
      var ra, rb := Emit(a[1..], std), Emit(b[1..], std);
      var fa := Field(a[0].name, ValueOrNull(a[0].value));
      var fb := Field(b[0].name, ValueOrNull(b[0].value));
      assert Emit(a, std) == (if Skipped(a[0], std) then [] else [fa]) + ra;
      assert Emit(b, std) == (if Skipped(b[0], std) then [] else [fb]) + rb;
      FirstEmitted(a, std);
      FirstEmitted(b, std);
      assert Skipped(a[0], std) == Skipped(b[0], std);
      if Skipped(a[0], std) {
        assert Emit(a, std) == ra && Emit(b, std) == rb;
      } else {
        assert ra == Emit(a, std)[1..] == Emit(b, std)[1..] == rb;
        assert ValueOrNull(a[0].value) == ValueOrNull(b[0].value);
      }
      assert a[0] == b[0];
      EmitInjective(a[1..], b[1..], std);
      assert a == [a[0]] + a[1..] && b == [b[0]] + b[1..];
    }
  }

  /** The first slot is emitted exactly when the emitted fields start with its name. */
  lemma FirstEmitted(slots: seq<Slot>, std: bool)
    requires slots != [] && NamesDistinct(slots)
    ensures !Skipped(slots[0], std) <==> (|Emit(slots, std)| > 0 && Emit(slots, std)[0].name == slots[0].name)
  {
    LaterNameDiffers(slots, std);
    var rest := Emit(slots[1..], std);
    if Skipped(slots[0], std) {
      assert Emit(slots, std) == rest;
    } else {
      assert Emit(slots, std) == [Field(slots[0].name, ValueOrNull(slots[0].value))] + rest;
    }
  }

  /** No field emitted after the first slot carries the first slot's name. */
  lemma LaterNameDiffers(slots: seq<Slot>, std: bool)
    requires slots != [] && NamesDistinct(slots)
    ensures forall k :: 0 <= k < |Emit(slots[1..], std)| ==> Emit(slots[1..], std)[k].name != slots[0].name
  {
    var rest := Emit(slots[1..], std);
    EmitNamesDeclared(slots[1..], std);
    forall k | 0 <= k < |rest| ensures rest[k].name != slots[0].name {
      var j :| 0 <= j < |slots| - 1 && slots[1..][j].name == rest[k].name;
      assert slots[j + 1].name == rest[k].name;
    }
  }
}
