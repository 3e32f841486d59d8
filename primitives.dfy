/** Fixed-width Ethereum primitive types (the `ethereum_types` crate) as bounded
    naturals and fixed-length byte strings, plus the big-endian reading that
    `U256::from(&[u8])` performs. */
module Primitives {

  datatype Option<+T> = None | Some(value: T)

  type byte = b: int | 0 <= b < 0x100

  /** Byte strings: `Bytes` (raw payloads, call data) and the fixed-size hashes. */
  type Bytes = seq<byte>

  type U8 = n: nat | n < 0x100
  type U64 = n: nat | n < 0x1_0000_0000_0000_0000
  type U256 = n: nat | n < 0x1_0000_0000_0000_0000_0000_0000_0000_0000_0000_0000_0000_0000_0000_0000_0000_0000

  /** 160-bit address. */
  type H160 = s: seq<byte> | |s| == 20 witness seq(20, _ => 0)
  /** 256-bit hash. */
  type H256 = s: seq<byte> | |s| == 32 witness seq(32, _ => 0)
  /** 512-bit public key. */
  type H512 = s: seq<byte> | |s| == 64 witness seq(64, _ => 0)

  /** `H160::default()`: the all-zero address. */
  function ZeroAddress(): (a: H160)
    ensures forall i :: 0 <= i < 20 ==> a[i] == 0
  {
    seq(20, _ => 0)
  }

  function Pow256(k: nat): nat
  {
    if k == 0 then 1 else 256 * Pow256(k - 1)
  }

  lemma {:induction false} Pow256Add(a: nat, b: nat)
    ensures Pow256(a + b) == Pow256(a) * Pow256(b)
  {
    if a > 0 {
      Pow256Add(a - 1, b);
    }
  }

  /** 256^32 is the modulus of `U256`. */
  lemma Pow256Of32()
    ensures Pow256(32) == 0x1_0000_0000_0000_0000_0000_0000_0000_0000_0000_0000_0000_0000_0000_0000_0000_0000
  {
    assert Pow256(8) == 0x1_0000_0000_0000_0000;
    Pow256Add(8, 8);
    Pow256Add(16, 16);
  }

  /** The number a byte string denotes when read most significant byte first. */
  function BigEndian(b: seq<byte>): (n: nat)
    ensures n < Pow256(|b|)
  {
    if b == [] then 0 else BigEndian(b[..|b| - 1]) * 256 + b[|b| - 1]
  }

  /** Distinct byte strings of equal length denote distinct numbers, so the conversion loses nothing. */
  lemma {:induction false} BigEndianInjective(a: seq<byte>, b: seq<byte>)
    requires |a| == |b|
    requires BigEndian(a) == BigEndian(b)
    ensures a == b
  {
    if a != [] {
      var k := |a| - 1;
      // the last byte is the remainder modulo 256, the prefix the quotient
      assert BigEndian(a) % 256 == a[k] && BigEndian(a) / 256 == BigEndian(a[..k]);
      assert BigEndian(b) % 256 == b[k] && BigEndian(b) / 256 == BigEndian(b[..k]);
      BigEndianInjective(a[..k], b[..k]);
      assert a == a[..k] + [a[k]] && b == b[..k] + [b[k]];
    }
  }

  /** `U256::from(h.as_bytes())` for a 32-byte hash: its big-endian value. What
      this member proves is that the value always fits the `U256` result type
      (the bound on `BigEndian` at length 32, via `Pow256Of32`), so the
      conversion never truncates; `BigEndianInjective` adds that it loses nothing. */
  function U256FromH256(h: H256): (n: U256)
    ensures n == BigEndian(h)
  {
    Pow256Of32();
    BigEndian(h)
  }

  /** `U256::from(b as u8)` for a boolean parity flag. */
  function U256FromBool(b: bool): (n: U256)
    ensures n <= 1 && (n == 1 <==> b)
  {
    if b then 1 else 0
  }
}
