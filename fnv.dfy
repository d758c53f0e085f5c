/**
 * 32-bit Fowler/Noll/Vo hashing, FNV-1 and FNV-1a, over a byte stream
 * (Common/FnvHashing.cs), as defined in IETF Internet-Draft
 * draft-eastlake-fnv, section 2. The hash is a C# `uint` updated inside
 * `unchecked`: the XOR is taken bitwise and the product is reduced
 * modulo 2^32, both written out here.
 */
module Fnv {

  type Byte = bv8

  const Modulus: int := 0x1_0000_0000

  /** A C# `uint`. */
  type UInt32 = x: int | 0 <= x < 0x1_0000_0000

  /** The FNV offset basis and the 32-bit FNV prime. */
  const OffsetBasis: UInt32 := 2166136261
  const Prime: UInt32 := 16777619

  /** `hash ^= b` on a `uint` and a `byte`. */
  function Xor(hash: UInt32, b: Byte): (r: UInt32) {
    ((hash as bv32) ^ (b as bv32)) as int
  }

  /** `hash *= prime` inside `unchecked`: the product wraps around modulo 2^32. */
  function MulPrime(hash: UInt32): (r: UInt32) {
    (hash * Prime) % Modulus
  }

  /** One FNV-1a step: XOR the byte in, then multiply. */
  function Step1a(hash: UInt32, b: Byte): UInt32 {
    MulPrime(Xor(hash, b))
  }

  /** One FNV-1 step: multiply, then XOR the byte in. */
  function Step1(hash: UInt32, b: Byte): UInt32 {
    Xor(MulPrime(hash), b)
  }

  /** FNV-1a of a byte stream: a left fold of `Step1a` from the offset basis. */
  function Fnv1aOf(bytes: seq<Byte>): UInt32 {
    if |bytes| == 0 then OffsetBasis else Step1a(Fnv1aOf(bytes[..|bytes| - 1]), bytes[|bytes| - 1])
  }

  /** FNV-1 of a byte stream: a left fold of `Step1` from the offset basis. */
  function Fnv1Of(bytes: seq<Byte>): UInt32 {
    if |bytes| == 0 then OffsetBasis else Step1(Fnv1Of(bytes[..|bytes| - 1]), bytes[|bytes| - 1])
  }

  /**
   * `FnvHashing.Fnv1a`: `foreach` byte of the stream, XOR then multiply.
   * `hashable.GetBytestream()` is given as `bytes`.
   */
  method Fnv1a(bytes: seq<Byte>) returns (hash: UInt32)
    ensures hash == Fnv1aOf(bytes)
    ensures |bytes| == 0 ==> hash == 2166136261
  {
    hash := OffsetBasis;
    for i := 0 to |bytes|
      invariant hash == Fnv1aOf(bytes[..i])
    {
      assert bytes[..i + 1][..i] == bytes[..i];
      hash := Xor(hash, bytes[i]);
      hash := MulPrime(hash);
    }
    assert bytes[..|bytes|] == bytes;
  }

  /** `FnvHashing.Fnv1`: `foreach` byte of the stream, multiply then XOR. */
  method Fnv1(bytes: seq<Byte>) returns (hash: UInt32)
    ensures hash == Fnv1Of(bytes)
    ensures |bytes| == 0 ==> hash == 2166136261
  {
    hash := OffsetBasis;
    for i := 0 to |bytes|
      invariant hash == Fnv1Of(bytes[..i])
    {
      assert bytes[..i + 1][..i] == bytes[..i];
      hash := MulPrime(hash);
      hash := Xor(hash, bytes[i]);
    }
    assert bytes[..|bytes|] == bytes;
  }

  /** Each byte is folded in, in stream order: FNV-1a of `s + [b]` is one more step on FNV-1a of `s`. */
  lemma Fnv1aSnoc(s: seq<Byte>, b: Byte)
    ensures Fnv1aOf(s + [b]) == (Xor(Fnv1aOf(s), b) * 16777619) % 0x1_0000_0000
  {
    assert (s + [b])[..|s|] == s;
  }

  /** The same for FNV-1, with the two operations in the opposite order. */
  lemma Fnv1Snoc(s: seq<Byte>, b: Byte)
    ensures Fnv1Of(s + [b]) == Xor((Fnv1Of(s) * 16777619) % 0x1_0000_0000, b)
  {
    assert (s + [b])[..|s|] == s;
  }

  /** FNV-1a of a stream whose first part is `s`: the fold over the rest starts from FNV-1a of `s`. */
  function Fold1a(hash: UInt32, bytes: seq<Byte>): UInt32 {
    if |bytes| == 0 then hash else Step1a(Fold1a(hash, bytes[..|bytes| - 1]), bytes[|bytes| - 1])
  }

  /** Hashing may be resumed: FNV-1a of `s + t` continues from the hash of `s`. */
  lemma {:induction false} Fnv1aAppend(s: seq<Byte>, t: seq<Byte>)
    ensures Fnv1aOf(s + t) == Fold1a(Fnv1aOf(s), t)
  {
    if |t| == 0 {
      assert s + t == s;
    } else {
      var t' := t[..|t| - 1];
      Fnv1aAppend(s, t');
      assert (s + t)[..|s + t| - 1] == s + t';
    }
  }

  /** The standard test vector: FNV-1a of the single byte 0x61 ("a") is 0xE40C292C. */
  lemma Fnv1aTestVector()
    ensures Fnv1aOf([0x61]) == 0xE40C292C
  {
    var a: seq<Byte> := [0x61];
    assert a[..0] == [];
    assert (0x811C9DC5 as bv32) ^ (0x61 as bv32) == 0x811C9DA4;
    assert Xor(OffsetBasis, 0x61) == 0x811C9DA4;
    assert 0x811C9DA4 * 16777619 == 36342608335481132;
    assert MulPrime(0x811C9DA4) == 0xE40C292C;
  }

  /** The standard test vector: FNV-1 of the single byte 0x61 ("a") is 0x050C5D7E. */
  lemma Fnv1TestVector()
    ensures Fnv1Of([0x61]) == 0x050C5D7E
  {
    var a: seq<Byte> := [0x61];
    assert a[..0] == [];
    assert 0x811C9DC5 * 16777619 == 36342608889142559;
    assert MulPrime(OffsetBasis) == 0x050C5D1F;
    assert (0x050C5D1F as bv32) ^ (0x61 as bv32) == 0x050C5D7E;
    assert Xor(0x050C5D1F, 0x61) == 0x050C5D7E;
    assert Fnv1Of(a) == Step1(OffsetBasis, 0x61);
  }
}
