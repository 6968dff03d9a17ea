/** 32-bit FNV-1 (section 2 of IETF draft-eastlake-fnv) and the variant the
  * C++ partitioner computes when a key's characters are signed. */
module Fnv {
  import opened Types
  import opened Bits

  const FNV_OFFSET_BASIS: nat := 0x811c9dc5
  const FNV_PRIME: nat := 0x01000193

  /** One FNV-1 step: multiply modulo 2^32, then exclusive-or the operand
    * into the low 32 bits. */
  function Step(hash: nat, operand: nat): (h: nat)
    ensures h < UINT32_LIMIT
  {
    Pow2Widths();
    Xor(hash * FNV_PRIME % UINT32_LIMIT, operand, 32)
  }

  /** 32-bit FNV-1 of a sequence of octets. */
  function Fnv1(bs: seq<Byte>): (h: nat)
    ensures h < UINT32_LIMIT
  {
    if bs == [] then FNV_OFFSET_BASIS
    else Step(Fnv1(bs[..|bs| - 1]), bs[|bs| - 1])
  }

  /** An octet read as a signed char and converted to a 32-bit unsigned
    * value: octets from 0x80 up are sign-extended. */
  function SignExtend32(b: Byte): (v: nat)
    ensures v < UINT32_LIMIT
  {
    if b < 0x80 then b else UINT32_LIMIT - 0x100 + b
  }

  /** FNV-1 with every octet sign-extended before the exclusive or. */
  function FnvSignedChars(bs: seq<Byte>): (h: nat)
    ensures h < UINT32_LIMIT
  {
    if bs == [] then FNV_OFFSET_BASIS
    else Step(FnvSignedChars(bs[..|bs| - 1]), SignExtend32(bs[|bs| - 1]))
  }

  predicate IsAscii(bs: seq<Byte>)
  {
    forall i :: 0 <= i < |bs| ==> bs[i] < 0x80
  }

  /** On octets below 0x80 sign extension changes nothing, so both hashes
    * agree. */
  lemma {:induction false} SignedCharsAgreeOnAscii(bs: seq<Byte>)
    requires IsAscii(bs)
    ensures FnvSignedChars(bs) == Fnv1(bs)
  {
    if bs != [] {
      var init := bs[..|bs| - 1];
      assert IsAscii(init) by {
        forall i | 0 <= i < |init| ensures init[i] < 0x80 { assert init[i] == bs[i]; }
      }
      SignedCharsAgreeOnAscii(init);
    }
  }

  /** The first octet from 0x80 up makes the hashes differ. */
  lemma SignedCharsDivergeAtFirstHighOctet(bs: seq<Byte>, b: Byte)
    requires IsAscii(bs) && b >= 0x80
    ensures FnvSignedChars(bs + [b]) != Fnv1(bs + [b])
  {
    var t := bs + [b];
    assert t[..|t| - 1] == bs;
    SignedCharsAgreeOnAscii(bs);
    var h := Fnv1(bs);
    Pow2Widths();
    if Step(h, SignExtend32(b)) == Step(h, b) {
      XorInjective(h * FNV_PRIME % UINT32_LIMIT, SignExtend32(b), b, 32);
      assert false;
    }
  }
}
