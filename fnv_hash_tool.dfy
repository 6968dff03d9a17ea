/** The FNV hash command-line tool (tools/fnv_hash.py): FNV-1 over the
  * octets of a string, optionally reduced with Python's modulo. */
module FnvHashTool {
  import opened Wrappers
  import opened Types
  import opened Bits
  import opened Fnv

  /** fnv_hash: Python integers are unbounded, so after the multiplication
    * modulo 2^32 the exclusive or of two values below 2^32 stays below it. */
  method FnvHash(value: seq<Byte>) returns (hash: nat)
    ensures hash == Fnv1(value)
  {
    Pow2Widths();
    hash := FNV_OFFSET_BASIS;
    var i := 0;
    while i < |value|
      invariant 0 <= i <= |value|
      invariant hash == Fnv1(value[..i])
    {
      hash := (hash * FNV_PRIME) % UINT32_LIMIT;
      hash := Xor(hash, value[i], 32);
      assert value[..i + 1][..i] == value[..i];
      i := i + 1;
    }
    assert value[..i] == value;
  }

  /** Python's `a // m` for m != 0: the quotient rounded towards minus
    * infinity. */
  function PyFloorDiv(a: int, m: int): int
    requires m != 0
  {
    if m > 0 then a / m
    else if a % -m == 0 then -(a / -m)
    else -(a / -m) - 1
  }

  /** Python's `a % m` for m != 0: the remainder takes the sign of m, and
    * a == (a // m) * m + a % m. */
  function PyMod(a: int, m: int): (r: int)
    requires m != 0
    ensures m > 0 ==> 0 <= r < m
    ensures m < 0 ==> m < r <= 0
    ensures a == PyFloorDiv(a, m) * m + r
  {
    var d := if m > 0 then m else -m;
    var q0, r0 := a / d, a % d;
    assert a == d * q0 + r0;
    if m > 0 || r0 == 0 then
      assert m < 0 ==> d * q0 == (-q0) * m;
      r0
    else
      assert (-q0 - 1) * m == d * q0 + d;
      r0 + m
  }

  /** The tool's output: the hash of the encoded string, reduced modulo m
    * when -m is given; `-m 0` raises ZeroDivisionError. */
  method HashCommand(encoded: seq<Byte>, m: Option<int>) returns (r: Result<int, string>)
    ensures m.None? ==> r == Ok(Fnv1(encoded))
    ensures m.Some? && m.value == 0 ==> r.Err?
    ensures m.Some? && m.value != 0 ==> r == Ok(PyMod(Fnv1(encoded), m.value))
  {
    var result := FnvHash(encoded);
    if m.Some? {
      if m.value == 0 {
        return Err("ZeroDivisionError: integer division or modulo by zero");
      }
      return Ok(PyMod(result, m.value));
    }
    return Ok(result);
  }

  /** With a positive modulus the tool computes the partition of an ASCII
    * key that the C++ configuration computes, when the whole key is
    * hashed. */
  lemma ToolMatchesPartitioner(key: Key, numPartitions: nat)
    requires numPartitions >= 1
    requires forall i :: 0 <= i < |key| ==> key[i] as int < 0x80
    ensures PyMod(Fnv1(KeyBytes(key)), numPartitions) ==
              FnvSignedChars(KeyBytes(key)) % numPartitions
  {
    var bs := KeyBytes(key);
    assert IsAscii(bs) by {
      forall i | 0 <= i < |bs| ensures bs[i] < 0x80 { assert bs[i] == ByteOf(key[i]); }
    }
    SignedCharsAgreeOnAscii(bs);
  }
}
