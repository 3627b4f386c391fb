// The byte-level scalar tests of groth16-verify/src/scalar.rs.
module Scalar {
  import opened Bytes
  import opened Constants

  function IsCanonical(s: seq<byte>): (b: bool)
    requires |s| == FR_SIZE
    ensures b <==> BE(s) < FR
  {
    LexIsBE(s, FR_MODULUS);
    FrModulusValue();
    LexLess(s, FR_MODULUS)
  }

  /** Bitwise OR of two machine words. */
  function Or(a: nat, b: nat): nat {
    if a == 0 then b
    else if b == 0 then a
    else 2 * Or(a / 2, b / 2) + if a % 2 == 1 || b % 2 == 1 then 1 else 0
  }

  lemma {:induction false} OrIsZero(a: nat, b: nat)
    ensures Or(a, b) == 0 <==> a == 0 && b == 0
  {
    if a != 0 && b != 0 {
      OrIsZero(a / 2, b / 2);
    }
  }

  /** OR-reduces eight bytes at a time; a word is read in the target's byte order, little-endian. */
  method IsZero(bytes: seq<byte>) returns (zero: bool)
    requires |bytes| % 8 == 0
    ensures zero <==> AllZero(bytes)
  {
    var acc: nat := 0;
    var i := 0;
    while i < |bytes|
      invariant 0 <= i <= |bytes| && i % 8 == 0
      invariant acc == 0 <==> AllZero(bytes[..i])
    {
      var word := bytes[i..i + 8];
      OrIsZero(acc, LE(word));
      LEZero(word);
      ZeroConcat(bytes[..i], word);
      assert bytes[..i] + word == bytes[..i + 8];
      acc := Or(acc, LE(word));
      i := i + 8;
    }
    assert bytes[..i] == bytes;
    zero := acc == 0;
  }

  lemma ZeroConcat(a: seq<byte>, b: seq<byte>)
    ensures AllZero(a + b) <==> AllZero(a) && AllZero(b)
  {
    forall i | 0 <= i < |a + b|
      ensures (a + b)[i] == if i < |a| then a[i] else b[i - |a|]
    {
    }
    if AllZero(a + b) {
      forall i | 0 <= i < |b| ensures b[i] == 0 {
        assert (a + b)[|a| + i] == b[i];
      }
      forall i | 0 <= i < |a| ensures a[i] == 0 {
        assert (a + b)[i] == a[i];
      }
    }
  }

  function IsOne(s: seq<byte>): (b: bool)
    requires |s| == FR_SIZE
    ensures b <==> BE(s) == 1
  {
    OneIsPaddedOne(s);
    s[FR_SIZE - 1] == 1 && AllZero(s[..FR_SIZE - 1])
  }

  lemma OneIsPaddedOne(s: seq<byte>)
    requires |s| == FR_SIZE
    ensures BE(s) == 1 <==> s[FR_SIZE - 1] == 1 && AllZero(s[..FR_SIZE - 1])
  {
    BEZero(s[..FR_SIZE - 1]);
  }
}
