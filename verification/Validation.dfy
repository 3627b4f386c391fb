// Key validation (groth16-verify/src/validation.rs): the check behind every published key.
module Validation {
  import opened Wrappers
  import opened Bytes
  import opened Constants
  import opened Errors
  import opened Points
  import opened KeyLayout
  import Groth16
  import Scalar
  import Syscall

  /** Every slot of the body is a point. */
  predicate PointsDecode(c: Curve, vk: VerifyingKey)
    requires vk.LaidOut()
  {
    FixedPointsDecode(c, vk) && TailDecodes(c, vk)
  }

  predicate FixedPointsDecode(c: Curve, vk: VerifyingKey)
    requires vk.LaidOut()
  {
    && c.Decodes1(vk.Alpha()) && c.Decodes1(vk.Ic(0))
    && c.Decodes2(vk.NegBeta()) && c.Decodes2(vk.NegGamma()) && c.Decodes2(vk.NegDelta())
  }

  predicate TailDecodes(c: Curve, vk: VerifyingKey)
    requires vk.LaidOut()
  {
    forall i :: 1 <= i <= vk.numPublicInputs ==> c.Decodes1(vk.Ic(i))
  }

  /** One of the four elements that must not be the identity is. */
  predicate HasIdentity(vk: VerifyingKey)
    requires vk.LaidOut()
  {
    AllZero(vk.Alpha()) || AllZero(vk.NegBeta()) || AllZero(vk.NegGamma()) || AllZero(vk.NegDelta())
  }

  predicate Publishable(c: Curve, vk: VerifyingKey)
    requires vk.LaidOut()
  {
    !HasIdentity(vk) && PointsDecode(c, vk)
  }

  /** What validation answers, for every laid-out key. */
  function Outcome(c: Curve, vk: VerifyingKey): Result<(), Groth16Error>
    requires vk.LaidOut()
  {
    if HasIdentity(vk) then Err(IdentityKeyElement)
    else if !PointsDecode(c, vk) then Err(InvalidPoint)
    else Ok(())
  }

  /** `VerifyingKey::validate_for_publish`: the checked view of a key that passes. */
  function ValidatedView(c: Curve, vk: VerifyingKey): Result<VerifyingKey, Groth16Error>
    requires vk.LaidOut()
  {
    var _ :- Outcome(c, vk);
    Ok(vk.AssumeValidated())
  }

  function ThreePairs(vk: VerifyingKey): seq<byte>
    requires vk.LaidOut()
  {
    vk.AlphaNegBeta() + vk.Ic(0) + vk.NegGamma() + vk.Ic(0) + vk.NegDelta()
  }

  lemma ConsPair(c: Curve, p: seq<byte>, q: seq<byte>, rest: seq<byte>)
    requires |p| == G1_SIZE && |q| == G2_SIZE && |rest| % PAIRING_ELEMENT_SIZE == 0
    ensures c.DecodesPairs(p + q + rest) <==> c.Decodes1(p) && c.Decodes2(q) && c.DecodesPairs(rest)
    ensures c.DecodesPairs(p + q + rest) ==>
              c.PairProduct(p + q + rest) ==
              c.gtMul(c.pair(c.G1FromBytes(p).value, c.G2FromBytes(q).value), c.PairProduct(rest))
  {
    var s := p + q + rest;
    assert s[..G1_SIZE] == p && s[G1_SIZE..PAIRING_ELEMENT_SIZE] == q && s[PAIRING_ELEMENT_SIZE..] == rest;
  }

  lemma ThreePairsDecode(c: Curve, vk: VerifyingKey)
    requires vk.LaidOut()
    ensures c.DecodesPairs(ThreePairs(vk)) <==> FixedPointsDecode(c, vk)
  {
    hide Curve.G1FromBytes, Curve.G2FromBytes, ThreePairs, VerifyingKey.Ic, VerifyingKey.Alpha;
    hide VerifyingKey.NegBeta, VerifyingKey.NegGamma, VerifyingKey.NegDelta;
    var last := vk.Ic(0) + vk.NegDelta() + [];
    var middle := vk.Ic(0) + vk.NegGamma() + last;
    ConsPair(c, vk.Ic(0), vk.NegDelta(), []);
    ConsPair(c, vk.Ic(0), vk.NegGamma(), last);
    ConsPair(c, vk.Alpha(), vk.NegBeta(), middle);
    ThreePairsConcat(vk);
    assert c.DecodesPairs([]);
    hide Curve.DecodesPairs;
  }

  lemma ThreePairsConcat(vk: VerifyingKey)
    requires vk.LaidOut()
    ensures ThreePairs(vk) == vk.Alpha() + vk.NegBeta() + (vk.Ic(0) + vk.NegGamma() + (vk.Ic(0) + vk.NegDelta() + []))
  {
  }

  /** The 3-pair buffer, filled slice by slice. */
  method FillInput(vk: VerifyingKey, input: array<byte>)
    requires vk.LaidOut() && input.Length == 3 * PAIRING_ELEMENT_SIZE
    modifies input
    ensures input[..] == ThreePairs(vk)
  {
    var ic0 := vk.Ic(0);
    ghost var done := vk.AlphaNegBeta();
    FillNext(input, [], 0, vk.AlphaNegBeta());
    FillNext(input, done, PAIRING_ELEMENT_SIZE, ic0);
    done := done + ic0;
    FillNext(input, done, PAIRING_ELEMENT_SIZE + G1_SIZE, vk.NegGamma());
    done := done + vk.NegGamma();
    FillNext(input, done, 2 * PAIRING_ELEMENT_SIZE, ic0);
    done := done + ic0;
    FillNext(input, done, 2 * PAIRING_ELEMENT_SIZE + G1_SIZE, vk.NegDelta());
    assert input[..] == input[..3 * PAIRING_ELEMENT_SIZE];
  }

  method AnyIdentity(vk: VerifyingKey) returns (identity: bool)
    requires vk.LaidOut()
    ensures identity == HasIdentity(vk)
  {
    identity := Scalar.IsZero(vk.Alpha());
    if !identity {
      identity := Scalar.IsZero(vk.NegBeta());
    }
    if !identity {
      identity := Scalar.IsZero(vk.NegGamma());
    }
    if !identity {
      identity := Scalar.IsZero(vk.NegDelta());
    }
  }

  /** One pairing call for `alpha`, `IC0` and the three G2 points; its value is discarded. */
  method ValidateThreePairs(c: Curve, vk: VerifyingKey) returns (r: Result<(), Groth16Error>, ghost cu: int)
    requires c.Laws() && vk.LaidOut()
    ensures r == if FixedPointsDecode(c, vk) then Ok(()) else Err(InvalidPoint)
    ensures cu == 61299
  {
    hide Curve.DecodesPairs;
    var input := new byte[3 * PAIRING_ELEMENT_SIZE](i => 0);
    FillInput(vk, input);
    ThreePairsDecode(c, vk);
    var pairing;
    pairing, cu := Syscall.PairingIsOne(c, input);
    r := if pairing.Ok? then Ok(()) else Err(InvalidPoint);
  }

  /**
   * Succeeds exactly on publishable keys, whatever the IC table's length and parity, at the
   * documented price: one pairing call and one addition per two points of `IC1..ICn`.
   */
  method ValidateForPublish(c: Curve, vk: VerifyingKey) returns (r: Result<(), Groth16Error>, ghost cu: int)
    requires c.Laws() && vk.LaidOut()
    ensures r == Outcome(c, vk)
    ensures r.Ok? ==> cu == 61299 + 334 * ((vk.numPublicInputs + 1) / 2)
    ensures r == Err(IdentityKeyElement) ==> cu == 0
  {
    cu := 0;
    var identity := AnyIdentity(vk);
    if identity {
      return Err(IdentityKeyElement), 0;
    }
    var pairs;
    pairs, cu := ValidateThreePairs(c, vk);
    if pairs.Err? {
      return Err(InvalidPoint), cu;
    }
    ghost var tail: int;
    r, tail := ValidateIcTail(c, vk);
    cu := cu + tail;
  }

  /** `IC1..ICn` two at a time; an odd last point is added to itself. */
  method ValidateIcTail(c: Curve, vk: VerifyingKey) returns (r: Result<(), Groth16Error>, ghost cu: int)
    requires c.Laws() && vk.LaidOut()
    ensures r == if TailDecodes(c, vk) then Ok(()) else Err(InvalidPoint)
    ensures r.Ok? ==> cu == 334 * ((vk.numPublicInputs + 1) / 2)
  {
    hide Curve.G1FromBytes, VerifyingKey.Ic, G1ToBytes, Curve.PointLaws, Curve.GroupLaws, Curve.PairingLaws, Curve.SyscallLaws;
    cu := 0;
    var n := vk.numPublicInputs;
    var i := 1;
    while i <= n
      invariant 1 <= i <= n + 2 && i % 2 == 1
      invariant forall j :: 1 <= j < i && j <= n ==> c.Decodes1(vk.Ic(j))
      invariant cu == 334 * (i / 2)
    {
      var a := vk.Ic(i);
      var b := if i < n then vk.Ic(i + 1) else a;
      var sum, spent := Syscall.G1Add(c, a, b);
      cu := cu + spent;
      if sum.Err? {
        return Err(InvalidPoint), cu;
      }
      i := i + 2;
    }
    r := Ok(());
  }

  // --- The elements a laid-out key stands for ---

  function PointOr(c: Curve, b: seq<byte>): G1
    requires |b| == G1_SIZE
  {
    if c.Decodes1(b) then c.G1FromBytes(b).value else O1
  }

  function IcPoints(c: Curve, vk: VerifyingKey): (ic: seq<G1>)
    requires vk.LaidOut()
    ensures |ic| == vk.numPublicInputs + 1
  {
    seq(vk.numPublicInputs + 1, i requires 0 <= i <= vk.numPublicInputs => PointOr(c, vk.Ic(i)))
  }

  /** The key with its three negations undone. */
  function Elements(c: Curve, vk: VerifyingKey): Groth16.Key
    requires vk.LaidOut() && PointsDecode(c, vk)
  {
    Groth16.Key(c.G1FromBytes(vk.Alpha()).value,
                Neg2(c.G2FromBytes(vk.NegBeta()).value),
                Neg2(c.G2FromBytes(vk.NegGamma()).value),
                Neg2(c.G2FromBytes(vk.NegDelta()).value),
                IcPoints(c, vk))
  }

  /** A publishable key's elements are on their curves and the four that matter are not the identity. */
  lemma PublishableElements(c: Curve, vk: VerifyingKey)
    requires c.PointLaws() && vk.LaidOut() && Publishable(c, vk)
    ensures
      var k := Elements(c, vk);
      Groth16.KeyOnCurve(c, k) && k.alpha != O1 && k.beta != O2 && k.gamma != O2 && k.delta != O2
  {
    hide Curve.G1FromBytes, Curve.G2FromBytes, Curve.On1, Curve.On2;
    c.G1DecodeEncode(vk.Alpha());
    c.G1EncodeDecode(c.G1FromBytes(vk.Alpha()).value);
    NonIdentityG2(c, vk.NegBeta());
    NonIdentityG2(c, vk.NegGamma());
    NonIdentityG2(c, vk.NegDelta());
    forall i | 0 <= i <= vk.numPublicInputs
      ensures c.On1(IcPoints(c, vk)[i])
    {
      c.G1DecodeEncode(vk.Ic(i));
    }
  }

  lemma NonIdentityG2(c: Curve, b: seq<byte>)
    requires c.PointLaws() && |b| == G2_SIZE && c.Decodes2(b)
    ensures
      var q := c.G2FromBytes(b).value;
      c.On2(Neg2(q)) && (AllZero(b) <==> Neg2(q) == O2)
  {
    var q := c.G2FromBytes(b).value;
    c.G2DecodeEncode(b);
    c.G2EncodeDecode(q);
    c.Neg2Valid(q);
  }
}
