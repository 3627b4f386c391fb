// What an answer of the verifier means: bytes in, the Groth16 statement out.
module Decision {
  import opened Wrappers
  import opened Bytes
  import opened Constants
  import opened Errors
  import opened Points
  import opened KeyLayout
  import opened Validation
  import opened Verifier
  import opened Wire
  import Groth16

  predicate ProofDecodes(c: Curve, proof: Proof)
    requires proof.LaidOut()
  {
    c.Decodes1(proof.A()) && c.Decodes2(proof.B()) && c.Decodes1(proof.C())
  }

  function ProofElements(c: Curve, proof: Proof): Groth16.ProofPoints
    requires proof.LaidOut() && ProofDecodes(c, proof)
  {
    Groth16.ProofPoints(c.G1FromBytes(proof.A()).value, c.G2FromBytes(proof.B()).value, c.G1FromBytes(proof.C()).value)
  }

  lemma ProofElementsOn(c: Curve, proof: Proof)
    requires proof.LaidOut() && ProofDecodes(c, proof)
    ensures Groth16.ProofOnCurve(c, ProofElements(c, proof))
  {
    c.G1DecodeEncode(proof.A());
    c.G2DecodeEncode(proof.B());
    c.G1DecodeEncode(proof.C());
  }

  lemma KeyElementsOn(c: Curve, vk: VerifyingKey)
    requires c.PointLaws() && vk.LaidOut() && PointsDecode(c, vk)
    ensures Groth16.KeyOnCurve(c, Elements(c, vk))
  {
    hide Curve.G1FromBytes, Curve.G2FromBytes, Curve.On1, Curve.On2;
    c.G1DecodeEncode(vk.Alpha());
    NonIdentityG2(c, vk.NegBeta());
    NonIdentityG2(c, vk.NegGamma());
    NonIdentityG2(c, vk.NegDelta());
    PointsOn(c, vk);
  }

  /** The product the syscall computes over the four slots. */
  ghost function SlotProduct(c: Curve, k: Groth16.Key, p: Groth16.ProofPoints, l: G1): Gt {
    c.gtMul(c.pair(p.a, p.b),
            c.gtMul(c.pair(k.alpha, Neg2(k.beta)),
                    c.gtMul(c.pair(l, Neg2(k.gamma)), c.gtMul(c.pair(p.c, Neg2(k.delta)), c.gtOne))))
  }

  /** The buffer holds the four pairs in slot order, with the key's stored negations. */
  lemma FourPairs(c: Curve, vk: VerifyingKey, proof: Proof, l: seq<byte>)
    requires vk.LaidOut() && PointsDecode(c, vk) && proof.LaidOut() && |l| == G1_SIZE && c.Decodes1(l)
    ensures
      var input := PairingInput(vk, proof, l);
      && (c.DecodesPairs(input) <==> ProofDecodes(c, proof))
      && (c.DecodesPairs(input) ==>
            c.PairProduct(input) == SlotProduct(c, Elements(c, vk), ProofElements(c, proof), c.G1FromBytes(l).value))
  {
    hide Curve.G1FromBytes, Curve.G2FromBytes;
    var slot3 := proof.C() + vk.NegDelta() + [];
    var slot2 := l + vk.NegGamma() + slot3;
    var slot1 := vk.Alpha() + vk.NegBeta() + slot2;
    ConsPair(c, proof.C(), vk.NegDelta(), []);
    ConsPair(c, l, vk.NegGamma(), slot3);
    ConsPair(c, vk.Alpha(), vk.NegBeta(), slot2);
    ConsPair(c, proof.A(), proof.B(), slot1);
    SlotsConcat(vk, proof, l);
    hide Curve.DecodesPairs, Curve.PairProduct;
    Neg2Involutive(c.G2FromBytes(vk.NegBeta()).value);
    Neg2Involutive(c.G2FromBytes(vk.NegGamma()).value);
    Neg2Involutive(c.G2FromBytes(vk.NegDelta()).value);
  }

  lemma SlotsConcat(vk: VerifyingKey, proof: Proof, l: seq<byte>)
    requires vk.LaidOut() && proof.LaidOut() && |l| == G1_SIZE
    ensures PairingInput(vk, proof, l) ==
            proof.A() + proof.B()
            + (vk.Alpha() + vk.NegBeta() + (l + vk.NegGamma() + (proof.C() + vk.NegDelta() + [])))
  {
  }

  /** The statement a proof is checked for, once everything decodes. */
  ghost predicate Proves(c: Curve, vk: VerifyingKey, proof: Proof, inputs: seq<byte>)
    requires vk.LaidOut() && PointsDecode(c, vk) && proof.LaidOut() && ProofDecodes(c, proof) && CountMatches(vk, inputs)
  {
    Groth16.Accepts(c, Elements(c, vk), ProofElements(c, proof), Scalars(inputs))
  }

  /** The answer as the documentation promises it: each error has exactly one cause. */
  ghost function Promised(c: Curve, vk: VerifyingKey, proof: Proof, inputs: seq<byte>): Result<(), Groth16Error>
    requires vk.LaidOut() && PointsDecode(c, vk) && proof.LaidOut()
  {
    if !CountMatches(vk, inputs) then Err(PublicInputCountMismatch)
    else if !AllCanonical(Scalars(inputs)) then Err(NonCanonicalScalar)
    else if !ProofDecodes(c, proof) then Err(InvalidPoint)
    else if !Proves(c, vk, proof, inputs) then Err(ProofInvalid)
    else Ok(())
  }

  /**
   * For a key whose points decode, `verify` decides the Groth16 equation of the key with its
   * negations undone, and `InvalidPoint` is never the key's fault.
   */
  lemma VerifyDecides(c: Curve, vk: VerifyingKey, proof: Proof, inputs: seq<byte>)
    requires c.Laws() && vk.LaidOut() && PointsDecode(c, vk) && proof.LaidOut()
    ensures VerifyOutcome(c, vk, proof, inputs) == Promised(c, vk, proof, inputs)
  {
    if CountMatches(vk, inputs) && AllCanonical(Scalars(inputs)) {
      hide Curve.G1FromBytes, Curve.G2FromBytes, Curve.On1, Curve.On2, Curve.DecodesPairs, Curve.PairProduct;
      PrepareIsPlainSum(c, vk, inputs);
      var k, s := Elements(c, vk), Scalars(inputs);
      KeyElementsOn(c, vk);
      var sum := Groth16.PublicSum(c, k.ic, s);
      Groth16.PublicSumOn(c, k.ic, s);
      c.G1EncodeDecode(sum);
      FourPairs(c, vk, proof, G1ToBytes(sum));
      if ProofDecodes(c, proof) {
        ProofElementsOn(c, proof);
        Groth16.NegatedEquation(c, k, ProofElements(c, proof), s);
      }
    }
  }

  /** A key the library validated itself is checked, unchanged, and decided the same way. */
  lemma ValidatedKeyDecides(c: Curve, vk: VerifyingKey, proof: Proof, inputs: seq<byte>)
    requires c.Laws() && vk.LaidOut() && proof.LaidOut() && ValidatedView(c, vk).Ok?
    ensures
      var checked := ValidatedView(c, vk).value;
      && checked.state.Checked? && checked.body == vk.body && checked.LaidOut() && Publishable(c, checked)
      && VerifyOutcome(c, checked, proof, inputs) == Promised(c, checked, proof, inputs)
  {
    hide Curve.G1FromBytes, Curve.G2FromBytes, VerifyOutcome, Promised;
    MarkerIrrelevant(c, vk);
    VerifyDecides(c, vk.AssumeValidated(), proof, inputs);
  }

  // --- Published keys do not degenerate ---

  function SumOf(c: Curve, vk: VerifyingKey, inputs: seq<byte>): G1
    requires vk.LaidOut() && CountMatches(vk, inputs)
  {
    Groth16.PublicSum(c, IcPoints(c, vk), Scalars(inputs))
  }

  /** Two input vectors one proof is accepted for have the same public sum. */
  lemma OneProofOneSum(c: Curve, vk: VerifyingKey, proof: Proof, inputs: seq<byte>, other: seq<byte>)
    requires c.Laws() && c.PrimeOrder() && vk.LaidOut() && Publishable(c, vk) && proof.LaidOut()
    requires VerifyOutcome(c, vk, proof, inputs).Ok? && VerifyOutcome(c, vk, proof, other).Ok?
    ensures CountMatches(vk, inputs) && CountMatches(vk, other) && SumOf(c, vk, inputs) == SumOf(c, vk, other)
  {
    hide Curve.G1FromBytes, Curve.G2FromBytes, Curve.On1, Curve.On2, VerifyOutcome;
    VerifyDecides(c, vk, proof, inputs);
    VerifyDecides(c, vk, proof, other);
    PublishableElements(c, vk);
    ProofElementsOn(c, proof);
    Groth16.SameProofSameSum(c, Elements(c, vk), ProofElements(c, proof), Scalars(inputs), Scalars(other));
  }

  /** With one public input whose point is not the identity, a proof is accepted for one input at most. */
  lemma OneProofOneInput(c: Curve, vk: VerifyingKey, proof: Proof, inputs: seq<byte>, other: seq<byte>)
    requires c.Laws() && c.PrimeOrder() && vk.LaidOut() && Publishable(c, vk) && proof.LaidOut()
    requires vk.numPublicInputs == 1 && !AllZero(vk.Ic(1))
    requires VerifyOutcome(c, vk, proof, inputs).Ok? && VerifyOutcome(c, vk, proof, other).Ok?
    ensures inputs == other
  {
    hide Curve.G1FromBytes, Curve.G2FromBytes, Curve.On1, Curve.On2, VerifyOutcome;
    VerifyDecides(c, vk, proof, inputs);
    VerifyDecides(c, vk, proof, other);
    PublishableElements(c, vk);
    ProofElementsOn(c, proof);
    c.G1DecodeEncode(vk.Ic(1));
    c.G1EncodeDecode(PointOr(c, vk.Ic(1)));
    var s, t := Scalars(inputs), Scalars(other);
    assert s == [s[0]] && t == [t[0]];
    Groth16.OneInputPinned(c, Elements(c, vk), ProofElements(c, proof), s[0], t[0]);
    assert Input(inputs, 0) == inputs && Input(other, 0) == other;
    ToBEBE(inputs);
    ToBEBE(other);
  }

  /** Dropping the rule on `-gamma` would let one fixed proof through for every input. */
  lemma IdentityGammaVerifiesAll(c: Curve, vk: VerifyingKey, inputs: seq<byte>)
    requires c.Laws() && vk.LaidOut() && PointsDecode(c, vk) && AllZero(vk.NegGamma())
    requires CountMatches(vk, inputs) && AllCanonical(Scalars(inputs))
    ensures
      var k := Elements(c, vk);
      VerifyOutcome(c, vk, EncodeProof(Groth16.ProofPoints(k.alpha, k.beta, O1)), inputs) == Ok(())
  {
    hide Curve.G1FromBytes, Curve.G2FromBytes, Curve.On1, Curve.On2, VerifyOutcome, EncodeProof, Elements;
    var k := Elements(c, vk);
    var p := Groth16.ProofPoints(k.alpha, k.beta, O1);
    KeyElementsOn(c, vk);
    IdentityGamma(c, vk);
    IdentityOn(c);
    EncodedProof(c, p);
    VerifyDecides(c, vk, EncodeProof(p), inputs);
    Groth16.IdentityGammaAcceptsAll(c, k, Scalars(inputs));
  }

  lemma IdentityOn(c: Curve)
    ensures c.On1(O1)
  {
  }

  lemma IdentityGamma(c: Curve, vk: VerifyingKey)
    requires vk.LaidOut() && PointsDecode(c, vk) && AllZero(vk.NegGamma())
    ensures Elements(c, vk).gamma == O2 && |Elements(c, vk).ic| == vk.numPublicInputs + 1
  {
  }

  // --- The converter and the verifier together ---

  /** A written proof decodes to the points it was written from. */
  lemma EncodedProof(c: Curve, p: Groth16.ProofPoints)
    requires c.PointLaws() && Groth16.ProofOnCurve(c, p)
    ensures ProofDecodes(c, EncodeProof(p)) && ProofElements(c, EncodeProof(p)) == p
  {
    hide Curve.G1FromBytes, Curve.G2FromBytes, Curve.On1, Curve.On2, EncodeProof;
    ProofSlots(p);
    c.G1EncodeDecode(p.a);
    c.G2EncodeDecode(p.b);
    c.G1EncodeDecode(p.c);
  }

  /** A written body is a key whose points decode to the elements it was written from. */
  lemma EncodedKey(c: Curve, k: Groth16.Key)
    requires c.PointLaws() && Groth16.KeyOnCurve(c, k) && |k.ic| <= MAX_PUBLIC_INPUTS + 1
    ensures
      var vk := VerifyingKey(KeyBody(k), |k.ic| - 1, Checked);
      vk.LaidOut() && PointsDecode(c, vk) && Elements(c, vk) == k
  {
    hide Curve.G1FromBytes, Curve.G2FromBytes, Curve.On1, Curve.On2, KeyBody, DecodeBody, Neg2;
    BodySlots(k);
    DecodeOfNew(c, k);
    DecodeBodyIff(c, KeyBody(k));
    var read := FromBody(KeyBody(k)).value;
    var vk := VerifyingKey(KeyBody(k), |k.ic| - 1, Checked);
    MarkerIrrelevant(c, read);
  }

  /** Marking a key as checked changes nothing about its points. */
  lemma MarkerIrrelevant(c: Curve, vk: VerifyingKey)
    requires vk.LaidOut() && PointsDecode(c, vk)
    ensures PointsDecode(c, vk.AssumeValidated()) && Elements(c, vk.AssumeValidated()) == Elements(c, vk)
  {
    hide Curve.G1FromBytes, Curve.G2FromBytes, Neg2;
    var checked := vk.AssumeValidated();
    forall i | 1 <= i <= vk.numPublicInputs
      ensures c.Decodes1(checked.Ic(i))
    {
      assert checked.Ic(i) == vk.Ic(i);
    }
    assert IcPoints(c, checked) == IcPoints(c, vk);
  }

  /** Slot `i` of the flattened inputs is scalar `i`. */
  lemma {:induction false} FlatSlot(s: seq<Fr>, i: nat)
    requires i < |s|
    ensures Input(InputsFlat(s), i) == FrToBytes(s[i])
  {
    hide FrToBytes;
    var k := |s| - 1;
    var front := InputsFlat(s[..k]);
    if i < k {
      FlatSlot(s[..k], i);
      Slice(front, FrToBytes(s[k]), i * FR_SIZE, (i + 1) * FR_SIZE);
    } else {
      assert (front + FrToBytes(s[k]))[|front|..] == FrToBytes(s[k]);
    }
  }

  /** The verifier reads back the scalars the converter wrote, and finds them canonical. */
  lemma FlatScalars(s: seq<Fr>)
    ensures Scalars(InputsFlat(s)) == s && AllCanonical(Scalars(InputsFlat(s)))
  {
    hide InputsFlat, FrToBytes;
    forall i | 0 <= i < |s|
      ensures Scalars(InputsFlat(s))[i] == s[i]
    {
      FlatSlot(s, i);
      FrEncodeDecode(s[i]);
    }
  }

  /**
   * The converter and the verifier preserve meaning: on the bytes they write, the answer is the
   * Groth16 equation over the elements as they were, before any negation.
   */
  lemma ConverterPreservesMeaning(c: Curve, k: Groth16.Key, p: Groth16.ProofPoints, s: seq<Fr>)
    requires c.Laws() && Groth16.KeyOnCurve(c, k) && Groth16.ProofOnCurve(c, p)
    requires |k.ic| == |s| + 1 <= MAX_PUBLIC_INPUTS + 1
    ensures
      var vk := VerifyingKey(KeyBody(k), |s|, Checked);
      && NewOutcome(k) == Ok(OnChainKey(vk.body, |s|)) && vk.LaidOut()
      && VerifyOutcome(c, vk, EncodeProof(p), InputsFlat(s)) ==
         if Groth16.Accepts(c, k, p, s) then Ok(()) else Err(ProofInvalid)
  {
    hide Curve.G1FromBytes, Curve.G2FromBytes, Curve.On1, Curve.On2, KeyBody, EncodeProof, InputsFlat, VerifyOutcome, Elements;
    var vk := VerifyingKey(KeyBody(k), |s|, Checked);
    EncodedKey(c, k);
    EncodedProof(c, p);
    FlatScalars(s);
    VerifyDecides(c, vk, EncodeProof(p), InputsFlat(s));
  }
}
