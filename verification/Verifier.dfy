// The verifier (groth16-verify/src/verifier.rs): input preparation, pairing-buffer assembly and
// the decision, proved against the Groth16 statement.
module Verifier {
  import opened Wrappers
  import opened Bytes
  import opened Constants
  import opened Errors
  import opened Points
  import opened KeyLayout
  import opened Validation
  import Groth16
  import Scalar
  import Syscall

  function Input(inputs: seq<byte>, i: nat): (b: seq<byte>)
    requires (i + 1) * FR_SIZE <= |inputs|
    ensures |b| == FR_SIZE
  {
    inputs[i * FR_SIZE..(i + 1) * FR_SIZE]
  }

  /** The integers a buffer of 32-byte inputs encodes. */
  function Scalars(inputs: seq<byte>): (s: seq<nat>)
    requires |inputs| % FR_SIZE == 0
    ensures |s| == |inputs| / FR_SIZE
  {
    seq(|inputs| / FR_SIZE, i requires 0 <= i < |inputs| / FR_SIZE => BE(Input(inputs, i)))
  }

  predicate AllCanonical(s: seq<nat>) {
    forall i :: 0 <= i < |s| ==> s[i] < FR
  }

  predicate CountMatches(vk: VerifyingKey, inputs: seq<byte>) {
    |inputs| == vk.numPublicInputs * FR_SIZE
  }

  /** Term `i` contributes nothing: a zero input, or an identity point in the key. */
  predicate Skipped(vk: VerifyingKey, inputs: seq<byte>, i: nat)
    requires vk.LaidOut() && CountMatches(vk, inputs) && i < vk.numPublicInputs
  {
    Scalars(inputs)[i] == 0 || AllZero(vk.Ic(i + 1))
  }

  predicate NoneUsed(vk: VerifyingKey, inputs: seq<byte>, k: nat)
    requires vk.LaidOut() && CountMatches(vk, inputs) && k <= vk.numPublicInputs
  {
    forall i :: 0 <= i < k ==> Skipped(vk, inputs, i)
  }

  predicate UsedDecode(c: Curve, vk: VerifyingKey, inputs: seq<byte>, k: nat)
    requires vk.LaidOut() && CountMatches(vk, inputs) && k <= vk.numPublicInputs
  {
    forall i :: 0 <= i < k ==> Skipped(vk, inputs, i) || (c.Decodes1(vk.Ic(0)) && c.Decodes1(vk.Ic(i + 1)))
  }

  /**
   * What preparation answers for every laid-out key, decodable or not: the encoding of
   * `IC0 + sum a_i * IC_i`, unless a point that is needed does not decode. When no term is used
   * `IC0` is passed through unread.
   */
  function PrepareOutcome(c: Curve, vk: VerifyingKey, inputs: seq<byte>): (r: Result<seq<byte>, Groth16Error>)
    requires vk.LaidOut()
    ensures r.Ok? ==> |r.value| == G1_SIZE
  {
    if !CountMatches(vk, inputs) then Err(PublicInputCountMismatch)
    else if !AllCanonical(Scalars(inputs)) then Err(NonCanonicalScalar)
    else if NoneUsed(vk, inputs, vk.numPublicInputs) then Ok(vk.Ic(0))
    else if !UsedDecode(c, vk, inputs, vk.numPublicInputs) then Err(InvalidPoint)
    else Ok(G1ToBytes(Groth16.PublicSum(c, IcPoints(c, vk), Scalars(inputs))))
  }

  /** Input `i` matters: its thirty-two bytes are not zero, and neither is its point. */
  predicate Matters(vk: VerifyingKey, inputs: seq<byte>, i: nat)
    requires vk.LaidOut() && |inputs| == 32 * vk.numPublicInputs && i < vk.numPublicInputs
  {
    BE(inputs[32 * i..32 * i + 32]) > 0 && !AllZero(vk.body[512 + 64 * i..576 + 64 * i])
  }

  /**
   * The three refusals, in order, and that they are the only ones. For a key of any points, what
   * does not decode is noticed exactly when an input that matters brings it into the sum.
   */
  lemma PrepareRefusals(c: Curve, vk: VerifyingKey, inputs: seq<byte>)
    requires vk.LaidOut()
    ensures
      var n, r := vk.numPublicInputs, PrepareOutcome(c, vk, inputs);
      && (|inputs| != 32 * n ==> r == Err(PublicInputCountMismatch))
      && (|inputs| == 32 * n && (exists i :: 0 <= i < n && BE(inputs[32 * i..32 * i + 32]) >= FR) ==>
            r == Err(NonCanonicalScalar))
      && (|inputs| == 32 * n && (forall i :: 0 <= i < n ==> BE(inputs[32 * i..32 * i + 32]) < FR) ==>
            && (r.Err? <==> exists i :: 0 <= i < n && Matters(vk, inputs, i)
                                        && !(c.Decodes1(vk.body[448..512]) && c.Decodes1(vk.body[512 + 64 * i..576 + 64 * i])))
            && (r.Err? ==> r.error == InvalidPoint)
            && ((forall i :: 0 <= i < n ==> !Matters(vk, inputs, i)) ==> r == Ok(vk.body[448..512])))
  {
    hide Curve.G1FromBytes, G1ToBytes, BE, Matters, Skipped, VerifyingKey.Ic, Scalars;
    var n := vk.numPublicInputs;
    FirstPoint(vk);
    if |inputs| == 32 * n {
      forall i | 0 <= i < n
        ensures Scalars(inputs)[i] == BE(inputs[32 * i..32 * i + 32])
        ensures vk.Ic(i + 1) == vk.body[512 + 64 * i..576 + 64 * i]
        ensures Matters(vk, inputs, i) <==> !Skipped(vk, inputs, i)
      {
        InputRange(vk, inputs, i);
      }
      if i :| 0 <= i < n && BE(inputs[32 * i..32 * i + 32]) >= FR {
        assert Scalars(inputs)[i] >= FR;
      }
    }
  }

  lemma FirstPoint(vk: VerifyingKey)
    requires vk.LaidOut()
    ensures vk.Ic(0) == vk.body[448..512]
  {
  }

  lemma InputRange(vk: VerifyingKey, inputs: seq<byte>, i: nat)
    requires vk.LaidOut() && |inputs| == 32 * vk.numPublicInputs && i < vk.numPublicInputs
    ensures Scalars(inputs)[i] == BE(inputs[32 * i..32 * i + 32])
    ensures vk.Ic(i + 1) == vk.body[512 + 64 * i..576 + 64 * i]
    ensures Matters(vk, inputs, i) <==> !Skipped(vk, inputs, i)
  {
    hide BE;
  }

  // --- Compute units ---

  /** How many of the first `k` terms are not skipped. */
  function AddCount(vk: VerifyingKey, inputs: seq<byte>, k: nat): (count: nat)
    requires vk.LaidOut() && CountMatches(vk, inputs) && k <= vk.numPublicInputs
    ensures count <= k
  {
    if k == 0 then 0 else AddCount(vk, inputs, k - 1) + if Skipped(vk, inputs, k - 1) then 0 else 1
  }

  /** How many of those also have a scalar other than one. */
  function MulCount(vk: VerifyingKey, inputs: seq<byte>, k: nat): (count: nat)
    requires vk.LaidOut() && CountMatches(vk, inputs) && k <= vk.numPublicInputs
    ensures count <= AddCount(vk, inputs, k)
  {
    if k == 0 then 0
    else MulCount(vk, inputs, k - 1) + if Skipped(vk, inputs, k - 1) || Scalars(inputs)[k - 1] == 1 then 0 else 1
  }

  function PrepareCost(vk: VerifyingKey, inputs: seq<byte>, k: nat): nat
    requires vk.LaidOut() && CountMatches(vk, inputs) && k <= vk.numPublicInputs
  {
    Syscall.G1_MUL_COST * MulCount(vk, inputs, k) + Syscall.G1_ADD_COST * AddCount(vk, inputs, k)
  }

  /** A term that costs a multiplication and an addition: input above one, point not the identity. */
  predicate FullTerm(vk: VerifyingKey, inputs: seq<byte>, i: nat)
    requires vk.LaidOut() && CountMatches(vk, inputs) && i < vk.numPublicInputs
  {
    Scalars(inputs)[i] > 1 && !AllZero(vk.Ic(i + 1))
  }

  predicate AllFull(vk: VerifyingKey, inputs: seq<byte>, k: nat)
    requires vk.LaidOut() && CountMatches(vk, inputs) && k <= vk.numPublicInputs
  {
    forall i :: 0 <= i < k ==> FullTerm(vk, inputs, i)
  }

  lemma TermCost(vk: VerifyingKey, inputs: seq<byte>, i: nat)
    requires vk.LaidOut() && CountMatches(vk, inputs) && i < vk.numPublicInputs
    ensures PrepareCost(vk, inputs, i + 1) <= PrepareCost(vk, inputs, i) + 4174
    ensures PrepareCost(vk, inputs, i + 1) == PrepareCost(vk, inputs, i) + 4174 <==> FullTerm(vk, inputs, i)
  {
  }

  /** The documented floor is met with equality exactly when every term is a full multiply-and-add. */
  lemma {:induction false} CostBound(vk: VerifyingKey, inputs: seq<byte>, k: nat)
    requires vk.LaidOut() && CountMatches(vk, inputs) && k <= vk.numPublicInputs
    ensures PrepareCost(vk, inputs, k) <= 4174 * k
    ensures PrepareCost(vk, inputs, k) == 4174 * k <==> AllFull(vk, inputs, k)
  {
    hide PrepareCost, FullTerm, AllFull, VerifyingKey.LaidOut, CountMatches;
    if k == 0 {
      NoTerms(vk, inputs);
    } else {
      CostBound(vk, inputs, k - 1);
      TermCost(vk, inputs, k - 1);
      AllFullStep(vk, inputs, k - 1);
    }
  }

  lemma NoTerms(vk: VerifyingKey, inputs: seq<byte>)
    requires vk.LaidOut() && CountMatches(vk, inputs)
    ensures PrepareCost(vk, inputs, 0) == 0 && AllFull(vk, inputs, 0)
  {
  }

  lemma AllFullStep(vk: VerifyingKey, inputs: seq<byte>, k: nat)
    requires vk.LaidOut() && CountMatches(vk, inputs) && k < vk.numPublicInputs
    ensures AllFull(vk, inputs, k + 1) <==> AllFull(vk, inputs, k) && FullTerm(vk, inputs, k)
  {
    hide FullTerm;
  }

  // --- Partial sums ---

  function Partial(c: Curve, vk: VerifyingKey, inputs: seq<byte>, k: nat): G1
    requires vk.LaidOut() && CountMatches(vk, inputs) && k <= vk.numPublicInputs
  {
    Groth16.PublicSum(c, IcPoints(c, vk)[..k + 1], Scalars(inputs)[..k])
  }

  lemma PartialStep(c: Curve, vk: VerifyingKey, inputs: seq<byte>, k: nat)
    requires c.GroupLaws() && vk.LaidOut() && CountMatches(vk, inputs) && k < vk.numPublicInputs
    ensures Partial(c, vk, inputs, k + 1) ==
            c.add1(Partial(c, vk, inputs, k), c.Mul1(Scalars(inputs)[k], PointOr(c, vk.Ic(k + 1))))
    ensures c.On1(Partial(c, vk, inputs, k)) && c.On1(PointOr(c, vk.Ic(k + 1)))
    ensures c.On1(c.Mul1(Scalars(inputs)[k], PointOr(c, vk.Ic(k + 1))))
    ensures Skipped(vk, inputs, k) ==> Partial(c, vk, inputs, k + 1) == Partial(c, vk, inputs, k)
  {
    var ic, s := IcPoints(c, vk), Scalars(inputs);
    assert ic[..k + 2][..k + 1] == ic[..k + 1] && s[..k + 1][..k] == s[..k];
    PointsOn(c, vk);
    Groth16.PublicSumOn(c, ic[..k + 1], s[..k]);
    Groth16.Mul1On(c, s[k], ic[k + 1]);
    if Skipped(vk, inputs, k) {
      Groth16.Mul1Identity(c, s[k]);
      Groth16.AddZero(c, Partial(c, vk, inputs, k));
    }
  }

  lemma PointsOn(c: Curve, vk: VerifyingKey)
    requires vk.LaidOut()
    ensures Groth16.OnCurves(c, IcPoints(c, vk))
  {
    forall i | 0 <= i <= vk.numPublicInputs
      ensures c.On1(IcPoints(c, vk)[i])
    {
      PointOrOn(c, vk.Ic(i));
    }
  }

  lemma PointOrOn(c: Curve, b: seq<byte>)
    requires |b| == G1_SIZE
    ensures c.On1(PointOr(c, b))
  {
    if c.Decodes1(b) {
      c.G1DecodeEncode(b);
    }
  }

  // --- Stage 1 ---

  /** One used term: multiply unless the scalar is one, then add. */
  method AddTerm(c: Curve, acc: seq<byte>, ic: seq<byte>, s: seq<byte>) returns (r: Result<seq<byte>, Groth16Error>, ghost cu: nat)
    requires c.Laws() && |acc| == |ic| == G1_SIZE && |s| == FR_SIZE && BE(s) < FR
    ensures r == if c.Decodes1(acc) && c.Decodes1(ic)
                 then Ok(G1ToBytes(c.add1(c.G1FromBytes(acc).value, c.Mul1(BE(s), c.G1FromBytes(ic).value))))
                 else Err(InvalidPoint)
    ensures r.Ok? ==> cu == Syscall.G1_ADD_COST + if BE(s) == 1 then 0 else Syscall.G1_MUL_COST
  {
    hide Curve.G1FromBytes, Curve.G2FromBytes, Curve.On1, Curve.On2;
    if Scalar.IsOne(s) {
      if c.Decodes1(ic) {
        c.G1DecodeEncode(ic);
        Groth16.Mul1One(c, c.G1FromBytes(ic).value);
      }
      r, cu := Syscall.G1Add(c, acc, ic);
    } else {
      var term, mulCost := Syscall.G1Mul(c, ic, s);
      if term.Err? {
        return Err(InvalidPoint), mulCost;
      }
      c.G1DecodeEncode(ic);
      Groth16.Mul1On(c, BE(s), c.G1FromBytes(ic).value);
      c.G1EncodeDecode(c.Mul1(BE(s), c.G1FromBytes(ic).value));
      var sum, addCost := Syscall.G1Add(c, acc, term.value);
      r, cu := sum, mulCost + addCost;
    }
  }

  /** Rejects a bad scalar before any syscall. */
  method CheckScalars(inputs: seq<byte>) returns (ok: bool)
    requires |inputs| % FR_SIZE == 0
    ensures ok <==> AllCanonical(Scalars(inputs))
  {
    ok := true;
    for i := 0 to |inputs| / FR_SIZE
      invariant ok <==> AllCanonical(Scalars(inputs)[..i])
    {
      assert Scalars(inputs)[..i + 1] == Scalars(inputs)[..i] + [Scalars(inputs)[i]];
      if !Scalar.IsCanonical(Input(inputs, i)) {
        assert !(Scalars(inputs)[i] < FR);
        return false;
      }
    }
    assert Scalars(inputs)[..|inputs| / FR_SIZE] == Scalars(inputs);
  }

  method PrepareInputs(c: Curve, vk: VerifyingKey, inputs: seq<byte>) returns (r: Result<seq<byte>, Groth16Error>, ghost cu: nat)
    requires c.Laws() && vk.LaidOut() && vk.state.Checked?
    ensures r == PrepareOutcome(c, vk, inputs)
    ensures r.Ok? ==> cu == PrepareCost(vk, inputs, vk.numPublicInputs)
  {
    cu := 0;
    if !CountMatches(vk, inputs) {
      return Err(PublicInputCountMismatch), cu;
    }
    var canonical := CheckScalars(inputs);
    if !canonical {
      return Err(NonCanonicalScalar), cu;
    }
    r, cu := SumTerms(c, vk, inputs);
  }

  /** One turn of the loop: two skips, then the term. */
  method Accumulate(c: Curve, vk: VerifyingKey, inputs: seq<byte>, i: nat, acc: seq<byte>)
    returns (r: Result<seq<byte>, Groth16Error>, ghost cu: nat)
    requires c.Laws() && vk.LaidOut() && CountMatches(vk, inputs) && AllCanonical(Scalars(inputs))
    requires i < vk.numPublicInputs && |acc| == G1_SIZE && AccumulatorAt(c, vk, inputs, i, acc)
    ensures r.Ok? ==> |r.value| == G1_SIZE && AccumulatorAt(c, vk, inputs, i + 1, r.value)
    ensures r.Err? ==> r.error == InvalidPoint && !UsedDecode(c, vk, inputs, i + 1)
    ensures r.Ok? ==> PrepareCost(vk, inputs, i + 1) == PrepareCost(vk, inputs, i) + cu
  {
    hide Curve.G1FromBytes, Curve.G2FromBytes, Curve.On1, Curve.On2, Partial;
    PartialStep(c, vk, inputs, i);
    DecodedAccumulator(c, vk, inputs, i, acc);
    var s := Input(inputs, i);
    BEZero(s);
    var zero := Scalar.IsZero(s);
    if zero {
      return Ok(acc), 0;
    }
    var ic := vk.Ic(i + 1);
    var identity := Scalar.IsZero(ic);
    if identity {
      return Ok(acc), 0;
    }
    assert !Skipped(vk, inputs, i);
    r, cu := AddTerm(c, acc, ic, s);
  }

  lemma UsedPrefix(c: Curve, vk: VerifyingKey, inputs: seq<byte>, k: nat)
    requires vk.LaidOut() && CountMatches(vk, inputs) && AllCanonical(Scalars(inputs))
    requires k <= vk.numPublicInputs && !UsedDecode(c, vk, inputs, k)
    ensures PrepareOutcome(c, vk, inputs) == Err(InvalidPoint)
  {
  }

  /** The accumulation loop with its two skips and its shortcut. */
  method SumTerms(c: Curve, vk: VerifyingKey, inputs: seq<byte>) returns (r: Result<seq<byte>, Groth16Error>, ghost cu: nat)
    requires c.Laws() && vk.LaidOut() && CountMatches(vk, inputs) && AllCanonical(Scalars(inputs))
    ensures r == PrepareOutcome(c, vk, inputs)
    ensures r.Ok? ==> cu == PrepareCost(vk, inputs, vk.numPublicInputs)
  {
    hide AccumulatorAt, PrepareOutcome, PrepareCost, UsedDecode, AllCanonical, Scalars, Curve.SyscallLaws, Curve.PairingLaws;
    cu := 0;
    var n := vk.numPublicInputs;
    var acc := vk.Ic(0);
    StartAccumulator(c, vk, inputs);
    NoTerms(vk, inputs);
    for i := 0 to n
      invariant |acc| == G1_SIZE
      invariant AccumulatorAt(c, vk, inputs, i, acc)
      invariant cu == PrepareCost(vk, inputs, i)
    {
      var next, spent := Accumulate(c, vk, inputs, i, acc);
      if next.Err? {
        UsedPrefix(c, vk, inputs, i + 1);
        return next, cu;
      }
      acc := next.value;
      cu := cu + spent;
    }
    FinishAccumulator(c, vk, inputs, acc);
    r := Ok(acc);
  }

  /** What the accumulator holds before term `k`. */
  ghost predicate AccumulatorAt(c: Curve, vk: VerifyingKey, inputs: seq<byte>, k: nat, acc: seq<byte>)
    requires vk.LaidOut() && CountMatches(vk, inputs) && k <= vk.numPublicInputs
  {
    && UsedDecode(c, vk, inputs, k)
    && (NoneUsed(vk, inputs, k) ==> acc == vk.Ic(0))
    && (c.Decodes1(vk.Ic(0)) ==> acc == G1ToBytes(Partial(c, vk, inputs, k)))
  }

  lemma StartAccumulator(c: Curve, vk: VerifyingKey, inputs: seq<byte>)
    requires c.PointLaws() && vk.LaidOut() && CountMatches(vk, inputs)
    ensures AccumulatorAt(c, vk, inputs, 0, vk.Ic(0))
  {
    if c.Decodes1(vk.Ic(0)) {
      c.G1DecodeEncode(vk.Ic(0));
      assert Partial(c, vk, inputs, 0) == PointOr(c, vk.Ic(0));
    }
  }

  lemma DecodedAccumulator(c: Curve, vk: VerifyingKey, inputs: seq<byte>, k: nat, acc: seq<byte>)
    requires c.PointLaws() && c.GroupLaws() && vk.LaidOut() && CountMatches(vk, inputs) && k < vk.numPublicInputs
    requires |acc| == G1_SIZE && AccumulatorAt(c, vk, inputs, k, acc)
    ensures c.Decodes1(acc) <==> c.Decodes1(vk.Ic(0))
    ensures c.Decodes1(acc) ==> c.G1FromBytes(acc).value == Partial(c, vk, inputs, k)
  {
    hide Curve.G1FromBytes, Curve.G2FromBytes, Curve.On1, Curve.On2, Partial;
    PartialStep(c, vk, inputs, k);
    c.G1EncodeDecode(Partial(c, vk, inputs, k));
  }

  lemma FinishAccumulator(c: Curve, vk: VerifyingKey, inputs: seq<byte>, acc: seq<byte>)
    requires vk.LaidOut() && CountMatches(vk, inputs) && AllCanonical(Scalars(inputs))
    requires AccumulatorAt(c, vk, inputs, vk.numPublicInputs, acc)
    ensures PrepareOutcome(c, vk, inputs) == Ok(acc)
  {
    hide Curve.G1FromBytes, Curve.G2FromBytes, Curve.On1, Curve.On2;
    var n := vk.numPublicInputs;
    assert IcPoints(c, vk)[..n + 1] == IcPoints(c, vk) && Scalars(inputs)[..n] == Scalars(inputs);
    if !NoneUsed(vk, inputs, n) {
      assert c.Decodes1(vk.Ic(0));
    }
  }

  /** For a key whose points decode, preparation is the plain sum, identities and zeros included. */
  lemma PrepareIsPlainSum(c: Curve, vk: VerifyingKey, inputs: seq<byte>)
    requires c.Laws() && vk.LaidOut() && PointsDecode(c, vk)
    requires CountMatches(vk, inputs) && AllCanonical(Scalars(inputs))
    ensures PrepareOutcome(c, vk, inputs) == Ok(G1ToBytes(Groth16.PublicSum(c, Elements(c, vk).ic, Scalars(inputs))))
  {
    hide Curve.G1FromBytes, Curve.G2FromBytes, Curve.On1, Curve.On2;
    if NoneUsed(vk, inputs, vk.numPublicInputs) {
      SkippedSum(c, vk, inputs, vk.numPublicInputs);
      FinishAccumulator(c, vk, inputs, vk.Ic(0));
      assert IcPoints(c, vk)[..vk.numPublicInputs + 1] == IcPoints(c, vk);
      assert Scalars(inputs)[..vk.numPublicInputs] == Scalars(inputs);
    }
  }

  lemma {:induction false} SkippedSum(c: Curve, vk: VerifyingKey, inputs: seq<byte>, k: nat)
    requires c.PointLaws() && c.GroupLaws() && vk.LaidOut() && PointsDecode(c, vk) && CountMatches(vk, inputs)
    requires k <= vk.numPublicInputs && NoneUsed(vk, inputs, k)
    ensures AccumulatorAt(c, vk, inputs, k, vk.Ic(0))
  {
    hide Curve.G1FromBytes, Curve.G2FromBytes, Curve.On1, Curve.On2, Partial;
    if k == 0 {
      StartAccumulator(c, vk, inputs);
    } else {
      SkippedSum(c, vk, inputs, k - 1);
      PartialStep(c, vk, inputs, k - 1);
      assert Skipped(vk, inputs, k - 1);
    }
  }

  // --- Stages 2 and 3 ---

  function PairingInput(vk: VerifyingKey, proof: Proof, l: seq<byte>): (b: seq<byte>)
    requires vk.LaidOut() && proof.LaidOut() && |l| == G1_SIZE
    ensures |b| == PAIRING_INPUT_SIZE
  {
    proof.AB() + vk.AlphaNegBeta() + l + vk.NegGamma() + proof.C() + vk.NegDelta()
  }

  method WritePairingInput(input: array<byte>, vk: VerifyingKey, proof: Proof, l: seq<byte>)
    requires vk.LaidOut() && proof.LaidOut() && |l| == G1_SIZE && input.Length == PAIRING_INPUT_SIZE
    modifies input
    ensures input[..] == PairingInput(vk, proof, l)
  {
    var ab, alphaBeta, negGamma, cPoint, negDelta := proof.AB(), vk.AlphaNegBeta(), vk.NegGamma(), proof.C(), vk.NegDelta();
    ghost var done := ab;
    FillNext(input, [], PAIRING_SLOT_AB_OFFSET, ab);
    FillNext(input, done, PAIRING_SLOT_ALPHA_BETA_OFFSET, alphaBeta);
    done := done + alphaBeta;
    FillNext(input, done, PAIRING_SLOT_L_OFFSET, l);
    done := done + l;
    FillNext(input, done, PAIRING_SLOT_GAMMA_OFFSET, negGamma);
    done := done + negGamma;
    FillNext(input, done, PAIRING_SLOT_C_OFFSET, cPoint);
    done := done + cPoint;
    FillNext(input, done, PAIRING_SLOT_DELTA_OFFSET, negDelta);
    assert input[..] == input[..PAIRING_INPUT_SIZE];
  }

  function PairingOutcome(c: Curve, input: seq<byte>): Result<(), Groth16Error>
    requires |input| == PAIRING_INPUT_SIZE
  {
    if !c.DecodesPairs(input) then Err(InvalidPoint)
    else if c.PairProduct(input) == c.gtOne then Ok(())
    else Err(ProofInvalid)
  }

  method CheckPairing(c: Curve, input: array<byte>) returns (r: Result<(), Groth16Error>, ghost cu: int)
    requires c.Laws() && input.Length == PAIRING_INPUT_SIZE
    ensures r == PairingOutcome(c, input[..])
    ensures cu == Syscall.PairingCost(PAIRING_NUM_PAIRS)
  {
    hide Curve.DecodesPairs, Curve.PairProduct;
    var one, spent := Syscall.PairingIsOne(c, input);
    cu := spent;
    if one.Err? {
      return Err(InvalidPoint), cu;
    }
    r := if one.value then Ok(()) else Err(ProofInvalid);
  }

  /** The answer of `verify`, for every laid-out key and proof and every input buffer. */
  function VerifyOutcome(c: Curve, vk: VerifyingKey, proof: Proof, inputs: seq<byte>): Result<(), Groth16Error>
    requires vk.LaidOut() && proof.LaidOut()
  {
    match PrepareOutcome(c, vk, inputs)
    case Err(e) => Err(e)
    case Ok(l) => PairingOutcome(c, PairingInput(vk, proof, l))
  }

  method Verify(c: Curve, vk: VerifyingKey, proof: Proof, inputs: seq<byte>) returns (r: Result<(), Groth16Error>, ghost cu: int)
    requires c.Laws() && vk.LaidOut() && vk.state.Checked? && proof.LaidOut()
    ensures r == VerifyOutcome(c, vk, proof, inputs)
    ensures r.Ok? || r.error == ProofInvalid ==>
              CountMatches(vk, inputs) && cu == 73612 + PrepareCost(vk, inputs, vk.numPublicInputs)
  {
    hide Curve.DecodesPairs, Curve.PairProduct, Curve.G1FromBytes, Curve.G2FromBytes;
    var l, spent := PrepareInputs(c, vk, inputs);
    cu := spent;
    if l.Err? {
      return Err(l.error), cu;
    }
    var input := new byte[PAIRING_INPUT_SIZE](i => 0);
    WritePairingInput(input, vk, proof, l.value);
    ghost var pairingCost: int;
    r, pairingCost := CheckPairing(c, input);
    cu := cu + pairingCost;
  }
}
