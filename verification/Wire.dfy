// Keys and proofs in the on-chain layout (tools/convert/src/wire.rs:116-241): written with
// `beta`, `gamma`, `delta` negated, read back with the negations undone.
module Wire {
  import opened Wrappers
  import opened Bytes
  import opened Constants
  import opened Errors
  import opened Points
  import opened KeyLayout
  import opened Validation
  import opened Groth16

  // --- Writers ---

  method EncodeG1(p: G1) returns (b: seq<byte>)
    ensures b == G1ToBytes(p)
  {
    var out := new byte[G1_SIZE](i => 0);
    if p.P1? {
      FillNext(out, [], 0, FqToBytes(p.x));
      FillNext(out, FqToBytes(p.x), FQ_SIZE, FqToBytes(p.y));
      assert out[..] == out[..G1_SIZE];
    }
    b := out[..];
  }

  method EncodeG2(q: G2) returns (b: seq<byte>)
    ensures b == G2ToBytes(q)
  {
    var out := new byte[G2_SIZE](i => 0);
    if q.P2? {
      FillNext(out, [], 0, Fq2ToBytes(q.x));
      FillNext(out, Fq2ToBytes(q.x), 2 * FQ_SIZE, Fq2ToBytes(q.y));
      assert out[..] == out[..G2_SIZE];
    }
    b := out[..];
  }

  function IcBytes(ic: seq<G1>): (b: seq<byte>)
    ensures |b| == G1_SIZE * |ic|
  {
    if |ic| == 0 then [] else IcBytes(ic[..|ic| - 1]) + G1ToBytes(ic[|ic| - 1])
  }

  function FixedBytes(k: Key): (b: seq<byte>)
    ensures |b| == VK_FIXED_SIZE
  {
    G1ToBytes(k.alpha) + G2ToBytes(Neg2(k.beta)) + G2ToBytes(Neg2(k.gamma)) + G2ToBytes(Neg2(k.delta))
  }

  /** The body of a key. */
  function KeyBody(k: Key): (b: seq<byte>)
    ensures |b| == VK_FIXED_SIZE + G1_SIZE * |k.ic|
  {
    FixedBytes(k) + IcBytes(k.ic)
  }

  datatype OnChainKey = OnChainKey(body: seq<byte>, numPublicInputs: nat)

  /** What `OnChainKey::new` answers. */
  function NewOutcome(k: Key): Result<OnChainKey, ConvertError> {
    if |k.ic| < 1 then Err(Unsupported("key has no IC\U{2080}"))
    else if |k.ic| - 1 > MAX_PUBLIC_INPUTS then Err(TooManyInputs(|k.ic| - 1))
    else Ok(OnChainKey(KeyBody(k), |k.ic| - 1))
  }

  method New(k: Key) returns (r: Result<OnChainKey, ConvertError>)
    ensures r == NewOutcome(k)
  {
    if |k.ic| < 1 {
      return Err(Unsupported("key has no IC\U{2080}"));
    }
    var n := |k.ic| - 1;
    if n > MAX_PUBLIC_INPUTS {
      return Err(TooManyInputs(n));
    }
    var body := new byte[VkBodyLen(n)](i => 0);
    WriteFixed(k, body);
    WriteIc(k.ic, body, FixedBytes(k));
    assert body[..] == body[..body.Length];
    r := Ok(OnChainKey(body[..], n));
  }

  lemma IcBytesStep(ic: seq<G1>, i: nat)
    requires i < |ic|
    ensures IcBytes(ic[..i + 1]) == IcBytes(ic[..i]) + G1ToBytes(ic[i])
  {
    assert ic[..i + 1][..i] == ic[..i];
  }

  method WriteIc(ic: seq<G1>, body: array<byte>, ghost fixed: seq<byte>)
    requires body.Length == VK_IC_OFFSET + G1_SIZE * |ic| && |fixed| == VK_IC_OFFSET && body[..VK_IC_OFFSET] == fixed
    modifies body
    ensures body[..VK_IC_OFFSET + G1_SIZE * |ic|] == fixed + IcBytes(ic)
  {
    hide G1ToBytes, IcBytes;
    ghost var done := fixed;
    IcBytesStart();
    assert ic[..0] == [];
    for i := 0 to |ic|
      invariant |done| == VK_IC_OFFSET + G1_SIZE * i && done == fixed + IcBytes(ic[..i])
      invariant body[..|done|] == done
    {
      var p := EncodeG1(ic[i]);
      IcBytesStep(ic, i);
      FillNext(body, done, VK_IC_OFFSET + G1_SIZE * i, p);
      done := done + p;
      assert fixed + IcBytes(ic[..i]) + p == fixed + (IcBytes(ic[..i]) + p);
    }
    assert ic[..|ic|] == ic;
  }

  lemma IcBytesStart()
    ensures IcBytes([]) == []
  {
  }

  method WriteFixed(k: Key, body: array<byte>)
    requires body.Length >= VK_IC_OFFSET
    modifies body
    ensures body[..VK_IC_OFFSET] == FixedBytes(k)
  {
    var alpha := EncodeG1(k.alpha);
    var negBeta := EncodeG2(Neg2(k.beta));
    var negGamma := EncodeG2(Neg2(k.gamma));
    var negDelta := EncodeG2(Neg2(k.delta));
    FillNext(body, [], VK_ALPHA_OFFSET, alpha);
    FillNext(body, alpha, VK_NEG_BETA_OFFSET, negBeta);
    FillNext(body, alpha + negBeta, VK_NEG_GAMMA_OFFSET, negGamma);
    FillNext(body, alpha + negBeta + negGamma, VK_NEG_DELTA_OFFSET, negDelta);
  }

  // --- Reading back ---

  function DecodeIc(c: Curve, vk: VerifyingKey, count: nat): (r: Result<seq<G1>, ConvertError>)
    requires vk.LaidOut() && count <= vk.numPublicInputs + 1
    ensures r.Ok? ==> |r.value| == count
  {
    if count == 0 then Ok([])
    else
      var front :- DecodeIc(c, vk, count - 1);
      var last :- c.G1FromBytes(vk.Ic(count - 1));
      Ok(front + [last])
  }

  /** `decode_body`: the elements, with the negations undone. */
  function DecodeBody(c: Curve, body: seq<byte>): Result<Key, ConvertError> {
    if FromBody(body).Err? then Err(Unsupported("key body has an invalid length"))
    else
      LengthInference(body, FromBody(body).value.numPublicInputs);
      var vk := FromBody(body).value;
      var alpha :- c.G1FromBytes(vk.Alpha());
      var negBeta :- c.G2FromBytes(vk.NegBeta());
      var negGamma :- c.G2FromBytes(vk.NegGamma());
      var negDelta :- c.G2FromBytes(vk.NegDelta());
      var ic :- DecodeIc(c, vk, vk.numPublicInputs + 1);
      Ok(Key(alpha, Neg2(negBeta), Neg2(negGamma), Neg2(negDelta), ic))
  }

  /** `OnChainKey::from_body`. */
  function FromBodyChecked(c: Curve, body: seq<byte>): Result<OnChainKey, ConvertError> {
    var k :- DecodeBody(c, body);
    NewOutcome(k)
  }

  function EncodeProof(p: ProofPoints): (proof: Proof)
    ensures proof.LaidOut()
  {
    Proof(G1ToBytes(p.a) + G2ToBytes(p.b) + G1ToBytes(p.c))
  }

  /** `OnChainProof::new`. */
  method NewProof(p: ProofPoints) returns (proof: Proof)
    ensures proof == EncodeProof(p)
  {
    var out := new byte[PROOF_SIZE](i => 0);
    ghost var done := G1ToBytes(p.a);
    FillNext(out, [], PROOF_A_OFFSET, G1ToBytes(p.a));
    FillNext(out, done, PROOF_B_OFFSET, G2ToBytes(p.b));
    done := done + G2ToBytes(p.b);
    FillNext(out, done, PROOF_C_OFFSET, G1ToBytes(p.c));
    assert out[..] == out[..PROOF_SIZE];
    proof := Proof(out[..]);
  }

  /** `public_inputs_flat`. */
  function InputsFlat(s: seq<Fr>): (b: seq<byte>)
    ensures |b| == FR_SIZE * |s|
  {
    if |s| == 0 then [] else InputsFlat(s[..|s| - 1]) + FrToBytes(s[|s| - 1])
  }

  // --- Round trips ---

  lemma Slice(x: seq<byte>, y: seq<byte>, a: nat, b: nat)
    requires a <= b <= |x|
    ensures (x + y)[a..b] == x[a..b]
  {
  }

  /** Slot `i` of a written table is point `i`. */
  lemma {:induction false} IcSlot(ic: seq<G1>, i: nat)
    requires i < |ic|
    ensures IcBytes(ic)[i * G1_SIZE..(i + 1) * G1_SIZE] == G1ToBytes(ic[i])
  {
    hide G1ToBytes;
    var k := |ic| - 1;
    var front := IcBytes(ic[..k]);
    if i < k {
      IcSlot(ic[..k], i);
      Slice(front, G1ToBytes(ic[k]), i * G1_SIZE, (i + 1) * G1_SIZE);
    } else {
      assert (front + G1ToBytes(ic[k]))[|front|..] == G1ToBytes(ic[k]);
    }
  }

  lemma FourSlots(a: seq<byte>, b: seq<byte>, g: seq<byte>, d: seq<byte>, t: seq<byte>, s: seq<byte>)
    requires |a| == G1_SIZE && |b| == |g| == |d| == G2_SIZE && s == a + b + g + d + t
    ensures s[VK_ALPHA_OFFSET..VK_ALPHA_OFFSET + G1_SIZE] == a
    ensures s[VK_NEG_BETA_OFFSET..VK_NEG_BETA_OFFSET + G2_SIZE] == b
    ensures s[VK_NEG_GAMMA_OFFSET..VK_NEG_GAMMA_OFFSET + G2_SIZE] == g
    ensures s[VK_NEG_DELTA_OFFSET..VK_NEG_DELTA_OFFSET + G2_SIZE] == d
    ensures s[VK_IC_OFFSET..] == t
  {
  }

  /** The slots of a written body. */
  lemma BodySlots(k: Key)
    requires 1 <= |k.ic| <= MAX_PUBLIC_INPUTS + 1
    ensures
      var vk := VerifyingKey(KeyBody(k), |k.ic| - 1, Unchecked);
      && FromBody(KeyBody(k)) == Ok(vk) && vk.LaidOut()
      && vk.Alpha() == G1ToBytes(k.alpha) && vk.NegBeta() == G2ToBytes(Neg2(k.beta))
      && vk.NegGamma() == G2ToBytes(Neg2(k.gamma)) && vk.NegDelta() == G2ToBytes(Neg2(k.delta))
      && forall i :: 0 <= i < |k.ic| ==> vk.Ic(i) == G1ToBytes(k.ic[i])
  {
    hide G1ToBytes, G2ToBytes, Neg2, IcBytes;
    var body := KeyBody(k);
    var vk := VerifyingKey(body, |k.ic| - 1, Unchecked);
    LengthInference(body, |k.ic| - 1);
    FourSlots(G1ToBytes(k.alpha), G2ToBytes(Neg2(k.beta)), G2ToBytes(Neg2(k.gamma)), G2ToBytes(Neg2(k.delta)),
              IcBytes(k.ic), body);
    hide KeyBody;
    forall i | 0 <= i < |k.ic|
      ensures vk.Ic(i) == G1ToBytes(k.ic[i])
    {
      IcSlot(k.ic, i);
      TailSlice(body, VK_IC_OFFSET, i * G1_SIZE, (i + 1) * G1_SIZE);
    }
  }

  lemma TailSlice(s: seq<byte>, off: nat, a: nat, b: nat)
    requires a <= b && off + b <= |s|
    ensures s[off..][a..b] == s[off + a..off + b]
  {
  }

  lemma {:induction false} DecodeIcOf(c: Curve, vk: VerifyingKey, ic: seq<G1>, count: nat)
    requires c.PointLaws() && vk.LaidOut() && |ic| == vk.numPublicInputs + 1 && count <= |ic|
    requires OnCurves(c, ic) && forall i :: 0 <= i < |ic| ==> vk.Ic(i) == G1ToBytes(ic[i])
    ensures DecodeIc(c, vk, count) == Ok(ic[..count])
  {
    hide Curve.G1FromBytes, Curve.On1, G1ToBytes, VerifyingKey.Ic, Curve.PointLaws;
    if count > 0 {
      DecodeIcOf(c, vk, ic, count - 1);
      assert c.On1(ic[count - 1]) && vk.Ic(count - 1) == G1ToBytes(ic[count - 1]);
      c.G1EncodeDecode(ic[count - 1]);
      assert ic[..count] == ic[..count - 1] + [ic[count - 1]];
    }
  }

  /** `elements` inverts `new`. */
  lemma DecodeOfNew(c: Curve, k: Key)
    requires c.PointLaws() && KeyOnCurve(c, k) && |k.ic| <= MAX_PUBLIC_INPUTS + 1
    ensures DecodeBody(c, KeyBody(k)) == Ok(k)
  {
    hide Curve.G1FromBytes, Curve.G2FromBytes, Curve.On1, Curve.On2, KeyBody, Neg2, FromBody;
    BodySlots(k);
    var vk := VerifyingKey(KeyBody(k), |k.ic| - 1, Unchecked);
    c.G1EncodeDecode(k.alpha);
    NegatedSlot(c, k.beta);
    NegatedSlot(c, k.gamma);
    NegatedSlot(c, k.delta);
    DecodeIcOf(c, vk, k.ic, |k.ic|);
    assert k.ic[..|k.ic|] == k.ic;
  }

  /** A negated point survives its slot, and negating again gives it back. */
  lemma NegatedSlot(c: Curve, q: G2)
    requires c.PointLaws() && c.On2(q)
    ensures c.G2FromBytes(G2ToBytes(Neg2(q))) == Ok(Neg2(q)) && Neg2(Neg2(q)) == q
  {
    c.Neg2Valid(q);
    c.G2EncodeDecode(Neg2(q));
    Neg2Involutive(q);
  }

  /** Distinct elements give distinct bodies. */
  lemma BodyInjective(c: Curve, k: Key, m: Key)
    requires c.PointLaws() && KeyOnCurve(c, k) && KeyOnCurve(c, m)
    requires |k.ic| <= MAX_PUBLIC_INPUTS + 1 && |m.ic| <= MAX_PUBLIC_INPUTS + 1
    requires KeyBody(k) == KeyBody(m)
    ensures k == m
  {
    hide Curve.G1FromBytes, Curve.G2FromBytes, Curve.On1, Curve.On2, KeyBody, DecodeBody;
    DecodeOfNew(c, k);
    DecodeOfNew(c, m);
  }

  lemma {:induction false} DecodedIc(c: Curve, vk: VerifyingKey, count: nat)
    requires vk.LaidOut() && count <= vk.numPublicInputs + 1
    ensures DecodeIc(c, vk, count).Ok? <==> forall i :: 0 <= i < count ==> c.Decodes1(vk.Ic(i))
    ensures DecodeIc(c, vk, count).Ok? ==> DecodeIc(c, vk, count).value == IcPoints(c, vk)[..count]
  {
    hide Curve.G1FromBytes, Curve.On1;
    if count > 0 {
      DecodedIc(c, vk, count - 1);
      assert IcPoints(c, vk)[..count] == IcPoints(c, vk)[..count - 1] + [IcPoints(c, vk)[count - 1]];
    }
  }

  lemma {:induction false} ReencodedIc(c: Curve, vk: VerifyingKey, count: nat)
    requires vk.LaidOut() && count <= vk.numPublicInputs + 1 && DecodeIc(c, vk, count).Ok?
    ensures IcBytes(DecodeIc(c, vk, count).value) == vk.body[VK_IC_OFFSET..VK_IC_OFFSET + count * G1_SIZE]
  {
    hide Curve.G1FromBytes, Curve.On1, G1ToBytes;
    if count > 0 {
      ReencodedIc(c, vk, count - 1);
      var front, last := DecodeIc(c, vk, count - 1).value, c.G1FromBytes(vk.Ic(count - 1)).value;
      assert DecodeIc(c, vk, count) == Ok(front + [last]);
      c.G1DecodeEncode(vk.Ic(count - 1));
      hide DecodeIc;
      IcBytesAppend(front, last);
      hide IcBytes;
      var off := VK_IC_OFFSET + (count - 1) * G1_SIZE;
      JoinSlices(vk.body, VK_IC_OFFSET, off, off + G1_SIZE);
    }
  }

  lemma IcBytesAppend(front: seq<G1>, last: G1)
    ensures IcBytes(front + [last]) == IcBytes(front) + G1ToBytes(last)
  {
    var ic := front + [last];
    assert ic[..|ic| - 1] == front && ic[|ic| - 1] == last;
  }

  lemma JoinSlices(s: seq<byte>, lo: nat, mid: nat, hi: nat)
    requires lo <= mid <= hi <= |s|
    ensures s[lo..mid] + s[mid..hi] == s[lo..hi]
  {
  }

  /** Decoding succeeds exactly when the length is legal and every slot is a point, and reads the key's elements. */
  lemma DecodeBodyIff(c: Curve, body: seq<byte>)
    ensures DecodeBody(c, body).Ok? <==>
            FromBody(body).Ok? && FromBody(body).value.LaidOut() && PointsDecode(c, FromBody(body).value)
    ensures DecodeBody(c, body).Ok? ==> DecodeBody(c, body).value == Elements(c, FromBody(body).value)
  {
    hide Curve.G1FromBytes, Curve.G2FromBytes, Curve.On1, Curve.On2;
    if FromBody(body).Ok? {
      var vk := FromBody(body).value;
      LengthInference(body, vk.numPublicInputs);
      DecodedIc(c, vk, vk.numPublicInputs + 1);
      assert IcPoints(c, vk)[..vk.numPublicInputs + 1] == IcPoints(c, vk);
      assert c.Decodes1(vk.Ic(0)) && TailDecodes(c, vk) <==>
             forall i :: 0 <= i < vk.numPublicInputs + 1 ==> c.Decodes1(vk.Ic(i));
    }
  }

  /** The first undecodable table point is the one reported. */
  lemma {:induction false} FirstBadIc(c: Curve, vk: VerifyingKey, count: nat, i: nat)
    requires vk.LaidOut() && i < count <= vk.numPublicInputs + 1
    requires c.G1FromBytes(vk.Ic(i)).Err? && forall j :: 0 <= j < i ==> c.Decodes1(vk.Ic(j))
    ensures DecodeIc(c, vk, count) == Err(c.G1FromBytes(vk.Ic(i)).error)
  {
    hide Curve.G1FromBytes;
    DecodedIc(c, vk, i);
    if i < count - 1 {
      FirstBadIc(c, vk, count - 1, i);
    }
  }

  /** What refuses a body: its length, then the first slot that is no point, with that point's error. */
  lemma BodyRefusals(c: Curve, body: seq<byte>)
    ensures FromBody(body).Err? ==> DecodeBody(c, body) == Err(Unsupported("key body has an invalid length"))
    ensures FromBody(body).Ok? ==>
              var vk := FromBody(body).value;
              && vk.LaidOut()
              && (c.G1FromBytes(vk.Alpha()).Err? ==> DecodeBody(c, body) == Err(c.G1FromBytes(vk.Alpha()).error))
              && (c.Decodes1(vk.Alpha()) && c.G2FromBytes(vk.NegBeta()).Err? ==>
                    DecodeBody(c, body) == Err(c.G2FromBytes(vk.NegBeta()).error))
              && (c.Decodes1(vk.Alpha()) && c.Decodes2(vk.NegBeta()) && c.G2FromBytes(vk.NegGamma()).Err? ==>
                    DecodeBody(c, body) == Err(c.G2FromBytes(vk.NegGamma()).error))
              && (c.Decodes1(vk.Alpha()) && c.Decodes2(vk.NegBeta()) && c.Decodes2(vk.NegGamma())
                  && c.G2FromBytes(vk.NegDelta()).Err? ==>
                    DecodeBody(c, body) == Err(c.G2FromBytes(vk.NegDelta()).error))
              && (c.Decodes1(vk.Alpha()) && c.Decodes2(vk.NegBeta()) && c.Decodes2(vk.NegGamma()) && c.Decodes2(vk.NegDelta()) ==>
                    forall i :: 0 <= i <= vk.numPublicInputs && c.G1FromBytes(vk.Ic(i)).Err?
                                && (forall j :: 0 <= j < i ==> c.Decodes1(vk.Ic(j))) ==>
                      DecodeBody(c, body) == Err(c.G1FromBytes(vk.Ic(i)).error))
  {
    hide Curve.G1FromBytes, Curve.G2FromBytes, DecodeIc;
    if FromBody(body).Ok? {
      var vk := FromBody(body).value;
      LengthInference(body, vk.numPublicInputs);
      forall i | 0 <= i <= vk.numPublicInputs && c.G1FromBytes(vk.Ic(i)).Err? && (forall j :: 0 <= j < i ==> c.Decodes1(vk.Ic(j)))
        ensures DecodeIc(c, vk, vk.numPublicInputs + 1) == Err(c.G1FromBytes(vk.Ic(i)).error)
      {
        FirstBadIc(c, vk, vk.numPublicInputs + 1, i);
      }
      hide FromBody, VerifyingKey.Ic, VerifyingKey.Alpha, VerifyingKey.NegBeta, VerifyingKey.NegGamma, VerifyingKey.NegDelta;
    }
  }

  /** A body `from_body` accepts is rebuilt byte for byte. */
  lemma FromBodyRebuilds(c: Curve, body: seq<byte>)
    requires DecodeBody(c, body).Ok?
    ensures FromBodyChecked(c, body).Ok? && FromBodyChecked(c, body).value.body == body
    ensures KeyBody(DecodeBody(c, body).value) == body
  {
    hide Curve.G1FromBytes, Curve.G2FromBytes, Curve.On1, Curve.On2, G1ToBytes, G2ToBytes, Neg2, IcBytes, DecodeIc;
    var vk := FromBody(body).value;
    LengthInference(body, vk.numPublicInputs);
    c.G1DecodeEncode(vk.Alpha());
    RebuiltSlot(c, vk.NegBeta());
    RebuiltSlot(c, vk.NegGamma());
    RebuiltSlot(c, vk.NegDelta());
    ReencodedIc(c, vk, vk.numPublicInputs + 1);
    Reassemble(body);
  }

  lemma Reassemble(s: seq<byte>)
    requires |s| >= VK_IC_OFFSET
    ensures s[VK_ALPHA_OFFSET..VK_ALPHA_OFFSET + G1_SIZE] + s[VK_NEG_BETA_OFFSET..VK_NEG_BETA_OFFSET + G2_SIZE]
            + s[VK_NEG_GAMMA_OFFSET..VK_NEG_GAMMA_OFFSET + G2_SIZE] + s[VK_NEG_DELTA_OFFSET..VK_NEG_DELTA_OFFSET + G2_SIZE]
            + s[VK_IC_OFFSET..|s|] == s
  {
  }

  lemma RebuiltSlot(c: Curve, b: seq<byte>)
    requires |b| == G2_SIZE && c.Decodes2(b)
    ensures G2ToBytes(Neg2(Neg2(c.G2FromBytes(b).value))) == b
  {
    c.G2DecodeEncode(b);
    Neg2Involutive(c.G2FromBytes(b).value);
  }

  /** On-chain validation accepts exactly what decodes off-chain and has no identity where it matters. */
  lemma ValidationAgrees(c: Curve, body: seq<byte>)
    requires c.PointLaws() && FromBody(body).Ok?
    ensures FromBody(body).value.LaidOut()
    ensures Outcome(c, FromBody(body).value).Ok? <==>
            DecodeBody(c, body).Ok?
            && var k := DecodeBody(c, body).value;
               k.alpha != O1 && k.beta != O2 && k.gamma != O2 && k.delta != O2
  {
    hide Curve.G1FromBytes, Curve.G2FromBytes, Curve.On1, Curve.On2, DecodeBody;
    var vk := FromBody(body).value;
    LengthInference(body, vk.numPublicInputs);
    DecodeBodyIff(c, body);
    if PointsDecode(c, vk) {
      c.G1DecodeEncode(vk.Alpha());
      c.G1EncodeDecode(c.G1FromBytes(vk.Alpha()).value);
      NonIdentityG2(c, vk.NegBeta());
      NonIdentityG2(c, vk.NegGamma());
      NonIdentityG2(c, vk.NegDelta());
    }
  }

  /** A written proof reads back as the same points. */
  lemma ProofSlots(p: ProofPoints)
    ensures
      var proof := EncodeProof(p);
      proof.A() == G1ToBytes(p.a) && proof.B() == G2ToBytes(p.b) && proof.C() == G1ToBytes(p.c)
  {
  }
}
