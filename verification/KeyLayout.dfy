// Views over a verifying-key body and a proof (groth16-verify/src/verifying_key.rs, proof.rs).
module KeyLayout {
  import opened Wrappers
  import opened Bytes
  import opened Constants
  import opened Errors
  import opened Points

  /** `N` bytes at `offset`. */
  function Fixed(bytes: seq<byte>, offset: nat, size: nat): (b: seq<byte>)
    requires offset + size <= |bytes|
    ensures |b| == size
  {
    bytes[offset..offset + size]
  }

  /** The type-level marker: whether the points have been validated. */
  datatype KeyState = Unchecked | Checked

  datatype VerifyingKey = VerifyingKey(body: seq<byte>, numPublicInputs: nat, state: KeyState) {

    predicate LaidOut() {
      numPublicInputs <= MAX_PUBLIC_INPUTS && |body| == VkBodyLen(numPublicInputs)
    }

    function AssumeValidated(): VerifyingKey {
      this.(state := Checked)
    }

    function Alpha(): (b: seq<byte>)
      requires LaidOut()
      ensures |b| == G1_SIZE
    {
      Fixed(body, VK_ALPHA_OFFSET, G1_SIZE)
    }

    function NegBeta(): (b: seq<byte>)
      requires LaidOut()
      ensures |b| == G2_SIZE
    {
      Fixed(body, VK_NEG_BETA_OFFSET, G2_SIZE)
    }

    function NegGamma(): (b: seq<byte>)
      requires LaidOut()
      ensures |b| == G2_SIZE
    {
      Fixed(body, VK_NEG_GAMMA_OFFSET, G2_SIZE)
    }

    function NegDelta(): (b: seq<byte>)
      requires LaidOut()
      ensures |b| == G2_SIZE
    {
      Fixed(body, VK_NEG_DELTA_OFFSET, G2_SIZE)
    }

    function AlphaNegBeta(): (b: seq<byte>)
      requires LaidOut()
      ensures b == Alpha() + NegBeta()
    {
      Fixed(body, VK_ALPHA_OFFSET, PAIRING_ELEMENT_SIZE)
    }

    function Ic(i: nat): (b: seq<byte>)
      requires LaidOut() && i <= numPublicInputs
      ensures |b| == G1_SIZE
    {
      Fixed(body, VK_IC_OFFSET + i * G1_SIZE, G1_SIZE)
    }
  }

  function FromBody(body: seq<byte>): Result<VerifyingKey, Groth16Error> {
    if |body| < VK_FIXED_SIZE then Err(InvalidKeyLength)
    else
      var icBytes := |body| - VK_FIXED_SIZE;
      if icBytes % G1_SIZE != 0 then Err(InvalidKeyLength)
      else if icBytes / G1_SIZE < 1 then Err(InvalidKeyLength)
      else
        var n := icBytes / G1_SIZE - 1;
        if n > MAX_PUBLIC_INPUTS then Err(InvalidKeyLength)
        else Ok(VerifyingKey(body, n, Unchecked))
  }

  function FromBodyWithLen(body: seq<byte>, n: nat): Result<VerifyingKey, Groth16Error> {
    if n > MAX_PUBLIC_INPUTS then Err(TooManyPublicInputs)
    else if |body| != VkBodyLen(n) then Err(InvalidKeyLength)
    else Ok(VerifyingKey(body, n, Unchecked))
  }

  /** Inferring `n` from the length and requiring the length of a known `n` accept the same bodies. */
  lemma LengthInference(body: seq<byte>, n: nat)
    ensures FromBodyWithLen(body, n).Ok? <==> FromBody(body).Ok? && FromBody(body).value.numPublicInputs == n
    ensures FromBodyWithLen(body, n).Ok? ==> FromBodyWithLen(body, n) == FromBody(body)
    ensures FromBody(body).Ok? ==> FromBody(body).value.LaidOut() && FromBody(body).value.body == body
  {
    if |body| == VkBodyLen(n) {
      assert |body| - VK_FIXED_SIZE == G1_SIZE * (n + 1);
    }
  }

  /** A body cannot be read as two different keys: laid-out keys with one body have one `n`. */
  lemma OneLayout(body: seq<byte>, n: nat, m: nat)
    requires |body| == VkBodyLen(n) == VkBodyLen(m)
    ensures n == m
  {
  }

  datatype Proof = Proof(bytes: seq<byte>) {

    predicate LaidOut() {
      |bytes| == PROOF_SIZE
    }

    function A(): (b: seq<byte>)
      requires LaidOut()
      ensures |b| == G1_SIZE
    {
      Fixed(bytes, PROOF_A_OFFSET, G1_SIZE)
    }

    function B(): (b: seq<byte>)
      requires LaidOut()
      ensures |b| == G2_SIZE
    {
      Fixed(bytes, PROOF_B_OFFSET, G2_SIZE)
    }

    function C(): (b: seq<byte>)
      requires LaidOut()
      ensures |b| == G1_SIZE
    {
      Fixed(bytes, PROOF_C_OFFSET, G1_SIZE)
    }

    function AB(): (b: seq<byte>)
      requires LaidOut()
      ensures b == A() + B()
    {
      Fixed(bytes, PROOF_A_OFFSET, PAIRING_ELEMENT_SIZE)
    }
  }

  function SplitProof(bytes: seq<byte>): (r: Result<(Proof, seq<byte>), Groth16Error>)
    ensures r.Ok? ==> r.value.0.LaidOut() && bytes == r.value.0.bytes + r.value.1
  {
    if |bytes| < PROOF_SIZE then Err(InvalidProofLength)
    else Ok((Proof(bytes[..PROOF_SIZE]), bytes[PROOF_SIZE..]))
  }
}
