// The layouts byte by byte, with the numbers the documentation gives them and no constant of the
// model: what each reader accepts, why it refuses, and where each element is.
module Layout {
  import opened Wrappers
  import opened Bytes
  import opened Constants
  import opened Errors
  import opened Points
  import opened KeyLayout
  import opened AccountData
  import opened Wire
  import Groth16
  import Validation

  /** The unsigned integers of two and of four little-endian bytes. */
  function U16(b0: nat, b1: nat): nat {
    b0 + 0x100 * b1
  }

  function U32(b0: nat, b1: nat, b2: nat, b3: nat): nat {
    b0 + 0x100 * b1 + 0x1_0000 * b2 + 0x100_0000 * b3
  }

  lemma TwoBytes(s: seq<byte>)
    requires |s| == 2
    ensures LE(s) == U16(s[0], s[1])
  {
    assert s[1..][1..] == [] && LE([]) == 0;
    assert LE(s[1..]) == s[1];
  }

  lemma FourBytes(s: seq<byte>)
    requires |s| == 4
    ensures LE(s) == U32(s[0], s[1], s[2], s[3])
  {
    TwoBytes(s[2..]);
    assert s[1..][1..] == s[2..];
  }

  // --- Accounts ---

  /** A key account: kind 1, bump, two-byte count, four bytes of padding, body. */
  lemma KeyAccountBytes(data: seq<byte>)
    ensures |data| < 8 ==> ReadKeyAccount(data) == Err(InvalidAccountData)
    ensures |data| >= 8 && data[0] != 1 ==> ReadKeyAccount(data) == Err(WrongDiscriminator)
    ensures |data| >= 8 && data[0] == 1 ==>
              var n := U16(data[2], data[3]);
              ReadKeyAccount(data) ==
              if n > 151 then Err(TooManyPublicInputs)
              else if |data| != 8 + 448 + 64 * (n + 1) then Err(InvalidKeyLength)
              else Ok((KeyHeader(data[1], n), VerifyingKey(data[8..], n, Unchecked)))
  {
    if |data| >= 8 {
      TwoBytes(data[2..4]);
    }
    hide LE;
  }

  /** A staging account: kind 2, two-byte count at offset 2, authority at 8, body at 40. */
  lemma StagingAccountBytes(data: seq<byte>)
    ensures |data| < 40 ==> ReadStagingAccount(data) == Err(InvalidAccountData)
    ensures |data| >= 40 && data[0] != 2 ==> ReadStagingAccount(data) == Err(WrongDiscriminator)
    ensures |data| >= 40 && data[0] == 2 ==>
              var n := U16(data[2], data[3]);
              ReadStagingAccount(data) ==
              if n > 151 || |data| != 40 + 448 + 64 * (n + 1) then Err(InvalidAccountData)
              else Ok((StagingHeader(n, data[8..40]), data[40..]))
  {
    if |data| >= 40 {
      TwoBytes(data[2..4]);
    }
    hide LE;
  }

  lemma TwoBytesOf(n: nat)
    requires n < 0x1_0000
    ensures ToLE(n, 2) == [n % 256, n / 256]
  {
    assert ToLE(n / 256, 1) == [n / 256];
  }

  lemma HeaderBytes(n: nat, bump: byte, authority: Address)
    requires n <= 151
    ensures KeyHeaderBytes(KeyHeader(bump, n)) == [1, bump, n % 256, n / 256, 0, 0, 0, 0]
    ensures StagingHeaderBytes(StagingHeader(n, authority)) == [2, 0, n % 256, n / 256, 0, 0, 0, 0] + authority
  {
    TwoBytesOf(n);
    hide ToLE;
    assert Zeros(4) == [0, 0, 0, 0];
  }

  // --- Keys and proofs ---

  /** Bodies are 448 bytes and 64 more for each of 1 to 152 points; any other length is one error. */
  lemma BodyLengths(body: seq<byte>)
    ensures FromBody(body).Ok? <==> |body| >= 512 && |body| <= 10176 && |body| % 64 == 0
    ensures FromBody(body).Ok? ==> FromBody(body).value == VerifyingKey(body, (|body| - 512) / 64, Unchecked)
    ensures FromBody(body).Err? ==> FromBody(body).error == InvalidKeyLength
  {
  }

  /** Where each element of a key and of a proof is. */
  lemma Slots(vk: VerifyingKey, proof: Proof, i: nat)
    requires vk.LaidOut() && proof.LaidOut() && i <= vk.numPublicInputs
    ensures |vk.body| == 448 + 64 * (vk.numPublicInputs + 1) && |proof.bytes| == 256
    ensures vk.Alpha() == vk.body[0..64] && vk.NegBeta() == vk.body[64..192]
    ensures vk.NegGamma() == vk.body[192..320] && vk.NegDelta() == vk.body[320..448]
    ensures vk.Ic(i) == vk.body[448 + 64 * i..512 + 64 * i]
    ensures proof.A() == proof.bytes[0..64] && proof.B() == proof.bytes[64..192] && proof.C() == proof.bytes[192..256]
  {
  }

  /** What a written body holds there. */
  lemma WrittenSlots(k: Groth16.Key, i: nat)
    requires 1 <= |k.ic| <= 152 && i < |k.ic|
    ensures
      var body := KeyBody(k);
      && |body| == 448 + 64 * |k.ic|
      && body[0..64] == G1ToBytes(k.alpha) && body[64..192] == G2ToBytes(Neg2(k.beta))
      && body[192..320] == G2ToBytes(Neg2(k.gamma)) && body[320..448] == G2ToBytes(Neg2(k.delta))
      && body[448 + 64 * i..512 + 64 * i] == G1ToBytes(k.ic[i])
  {
    hide KeyBody, G1ToBytes, G2ToBytes, Neg2;
    BodySlots(k);
  }

  /** A key is written exactly when it has between 1 and 152 points; each other count has its error. */
  lemma WritableCounts(k: Groth16.Key)
    ensures 1 <= |k.ic| <= 152 ==> NewOutcome(k) == Ok(OnChainKey(KeyBody(k), |k.ic| - 1))
    ensures |k.ic| == 0 ==> NewOutcome(k).Err? && NewOutcome(k).error.Unsupported?
    ensures |k.ic| > 152 ==> NewOutcome(k) == Err(TooManyInputs(|k.ic| - 1))
  {
    hide KeyBody;
  }

  // --- Points ---

  /** Sixty-four bytes are accepted as a G1 point exactly when they are zero, or `x` then `y` of one, each below the modulus. */
  lemma G1Accepted(c: Curve, b: seq<byte>)
    requires |b| == 64
    ensures
      var x, y := BE(b[0..32]), BE(b[32..64]);
      c.G1FromBytes(b) ==
      if AllZero(b) then Ok(O1)
      else if x >= FQ || y >= FQ then Err(NonCanonicalField)
      else if c.On1(P1(x, y)) then Ok(P1(x, y))
      else Err(InvalidCurvePoint)
  {
    FqRoundTrip(b[..32]);
    FqRoundTrip(b[32..]);
    assert b[..32] == b[0..32] && b[32..] == b[32..64];
    hide FqFromBytes, FqToBytes, BE;
  }

  lemma Fq2Accepted(b: seq<byte>)
    requires |b| == 64
    ensures
      var c1, c0 := BE(b[0..32]), BE(b[32..64]);
      Fq2FromBytes(b) == if c1 >= FQ || c0 >= FQ then Err(NonCanonicalField) else Ok(Fq2(c0, c1))
  {
    FqRoundTrip(b[..32]);
    FqRoundTrip(b[32..]);
    assert b[..32] == b[0..32] && b[32..] == b[32..64];
    hide FqFromBytes, FqToBytes, BE;
  }

  /** The same for G2, the second coefficient of each coordinate first. */
  lemma G2Accepted(c: Curve, b: seq<byte>)
    requires |b| == 128
    ensures
      var x1, x0, y1, y0 := BE(b[0..32]), BE(b[32..64]), BE(b[64..96]), BE(b[96..128]);
      c.G2FromBytes(b) ==
      if AllZero(b) then Ok(O2)
      else if x1 >= FQ || x0 >= FQ || y1 >= FQ || y0 >= FQ then Err(NonCanonicalField)
      else if c.On2(P2(Fq2(x0, x1), Fq2(y0, y1))) then Ok(P2(Fq2(x0, x1), Fq2(y0, y1)))
      else Err(InvalidCurvePoint)
  {
    hide Fq2FromBytes, BE, Curve.On2;
    Fq2Accepted(b[..64]);
    Fq2Accepted(b[64..]);
    Quarters(b);
  }

  lemma Quarters(b: seq<byte>)
    requires |b| == 128
    ensures b[..64][0..32] == b[0..32] && b[..64][32..64] == b[32..64]
    ensures b[64..][0..32] == b[64..96] && b[64..][32..64] == b[96..128]
  {
  }

  // --- Validation ---

  /** The two refusals of validation, the identity rule first. */
  lemma ValidationRefusals(c: Curve, vk: VerifyingKey)
    requires vk.LaidOut()
    ensures
      var body, n := vk.body, vk.numPublicInputs;
      Validation.Outcome(c, vk) ==
      if AllZero(body[0..64]) || AllZero(body[64..192]) || AllZero(body[192..320]) || AllZero(body[320..448])
      then Err(IdentityKeyElement)
      else if !(c.Decodes1(body[0..64]) && c.Decodes2(body[64..192]) && c.Decodes2(body[192..320]) && c.Decodes2(body[320..448])
                && forall i :: 0 <= i <= n ==> c.Decodes1(vk.Ic(i)))
      then Err(InvalidPoint)
      else Ok(())
  {
    hide Curve.G1FromBytes, Curve.G2FromBytes;
  }
}
