// Sizes, offsets and opcodes of the on-chain wire format
// (groth16-verify/src/constants.rs, tag.rs and the layout half of state.rs).
module Constants {
  import opened Bytes

  const FQ_SIZE := 32
  const FR_SIZE := 32
  const G1_SIZE := 64
  const G2_SIZE := 128

  /** The BN254 base-field modulus, from the Specification section of EIP-196. */
  const FQ: int := 0x30644e72e131a029b85045b68181585d97816a916871ca8d3c208c16d87cfd47

  /** The BN254 scalar-field modulus: the order of G1, G2 and the pairing's image. */
  const FR: int := 0x30644e72e131a029b85045b68181585d2833e84879b9709143e1f593f0000001

  /** The same modulus as the verifier stores it, big-endian. */
  const FR_MODULUS: seq<byte> :=
    [0x30, 0x64, 0x4e, 0x72, 0xe1, 0x31, 0xa0, 0x29] + [0xb8, 0x50, 0x45, 0xb6, 0x81, 0x81, 0x58, 0x5d]
    + [0x28, 0x33, 0xe8, 0x48, 0x79, 0xb9, 0x70, 0x91] + [0x43, 0xe1, 0xf5, 0x93, 0xf0, 0x00, 0x00, 0x01]

  const PROOF_A_OFFSET := 0
  const PROOF_B_OFFSET := PROOF_A_OFFSET + G1_SIZE
  const PROOF_C_OFFSET := PROOF_B_OFFSET + G2_SIZE
  const PROOF_SIZE := PROOF_C_OFFSET + G1_SIZE

  const VK_ALPHA_OFFSET := 0
  const VK_NEG_BETA_OFFSET := VK_ALPHA_OFFSET + G1_SIZE
  const VK_NEG_GAMMA_OFFSET := VK_NEG_BETA_OFFSET + G2_SIZE
  const VK_NEG_DELTA_OFFSET := VK_NEG_GAMMA_OFFSET + G2_SIZE
  const VK_IC_OFFSET := VK_NEG_DELTA_OFFSET + G2_SIZE
  const VK_FIXED_SIZE := VK_IC_OFFSET

  const MAX_PUBLIC_INPUTS := 151

  const KEY_HEADER_LEN := 8
  const STAGING_HEADER_LEN := 40

  function VkBodyLen(n: nat): nat {
    VK_FIXED_SIZE + G1_SIZE * (n + 1)
  }

  function KeyAccountLen(n: nat): nat {
    KEY_HEADER_LEN + VkBodyLen(n)
  }

  function StagingAccountLen(n: nat): nat {
    STAGING_HEADER_LEN + VkBodyLen(n)
  }

  const PAIRING_ELEMENT_SIZE := 192
  const PAIRING_NUM_PAIRS := 4
  const PAIRING_INPUT_SIZE := PAIRING_ELEMENT_SIZE * PAIRING_NUM_PAIRS
  const PAIRING_OUTPUT_SIZE := 32

  const PAIRING_SLOT_AB_OFFSET := 0
  const PAIRING_SLOT_ALPHA_BETA_OFFSET := PAIRING_ELEMENT_SIZE
  const PAIRING_SLOT_L_OFFSET := 2 * PAIRING_ELEMENT_SIZE
  const PAIRING_SLOT_GAMMA_OFFSET := PAIRING_SLOT_L_OFFSET + G1_SIZE
  const PAIRING_SLOT_C_OFFSET := 3 * PAIRING_ELEMENT_SIZE
  const PAIRING_SLOT_DELTA_OFFSET := PAIRING_SLOT_C_OFFSET + G1_SIZE

  const ALT_BN128_G1_ADD_BE := 0
  const ALT_BN128_G1_MUL_BE := 2
  const ALT_BN128_PAIRING_BE := 3

  const G1_ADD_INPUT_SIZE := 2 * G1_SIZE
  const G1_MUL_INPUT_SIZE := G1_SIZE + FR_SIZE

  const TAG_INITIALIZE_STAGING: byte := 0
  const TAG_WRITE: byte := 1
  const TAG_PUBLISH: byte := 2
  const TAG_VERIFY: byte := 3
  const TAG_CLOSE_STAGING: byte := 4

  const DISCRIMINATOR_UNINITIALIZED: byte := 0
  const DISCRIMINATOR_KEY: byte := 1
  const DISCRIMINATOR_STAGING: byte := 2
  const DISCRIMINATOR_OFFSET := 0
  const NUM_PUBLIC_INPUTS_OFFSET := 2
  const KEY_BUMP_OFFSET := 1
  const STAGING_AUTHORITY_OFFSET := 8

  /** How far the runtime lets one instruction grow an account. */
  const MAX_PERMITTED_DATA_INCREASE := 10_240

  const U64_MAX := 0xffff_ffff_ffff_ffff

  /** The stored byte string is the modulus. */
  lemma FrModulusValue()
    ensures BE(FR_MODULUS) == FR
  {
    var a := Group8(0x30, 0x64, 0x4e, 0x72, 0xe1, 0x31, 0xa0, 0x29);
    var b := Group8(0xb8, 0x50, 0x45, 0xb6, 0x81, 0x81, 0x58, 0x5d);
    var c := Group8(0x28, 0x33, 0xe8, 0x48, 0x79, 0xb9, 0x70, 0x91);
    var d := Group8(0x43, 0xe1, 0xf5, 0x93, 0xf0, 0x00, 0x00, 0x01);
    var s := JoinGroup(a, b);
    s := JoinGroup(s, c);
    s := JoinGroup(s, d);
  }

  lemma JoinGroup(p: seq<byte>, g: seq<byte>) returns (s: seq<byte>)
    requires |g| == 8
    ensures s == p + g && BE(s) == BE(p) * 0x1_0000_0000_0000_0000 + BE(g)
  {
    s := p + g;
    BEConcat(p, g);
    Pow256Values();
  }

  lemma Group8(b0: byte, b1: byte, b2: byte, b3: byte, b4: byte, b5: byte, b6: byte, b7: byte)
    returns (s: seq<byte>)
    ensures s == [b0, b1, b2, b3, b4, b5, b6, b7]
    ensures BE(s) == ((((((b0 * 256 + b1) * 256 + b2) * 256 + b3) * 256 + b4) * 256 + b5) * 256 + b6) * 256 + b7
  {
    hide BE;
    var a := Group4(b0, b1, b2, b3);
    var b := Group4(b4, b5, b6, b7);
    s := a + b;
    BEConcat(a, b);
    Pow256Values();
    hide Pow256;
  }

  lemma Group4(b0: byte, b1: byte, b2: byte, b3: byte) returns (s: seq<byte>)
    ensures s == [b0, b1, b2, b3] && BE(s) == ((b0 * 256 + b1) * 256 + b2) * 256 + b3
  {
    s := [b0];
    assert BE(s) == b0;
    hide BE;
    s := Append(s, b1);
    s := Append(s, b2);
    s := Append(s, b3);
  }

  lemma Append(p: seq<byte>, b: byte) returns (s: seq<byte>)
    ensures s == p + [b] && BE(s) == BE(p) * 256 + b
  {
    s := p + [b];
    assert s[..|s| - 1] == p && s[|s| - 1] == b;
  }

  /** A key account and a staging account never have the same length. */
  lemma HeaderLengthsDiffer(n: nat, m: nat)
    ensures KeyAccountLen(n) != StagingAccountLen(m)
  {
  }
}
