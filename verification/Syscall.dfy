// The wrappers over `sol_alt_bn128_group_op` (groth16-verify/src/syscall.rs), with the compute
// units each call is charged (docs/cu-budget.md:10-34) as a ghost result.
module Syscall {
  import opened Wrappers
  import opened Bytes
  import opened Constants
  import opened Errors
  import opened Points

  const G1_ADD_COST := 334
  const G1_MUL_COST := 3840

  function PairingCost(pairs: nat): int {
    36364 + 12121 * (pairs - 1) + 85 + PAIRING_ELEMENT_SIZE * pairs + PAIRING_OUTPUT_SIZE
  }

  /** Issues the syscall; on success the result is in `out`. */
  method GroupOp(c: Curve, op: nat, input: array<byte>, out: array<byte>) returns (r: Result<(), Groth16Error>)
    requires c.groupOp(op, input[..]).Some? ==> |c.groupOp(op, input[..]).value| == out.Length
    modifies out
    ensures r.Ok? <==> old(c.groupOp(op, input[..])).Some?
    ensures r.Ok? ==> out[..] == old(c.groupOp(op, input[..])).value
    ensures r.Err? ==> r.error == InvalidPoint
  {
    match c.groupOp(op, input[..])
    case None =>
      r := Err(InvalidPoint);
    case Some(result) =>
      CopyInto(out, 0, result);
      r := Ok(());
  }

  method G1Add(c: Curve, a: seq<byte>, b: seq<byte>) returns (r: Result<seq<byte>, Groth16Error>, ghost cu: nat)
    requires c.Laws() && |a| == |b| == G1_SIZE
    ensures r == if c.Decodes1(a) && c.Decodes1(b)
                 then Ok(G1ToBytes(c.add1(c.G1FromBytes(a).value, c.G1FromBytes(b).value)))
                 else Err(InvalidPoint)
    ensures cu == G1_ADD_COST
  {
    var input := new byte[G1_ADD_INPUT_SIZE](i => 0);
    CopyInto(input, 0, a);
    CopyInto(input, G1_SIZE, b);
    var out := new byte[G1_SIZE](i => 0);
    assert input[..] == a + b;
    assert c.AddOpAt(a, b);
    cu := G1_ADD_COST;
    var rc := GroupOp(c, ALT_BN128_G1_ADD_BE, input, out);
    r := if rc.Ok? then Ok(out[..]) else Err(InvalidPoint);
  }

  method G1Mul(c: Curve, p: seq<byte>, scalar: seq<byte>) returns (r: Result<seq<byte>, Groth16Error>, ghost cu: nat)
    requires c.Laws() && |p| == G1_SIZE && |scalar| == FR_SIZE
    requires BE(scalar) < FR
    ensures r == if c.Decodes1(p)
                 then Ok(G1ToBytes(c.Mul1(BE(scalar), c.G1FromBytes(p).value)))
                 else Err(InvalidPoint)
    ensures cu == G1_MUL_COST
  {
    var input := new byte[G1_MUL_INPUT_SIZE](i => 0);
    CopyInto(input, 0, p);
    CopyInto(input, G1_SIZE, scalar);
    var out := new byte[G1_SIZE](i => 0);
    assert input[..] == p + scalar;
    assert c.MulOpAt(p, scalar);
    cu := G1_MUL_COST;
    var rc := GroupOp(c, ALT_BN128_G1_MUL_BE, input, out);
    r := if rc.Ok? then Ok(out[..]) else Err(InvalidPoint);
  }

  method PairingIsOne(c: Curve, input: array<byte>) returns (r: Result<bool, Groth16Error>, ghost cu: int)
    requires c.Laws() && input.Length % PAIRING_ELEMENT_SIZE == 0
    ensures r == if c.DecodesPairs(input[..]) then Ok(c.PairProduct(input[..]) == c.gtOne) else Err(InvalidPoint)
    ensures cu == PairingCost(input.Length / PAIRING_ELEMENT_SIZE)
  {
    var out := new byte[PAIRING_OUTPUT_SIZE](i => 0);
    assert c.PairingOpAt(input[..]);
    cu := PairingCost(input.Length / PAIRING_ELEMENT_SIZE);
    var rc := GroupOp(c, ALT_BN128_PAIRING_BE, input, out);
    assert rc.Ok? ==> out[..][PAIRING_OUTPUT_SIZE - 1] == out[PAIRING_OUTPUT_SIZE - 1];
    r := if rc.Ok? then Ok(out[PAIRING_OUTPUT_SIZE - 1] == 1) else Err(InvalidPoint);
  }
}
