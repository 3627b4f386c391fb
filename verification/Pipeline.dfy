// From gnark's files to the answer on chain: what a client gets by converting a key, a proof and a
// witness and submitting `Verify` against the address of the key.
module Pipeline {
  import opened Wrappers
  import opened Bytes
  import opened Constants
  import opened Errors
  import opened Points
  import opened KeyLayout
  import opened AccountData
  import opened Ledger
  import opened Processor
  import opened Runtime
  import opened Registry
  import opened Guarantees
  import opened Wire
  import opened GnarkFormat
  import opened GnarkDocuments
  import Groth16
  import Validation
  import Verifier
  import Decision

  // --- The `Verify` instruction (groth16-verify/src/instruction.rs) ---

  function VerifyInstr(key: Address, proof: seq<byte>, inputs: seq<byte>): Instr {
    Groth([Meta(key, false, false)], [TAG_VERIFY] + proof + inputs)
  }

  function Flatten(inputs: seq<seq<byte>>): seq<byte> {
    if |inputs| == 0 then [] else Flatten(inputs[..|inputs| - 1]) + inputs[|inputs| - 1]
  }

  /** `verify`: by extending a vector, one public input after the other. */
  method BuildVerify(key: Address, proof: seq<byte>, inputs: seq<seq<byte>>) returns (i: Instr)
    ensures i == VerifyInstr(key, proof, Flatten(inputs))
  {
    var data := [TAG_VERIFY];
    data := data + proof;
    ghost var head := data;
    for k := 0 to |inputs|
      invariant data == head + Flatten(inputs[..k])
    {
      data := data + inputs[k];
      assert inputs[..k + 1][..k] == inputs[..k];
    }
    assert inputs[..|inputs|] == inputs;
    i := Groth([Meta(key, false, false)], data);
  }

  /** Thirty-two bytes per scalar, as the converter hands them over, flatten to the verifier's inputs. */
  lemma {:induction false} FlattenScalars(s: seq<Fr>)
    ensures Flatten(seq(|s|, i requires 0 <= i < |s| => FrToBytes(s[i]))) == InputsFlat(s)
  {
    hide FrToBytes;
    var rows := seq(|s|, i requires 0 <= i < |s| => FrToBytes(s[i]));
    if |s| > 0 {
      var k := |s| - 1;
      FlattenScalars(s[..k]);
      assert rows[..k] == seq(k, i requires 0 <= i < k => FrToBytes(s[..k][i]));
    }
  }

  // --- One answer for every key, proof and witness ---

  /** What the documentation of the whole repository promises for a key, a proof and inputs. */
  ghost function Expected(c: Curve, k: Groth16.Key, p: Groth16.ProofPoints, s: seq<Fr>): Result<(), Groth16Error>
    requires |k.ic| > 0
  {
    if |k.ic| != |s| + 1 then Err(PublicInputCountMismatch)
    else if Groth16.Accepts(c, k, p, s) then Ok(())
    else Err(ProofInvalid)
  }

  /** How the program reports an answer: unchanged accounts or the mapped error. */
  function Reported(l: Accounts, r: Result<(), Groth16Error>): Outcome {
    match r
    case Ok(_) => Ok(l)
    case Err(e) => Err(MapGroth16(e))
  }

  /** On converted bytes, `verify` answers what is expected of the elements. */
  lemma VerifyConverted(c: Curve, k: Groth16.Key, p: Groth16.ProofPoints, s: seq<Fr>)
    requires c.Laws() && Groth16.KeyOnCurve(c, k) && Groth16.ProofOnCurve(c, p) && |k.ic| <= MAX_PUBLIC_INPUTS + 1
    ensures
      var vk := VerifyingKey(KeyBody(k), |k.ic| - 1, Checked);
      vk.LaidOut() && Verifier.VerifyOutcome(c, vk, EncodeProof(p), InputsFlat(s)) == Expected(c, k, p, s)
  {
    hide Curve.G1FromBytes, Curve.G2FromBytes, Curve.On1, Curve.On2, KeyBody, EncodeProof, InputsFlat, Verifier.VerifyOutcome;
    if |k.ic| == |s| + 1 {
      Decision.ConverterPreservesMeaning(c, k, p, s);
    } else {
      var vk := VerifyingKey(KeyBody(k), |k.ic| - 1, Checked);
      Decision.EncodedKey(c, k);
      assert !Verifier.CountMatches(vk, InputsFlat(s));
      Decision.VerifyDecides(c, vk, EncodeProof(p), InputsFlat(s));
    }
  }

  /** The key an address pins, read as checked, when what was published there is no collision. */
  lemma PinnedBody(ch: Chain, l: Accounts, k: Groth16.Key)
    requires |k.ic| > 0
    requires
      var a := ch.derive(KeyBody(k)).0;
      Holds(ch, Get(l, a), KeyBody(k)) && !Collision(ch, KeyBody(k), PinnedKey(ch, l, KeyBody(k)).body)
    ensures
      var a := ch.derive(KeyBody(k)).0;
      && ReadKeyAccount(Get(l, a).data).Ok? && Get(l, a).owner == ch.programId
      && ReadKeyAccount(Get(l, a).data).value.1.AssumeValidated() == VerifyingKey(KeyBody(k), |k.ic| - 1, Checked)
  {
    hide Validation.Publishable, LE, KeyBody;
    var vk := PinnedKey(ch, l, KeyBody(k));
    OneLayout(KeyBody(k), vk.numPublicInputs, |k.ic| - 1);
  }

  /**
   * gnark files to on-chain answer: whatever bytes the three parsers accept were printed from a
   * key, a proof and scalars, and in every reachable state in which that key has been published,
   * `Verify` with the converted bytes answers exactly the Groth16 equation over those elements,
   * unless the body published there is a hash collision.
   */
  lemma GnarkToChain(ch: Chain, l: Accounts, txs: seq<Transaction>, key: seq<byte>, proof: seq<byte>, publicWitness: seq<byte>)
    returns (g: GnarkKey, f: KeyForms)
    requires ch.Laws() && Genesis(ch, l)
    requires ParseVerifyingKey(ch.curve, key).Ok? && ParseProof(ch.curve, proof).Ok? && ParsePublicWitness(publicWitness).Ok?
    requires
      Get(Run(ch, l, txs), ch.derive(ParseVerifyingKey(ch.curve, key).value.body).0).owner == ch.programId
    ensures Printable(ch.curve, g, f) && key == PutKey(g, f)
    ensures
      var after, body := Run(ch, l, txs), ParseVerifyingKey(ch.curve, key).value.body;
      var a, p, s := ch.derive(body).0, ParseProof(ch.curve, proof).value, ParsePublicWitness(publicWitness).value;
      && ReadKeyAccount(Get(after, a).data).Ok?
      && (Collision(ch, body, PinnedKey(ch, after, body).body)
          || Exec(ch, after, VerifyInstr(a, EncodeProof(p).bytes, InputsFlat(s)))
             == Reported(after, Expected(ch.curve, g.key, p, s)))
  {
    hide Curve.On1, Curve.On2, ParseVerifyingKey, ParseProof, ParsePublicWitness, PutKey, PutProof, KeyBody, EncodeProof, InputsFlat;
    hide Run, Holds, Collision, Genesis, Verifier.VerifyOutcome, Expected, ReadKeyAccount;
    g, f := KeyConverse(ch.curve, key);
    var _, _ := ProofConverse(ch.curve, proof);
    var p, s := ParseProof(ch.curve, proof).value, ParsePublicWitness(publicWitness).value;
    var after, a := Run(ch, l, txs), ch.derive(KeyBody(g.key)).0;
    HoldsThere(ch, l, txs, KeyBody(g.key));
    HeldParses(ch, Get(after, a), KeyBody(g.key));
    if !Collision(ch, KeyBody(g.key), PinnedKey(ch, after, KeyBody(g.key)).body) {
      PinnedBody(ch, after, g.key);
      VerifyConverted(ch.curve, g.key, p, s);
      VerifyPinned(ch, after, g.key, p, s);
    }
  }

  lemma HeldParses(ch: Chain, s: AccountState, body: seq<byte>)
    requires Holds(ch, s, body)
    ensures ReadKeyAccount(s.data).Ok?
  {
  }

  lemma HoldsThere(ch: Chain, l: Accounts, txs: seq<Transaction>, body: seq<byte>)
    requires ch.Laws() && Genesis(ch, l) && Get(Run(ch, l, txs), ch.derive(body).0).owner == ch.programId
    ensures Holds(ch, Get(Run(ch, l, txs), ch.derive(body).0), body)
  {
    hide Run, Verifier.VerifyOutcome, Decision.Promised, Verify;
    AddressPinsKey(ch, l, txs, body, Zeros(PROOF_SIZE));
  }

  lemma VerifyPinned(ch: Chain, l: Accounts, k: Groth16.Key, p: Groth16.ProofPoints, s: seq<Fr>)
    requires |k.ic| > 0
    requires
      var a := ch.derive(KeyBody(k)).0;
      && ReadKeyAccount(Get(l, a).data).Ok? && Get(l, a).owner == ch.programId
      && ReadKeyAccount(Get(l, a).data).value.1.AssumeValidated() == VerifyingKey(KeyBody(k), |k.ic| - 1, Checked)
    requires VerifyingKey(KeyBody(k), |k.ic| - 1, Checked).LaidOut()
    ensures
      Exec(ch, l, VerifyInstr(ch.derive(KeyBody(k)).0, EncodeProof(p).bytes, InputsFlat(s))) ==
      Reported(l, Verifier.VerifyOutcome(
        ch.curve, VerifyingKey(KeyBody(k), |k.ic| - 1, Checked), EncodeProof(p), InputsFlat(s)))
  {
    hide KeyBody, EncodeProof, InputsFlat, Verifier.VerifyOutcome, ReadKeyAccount;
    var i := VerifyInstr(ch.derive(KeyBody(k)).0, EncodeProof(p).bytes, InputsFlat(s));
    var payload := i.data[1..];
    assert payload == EncodeProof(p).bytes + InputsFlat(s);
    assert payload[..PROOF_SIZE] == EncodeProof(p).bytes && payload[PROOF_SIZE..] == InputsFlat(s);
    assert SplitProof(payload) == Ok((EncodeProof(p), InputsFlat(s)));
  }
}
