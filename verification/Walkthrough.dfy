// One run from nothing to an accepted proof, on the discrete-logarithm curve: every law asked of the
// deployment holds here with nothing assumed, and no invariant of the registry is empty.
module Walkthrough {
  import opened Wrappers
  import opened Bytes
  import opened Constants
  import opened Errors
  import opened Points
  import opened KeyLayout
  import opened AccountData
  import opened Ledger
  import opened Processor
  import opened Runtime
  import opened Registry
  import opened Guarantees
  import opened Upload
  import opened Pipeline
  import opened Instance
  import opened Wire
  import Groth16
  import Validation
  import Verifier
  import Decision

  function Filled(b: byte): Address {
    seq(32, i => b)
  }

  function Payer(): Address {
    Filled(3)
  }

  function Staging(): Address {
    Filled(4)
  }

  /** A key of no public inputs, every element a generator. */
  function SomeKey(): Groth16.Key {
    Groth16.Key(Point1(1), Point2(1), Point2(1), Point2(1), [O1])
  }

  // --- The deployment ---

  /** One address for the key of the walkthrough and another for every other body. */
  function Derive(body: seq<byte>): (Address, byte) {
    (Filled(if body == KeyBody(SomeKey()) then 5 else 6), 255)
  }

  function IsPda(a: Address): bool {
    a == Filled(5) || a == Filled(6)
  }

  function Rent(size: nat): nat {
    128 + size
  }

  function SomeChain(): Chain {
    Chain(Filled(1), Model(), Derive, IsPda, Rent)
  }

  lemma Distinct(a: byte, b: byte)
    requires a != b
    ensures Filled(a) != Filled(b)
  {
    assert Filled(a)[0] == a && Filled(b)[0] == b;
  }

  /** The laws asked of a deployment hold of this one. */
  lemma ChainLawsHold()
    ensures SomeChain().Laws()
  {
    var ch := SomeChain();
    LawsHold();
    Distinct(0, 1);
    assert SYSTEM_PROGRAM_ID == Filled(0);
    forall body ensures ch.DerivesAt(body) {}
    forall size: nat ensures ch.RentAt(size) {}
  }

  // --- The key and two proofs ---

  lemma GeneratorsOn()
    ensures Groth16.KeyOnCurve(Model(), SomeKey())
    ensures Groth16.ProofOnCurve(Model(), Proving()) && Groth16.ProofOnCurve(Model(), Failing())
  {
  }

  lemma KeyIsPublishable()
    ensures PublishableBody(SomeChain(), KeyBody(SomeKey()), 0)
  {
    hide Curve.G1FromBytes, Curve.G2FromBytes, Curve.On1, Curve.On2, KeyBody, Validation.Outcome, DecodeBody;
    var c, k := Model(), SomeKey();
    PointLawsHold();
    GeneratorsOn();
    BodySlots(k);
    DecodeOfNew(c, k);
    LengthInference(KeyBody(k), 0);
    ValidationAgrees(c, KeyBody(k));
  }

  function Proving(): Groth16.ProofPoints {
    Groth16.ProofPoints(Point1(1), Point2(1), O1)
  }

  function Failing(): Groth16.ProofPoints {
    Groth16.ProofPoints(O1, Point2(1), O1)
  }

  lemma OneProvesOneFails()
    ensures Groth16.Accepts(Model(), SomeKey(), Proving(), [])
    ensures !Groth16.Accepts(Model(), SomeKey(), Failing(), [])
  {
  }

  // --- The run ---

  function Start(): Accounts {
    map[Payer() := AccountState(SYSTEM_PROGRAM_ID, 1_000_000_000, [])]
  }

  const STAGING_RENT := 1_000_000

  lemma StartIsGenesis()
    ensures Genesis(SomeChain(), Start()) && Total(Start()) == 1_000_000_000
  {
    Distinct(0, 1);
    assert SYSTEM_PROGRAM_ID == Filled(0);
    forall a: Address ensures GenesisAt(SomeChain(), Start(), a) {}
    assert Start().Keys - {Payer()} == {};
    TotalWithout(Start(), Payer());
  }

  /** Create, upload everything in one transaction of pieces of 800 bytes, publish. */
  function Registration(): seq<Transaction> {
    [CreateStaging(SomeChain(), Payer(), Payer(), Staging(), 0, STAGING_RENT)]
    + ([WriteBody(Payer(), Staging(), KeyBody(SomeKey()), 800)]
       + [[PublishInstr(Payer(), Payer(), Staging(), Derive(KeyBody(SomeKey())).0)]])
  }

  /** The registration goes through, the key accepts the one proof and rejects the other. */
  lemma RegisterAndVerify()
    ensures
      var ch, key := SomeChain(), Derive(KeyBody(SomeKey())).0;
      var final := Run(ch, Start(), Registration());
      && Holds(ch, Get(final, key), KeyBody(SomeKey()))
      && Exec(ch, final, VerifyInstr(key, EncodeProof(Proving()).bytes, [])) == Ok(final)
      && Exec(ch, final, VerifyInstr(key, EncodeProof(Failing()).bytes, [])) == Err(MapGroth16(ProofInvalid))
  {
    hide KeyBody, Run, Holds, EncodeProof, Chain.Laws, Verifier.VerifyOutcome, Groth16.Accepts, ReadKeyAccount, Exec, PinnedKey;
    var ch, k := SomeChain(), SomeKey();
    var final := Run(ch, Start(), Registration());
    Registers();
    HeldParses(ch, Get(final, Derive(KeyBody(k)).0), KeyBody(k));
    NoCollision(PinnedKey(ch, final, KeyBody(k)).body);
    PinnedBody(ch, final, k);
    LawsHold();
    GeneratorsOn();
    OneProvesOneFails();
    VerifyConverted(ch.curve, k, Proving(), []);
    VerifyConverted(ch.curve, k, Failing(), []);
    VerifyPinned(ch, final, k, Proving(), []);
    VerifyPinned(ch, final, k, Failing(), []);
  }

  lemma NoCollision(other: seq<byte>)
    ensures !Collision(SomeChain(), KeyBody(SomeKey()), other)
  {
    Distinct(5, 6);
  }

  lemma Registers()
    ensures Holds(SomeChain(), Get(Run(SomeChain(), Start(), Registration()), Derive(KeyBody(SomeKey())).0), KeyBody(SomeKey()))
  {
    hide KeyBody, Holds, Chain.Laws, PublishableBody, WriteBody, CanPay, Run, Genesis, Inv;
    var ch, body := SomeChain(), KeyBody(SomeKey());
    ChainLawsHold();
    StartIsGenesis();
    GenesisInv(ch, Start());
    KeyIsPublishable();
    Addresses();
    var writes := WriteBody(Payer(), Staging(), body, 800);
    assert writes in [writes] && Uploads(writes, writes);
    assert forall i :: 0 <= i < |writes| ==> writes[i] in writes && Sent([writes], writes, i);
    PayerCanPay();
    FullRegistration(ch, Start(), [writes], Payer(), Payer(), Staging(), body, 0, STAGING_RENT, 800);
  }

  lemma Addresses()
    ensures Payer() != Staging() && !IsPda(Payer()) && !IsPda(Staging())
  {
    Distinct(3, 4);
    Distinct(3, 5);
    Distinct(3, 6);
    Distinct(4, 5);
    Distinct(4, 6);
  }

  lemma PayerCanPay()
    ensures
      var ch, body := SomeChain(), KeyBody(SomeKey());
      var started := Commit(ch, Start(), CreateStaging(ch, Payer(), Payer(), Staging(), 0, STAGING_RENT));
      CanPay(ch, Run(ch, started, [WriteBody(Payer(), Staging(), body, 800)]), Payer(), Derive(body).0, 0)
  {
    hide KeyBody, Chain.Laws, PublishableBody, WriteBody, Genesis, Inv, ExecAll, CreateStaging, IsStaging, Runtime.Commit;
    var ch, body := SomeChain(), KeyBody(SomeKey());
    ChainLawsHold();
    StartIsGenesis();
    GenesisInv(ch, Start());
    Addresses();
    CreateStagingSucceeds(ch, Start(), Payer(), Payer(), Staging(), 0, STAGING_RENT);
    CreateStagingIsAtomic(ch, Start(), Payer(), Payer(), Staging(), 0, STAGING_RENT);
    var started := Commit(ch, Start(), CreateStaging(ch, Payer(), Payer(), Staging(), 0, STAGING_RENT));
    StagingParses(ch, Staging(), Get(started, Staging()));
    StagedFacts(Get(started, Staging()));
    KeyIsPublishable();
    BodyLength(ch, body, 0);
    UploadKeeps(ch, started, Staging(), body, 800, Payer());
  }

  /** An upload transaction leaves a funded account other than the staging account as it was. */
  lemma UploadKeeps(ch: Chain, l: Accounts, staging: Address, body: seq<byte>, chunk: nat, a: Address)
    requires chunk > 0 && IsStaging(ch, staging, Get(l, staging)) && |body| == |StagedBody(Get(l, staging))|
    requires a != staging && Get(l, a).lamports > 0
    ensures Get(Run(ch, l, [WriteBody(Steps.AuthorityOf(Get(l, staging)), staging, body, chunk)]), a) == Get(l, a)
  {
    hide IsStaging, ReadStagingAccount, Progress, Delivered, WriteBody;
    StagingParses(ch, staging, Get(l, staging));
    var writes := WriteBody(Steps.AuthorityOf(Get(l, staging)), staging, body, chunk);
    UploadAll(ch, l, writes, staging, body, chunk);
    PurgeGet(ExecAll(ch, l, writes).value, a);
    assert [writes][1..] == [];
  }
}
