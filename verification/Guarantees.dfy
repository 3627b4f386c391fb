// The design's promises to the parties: an upload cannot be blocked, rent can always be recovered,
// and `Verify` means what the address says.
module Guarantees {
  import opened Wrappers
  import opened Bytes
  import opened Constants
  import opened Errors
  import opened Points
  import opened KeyLayout
  import opened AccountData
  import opened Ledger
  import opened Processor
  import opened Runtime
  import opened Steps
  import opened Registry
  import Groth16
  import Validation
  import Verifier
  import Decision

  // --- Publishing goes through ---

  /** The accounts of a `Publish`, as the client builder lists them. */
  function PublishMetas(authority: Address, payer: Address, staging: Address, key: Address): seq<Meta> {
    [Meta(authority, true, true), Meta(payer, true, true), Meta(staging, false, true), Meta(key, false, true),
     Meta(SYSTEM_PROGRAM_ID, false, false)]
  }

  function StagedBody(s: AccountState): seq<byte>
    requires ReadStagingAccount(s.data).Ok?
  {
    ReadStagingAccount(s.data).value.1
  }

  function StagedN(s: AccountState): nat
    requires ReadStagingAccount(s.data).Ok?
  {
    ReadStagingAccount(s.data).value.0.numPublicInputs
  }

  /** The bytes are a key for `n` inputs that passes validation. */
  predicate PublishableBody(ch: Chain, body: seq<byte>, n: nat) {
    FromBodyWithLen(body, n).Ok? && Validation.Outcome(ch.curve, FromBodyWithLen(body, n).value).Ok?
  }

  predicate StagedPublishable(ch: Chain, s: AccountState)
    requires ReadStagingAccount(s.data).Ok?
  {
    PublishableBody(ch, StagedBody(s), StagedN(s))
  }

  /** The key is rent-exempt already, or is so together with what an ordinary payer holds. */
  predicate CanPay(ch: Chain, l: Accounts, payer: Address, key: Address, n: nat) {
    var rent := ch.rent(KeyAccountLen(n));
    || Get(l, key).lamports >= rent
    || (Get(l, payer).owner == SYSTEM_PROGRAM_ID && Get(l, payer).data == []
        && Get(l, payer).lamports + Get(l, key).lamports >= rent)
  }

  /** Allocating and assigning never fail: the largest key fits in what one CPI may grow an account by. */
  lemma CreateSucceeds(ch: Chain, l: Accounts, payer: Address, key: Address, n: nat)
    requires payer != key && n <= MAX_PUBLIC_INPUTS && CanPay(ch, l, payer, key, n) && Total(l) <= U64_MAX
    requires Get(l, key).owner == SYSTEM_PROGRAM_ID && Get(l, key).data == []
    ensures CreateKeyAccount(ch, l, payer, key, KeyAccountLen(n)).Ok?
  {
    PairWithinTotal(l, payer, key);
  }

  /** A `Publish` with a validated upload, the right address and a funded payer succeeds on an unpublished key. */
  lemma PublishSucceeds(ch: Chain, l: Accounts, payer: Address, staging: Address, key: Address)
    requires ch.Laws() && Inv(ch, l) && Total(l) <= U64_MAX
    requires IsStaging(ch, staging, Get(l, staging)) && StagedPublishable(ch, Get(l, staging))
    requires key == ch.derive(StagedBody(Get(l, staging))).0 && Get(l, key).owner != ch.programId
    requires !ch.pda(payer) && CanPay(ch, l, payer, key, StagedN(Get(l, staging)))
    ensures Publish(ch, l, PublishMetas(AuthorityOf(Get(l, staging)), payer, staging, key), []).Ok?
  {
    hide Validation.Publishable, Validation.Outcome, KeyData, CreateKeyAccount, ReadStagingAccount, Shortfall;
    var s := Get(l, staging);
    var authority, n, body := AuthorityOf(s), StagedN(s), StagedBody(s);
    StagedFacts(s);
    assert ch.DerivesAt(body) && InvAt(ch, l, key);
    CreateSucceeds(ch, l, payer, key, n);
    CreateKeyForm(ch, l, payer, key, KeyAccountLen(n));
    var l1 := CreateKeyAccount(ch, l, payer, key, KeyAccountLen(n)).value;
    var l2 := WithData(l1, key, KeyData(ch.derive(body).1, n, body));
    TotalUpdate(l1, key, Get(l2, key));
    PairWithinTotal(l2, staging, authority);
    assert PublishAccounts(ch, l, PublishMetas(authority, payer, staging, key)) == Ok(());
    assert PublishChecks(ch, l, key, n, body) == Ok(());
  }

  lemma StagedFacts(s: AccountState)
    requires ReadStagingAccount(s.data).Ok?
    ensures StagedN(s) <= MAX_PUBLIC_INPUTS && |StagedBody(s)| == VkBodyLen(StagedN(s))
  {
  }

  /** Two bodies one address stands for. */
  predicate Collision(ch: Chain, body: seq<byte>, other: seq<byte>) {
    other != body && ch.derive(other).0 == ch.derive(body).0
  }

  /** The key published at the address of `body` is that body, or it and `body` are a collision. */
  predicate Holds(ch: Chain, s: AccountState, body: seq<byte>) {
    IsKey(ch, ch.derive(body).0, s)
    && var published := ReadKeyAccount(s.data).value.1.body;
       published == body || Collision(ch, body, published)
  }

  function PublishInstr(authority: Address, payer: Address, staging: Address, key: Address): Instr {
    Groth(PublishMetas(authority, payer, staging, key), [TAG_PUBLISH])
  }

  /** An instruction on its own in a transaction. */
  lemma Alone(ch: Chain, l: Accounts, i: Instr)
    ensures ExecAll(ch, l, [i]) == Exec(ch, l, i)
  {
    hide Exec;
    assert [i][1..] == [];
  }

  /**
   * Non-blocking: after an authority has uploaded a body that validates, no run it does not sign,
   * whatever is sent to whatever address, stops it. Its `Publish` with a funded payer leaves the
   * key at its address: this call published it, or failed because it was there already.
   */
  lemma UploadCannotBeBlocked(ch: Chain, l: Accounts, txs: seq<Transaction>, staging: Address, payer: Address)
    requires ch.Laws() && Inv(ch, l) && Total(l) <= U64_MAX
    requires IsStaging(ch, staging, Get(l, staging)) && Get(l, staging).lamports > 0
    requires StagedPublishable(ch, Get(l, staging))
    requires RunUnsignedBy(txs, AuthorityOf(Get(l, staging)))
    requires !ch.pda(payer)
    requires CanPay(ch, Run(ch, l, txs), payer, ch.derive(StagedBody(Get(l, staging))).0, StagedN(Get(l, staging)))
    ensures
      var after, authority, body := Run(ch, l, txs), AuthorityOf(Get(l, staging)), StagedBody(Get(l, staging));
      var key := ch.derive(body).0;
      var publish := PublishInstr(authority, payer, staging, key);
      && Holds(ch, Get(Commit(ch, after, [publish]), key), body)
      && if Get(after, key).owner == ch.programId
         then Exec(ch, after, publish) == Err(KEY_ALREADY_PUBLISHED)
         else
           && Exec(ch, after, publish).Ok? && ReadKeyAccount(Get(Commit(ch, after, [publish]), key).data).Ok?
           && ReadKeyAccount(Get(Commit(ch, after, [publish]), key).data).value.1.body == body
  {
    hide Validation.Publishable, Validation.Outcome, Run, RunUnsignedBy, Publish, CanPay, ReadStagingAccount, IsKey, Purge;
    var pre, after := Get(l, staging), Run(ch, l, txs);
    var authority, body := AuthorityOf(pre), StagedBody(pre);
    var key := ch.derive(body).0;
    StagingIsolated(ch, l, txs, staging);
    RunInv(ch, l, txs);
    SameUpload(ch, staging, pre, Get(after, staging));
    var publish := PublishInstr(authority, payer, staging, key);
    Alone(ch, after, publish);
    assert ch.DerivesAt(body) && InvAt(ch, after, key);
    assert publish.data[1..] == [];
    assert Exec(ch, after, publish) == Publish(ch, after, publish.metas, []);
    if Get(after, key).owner == ch.programId {
      KindByDiscriminator(ch, key, Get(after, key));
      AlreadyThere(ch, after, payer, staging);
      KeyOfBody(ch, Get(after, key), body, key);
    } else {
      PublishSucceeds(ch, after, payer, staging, key);
      PublishCommits(ch, after, payer, staging, key);
      KeyOfBody(ch, Get(Commit(ch, after, [publish]), key), body, key);
    }
  }

  /** A successful `Publish` on its own in a transaction leaves its key behind. */
  lemma PublishCommits(ch: Chain, l: Accounts, payer: Address, staging: Address, key: Address)
    requires ch.Laws() && Inv(ch, l) && IsStaging(ch, staging, Get(l, staging)) && !ch.pda(payer)
    requires Publish(ch, l, PublishMetas(AuthorityOf(Get(l, staging)), payer, staging, key), []).Ok?
    ensures
      var publish := PublishInstr(AuthorityOf(Get(l, staging)), payer, staging, key);
      var s := Get(Commit(ch, l, [publish]), key);
      && IsKey(ch, key, s) && ReadKeyAccount(s.data).Ok?
      && ReadKeyAccount(s.data).value.1.body == StagedBody(Get(l, staging))
  {
    hide ReadStagingAccount, Publish, Purge, KeyData, Validation.Publishable, Inv;
    var publish := PublishInstr(AuthorityOf(Get(l, staging)), payer, staging, key);
    Alone(ch, l, publish);
    assert publish.data[1..] == [];
    assert Exec(ch, l, publish) == Publish(ch, l, publish.metas, []);
    PublishDelivers(ch, l, payer, staging, key);
    PurgeGet(Publish(ch, l, publish.metas, []).value, key);
  }

  lemma KeyOfBody(ch: Chain, s: AccountState, body: seq<byte>, key: Address)
    requires key == ch.derive(body).0 && IsKey(ch, key, s)
    ensures Holds(ch, s, body) && s.lamports > 0
  {
    hide Validation.Publishable, ReadKeyAccount, KeyData;
  }

  /** Publishing what is published already fails, and says so. */
  lemma AlreadyThere(ch: Chain, l: Accounts, payer: Address, staging: Address)
    requires IsStaging(ch, staging, Get(l, staging))
    requires
      var body := StagedBody(Get(l, staging));
      FromBodyWithLen(body, StagedN(Get(l, staging))).Ok? && Get(l, ch.derive(body).0).owner == ch.programId
    ensures
      var s := Get(l, staging);
      Publish(ch, l, PublishMetas(AuthorityOf(s), payer, staging, ch.derive(StagedBody(s)).0), []) == Err(KEY_ALREADY_PUBLISHED)
  {
    hide ReadStagingAccount, Validation.Outcome;
    var s := Get(l, staging);
    assert PublishAccounts(ch, l, PublishMetas(AuthorityOf(s), payer, staging, ch.derive(StagedBody(s)).0)) == Ok(());
  }

  lemma SameUpload(ch: Chain, a: Address, pre: AccountState, post: AccountState)
    requires IsStaging(ch, a, pre) && Credited(pre, post) && StagedPublishable(ch, pre)
    ensures IsStaging(ch, a, post) && AuthorityOf(post) == AuthorityOf(pre) && StagedPublishable(ch, post)
    ensures StagedBody(post) == StagedBody(pre) && StagedN(post) == StagedN(pre)
  {
  }

  /** And what a successful `Publish` leaves is this body, at this address, with the rent refunded. */
  lemma PublishDelivers(ch: Chain, l: Accounts, payer: Address, staging: Address, key: Address)
    requires ch.Laws() && Inv(ch, l) && IsStaging(ch, staging, Get(l, staging)) && !ch.pda(payer)
    requires Publish(ch, l, PublishMetas(AuthorityOf(Get(l, staging)), payer, staging, key), []).Ok?
    ensures
      var authority := AuthorityOf(Get(l, staging));
      var metas := PublishMetas(authority, payer, staging, key);
      var r := Publish(ch, l, metas, []).value;
      && IsKey(ch, key, Get(r, key)) && ReadKeyAccount(Get(r, key).data).value.1.body == StagedBody(Get(l, staging))
      && Get(r, staging) == BLANK
      && (payer != authority ==> Get(r, authority).lamports == Get(l, authority).lamports + Get(l, staging).lamports)
  {
    hide Validation.Publishable, Validation.Outcome, Publish, IsKey;
    var metas := PublishMetas(AuthorityOf(Get(l, staging)), payer, staging, key);
    PublishForm(ch, l, metas, []);
  }

  // --- Rent is never stuck ---

  function CloseMetas(authority: Address, staging: Address): seq<Meta> {
    [Meta(authority, true, true), Meta(staging, false, true)]
  }

  /** In every reachable state the authority of any staging account can close it and gets exactly its lamports. */
  lemma RentIsRecoverable(ch: Chain, l: Accounts, txs: seq<Transaction>, staging: Address)
    requires ch.Laws() && Genesis(ch, l) && Total(l) <= U64_MAX
    requires Get(Run(ch, l, txs), staging).owner == ch.programId
    requires ReadStagingAccount(Get(Run(ch, l, txs), staging).data).Ok?
    ensures
      var after := Run(ch, l, txs);
      var authority := AuthorityOf(Get(after, staging));
      var final := Commit(ch, after, [Groth(CloseMetas(authority, staging), [TAG_CLOSE_STAGING])]);
      && authority != staging && Get(final, staging) == BLANK
      && Get(final, authority).lamports == Get(after, authority).lamports + Get(after, staging).lamports
  {
    hide Validation.Publishable, Run, ReadStagingAccount, CloseStaging, Purge, IsKey;
    GenesisInv(ch, l);
    RunInv(ch, l, txs);
    var after := Run(ch, l, txs);
    assert InvAt(ch, after, staging);
    KindByDiscriminator(ch, staging, Get(after, staging));
    var authority := AuthorityOf(Get(after, staging));
    var close := Groth(CloseMetas(authority, staging), [TAG_CLOSE_STAGING]);
    CloseSucceeds(ch, after, staging);
    Alone(ch, after, close);
    assert close.data[1..] == [];
    CloseForm(ch, after, close.metas, []);
    var r := CloseStaging(ch, after, close.metas, []).value;
    PurgeGet(r, staging);
    PurgeGet(r, authority);
  }

  /** `authority` got the balance of `a`, less `paid`, which went into `key`. */
  predicate Refunded(l: Accounts, r: Accounts, a: Address, authority: Address, key: Address, paid: nat) {
    && Get(r, authority).lamports + paid == Get(l, authority).lamports + Get(l, a).lamports
    && (paid > 0 ==> Get(r, key).lamports == Get(l, key).lamports + paid)
  }

  lemma PublishRefunds(ch: Chain, l: Accounts, metas: seq<Meta>, payload: seq<byte>, a: Address) returns (paid: nat)
    requires ch.Laws() && Inv(ch, l) && SignersAllowed(ch, metas) && Publish(ch, l, metas, payload).Ok?
    requires ReadStagingAccount(Get(l, a).data).Ok? && Get(l, a).owner != SYSTEM_PROGRAM_ID
    requires Get(Publish(ch, l, metas, payload).value, a) == BLANK
    ensures payload == [] && |metas| == 5
    ensures paid > 0 ==> metas[1].address == AuthorityOf(Get(l, a))
    ensures Refunded(l, Publish(ch, l, metas, payload).value, a, AuthorityOf(Get(l, a)), metas[3].address, paid)
  {
    hide Publish, IsStaging, IsKey, ReadStagingAccount, Inv, Chain.Laws, KeyAccountLen, Shortfall, SignersAllowed;
    PublishForm(ch, l, metas, payload);
    PublishTakesNothing(ch, l, metas, payload);
    var topUp := Get(Publish(ch, l, metas, payload).value, metas[3].address).lamports - Get(l, metas[3].address).lamports;
    paid := if metas[1].address == metas[0].address then topUp else 0;
  }

  lemma CloseRefunds(ch: Chain, l: Accounts, metas: seq<Meta>, payload: seq<byte>, a: Address)
    requires Inv(ch, l) && CloseStaging(ch, l, metas, payload).Ok?
    requires ReadStagingAccount(Get(l, a).data).Ok? && Get(l, a).owner != SYSTEM_PROGRAM_ID
    requires Get(CloseStaging(ch, l, metas, payload).value, a) == BLANK
    ensures Refunded(l, CloseStaging(ch, l, metas, payload).value, a, AuthorityOf(Get(l, a)), a, 0)
  {
    hide CloseStaging, IsStaging, ReadStagingAccount, Inv;
    CloseForm(ch, l, metas, payload);
  }

  /**
   * Staging rent goes home: when an instruction closes a staging account, its whole balance reaches
   * the recorded authority, less only what that authority, as payer, put into the key it published.
   */
  lemma RefundGoesToAuthority(ch: Chain, l: Accounts, metas: seq<Meta>, data: seq<byte>, a: Address)
    returns (key: Address, paid: nat)
    requires ch.Laws() && Inv(ch, l) && SignersAllowed(ch, metas) && ProcessInstruction(ch, l, metas, data).Ok?
    requires IsStaging(ch, a, Get(l, a)) && Get(ProcessInstruction(ch, l, metas, data).value, a) == BLANK
    ensures ReadStagingAccount(Get(l, a).data).Ok?
    ensures Refunded(l, ProcessInstruction(ch, l, metas, data).value, a, AuthorityOf(Get(l, a)), key, paid)
    ensures paid > 0 ==>
              |metas| >= 5 && data == [TAG_PUBLISH]
              && metas[1].address == AuthorityOf(Get(l, a)) && metas[3].address == key
  {
    StagingParses(ch, a, Get(l, a));
    NotBlank(ch, a, Get(l, a));
    hide Verify, InitializeStaging, Write, Publish, CloseStaging, IsStaging, IsKey, ReadStagingAccount, Inv;
    hide Rewritten, Initialized, Refunded, Chain.Laws;
    var seen := if |metas| > MAX_ACCOUNTS then metas[..MAX_ACCOUNTS] else metas;
    var tag, payload := data[0], data[1..];
    SeenMetas(ch, metas, seen, Get(l, a), BLANK, a);
    StaysOpen(ch, seen, a, Get(l, a), BLANK);
    key, paid := a, 0;
    if tag == TAG_INITIALIZE_STAGING {
      InitializeForm(ch, l, seen, payload);
    } else if tag == TAG_WRITE {
      WriteForm(ch, l, seen, payload);
    } else if tag == TAG_PUBLISH {
      paid := PublishRefunds(ch, l, seen, payload, a);
      key := seen[3].address;
    } else if tag == TAG_CLOSE_STAGING {
      CloseRefunds(ch, l, seen, payload, a);
    }
  }

  lemma StaysOpen(ch: Chain, metas: seq<Meta>, a: Address, pre: AccountState, post: AccountState)
    requires ch.Laws()
    ensures Initialized(ch, metas, a, pre, post) || Rewritten(ch, metas, a, pre, post) ==> post != BLANK
  {
  }

  lemma PublishTakesNothing(ch: Chain, l: Accounts, metas: seq<Meta>, payload: seq<byte>)
    requires Publish(ch, l, metas, payload).Ok?
    ensures payload == []
  {
  }

  lemma NotBlank(ch: Chain, a: Address, s: AccountState)
    requires ch.Laws() && IsStaging(ch, a, s)
    ensures s.owner != SYSTEM_PROGRAM_ID
  {
  }

  lemma CloseSucceeds(ch: Chain, l: Accounts, staging: Address)
    requires IsStaging(ch, staging, Get(l, staging)) && Total(l) <= U64_MAX
    ensures CloseStaging(ch, l, CloseMetas(AuthorityOf(Get(l, staging)), staging), []).Ok?
  {
    hide ReadStagingAccount;
    PairWithinTotal(l, staging, AuthorityOf(Get(l, staging)));
  }

  lemma GenesisInv(ch: Chain, l: Accounts)
    requires Genesis(ch, l)
    ensures Inv(ch, l)
  {
    forall b: Address
      ensures InvAt(ch, l, b)
    {
      assert GenesisAt(ch, l, b);
    }
  }

  // --- Verify ---

  function AsProgramResult(r: Result<(), Groth16Error>): Result<(), ProgramError> {
    match r
    case Ok(_) => Ok(())
    case Err(e) => Err(MapGroth16(e))
  }

  /**
   * In every reachable state, `Verify` on any account this program owns as a key decides the
   * Groth16 equation of a publishable key whose address that is; the marker `assume_validated`
   * puts on it is always true.
   */
  lemma VerifyIsSound(ch: Chain, l: Accounts, txs: seq<Transaction>, a: Address, payload: seq<byte>)
    requires ch.Laws() && Genesis(ch, l) && |payload| >= PROOF_SIZE
    requires Get(Run(ch, l, txs), a).owner == ch.programId && ReadKeyAccount(Get(Run(ch, l, txs), a).data).Ok?
    ensures
      var after := Run(ch, l, txs);
      var vk := ReadKeyAccount(Get(after, a).data).value.1;
      && vk.LaidOut() && ch.derive(vk.body).0 == a && Validation.Publishable(ch.curve, vk)
      && Verify(ch, after, [Meta(a, false, false)], payload) ==
         AsProgramResult(Decision.Promised(ch.curve, vk, Proof(payload[..PROOF_SIZE]), payload[PROOF_SIZE..]))
  {
    hide Run, Verifier.VerifyOutcome, Decision.Promised, Validation.HasIdentity, Validation.PointsDecode, Decision.Proves;
    GenesisInv(ch, l);
    RunInv(ch, l, txs);
    var after := Run(ch, l, txs);
    assert InvAt(ch, after, a);
    KindByDiscriminator(ch, a, Get(after, a));
    var vk := ReadKeyAccount(Get(after, a).data).value.1;
    SameAnswer(ch, vk, Proof(payload[..PROOF_SIZE]), payload[PROOF_SIZE..]);
  }

  lemma SameAnswer(ch: Chain, vk: VerifyingKey, proof: Proof, inputs: seq<byte>)
    requires ch.curve.Laws() && vk.LaidOut() && Validation.Publishable(ch.curve, vk) && proof.LaidOut()
    ensures Verifier.VerifyOutcome(ch.curve, vk.AssumeValidated(), proof, inputs)
            == Decision.Promised(ch.curve, vk, proof, inputs)
  {
    hide Verifier.VerifyOutcome, Validation.HasIdentity, Validation.PointsDecode;
    var checked := vk.AssumeValidated();
    Decision.MarkerIrrelevant(ch.curve, vk);
    Decision.VerifyDecides(ch.curve, checked, proof, inputs);
  }

  /** Once a key is published, every verification gets the same answer in every later state. */
  lemma VerifyIsStable(ch: Chain, l: Accounts, txs: seq<Transaction>, a: Address, payload: seq<byte>)
    requires ch.Laws() && Inv(ch, l) && IsKey(ch, a, Get(l, a))
    ensures Verify(ch, Run(ch, l, txs), [Meta(a, false, false)], payload) == Verify(ch, l, [Meta(a, false, false)], payload)
  {
    hide Run, IsKey, Inv, ReadKeyAccount, Verifier.VerifyOutcome;
    KeysAreImmutable(ch, l, txs, a);
  }

  /** The key an owned account at the address of `body` holds. */
  function PinnedKey(ch: Chain, l: Accounts, body: seq<byte>): VerifyingKey
    requires ReadKeyAccount(Get(l, ch.derive(body).0).data).Ok?
  {
    ReadKeyAccount(Get(l, ch.derive(body).0).data).value.1
  }

  /**
   * Pinning an address pins the key: in every reachable state `Verify` on the address of `body`
   * answers `InvalidAccountOwner` until a key is published there, and from then on decides the
   * Groth16 equation of a publishable key that is exactly `body`, short of a hash collision.
   */
  lemma AddressPinsKey(ch: Chain, l: Accounts, txs: seq<Transaction>, body: seq<byte>, payload: seq<byte>)
    requires ch.Laws() && Genesis(ch, l) && |payload| >= PROOF_SIZE
    ensures
      var after, a := Run(ch, l, txs), ch.derive(body).0;
      var answer := Verify(ch, after, [Meta(a, false, false)], payload);
      if Get(after, a).owner != ch.programId then answer == Err(InvalidAccountOwner)
      else
        && Holds(ch, Get(after, a), body)
        && var vk := PinnedKey(ch, after, body);
           && vk.LaidOut() && Validation.Publishable(ch.curve, vk)
           && answer == AsProgramResult(Decision.Promised(ch.curve, vk, Proof(payload[..PROOF_SIZE]), payload[PROOF_SIZE..]))
  {
    hide Run, Verifier.VerifyOutcome, Decision.Promised, Validation.HasIdentity, Validation.PointsDecode;
    var after, a := Run(ch, l, txs), ch.derive(body).0;
    if Get(after, a).owner == ch.programId {
      ReachableInv(ch, l, txs, a);
      assert ch.DerivesAt(body);
      VerifyIsSound(ch, l, txs, a, payload);
      KeyOfBody(ch, Get(after, a), body, a);
    }
  }

  // --- Creating a staging account ---

  /** The two instructions a client submits together. */
  function CreateStaging(ch: Chain, payer: Address, authority: Address, staging: Address, n: nat, lamports: nat): Transaction
    requires n <= MAX_PUBLIC_INPUTS
  {
    [CreateAccount(payer, staging, lamports, StagingAccountLen(n), ch.programId),
     Groth([Meta(authority, true, false), Meta(staging, false, true)], [TAG_INITIALIZE_STAGING] + ToLE(n, 2))]
  }

  /**
   * In one transaction there is no state in between: it leaves everything as it was, or leaves the
   * account initialized for this authority and this `n`.
   */
  lemma CreateStagingIsAtomic(ch: Chain, l: Accounts, payer: Address, authority: Address, staging: Address, n: nat, lamports: nat)
    requires ch.Laws() && Inv(ch, l) && n <= MAX_PUBLIC_INPUTS && lamports > 0 && payer != staging
    ensures
      var tx := CreateStaging(ch, payer, authority, staging, n, lamports);
      var after := Commit(ch, l, tx);
      if ExecAll(ch, l, tx).Err? then after == l
      else IsStaging(ch, staging, Get(after, staging)) && Get(after, staging).lamports == lamports
           && ReadStagingAccount(Get(after, staging).data).value.0 == StagingHeader(n, authority)
  {
    var tx := CreateStaging(ch, payer, authority, staging, n, lamports);
    if ExecAll(ch, l, tx).Ok? {
      hide Validation.Publishable, InitializeStaging, IsStaging, LE, ToLE, SystemCreate, ForeignAllowed, ReadStagingAccount;
      var mid := Exec(ch, l, tx[0]).value;
      assert tx[1..][1..] == [];
      CreateIsForeign(ch, l, payer, staging, lamports, StagingAccountLen(n), ch.programId);
      InstructionInv(ch, l, tx[0]);
      var payload := tx[1].data[1..];
      assert payload == ToLE(n, 2);
      HeaderN(n);
      assert ExecAll(ch, mid, tx[1..]) == Exec(ch, mid, tx[1]);
      InitializeForm(ch, mid, tx[1].metas, payload);
      PurgeGet(Exec(ch, mid, tx[1]).value, staging);
    }
  }

  /** Split over two transactions, anyone may claim the blank account: the program cannot tell who paid. */
  lemma BlankAccountIsAnyones(ch: Chain, l: Accounts, staging: Address, other: Address, n: nat)
    requires ch.Laws() && Inv(ch, l) && n <= MAX_PUBLIC_INPUTS && other != staging && !ch.pda(other)
    requires IsBlankOwned(ch, staging, Get(l, staging)) && |Get(l, staging).data| == StagingAccountLen(n)
    ensures
      var r := InitializeStaging(ch, l, [Meta(other, true, false), Meta(staging, false, true)], ToLE(n, 2));
      r.Ok? && IsStaging(ch, staging, Get(r.value, staging)) && AuthorityOf(Get(r.value, staging)) == other
  {
    hide Validation.Publishable, LE, ToLE;
    HeaderN(n);
    InitializeForm(ch, l, [Meta(other, true, false), Meta(staging, false, true)], ToLE(n, 2));
  }

  /** With a funded payer and a fresh address the pair always goes through, at the stated price. */
  lemma CreateStagingSucceeds(ch: Chain, l: Accounts, payer: Address, authority: Address, staging: Address, n: nat, lamports: nat)
    requires ch.Laws() && Inv(ch, l) && Total(l) <= U64_MAX && n <= MAX_PUBLIC_INPUTS && lamports > 0
    requires payer != staging && authority != staging && Get(l, staging) == BLANK
    requires !ch.pda(payer) && !ch.pda(authority) && !ch.pda(staging)
    requires Get(l, payer).owner == SYSTEM_PROGRAM_ID && Get(l, payer).data == [] && Get(l, payer).lamports >= lamports
    ensures
      var tx := CreateStaging(ch, payer, authority, staging, n, lamports);
      && ExecAll(ch, l, tx).Ok?
      && Get(Commit(ch, l, tx), payer) == Get(l, payer).(lamports := Get(l, payer).lamports - lamports)
      && (forall a: Address :: a != payer && a != staging && Get(l, a).lamports > 0 ==> Get(Commit(ch, l, tx), a) == Get(l, a))
      && (forall a: Address :: a != payer && a != staging && Get(l, a) == BLANK ==> Get(Commit(ch, l, tx), a) == BLANK)
  {
    hide Validation.Publishable, LE, ToLE, Inv, SystemCreate, InitializeStaging, Zeros, AllZero, Chain.Laws;
    var tx := CreateStaging(ch, payer, authority, staging, n, lamports);
    FundNew(ch, l, payer, staging, lamports, StagingAccountLen(n), ch.programId);
    var mid := Exec(ch, l, tx[0]).value;
    InitializeNew(ch, mid, authority, staging, n, lamports);
    assert tx[1].data[1..] == ToLE(n, 2) && tx[1..][1..] == [];
    assert ExecAll(ch, mid, tx[1..]) == Exec(ch, mid, tx[1]);
  }

  lemma FundNew(ch: Chain, l: Accounts, payer: Address, target: Address, lamports: nat, space: nat, owner: Address)
    requires Total(l) <= U64_MAX && payer != target && Get(l, target) == BLANK && space <= MAX_PERMITTED_DATA_LENGTH
    requires !ch.pda(payer) && !ch.pda(target)
    requires Get(l, payer).owner == SYSTEM_PROGRAM_ID && Get(l, payer).data == [] && Get(l, payer).lamports >= lamports
    ensures
      var r := SystemCreate(ch, l, payer, target, lamports, space, owner);
      && r.Ok? && Get(r.value, target) == AccountState(owner, lamports, Zeros(space))
      && Get(r.value, payer) == Get(l, payer).(lamports := Get(l, payer).lamports - lamports)
      && (forall a: Address :: a != payer && a != target ==> Get(r.value, a) == Get(l, a))
  {
    OneWithinTotal(l, payer);
    TransferForm(l[target := AccountState(owner, 0, Zeros(space))], payer, target, lamports);
  }

  lemma InitializeNew(ch: Chain, l: Accounts, authority: Address, staging: Address, n: nat, lamports: nat)
    requires n <= MAX_PUBLIC_INPUTS && authority != staging
    requires Get(l, staging) == AccountState(ch.programId, lamports, Zeros(StagingAccountLen(n)))
    ensures
      var r := InitializeStaging(ch, l, [Meta(authority, true, false), Meta(staging, false, true)], ToLE(n, 2));
      r.Ok? && forall a: Address :: a != staging ==> Get(r.value, a) == Get(l, a)
  {
    hide LE, ToLE, StagingHeaderBytes;
    HeaderN(n);
  }
}
