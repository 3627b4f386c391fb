// What each instruction answers, for every account list and every payload: exactly when it
// succeeds, what it then leaves, and which error the first failed check gives. The bytes and codes
// are those of the documentation; no constant of the model is used.
module Answers {
  import opened Wrappers
  import opened Bytes
  import opened Errors
  import opened Points
  import opened KeyLayout
  import opened AccountData
  import opened Layout
  import opened Ledger
  import opened Processor
  import opened Runtime
  import opened Steps
  import opened Guarantees
  import Constants
  import Groth16
  import Validation
  import Verifier
  import Decision
  import Registry

  // --- Checks several instructions share ---

  function DataAt(l: Accounts, metas: seq<Meta>, i: nat): seq<byte>
    requires i < |metas|
  {
    Get(l, metas[i].address).data
  }

  /** An authority that signs, and a writable staging account of ours that is another account. */
  predicate PairAllowed(ch: Chain, l: Accounts, metas: seq<Meta>) {
    && |metas| == 2 && metas[0].isSigner && metas[1].isWritable
    && Get(l, metas[1].address).owner == ch.programId && metas[0].address != metas[1].address
  }

  function PairRefusal(ch: Chain, l: Accounts, metas: seq<Meta>): ProgramError {
    if |metas| != 2 then InvalidArgument
    else if !metas[0].isSigner then MissingRequiredSignature
    else if !metas[1].isWritable then InvalidArgument
    else if Get(l, metas[1].address).owner != ch.programId then InvalidAccountOwner
    else InvalidArgument
  }

  /** Initialized staging data of exact length that records this authority. */
  predicate StagedFor(data: seq<byte>, authority: Address) {
    && |data| >= 40 && data[0] == 2
    && U16(data[2], data[3]) <= 151 && |data| == 40 + 448 + 64 * (U16(data[2], data[3]) + 1)
    && data[8..40] == authority
  }

  function StagedRefusal(data: seq<byte>): ProgramError {
    if |data| < 40 then Custom(7)
    else if data[0] != 2 then Custom(8)
    else if U16(data[2], data[3]) > 151 || |data| != 40 + 448 + 64 * (U16(data[2], data[3]) + 1) then Custom(7)
    else IncorrectAuthority
  }

  lemma PairAnswers(ch: Chain, l: Accounts, metas: seq<Meta>)
    ensures StagingPair(ch, l, metas) ==
            if PairAllowed(ch, l, metas) then Ok((metas[0].address, metas[1].address)) else Err(PairRefusal(ch, l, metas))
  {
  }

  lemma StagedAnswers(data: seq<byte>, authority: Address)
    ensures AuthorizedStaging(data, authority) ==
            if StagedFor(data, authority)
            then Ok((StagingHeader(U16(data[2], data[3]), authority), data[40..])) else Err(StagedRefusal(data))
  {
    StagingAccountBytes(data);
    hide ReadStagingAccount;
  }

  // --- InitializeStaging ---

  predicate InitializeAllowed(ch: Chain, l: Accounts, metas: seq<Meta>, payload: seq<byte>) {
    && PairAllowed(ch, l, metas) && |payload| == 2 && U16(payload[0], payload[1]) <= 151
    && |DataAt(l, metas, 1)| == 40 + 448 + 64 * (U16(payload[0], payload[1]) + 1) && DataAt(l, metas, 1)[0] == 0
  }

  function InitializeRefusal(ch: Chain, l: Accounts, metas: seq<Meta>, payload: seq<byte>): ProgramError {
    if !PairAllowed(ch, l, metas) then PairRefusal(ch, l, metas)
    else if |payload| != 2 then InvalidInstructionData
    else if U16(payload[0], payload[1]) > 151 then Custom(2)
    else if |DataAt(l, metas, 1)| != 40 + 448 + 64 * (U16(payload[0], payload[1]) + 1) then Custom(102)
    else AccountAlreadyInitialized
  }

  /** Whatever else the accounts are flagged as: a blank account of the exact size gets its forty header bytes. */
  lemma InitializeAnswers(ch: Chain, l: Accounts, metas: seq<Meta>, payload: seq<byte>)
    ensures InitializeStaging(ch, l, metas, payload).Ok? <==> InitializeAllowed(ch, l, metas, payload)
    ensures !InitializeAllowed(ch, l, metas, payload) ==>
              InitializeStaging(ch, l, metas, payload) == Err(InitializeRefusal(ch, l, metas, payload))
    ensures InitializeAllowed(ch, l, metas, payload) ==>
              var pre := Get(l, metas[1].address);
              InitializeStaging(ch, l, metas, payload) ==
              Ok(l[metas[1].address := pre.(data := [2, 0] + payload + [0, 0, 0, 0] + metas[0].address + pre.data[40..])])
  {
    PairAnswers(ch, l, metas);
    if |payload| == 2 {
      TwoBytes(payload);
    }
    if InitializeAllowed(ch, l, metas, payload) {
      var n := U16(payload[0], payload[1]);
      HeaderBytes(n, 0, metas[0].address);
      assert [2, 0, n % 256, n / 256, 0, 0, 0, 0] == [2, 0] + payload + [0, 0, 0, 0];
    }
    hide StagingPair, LE, StagingHeaderBytes;
  }

  // --- Write ---

  predicate WriteAllowed(ch: Chain, l: Accounts, metas: seq<Meta>, payload: seq<byte>) {
    && PairAllowed(ch, l, metas) && |payload| >= 4 && StagedFor(DataAt(l, metas, 1), metas[0].address)
    && U32(payload[0], payload[1], payload[2], payload[3]) + |payload| - 4 <= |DataAt(l, metas, 1)| - 40
  }

  function WriteRefusal(ch: Chain, l: Accounts, metas: seq<Meta>, payload: seq<byte>): ProgramError {
    if !PairAllowed(ch, l, metas) then PairRefusal(ch, l, metas)
    else if |payload| < 4 then InvalidInstructionData
    else if !StagedFor(DataAt(l, metas, 1), metas[0].address) then StagedRefusal(DataAt(l, metas, 1))
    else Custom(103)
  }

  /** Only the authority writes, only within the body, and then every byte is the payload's inside the range and the old one outside. */
  lemma WriteAnswers(ch: Chain, l: Accounts, metas: seq<Meta>, payload: seq<byte>)
    ensures Write(ch, l, metas, payload).Ok? <==> WriteAllowed(ch, l, metas, payload)
    ensures !WriteAllowed(ch, l, metas, payload) ==> Write(ch, l, metas, payload) == Err(WriteRefusal(ch, l, metas, payload))
    ensures WriteAllowed(ch, l, metas, payload) ==>
              var r, pre := Write(ch, l, metas, payload).value, Get(l, metas[1].address);
              var post, start := Get(r, metas[1].address), 40 + U32(payload[0], payload[1], payload[2], payload[3]);
              && post.owner == pre.owner && post.lamports == pre.lamports && |post.data| == |pre.data|
              && (forall k :: 0 <= k < |pre.data| ==>
                    post.data[k] == if start <= k < start + |payload| - 4 then payload[k - start + 4] else pre.data[k])
              && (forall a: Address :: a != metas[1].address ==> Get(r, a) == Get(l, a))
  {
    PairAnswers(ch, l, metas);
    if PairAllowed(ch, l, metas) {
      StagedAnswers(DataAt(l, metas, 1), metas[0].address);
    }
    if |payload| >= 4 {
      FourBytes(payload[..4]);
    }
    hide StagingPair, AuthorizedStaging, LE;
  }

  // --- CloseStaging ---

  predicate CloseAllowed(ch: Chain, l: Accounts, metas: seq<Meta>, payload: seq<byte>) {
    && |payload| == 0 && PairAllowed(ch, l, metas) && metas[0].isWritable
    && StagedFor(DataAt(l, metas, 1), metas[0].address)
    && Get(l, metas[0].address).lamports + Get(l, metas[1].address).lamports < 0x1_0000_0000_0000_0000
  }

  function CloseRefusal(ch: Chain, l: Accounts, metas: seq<Meta>, payload: seq<byte>): ProgramError {
    if |payload| != 0 then InvalidInstructionData
    else if !PairAllowed(ch, l, metas) then PairRefusal(ch, l, metas)
    else if !metas[0].isWritable then InvalidArgument
    else if !StagedFor(DataAt(l, metas, 1), metas[0].address) then StagedRefusal(DataAt(l, metas, 1))
    else ArithmeticOverflow
  }

  lemma CloseAnswers(ch: Chain, l: Accounts, metas: seq<Meta>, payload: seq<byte>)
    ensures CloseStaging(ch, l, metas, payload).Ok? <==> CloseAllowed(ch, l, metas, payload)
    ensures !CloseAllowed(ch, l, metas, payload) ==> CloseStaging(ch, l, metas, payload) == Err(CloseRefusal(ch, l, metas, payload))
    ensures CloseAllowed(ch, l, metas, payload) ==>
              var r, pre := CloseStaging(ch, l, metas, payload).value, Get(l, metas[0].address);
              && Get(r, metas[1].address) == AccountState(Zeros(32), 0, [])
              && Get(r, metas[0].address) == pre.(lamports := pre.lamports + Get(l, metas[1].address).lamports)
              && (forall a: Address :: a != metas[0].address && a != metas[1].address ==> Get(r, a) == Get(l, a))
  {
    PairAnswers(ch, l, metas);
    if PairAllowed(ch, l, metas) {
      StagedAnswers(DataAt(l, metas, 1), metas[0].address);
    }
    hide StagingPair, AuthorizedStaging;
  }

  // --- Publish ---

  predicate AccountsAllowed(ch: Chain, l: Accounts, metas: seq<Meta>) {
    && |metas| == 5
    && metas[0].isSigner && metas[0].isWritable && metas[1].isSigner && metas[1].isWritable
    && metas[2].isWritable && metas[3].isWritable
    && Get(l, metas[2].address).owner == ch.programId && metas[0].address != metas[2].address
    && metas[4].address == Zeros(32)
  }

  function AccountsRefusal(ch: Chain, l: Accounts, metas: seq<Meta>): ProgramError {
    if |metas| != 5 then InvalidArgument
    else if !metas[0].isSigner then MissingRequiredSignature
    else if !metas[0].isWritable then InvalidArgument
    else if !metas[1].isSigner then MissingRequiredSignature
    else if !metas[1].isWritable || !metas[2].isWritable || !metas[3].isWritable then InvalidArgument
    else if Get(l, metas[2].address).owner != ch.programId then InvalidAccountOwner
    else if metas[0].address == metas[2].address then InvalidArgument
    else IncorrectProgramId
  }

  /** The key a staging account's data would become. */
  function StagedKey(data: seq<byte>): (vk: VerifyingKey)
    requires |data| >= 40
    ensures U16(data[2], data[3]) <= 151 && |data| == 40 + 448 + 64 * (U16(data[2], data[3]) + 1) ==> vk.LaidOut()
  {
    VerifyingKey(data[40..], U16(data[2], data[3]), Unchecked)
  }

  /** The derived address of the staged body, untouched but for lamports, and a body fit to publish. */
  predicate KeyAllowed(ch: Chain, key: Address, s: AccountState, vk: VerifyingKey)
    requires vk.LaidOut()
  {
    key == ch.derive(vk.body).0 && s.owner == Zeros(32) && s.data == [] && Validation.Publishable(ch.curve, vk)
  }

  function KeyRefusal(ch: Chain, key: Address, s: AccountState, vk: VerifyingKey): ProgramError
    requires vk.LaidOut()
  {
    if key != ch.derive(vk.body).0 then Custom(100)
    else if s.owner == ch.programId then Custom(101)
    else if s.owner != Zeros(32) || s.data != [] then BadAccountData
    else if Validation.HasIdentity(vk) then Custom(104)
    else Custom(5)
  }

  /** The key holds its rent, or an ordinary payer brings what is missing. */
  predicate Funded(ch: Chain, payer: AccountState, key: AccountState, n: nat) {
    var rent := ch.rent(8 + 448 + 64 * (n + 1));
    key.lamports >= rent || (payer.owner == Zeros(32) && payer.data == [] && payer.lamports + key.lamports >= rent)
  }

  predicate PublishAllowed(ch: Chain, l: Accounts, metas: seq<Meta>, payload: seq<byte>) {
    && |payload| == 0 && AccountsAllowed(ch, l, metas) && StagedFor(DataAt(l, metas, 2), metas[0].address)
    && KeyAllowed(ch, metas[3].address, Get(l, metas[3].address), StagedKey(DataAt(l, metas, 2)))
    && Funded(ch, Get(l, metas[1].address), Get(l, metas[3].address), StagedKey(DataAt(l, metas, 2)).numPublicInputs)
  }

  function PublishRefusal(ch: Chain, l: Accounts, metas: seq<Meta>, payload: seq<byte>): ProgramError {
    if |payload| != 0 then InvalidInstructionData
    else if !AccountsAllowed(ch, l, metas) then AccountsRefusal(ch, l, metas)
    else if !StagedFor(DataAt(l, metas, 2), metas[0].address) then StagedRefusal(DataAt(l, metas, 2))
    else if !KeyAllowed(ch, metas[3].address, Get(l, metas[3].address), StagedKey(DataAt(l, metas, 2)))
    then KeyRefusal(ch, metas[3].address, Get(l, metas[3].address), StagedKey(DataAt(l, metas, 2)))
    else CpiFailed
  }

  lemma AccountsAnswers(ch: Chain, l: Accounts, metas: seq<Meta>)
    ensures PublishAccounts(ch, l, metas) ==
            if AccountsAllowed(ch, l, metas) then Ok(()) else Err(AccountsRefusal(ch, l, metas))
  {
  }

  lemma KeyAnswers(ch: Chain, l: Accounts, key: Address, vk: VerifyingKey)
    requires ch.programId != SYSTEM_PROGRAM_ID && vk.LaidOut() && vk.state.Unchecked?
    ensures PublishChecks(ch, l, key, vk.numPublicInputs, vk.body) ==
            if KeyAllowed(ch, key, Get(l, key), vk) then Ok(()) else Err(KeyRefusal(ch, key, Get(l, key), vk))
  {
    hide Validation.HasIdentity, Validation.PointsDecode;
  }

  /** Creating the account fails only for want of lamports. */
  lemma FundingAnswers(ch: Chain, l: Accounts, payer: Address, key: Address, n: nat)
    requires payer != key && n <= 151 && Total(l) <= Constants.U64_MAX
    requires Get(l, key).owner == SYSTEM_PROGRAM_ID && Get(l, key).data == []
    ensures Funded(ch, Get(l, payer), Get(l, key), n) ==> CreateKeyAccount(ch, l, payer, key, Constants.KeyAccountLen(n)).Ok?
    ensures !Funded(ch, Get(l, payer), Get(l, key), n) ==>
              CreateKeyAccount(ch, l, payer, key, Constants.KeyAccountLen(n)) == Err(CpiFailed)
  {
    PairWithinTotal(l, payer, key);
  }

  /** Once the key exists, draining cannot overflow: there are not that many lamports. */
  lemma FilledThenDrained(ch: Chain, l: Accounts, payer: Address, key: Address, n: nat, data: seq<byte>, staging: Address, authority: Address)
    requires payer != key && staging != authority && Total(l) <= Constants.U64_MAX
    requires CreateKeyAccount(ch, l, payer, key, Constants.KeyAccountLen(n)).Ok?
    ensures DrainAndClose(WithData(CreateKeyAccount(ch, l, payer, key, Constants.KeyAccountLen(n)).value, key, data), staging, authority).Ok?
  {
    CreateKeyForm(ch, l, payer, key, Constants.KeyAccountLen(n));
    hide CreateKeyAccount;
    var l1 := CreateKeyAccount(ch, l, payer, key, Constants.KeyAccountLen(n)).value;
    var l2 := WithData(l1, key, data);
    TotalUpdate(l1, key, Get(l2, key));
    PairWithinTotal(l2, staging, authority);
  }

  lemma PublishAnswers(ch: Chain, l: Accounts, metas: seq<Meta>, payload: seq<byte>)
    requires ch.Laws() && SignersAllowed(ch, metas) && Total(l) <= Constants.U64_MAX
    ensures Publish(ch, l, metas, payload).Ok? <==> PublishAllowed(ch, l, metas, payload)
    ensures !PublishAllowed(ch, l, metas, payload) ==> Publish(ch, l, metas, payload) == Err(PublishRefusal(ch, l, metas, payload))
  {
    hide PublishAccounts, AuthorizedStaging, PublishChecks, CreateKeyAccount, DrainAndClose, KeyData, Validation.Publishable;
    AccountsAnswers(ch, l, metas);
    if AccountsAllowed(ch, l, metas) {
      var authority, payer, staging, key := metas[0].address, metas[1].address, metas[2].address, metas[3].address;
      var data := Get(l, staging).data;
      StagedAnswers(data, authority);
      if StagedFor(data, authority) {
        var vk := StagedKey(data);
        KeyAnswers(ch, l, key, vk);
        if KeyAllowed(ch, key, Get(l, key), vk) {
          assert metas[1] in metas && ch.DerivesAt(vk.body);
          FundingAnswers(ch, l, payer, key, vk.numPublicInputs);
          if Funded(ch, Get(l, payer), Get(l, key), vk.numPublicInputs) {
            FilledThenDrained(ch, l, payer, key, vk.numPublicInputs,
                              KeyData(ch.derive(vk.body).1, vk.numPublicInputs, vk.body), staging, authority);
          }
        }
      }
    }
  }

  /**
   * What a successful `Publish` leaves: the key of the staged body, byte for byte, holding the
   * larger of what was there and its rent; the staging account gone; the payer short of exactly
   * what was added; the authority richer by the staging balance; nothing else.
   */
  lemma PublishLeaves(ch: Chain, l: Accounts, metas: seq<Meta>, payload: seq<byte>)
    requires ch.Laws() && Inv(ch, l) && SignersAllowed(ch, metas) && Publish(ch, l, metas, payload).Ok?
    ensures |metas| == 5 && |DataAt(l, metas, 2)| >= 512
    ensures
      var r, data := Publish(ch, l, metas, payload).value, DataAt(l, metas, 2);
      var authority, payer, staging, key := metas[0].address, metas[1].address, metas[2].address, metas[3].address;
      var rent, held := ch.rent(|data| - 32), Get(l, key).lamports;
      var full := if held >= rent then held else rent;
      && Get(r, key) == AccountState(ch.programId, full,
                                     [1, ch.derive(data[40..]).1, data[2], data[3], 0, 0, 0, 0] + data[40..])
      && Get(r, staging) == AccountState(Zeros(32), 0, [])
      && (payer == authority ==>
            Get(r, authority).lamports + (full - held) == Get(l, authority).lamports + Get(l, staging).lamports)
      && (payer != authority ==> Get(r, authority).lamports == Get(l, authority).lamports + Get(l, staging).lamports)
      && (payer != authority && payer != staging ==> Get(r, payer).lamports + (full - held) == Get(l, payer).lamports)
      && (payer == staging ==> full == held)
      && (forall a: Address :: a != key && a != payer && a != staging && a != authority ==> Get(r, a) == Get(l, a))
  {
    hide Publish, KeyHeaderBytes, ReadStagingAccount, Inv, Chain.Laws, IsStaging, PublishMoves, KeyData, SignersAllowed;
    PublishState(ch, l, metas, payload);
    StagedBytes(Get(l, metas[2].address));
    KeyDataBytes(DataAt(l, metas, 2), ch.derive(DataAt(l, metas, 2)[40..]).1);
    Balances(ch, l, metas, Publish(ch, l, metas, payload).value);
  }

  lemma StagedBytes(s: AccountState)
    requires ReadStagingAccount(s.data).Ok?
    ensures |s.data| >= 512 && StagedN(s) == U16(s.data[2], s.data[3]) <= 151 && StagedBody(s) == s.data[40..]
    ensures |s.data| == 40 + 448 + 64 * (StagedN(s) + 1)
  {
    StagingAccountBytes(s.data);
    hide ReadStagingAccount;
  }

  lemma KeyDataBytes(data: seq<byte>, bump: byte)
    requires |data| >= 40 && U16(data[2], data[3]) <= 151
    ensures KeyData(bump, U16(data[2], data[3]), data[40..]) == [1, bump, data[2], data[3], 0, 0, 0, 0] + data[40..]
  {
    hide KeyHeaderBytes, StagingHeaderBytes;
    HeaderBytes(U16(data[2], data[3]), bump, SYSTEM_PROGRAM_ID);
    assert U16(data[2], data[3]) % 256 == data[2] && U16(data[2], data[3]) / 256 == data[3];
  }

  /** How the balances of a `Publish` end, whoever is who. */
  lemma Balances(ch: Chain, l: Accounts, metas: seq<Meta>, r: Accounts)
    requires |metas| == 5 && ReadStagingAccount(DataAt(l, metas, 2)).Ok? && PublishMoves(ch, l, metas, r)
    ensures |DataAt(l, metas, 2)| >= 512
    ensures
      var authority, payer, staging, key := metas[0].address, metas[1].address, metas[2].address, metas[3].address;
      var rent, held := ch.rent(|DataAt(l, metas, 2)| - 32), Get(l, key).lamports;
      var full := if held >= rent then held else rent;
      && Get(r, key).lamports == full
      && (payer == authority ==>
            Get(r, authority).lamports + (full - held) == Get(l, authority).lamports + Get(l, staging).lamports)
      && (payer != authority ==> Get(r, authority).lamports == Get(l, authority).lamports + Get(l, staging).lamports)
      && (payer != authority && payer != staging ==> Get(r, payer).lamports + (full - held) == Get(l, payer).lamports)
      && (payer == staging ==> full == held)
      && (forall a: Address :: a != key && a != payer && a != staging && a != authority ==> Get(r, a) == Get(l, a))
  {
    hide ReadStagingAccount, Get;
    StagedBytes(Get(l, metas[2].address));
  }

  // --- Verify ---

  /** An account of any other owner is refused, whatever it holds, however it is flagged. */
  lemma VerifyRefusesOthers(ch: Chain, l: Accounts, key: Meta, payload: seq<byte>)
    requires Get(l, key.address).owner != ch.programId
    ensures Verify(ch, l, [key], payload) == Err(InvalidAccountOwner)
  {
  }

  /** The error a verification code stands for. */
  function Coded(e: Groth16Error): ProgramError {
    match e
    case InvalidProofLength => Custom(0)
    case InvalidKeyLength => Custom(1)
    case TooManyPublicInputs => Custom(2)
    case PublicInputCountMismatch => Custom(3)
    case NonCanonicalScalar => Custom(4)
    case InvalidPoint => Custom(5)
    case ProofInvalid => Custom(6)
    case InvalidAccountData => Custom(7)
    case WrongDiscriminator => Custom(8)
    case IdentityKeyElement => Custom(104)
  }

  /** Data of a key account of exact length. */
  predicate KeyShaped(data: seq<byte>) {
    |data| >= 8 && data[0] == 1 && U16(data[2], data[3]) <= 151 && |data| == 8 + 448 + 64 * (U16(data[2], data[3]) + 1)
  }

  function ShapeRefusal(data: seq<byte>): ProgramError {
    if |data| < 8 then Custom(7)
    else if data[0] != 1 then Custom(8)
    else if U16(data[2], data[3]) > 151 then Custom(2)
    else Custom(1)
  }

  function HeldKey(data: seq<byte>): (vk: VerifyingKey)
    requires KeyShaped(data)
    ensures vk.LaidOut() && vk.state.Checked?
  {
    VerifyingKey(data[8..], U16(data[2], data[3]), Checked)
  }

  /** Every refusal that comes before the mathematics, and what is asked of the verifier after them. */
  lemma VerifyAnswers(ch: Chain, l: Accounts, metas: seq<Meta>, payload: seq<byte>)
    ensures |metas| != 1 ==> Verify(ch, l, metas, payload) == Err(InvalidArgument)
    ensures |metas| == 1 && Get(l, metas[0].address).owner != ch.programId ==>
              Verify(ch, l, metas, payload) == Err(InvalidAccountOwner)
    ensures |metas| == 1 && Get(l, metas[0].address).owner == ch.programId ==>
              var data := DataAt(l, metas, 0);
              Verify(ch, l, metas, payload) ==
              if !KeyShaped(data) then Err(ShapeRefusal(data))
              else if |payload| < 256 then Err(Custom(0))
              else match Verifier.VerifyOutcome(ch.curve, HeldKey(data), Proof(payload[..256]), payload[256..])
                   case Ok(_) => Ok(())
                   case Err(e) => Err(Coded(e))
  {
    if |metas| == 1 {
      KeyAccountBytes(DataAt(l, metas, 0));
    }
    hide ReadKeyAccount, Verifier.VerifyOutcome;
  }

  /** The payload is a proof and exactly `n` canonical inputs, and the Groth16 equation of the key holds for them. */
  ghost predicate Proven(c: Curve, vk: VerifyingKey, payload: seq<byte>)
    requires vk.LaidOut() && Validation.PointsDecode(c, vk)
  {
    && |payload| == 256 + 32 * vk.numPublicInputs
    && var proof, scalars := Proof(payload[..256]), Verifier.Scalars(payload[256..]);
       && (forall i :: 0 <= i < |scalars| ==> scalars[i] < Constants.FR)
       && Decision.ProofDecodes(c, proof)
       && Groth16.Accepts(c, Validation.Elements(c, vk), Decision.ProofElements(c, proof), scalars)
  }

  /**
   * In every reachable state `Verify` succeeds exactly on a key account, at the address derived
   * from its own body, whose Groth16 equation the payload satisfies.
   */
  lemma VerifyAcceptsIff(ch: Chain, l: Accounts, txs: seq<Transaction>, metas: seq<Meta>, payload: seq<byte>)
    requires ch.Laws() && Genesis(ch, l)
    ensures
      var after := Run(ch, l, txs);
      Verify(ch, after, metas, payload).Ok? <==>
      && |metas| == 1 && IsKey(ch, metas[0].address, Get(after, metas[0].address))
      && var vk := ReadKeyAccount(DataAt(after, metas, 0)).value.1;
         ch.derive(vk.body).0 == metas[0].address && vk.LaidOut() && Validation.PointsDecode(ch.curve, vk)
         && Proven(ch.curve, vk, payload)
  {
    hide Run, IsKey, Verify, Proven, Genesis, ReadKeyAccount, Chain.Laws;
    var after := Run(ch, l, txs);
    if |metas| == 1 {
      var a := metas[0].address;
      assert metas == [metas[0]];
      Registry.ReachableInv(ch, l, txs, a);
      if IsKey(ch, a, Get(after, a)) {
        KeyDecides(ch, after, metas[0], payload);
      } else {
        OthersRefused(ch, after, metas[0], payload);
      }
    } else {
      VerifyAnswers(ch, after, metas, payload);
    }
  }

  lemma OthersRefused(ch: Chain, l: Accounts, key: Meta, payload: seq<byte>)
    requires
      var s := Get(l, key.address);
      !(s.owner == ch.programId && |s.data| > 0 && s.data[0] == 1)
    ensures Verify(ch, l, [key], payload).Err?
  {
    VerifyAnswers(ch, l, [key], payload);
    hide Verify, Verifier.VerifyOutcome;
  }

  lemma KeyDecides(ch: Chain, l: Accounts, key: Meta, payload: seq<byte>)
    requires ch.Laws() && IsKey(ch, key.address, Get(l, key.address))
    ensures
      var vk := ReadKeyAccount(Get(l, key.address).data).value.1;
      && ch.derive(vk.body).0 == key.address && vk.LaidOut() && Validation.PointsDecode(ch.curve, vk)
      && (Verify(ch, l, [key], payload).Ok? <==> Proven(ch.curve, vk, payload))
  {
    hide Verifier.VerifyOutcome, Validation.HasIdentity, Validation.PointsDecode, Decision.ProofDecodes, Groth16.Accepts;
    hide Validation.Elements;
    var data := Get(l, key.address).data;
    KeyAccountBytes(data);
    VerifyAnswers(ch, l, [key], payload);
    hide Verify, ReadKeyAccount;
    var vk := ReadKeyAccount(data).value.1;
    Decision.MarkerIrrelevant(ch.curve, vk);
    if |payload| >= 256 {
      ProvenIff(ch.curve, HeldKey(data), payload);
    }
  }

  lemma ProvenIff(c: Curve, vk: VerifyingKey, payload: seq<byte>)
    requires c.Laws() && vk.LaidOut() && Validation.PointsDecode(c, vk) && |payload| >= 256
    ensures Verifier.VerifyOutcome(c, vk, Proof(payload[..256]), payload[256..]).Ok? <==> Proven(c, vk, payload)
  {
    hide Verifier.VerifyOutcome, Validation.PointsDecode, Groth16.Accepts, Decision.ProofDecodes;
    Decision.VerifyDecides(c, vk, Proof(payload[..256]), payload[256..]);
  }

  // --- Dispatch ---

  /** The first byte picks the instruction, from 0 to 4; accounts beyond the fifth are never seen. */
  lemma DispatchAnswers(ch: Chain, l: Accounts, metas: seq<Meta>, data: seq<byte>)
    ensures |data| == 0 || data[0] > 4 ==> ProcessInstruction(ch, l, metas, data) == Err(InvalidInstructionData)
    ensures
      var seen := if |metas| > 5 then metas[..5] else metas;
      && (|data| > 0 && data[0] == 0 ==> ProcessInstruction(ch, l, metas, data) == InitializeStaging(ch, l, seen, data[1..]))
      && (|data| > 0 && data[0] == 1 ==> ProcessInstruction(ch, l, metas, data) == Write(ch, l, seen, data[1..]))
      && (|data| > 0 && data[0] == 2 ==> ProcessInstruction(ch, l, metas, data) == Publish(ch, l, seen, data[1..]))
      && (|data| > 0 && data[0] == 3 && Verify(ch, l, seen, data[1..]).Ok? ==> ProcessInstruction(ch, l, metas, data) == Ok(l))
      && (|data| > 0 && data[0] == 3 && Verify(ch, l, seen, data[1..]).Err? ==>
            ProcessInstruction(ch, l, metas, data) == Err(Verify(ch, l, seen, data[1..]).error))
      && (|data| > 0 && data[0] == 4 ==> ProcessInstruction(ch, l, metas, data) == CloseStaging(ch, l, seen, data[1..]))
  {
    hide InitializeStaging, Write, Publish, Verify, CloseStaging;
  }
}
