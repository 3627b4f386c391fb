// The five instructions (program/src/processor/) as functions from the accounts before to the
// accounts after, or the error. `Bank` runs them in place; `Registry` reasons about runs of them.
module Processor {
  import opened Wrappers
  import opened Bytes
  import opened Constants
  import opened Errors
  import opened Points
  import opened KeyLayout
  import opened AccountData
  import opened Ledger
  import Validation
  import Verifier

  /**
   * What the program is deployed on. `derive` is `find_program_address([b"vk", sha256(body)])`,
   * the canonical address and bump of a body; `pda` says which addresses only this program can
   * sign for; `rent` is the rent-exempt minimum for a size.
   */
  datatype Chain = Chain(
    programId: Address,
    curve: Curve,
    derive: seq<byte> -> (Address, byte),
    pda: Address -> bool,
    rent: nat -> nat
  ) {
    ghost predicate DerivesAt(body: seq<byte>) {
      pda(derive(body).0)
    }

    ghost predicate RentAt(size: nat) {
      rent(size) > 0
    }

    ghost predicate Laws() {
      && curve.Laws()
      && programId != SYSTEM_PROGRAM_ID
      && (forall body :: DerivesAt(body))
      && (forall size: nat :: RentAt(size))
    }
  }

  datatype Meta = Meta(address: Address, isSigner: bool, isWritable: bool)

  const MAX_ACCOUNTS := 5

  type Outcome = Result<Accounts, ProgramError>

  // --- Shared checks (processor/mod.rs) ---

  function StagingPair(ch: Chain, l: Accounts, metas: seq<Meta>): Result<(Address, Address), ProgramError> {
    if |metas| != 2 then Err(InvalidArgument)
    else if !metas[0].isSigner then Err(MissingRequiredSignature)
    else if !metas[1].isWritable then Err(InvalidArgument)
    else if Get(l, metas[1].address).owner != ch.programId then Err(InvalidAccountOwner)
    else if metas[0].address == metas[1].address then Err(InvalidArgument)
    else Ok((metas[0].address, metas[1].address))
  }

  function AuthorizedStaging(data: seq<byte>, authority: Address): Result<(StagingHeader, seq<byte>), ProgramError> {
    match ReadStagingAccount(data)
    case Err(e) => Err(MapGroth16(e))
    case Ok(parsed) => if parsed.0.authority != authority then Err(IncorrectAuthority) else Ok(parsed)
  }

  function DrainAndClose(l: Accounts, from: Address, to: Address): Outcome {
    var sum := Get(l, to).lamports + Get(l, from).lamports;
    if sum > U64_MAX then Err(ArithmeticOverflow)
    else Ok(WithLamports(l, to, sum)[from := BLANK])
  }

  // --- Staging instructions ---

  function InitializeStaging(ch: Chain, l: Accounts, metas: seq<Meta>, payload: seq<byte>): Outcome {
    var (authority, staging) :- StagingPair(ch, l, metas);
    if |payload| != 2 then Err(InvalidInstructionData)
    else
      var n := LE(payload);
      var data := Get(l, staging).data;
      if n > MAX_PUBLIC_INPUTS then Err(MapGroth16(TooManyPublicInputs))
      else if |data| != StagingAccountLen(n) then Err(STAGING_SIZE_MISMATCH)
      else if data[DISCRIMINATOR_OFFSET] != DISCRIMINATOR_UNINITIALIZED then Err(AccountAlreadyInitialized)
      else Ok(WithData(l, staging, StagingHeaderBytes(StagingHeader(n, authority)) + data[STAGING_HEADER_LEN..]))
  }

  function Write(ch: Chain, l: Accounts, metas: seq<Meta>, payload: seq<byte>): Outcome {
    var (authority, staging) :- StagingPair(ch, l, metas);
    if |payload| < 4 then Err(InvalidInstructionData)
    else
      var data := Get(l, staging).data;
      var _ :- AuthorizedStaging(data, authority);
      var offset, piece := LE(payload[..4]), payload[4..];
      if STAGING_HEADER_LEN + offset + |piece| > |data| then Err(WRITE_OUT_OF_BOUNDS)
      else Ok(WithData(l, staging, Splice(data, STAGING_HEADER_LEN + offset, piece)))
  }

  function CloseStaging(ch: Chain, l: Accounts, metas: seq<Meta>, payload: seq<byte>): Outcome {
    if |payload| != 0 then Err(InvalidInstructionData)
    else
      var (authority, staging) :- StagingPair(ch, l, metas);
      if !metas[0].isWritable then Err(InvalidArgument)
      else
        var _ :- AuthorizedStaging(Get(l, staging).data, authority);
        DrainAndClose(l, staging, authority)
  }

  // --- Publish ---

  function Transfer(l: Accounts, from: Address, to: Address, lamports: nat): Outcome {
    var payer := Get(l, from);
    if payer.owner != SYSTEM_PROGRAM_ID || payer.data != [] || payer.lamports < lamports then Err(CpiFailed)
    else
      var l1 := WithLamports(l, from, payer.lamports - lamports);
      if Get(l1, to).lamports + lamports > U64_MAX then Err(CpiFailed)
      else Ok(WithLamports(l1, to, Get(l1, to).lamports + lamports))
  }

  function Allocate(l: Accounts, a: Address, space: nat): Outcome {
    if Get(l, a).owner != SYSTEM_PROGRAM_ID || Get(l, a).data != [] || space > MAX_PERMITTED_DATA_INCREASE then Err(CpiFailed)
    else Ok(WithData(l, a, Zeros(space)))
  }

  function Assign(l: Accounts, a: Address, owner: Address): Outcome {
    if Get(l, a).owner != SYSTEM_PROGRAM_ID then Err(CpiFailed) else Ok(WithOwner(l, a, owner))
  }

  function Shortfall(ch: Chain, l: Accounts, key: Address, space: nat): nat {
    if ch.rent(space) > Get(l, key).lamports then ch.rent(space) - Get(l, key).lamports else 0
  }

  /** Top up to rent exemption if needed, then allocate and assign. */
  function CreateKeyAccount(ch: Chain, l: Accounts, payer: Address, key: Address, space: nat): Outcome {
    var shortfall := Shortfall(ch, l, key, space);
    var l1 :- if shortfall > 0 then Transfer(l, payer, key, shortfall) else Ok(l);
    var l2 :- Allocate(l1, key, space);
    Assign(l2, key, ch.programId)
  }

  function KeyData(bump: byte, n: nat, body: seq<byte>): seq<byte> {
    KeyHeaderBytes(KeyHeader(bump, n)) + body
  }

  /** The five account checks, in order. */
  function PublishAccounts(ch: Chain, l: Accounts, metas: seq<Meta>): (r: Result<(), ProgramError>)
    ensures r.Ok? ==> |metas| == 5
  {
    if |metas| != 5 then Err(InvalidArgument)
    else if !metas[0].isSigner then Err(MissingRequiredSignature)
    else if !metas[0].isWritable then Err(InvalidArgument)
    else if !metas[1].isSigner then Err(MissingRequiredSignature)
    else if !metas[1].isWritable || !metas[2].isWritable || !metas[3].isWritable then Err(InvalidArgument)
    else if Get(l, metas[2].address).owner != ch.programId then Err(InvalidAccountOwner)
    else if metas[0].address == metas[2].address then Err(InvalidArgument)
    else if metas[4].address != SYSTEM_PROGRAM_ID then Err(IncorrectProgramId)
    else Ok(())
  }

  /** Steps 2 and 3: the address, then the points. */
  function PublishChecks(ch: Chain, l: Accounts, key: Address, n: nat, body: seq<byte>): Result<(), ProgramError> {
    match FromBodyWithLen(body, n)
    case Err(e) => Err(MapGroth16(e))
    case Ok(vk) =>
      if key != ch.derive(body).0 then Err(KEY_ADDRESS_MISMATCH)
      else if Get(l, key).owner == ch.programId then Err(KEY_ALREADY_PUBLISHED)
      else if Get(l, key).owner != SYSTEM_PROGRAM_ID || Get(l, key).data != [] then Err(BadAccountData)
      else
        match Validation.Outcome(ch.curve, vk)
        case Err(e) => Err(MapGroth16(e))
        case Ok(_) => Ok(())
  }

  function Publish(ch: Chain, l: Accounts, metas: seq<Meta>, payload: seq<byte>): Outcome {
    if |payload| != 0 then Err(InvalidInstructionData)
    else
      var _ :- PublishAccounts(ch, l, metas);
      var authority, payer, staging, key := metas[0].address, metas[1].address, metas[2].address, metas[3].address;
      var (header, body) :- AuthorizedStaging(Get(l, staging).data, authority);
      var n := header.numPublicInputs;
      var _ :- PublishChecks(ch, l, key, n, body);
      var l1 :- CreateKeyAccount(ch, l, payer, key, KeyAccountLen(n));
      var l2 := WithData(l1, key, KeyData(ch.derive(body).1, n, body));
      DrainAndClose(l2, staging, authority)
  }

  // --- Verify ---

  function Verify(ch: Chain, l: Accounts, metas: seq<Meta>, payload: seq<byte>): Result<(), ProgramError> {
    if |metas| != 1 then Err(InvalidArgument)
    else if Get(l, metas[0].address).owner != ch.programId then Err(InvalidAccountOwner)
    else
      match ReadKeyAccount(Get(l, metas[0].address).data)
      case Err(e) => Err(MapGroth16(e))
      case Ok(parsed) =>
        match SplitProof(payload)
        case Err(e) => Err(MapGroth16(e))
        case Ok(split) =>
          match Verifier.VerifyOutcome(ch.curve, parsed.1.AssumeValidated(), split.0, split.1)
          case Err(e) => Err(MapGroth16(e))
          case Ok(_) => Ok(())
  }

  // --- Dispatch ---

  /** The entrypoint sees at most five accounts, then splits off the tag. */
  function ProcessInstruction(ch: Chain, l: Accounts, metas: seq<Meta>, data: seq<byte>): Outcome {
    var seen := if |metas| > MAX_ACCOUNTS then metas[..MAX_ACCOUNTS] else metas;
    if |data| == 0 then Err(InvalidInstructionData)
    else
      var tag, payload := data[0], data[1..];
      if tag == TAG_VERIFY then
        var _ :- Verify(ch, l, seen, payload);
        Ok(l)
      else if tag == TAG_INITIALIZE_STAGING then InitializeStaging(ch, l, seen, payload)
      else if tag == TAG_WRITE then Write(ch, l, seen, payload)
      else if tag == TAG_PUBLISH then Publish(ch, l, seen, payload)
      else if tag == TAG_CLOSE_STAGING then CloseStaging(ch, l, seen, payload)
      else Err(InvalidInstructionData)
  }
}
