// The five processors and the entrypoint (program/src/processor/), changing loaded accounts in
// place. Each ends as the function of the same name in `Processor` says; after an error the runtime
// throws the accounts away, so nothing is promised about them.
module Program {
  import opened Wrappers
  import opened Bytes
  import opened Constants
  import opened Errors
  import opened KeyLayout
  import opened AccountData
  import opened Ledger
  import opened Processor
  import opened Bank
  import Validation
  import Verifier

  type Status = Result<(), ProgramError>

  /** Every account an instruction names has been loaded. */
  ghost predicate Covers(accounts: Loaded, metas: seq<Meta>) {
    forall m :: m in metas ==> m.address in accounts.table
  }

  /** What a processor does: the same answer as the function, and on success the same accounts. */
  ghost predicate Realises(r: Status, after: Accounts, spec: Outcome) {
    match spec
    case Ok(l) => r.Ok? && after == l
    case Err(e) => r == Err(e)
  }

  // --- Shared checks (processor/mod.rs) ---

  method StagingPair(ch: Chain, accounts: Loaded, metas: seq<Meta>) returns (r: Result<(Address, Address), ProgramError>)
    requires accounts.Valid() && Covers(accounts, metas)
    ensures r == Processor.StagingPair(ch, accounts.Contents(), metas)
    ensures r.Ok? ==> r.value.0 in accounts.table && r.value.1 in accounts.table && r.value.0 != r.value.1
  {
    if |metas| != 2 {
      return Err(InvalidArgument);
    }
    var authority, staging := metas[0], metas[1];
    if !authority.isSigner {
      return Err(MissingRequiredSignature);
    }
    if !staging.isWritable {
      return Err(InvalidArgument);
    }
    assert staging in metas && authority in metas;
    if accounts.table[staging.address].owner != ch.programId {
      return Err(InvalidAccountOwner);
    }
    if authority.address == staging.address {
      return Err(InvalidArgument);
    }
    return Ok((authority.address, staging.address));
  }

  method DrainAndClose(accounts: Loaded, from: Address, to: Address) returns (r: Status)
    requires accounts.Valid() && from in accounts.table && to in accounts.table
    modifies accounts.Repr
    ensures accounts.Valid() && fresh(accounts.Repr - old(accounts.Repr))
    ensures Realises(r, accounts.Contents(), Processor.DrainAndClose(old(accounts.Contents()), from, to))
  {
    hide Loaded.Contents, Loaded.Valid, AllZero, Zeros;
    accounts.At(to);
    accounts.At(from);
    var sum := accounts.table[to].lamports + accounts.table[from].lamports;
    if sum > U64_MAX {
      return Err(ArithmeticOverflow);
    }
    accounts.SetLamports(to, sum);
    accounts.SetLamports(from, 0);
    Close(accounts, from);
    return Ok(());
  }

  /** The runtime's `close`: owner, balance and length become zero. */
  method Close(accounts: Loaded, a: Address)
    requires accounts.Valid() && a in accounts.table
    modifies accounts.Repr
    ensures accounts.Valid() && fresh(accounts.Repr - old(accounts.Repr))
    ensures accounts.Contents() == old(accounts.Contents())[a := BLANK]
  {
    hide Loaded.Contents, Loaded.Valid;
    accounts.SetOwner(a, SYSTEM_PROGRAM_ID);
    accounts.SetLamports(a, 0);
    accounts.Resize(a, 0);
  }

  // --- Staging ---

  method InitializeStaging(ch: Chain, accounts: Loaded, metas: seq<Meta>, payload: seq<byte>) returns (r: Status)
    requires accounts.Valid() && Covers(accounts, metas)
    modifies accounts.Repr
    ensures accounts.Valid() && fresh(accounts.Repr - old(accounts.Repr))
    ensures Realises(r, accounts.Contents(), Processor.InitializeStaging(ch, old(accounts.Contents()), metas, payload))
  {
    hide Loaded.Contents, Loaded.Valid, StagingHeaderBytes, LE;
    var pair := StagingPair(ch, accounts, metas);
    if pair.Err? {
      return Err(pair.error);
    }
    var (authority, staging) := pair.value;
    accounts.At(staging);
    if |payload| != 2 {
      return Err(InvalidInstructionData);
    }
    var n := LE(payload);
    if n > MAX_PUBLIC_INPUTS {
      return Err(MapGroth16(TooManyPublicInputs));
    }
    var data := accounts.table[staging].data;
    if data.Length != StagingAccountLen(n) {
      return Err(STAGING_SIZE_MISMATCH);
    }
    if data[DISCRIMINATOR_OFFSET] != DISCRIMINATOR_UNINITIALIZED {
      return Err(AccountAlreadyInitialized);
    }
    accounts.PutStagingHeader(staging, StagingHeader(n, authority));
    return Ok(());
  }

  method Write(ch: Chain, accounts: Loaded, metas: seq<Meta>, payload: seq<byte>) returns (r: Status)
    requires accounts.Valid() && Covers(accounts, metas)
    modifies accounts.Repr
    ensures accounts.Valid() && fresh(accounts.Repr - old(accounts.Repr))
    ensures Realises(r, accounts.Contents(), Processor.Write(ch, old(accounts.Contents()), metas, payload))
  {
    hide Loaded.Contents, Loaded.Valid, ReadStagingAccount, LE, Splice;
    var pair := StagingPair(ch, accounts, metas);
    if pair.Err? {
      return Err(pair.error);
    }
    var (authority, staging) := pair.value;
    accounts.At(staging);
    if |payload| < 4 {
      return Err(InvalidInstructionData);
    }
    var offset, piece := LE(payload[..4]), payload[4..];
    var data := accounts.table[staging].data;
    var parsed := AuthorizedStaging(data[..], authority);
    if parsed.Err? {
      return Err(parsed.error);
    }
    if STAGING_HEADER_LEN + offset + |piece| > data.Length {
      return Err(WRITE_OUT_OF_BOUNDS);
    }
    accounts.PutBytes(staging, STAGING_HEADER_LEN + offset, piece);
    return Ok(());
  }

  method CloseStaging(ch: Chain, accounts: Loaded, metas: seq<Meta>, payload: seq<byte>) returns (r: Status)
    requires accounts.Valid() && Covers(accounts, metas)
    modifies accounts.Repr
    ensures accounts.Valid() && fresh(accounts.Repr - old(accounts.Repr))
    ensures Realises(r, accounts.Contents(), Processor.CloseStaging(ch, old(accounts.Contents()), metas, payload))
  {
    hide Loaded.Contents, Loaded.Valid, ReadStagingAccount, Processor.DrainAndClose;
    if |payload| != 0 {
      return Err(InvalidInstructionData);
    }
    var pair := StagingPair(ch, accounts, metas);
    if pair.Err? {
      return Err(pair.error);
    }
    var (authority, staging) := pair.value;
    accounts.At(staging);
    if !metas[0].isWritable {
      return Err(InvalidArgument);
    }
    var parsed := AuthorizedStaging(accounts.table[staging].data[..], authority);
    if parsed.Err? {
      return Err(parsed.error);
    }
    r := DrainAndClose(accounts, staging, authority);
  }

  // --- Publish ---

  /** The system program's `Transfer`, as a cross-program call. */
  method Transfer(accounts: Loaded, from: Address, to: Address, lamports: nat) returns (r: Status)
    requires accounts.Valid() && from in accounts.table && to in accounts.table
    modifies accounts.Repr
    ensures accounts.Valid() && fresh(accounts.Repr - old(accounts.Repr))
    ensures Realises(r, accounts.Contents(), Processor.Transfer(old(accounts.Contents()), from, to, lamports))
  {
    hide Loaded.Contents, Loaded.Valid;
    accounts.At(from);
    var payer := accounts.table[from];
    if payer.owner != SYSTEM_PROGRAM_ID || payer.data.Length != 0 || payer.lamports < lamports {
      return Err(CpiFailed);
    }
    accounts.SetLamports(from, payer.lamports - lamports);
    accounts.At(to);
    var sum := accounts.table[to].lamports + lamports;
    if sum > U64_MAX {
      return Err(CpiFailed);
    }
    accounts.SetLamports(to, sum);
    return Ok(());
  }

  method Allocate(accounts: Loaded, a: Address, space: nat) returns (r: Status)
    requires accounts.Valid() && a in accounts.table
    modifies accounts.Repr
    ensures accounts.Valid() && fresh(accounts.Repr - old(accounts.Repr))
    ensures Realises(r, accounts.Contents(), Processor.Allocate(old(accounts.Contents()), a, space))
  {
    hide Loaded.Contents, Loaded.Valid;
    accounts.At(a);
    var account := accounts.table[a];
    if account.owner != SYSTEM_PROGRAM_ID || account.data.Length != 0 || space > MAX_PERMITTED_DATA_INCREASE {
      return Err(CpiFailed);
    }
    accounts.Resize(a, space);
    return Ok(());
  }

  method Assign(accounts: Loaded, a: Address, owner: Address) returns (r: Status)
    requires accounts.Valid() && a in accounts.table
    modifies accounts.Repr
    ensures accounts.Valid() && fresh(accounts.Repr - old(accounts.Repr))
    ensures Realises(r, accounts.Contents(), Processor.Assign(old(accounts.Contents()), a, owner))
  {
    hide Loaded.Contents, Loaded.Valid;
    accounts.At(a);
    if accounts.table[a].owner != SYSTEM_PROGRAM_ID {
      return Err(CpiFailed);
    }
    accounts.SetOwner(a, owner);
    return Ok(());
  }

  method CreateKeyAccount(ch: Chain, accounts: Loaded, payer: Address, key: Address, space: nat) returns (r: Status)
    requires accounts.Valid() && payer in accounts.table && key in accounts.table
    modifies accounts.Repr
    ensures accounts.Valid() && fresh(accounts.Repr - old(accounts.Repr))
    ensures Realises(r, accounts.Contents(), Processor.CreateKeyAccount(ch, old(accounts.Contents()), payer, key, space))
  {
    hide Loaded.Contents, Loaded.Valid, Processor.Transfer, Processor.Allocate, Processor.Assign;
    accounts.At(key);
    var required, held := ch.rent(space), accounts.table[key].lamports;
    var shortfall := if required > held then required - held else 0;
    if shortfall > 0 {
      r := Transfer(accounts, payer, key, shortfall);
      if r.Err? {
        return;
      }
    }
    r := Allocate(accounts, key, space);
    if r.Ok? {
      r := Assign(accounts, key, ch.programId);
    }
  }

  method PublishAccounts(ch: Chain, accounts: Loaded, metas: seq<Meta>) returns (r: Status)
    requires accounts.Valid() && Covers(accounts, metas)
    ensures r == Processor.PublishAccounts(ch, accounts.Contents(), metas)
  {
    if |metas| != 5 {
      return Err(InvalidArgument);
    }
    var authority, payer, staging, key, system := metas[0], metas[1], metas[2], metas[3], metas[4];
    assert staging in metas;
    accounts.At(staging.address);
    if !authority.isSigner {
      return Err(MissingRequiredSignature);
    }
    if !authority.isWritable {
      return Err(InvalidArgument);
    }
    if !payer.isSigner {
      return Err(MissingRequiredSignature);
    }
    if !payer.isWritable || !staging.isWritable || !key.isWritable {
      return Err(InvalidArgument);
    }
    if accounts.table[staging.address].owner != ch.programId {
      return Err(InvalidAccountOwner);
    }
    if authority.address == staging.address {
      return Err(InvalidArgument);
    }
    if system.address != SYSTEM_PROGRAM_ID {
      return Err(IncorrectProgramId);
    }
    return Ok(());
  }

  method PublishChecks(ch: Chain, accounts: Loaded, key: Address, n: nat, body: seq<byte>) returns (r: Status)
    requires ch.Laws() && accounts.Valid() && key in accounts.table
    ensures r == Processor.PublishChecks(ch, accounts.Contents(), key, n, body)
  {
    hide Loaded.Valid, Loaded.Contents, Validation.Outcome;
    accounts.At(key);
    var vk := FromBodyWithLen(body, n);
    if vk.Err? {
      return Err(MapGroth16(vk.error));
    }
    if key != ch.derive(body).0 {
      return Err(KEY_ADDRESS_MISMATCH);
    }
    var account := accounts.table[key];
    if account.owner == ch.programId {
      return Err(KEY_ALREADY_PUBLISHED);
    }
    if account.owner != SYSTEM_PROGRAM_ID || account.data.Length != 0 {
      return Err(BadAccountData);
    }
    var valid, _ := Validation.ValidateForPublish(ch.curve, vk.value);
    if valid.Err? {
      return Err(MapGroth16(valid.error));
    }
    return Ok(());
  }

  lemma CreatedSize(ch: Chain, l: Accounts, payer: Address, key: Address, space: nat)
    requires Processor.CreateKeyAccount(ch, l, payer, key, space).Ok?
    ensures |Get(Processor.CreateKeyAccount(ch, l, payer, key, space).value, key).data| == space
  {
    hide Processor.Transfer;
  }

  lemma CheckedSize(ch: Chain, l: Accounts, key: Address, n: nat, body: seq<byte>)
    requires Processor.PublishChecks(ch, l, key, n, body).Ok?
    ensures KEY_HEADER_LEN + |body| == KeyAccountLen(n)
  {
    hide Validation.Outcome;
  }

  lemma ParsedKeyLaidOut(data: seq<byte>)
    requires ReadKeyAccount(data).Ok?
    ensures ReadKeyAccount(data).value.1.LaidOut()
  {
    hide LE;
  }

  /** Header, then body, over a buffer of exactly that size. */
  method FillKey(accounts: Loaded, key: Address, bump: byte, n: nat, body: seq<byte>)
    requires accounts.Valid() && key in accounts.table && accounts.table[key].data.Length == KEY_HEADER_LEN + |body|
    modifies accounts.Repr
    ensures accounts.Valid() && fresh(accounts.Repr - old(accounts.Repr))
    ensures accounts.Contents() == WithData(old(accounts.Contents()), key, KeyData(bump, n, body))
  {
    hide Loaded.Valid, Loaded.Contents, KeyHeaderBytes;
    accounts.At(key);
    ghost var blank := accounts.table[key].data[..];
    accounts.PutKeyHeader(key, KeyHeader(bump, n));
    accounts.At(key);
    ghost var headed := KeyHeaderBytes(KeyHeader(bump, n)) + blank[KEY_HEADER_LEN..];
    assert accounts.table[key].data[..] == headed;
    accounts.PutBytes(key, KEY_HEADER_LEN, body);
    assert Splice(headed, KEY_HEADER_LEN, body) == KeyData(bump, n, body);
  }

  method Publish(ch: Chain, accounts: Loaded, metas: seq<Meta>, payload: seq<byte>) returns (r: Status)
    requires ch.Laws() && accounts.Valid() && Covers(accounts, metas)
    modifies accounts.Repr
    ensures accounts.Valid() && fresh(accounts.Repr - old(accounts.Repr))
    ensures Realises(r, accounts.Contents(), Processor.Publish(ch, old(accounts.Contents()), metas, payload))
  {
    hide Loaded.Valid, Loaded.Contents, AuthorizedStaging, KeyData, Validation.Outcome, Chain.Laws, Zeros, AllZero, WithData;
    hide Processor.PublishAccounts, Processor.PublishChecks, Processor.CreateKeyAccount, Processor.DrainAndClose;
    if |payload| != 0 {
      return Err(InvalidInstructionData);
    }
    r := PublishAccounts(ch, accounts, metas);
    if r.Err? {
      return;
    }
    var authority, payer, staging, key := metas[0], metas[1], metas[2], metas[3];
    assert authority in metas && payer in metas && staging in metas && key in metas;
    accounts.At(staging.address);
    var parsed := AuthorizedStaging(accounts.table[staging.address].data[..], authority.address);
    if parsed.Err? {
      return Err(parsed.error);
    }
    var (header, body) := parsed.value;
    r := PublishChecks(ch, accounts, key.address, header.numPublicInputs, body);
    if r.Err? {
      return;
    }
    r := CreateKeyAccount(ch, accounts, payer.address, key.address, KeyAccountLen(header.numPublicInputs));
    if r.Err? {
      return;
    }
    CreatedSize(ch, old(accounts.Contents()), payer.address, key.address, KeyAccountLen(header.numPublicInputs));
    CheckedSize(ch, old(accounts.Contents()), key.address, header.numPublicInputs, body);
    accounts.At(key.address);
    FillKey(accounts, key.address, ch.derive(body).1, header.numPublicInputs, body);
    r := DrainAndClose(accounts, staging.address, authority.address);
  }

  // --- Verify ---

  method Verify(ch: Chain, accounts: Loaded, metas: seq<Meta>, payload: seq<byte>) returns (r: Status)
    requires ch.Laws() && accounts.Valid() && Covers(accounts, metas)
    ensures r == Processor.Verify(ch, accounts.Contents(), metas, payload)
  {
    hide Loaded.Valid, Loaded.Contents, Verifier.VerifyOutcome, ReadKeyAccount;
    if |metas| != 1 {
      return Err(InvalidArgument);
    }
    assert metas[0] in metas;
    accounts.At(metas[0].address);
    var key := accounts.table[metas[0].address];
    if key.owner != ch.programId {
      return Err(InvalidAccountOwner);
    }
    var parsed := ReadKeyAccount(key.data[..]);
    if parsed.Err? {
      return Err(MapGroth16(parsed.error));
    }
    ParsedKeyLaidOut(key.data[..]);
    var split := SplitProof(payload);
    if split.Err? {
      return Err(MapGroth16(split.error));
    }
    var (proof, inputs) := split.value;
    var answer, _ := Verifier.Verify(ch.curve, parsed.value.1.AssumeValidated(), proof, inputs);
    if answer.Err? {
      return Err(MapGroth16(answer.error));
    }
    return Ok(());
  }

  // --- Dispatch ---

  method ProcessInstruction(ch: Chain, accounts: Loaded, metas: seq<Meta>, data: seq<byte>) returns (r: Status)
    requires ch.Laws() && accounts.Valid() && Covers(accounts, metas)
    modifies accounts.Repr
    ensures accounts.Valid() && fresh(accounts.Repr - old(accounts.Repr))
    ensures Realises(r, accounts.Contents(), Processor.ProcessInstruction(ch, old(accounts.Contents()), metas, data))
  {
    hide Loaded.Valid, Loaded.Contents, Processor.InitializeStaging, Processor.Write, Processor.Publish;
    hide Processor.CloseStaging, Processor.Verify;
    var seen := if |metas| > MAX_ACCOUNTS then metas[..MAX_ACCOUNTS] else metas;
    assert forall m :: m in seen ==> m in metas;
    if |data| == 0 {
      return Err(InvalidInstructionData);
    }
    var tag, payload := data[0], data[1..];
    if tag == TAG_VERIFY {
      r := Verify(ch, accounts, seen, payload);
    } else if tag == TAG_INITIALIZE_STAGING {
      r := InitializeStaging(ch, accounts, seen, payload);
    } else if tag == TAG_WRITE {
      r := Write(ch, accounts, seen, payload);
    } else if tag == TAG_PUBLISH {
      r := Publish(ch, accounts, seen, payload);
    } else if tag == TAG_CLOSE_STAGING {
      r := CloseStaging(ch, accounts, seen, payload);
    } else {
      return Err(InvalidInstructionData);
    }
  }
}
