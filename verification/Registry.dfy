// What the registry promises over every run: any transactions, any interleaving, any behaviour of
// other programs, any aliasing of the accounts an instruction is given.
module Registry {
  import opened Wrappers
  import opened Bytes
  import opened Constants
  import opened Errors
  import opened KeyLayout
  import opened AccountData
  import opened Ledger
  import opened Processor
  import opened Runtime
  import opened Steps
  import Validation
  import Verifier
  import Decision

  // --- One instruction, one account ---

  /** A successful instruction of this program does one of the six things to each account, and conserves lamports. */
  lemma GrothStep(ch: Chain, l: Accounts, metas: seq<Meta>, data: seq<byte>, a: Address)
    requires ch.Laws() && Inv(ch, l) && SignersAllowed(ch, metas) && ProcessInstruction(ch, l, metas, data).Ok?
    ensures
      var r := ProcessInstruction(ch, l, metas, data).value;
      AccountStep(ch, metas, a, Get(l, a), Get(r, a)) && Total(r) == Total(l)
  {
    hide Verify, InitializeStaging, Write, Publish, CloseStaging;
    hide IsStaging, IsKey, Initialized, Rewritten, PublishMoves;
    var seen := if |metas| > MAX_ACCOUNTS then metas[..MAX_ACCOUNTS] else metas;
    SeenMetas(ch, metas, seen, Get(l, a), Get(ProcessInstruction(ch, l, metas, data).value, a), a);
    var tag, payload := data[0], data[1..];
    if tag == TAG_INITIALIZE_STAGING {
      InitializeForm(ch, l, seen, payload);
    } else if tag == TAG_WRITE {
      WriteForm(ch, l, seen, payload);
    } else if tag == TAG_PUBLISH {
      PublishStep(ch, l, seen, payload, a);
    } else if tag == TAG_CLOSE_STAGING {
      CloseForm(ch, l, seen, payload);
    }
  }

  lemma PublishStep(ch: Chain, l: Accounts, metas: seq<Meta>, payload: seq<byte>, a: Address)
    requires ch.Laws() && Inv(ch, l) && SignersAllowed(ch, metas) && Publish(ch, l, metas, payload).Ok?
    ensures
      var r := Publish(ch, l, metas, payload).value;
      AccountStep(ch, metas, a, Get(l, a), Get(r, a)) && Total(r) == Total(l)
  {
    hide Publish, IsStaging, IsKey, Initialized, Rewritten, Published, Closed;
    PublishForm(ch, l, metas, payload);
    assert metas[0] in metas;
  }

  /** The entrypoint's truncation to five accounts only drops signatures. */
  lemma SeenMetas(ch: Chain, metas: seq<Meta>, seen: seq<Meta>, pre: AccountState, post: AccountState, a: Address)
    requires SignersAllowed(ch, metas) && |seen| <= |metas| && seen == metas[..|seen|]
    ensures SignersAllowed(ch, seen)
    ensures AccountStep(ch, seen, a, pre, post) ==> AccountStep(ch, metas, a, pre, post)
  {
    hide IsStaging, IsKey;
    assert forall b: Address :: Signs(seen, b) ==> Signs(metas, b);
  }

  predicate Writable(metas: seq<Meta>, a: Address) {
    exists m :: m in metas && m.address == a && m.isWritable
  }

  /** An instruction changes only accounts it was given as writable. */
  lemma OnlyWritableChange(ch: Chain, l: Accounts, metas: seq<Meta>, data: seq<byte>, a: Address)
    requires ch.Laws() && Inv(ch, l) && SignersAllowed(ch, metas) && ProcessInstruction(ch, l, metas, data).Ok?
    requires Get(ProcessInstruction(ch, l, metas, data).value, a) != Get(l, a)
    ensures Writable(metas, a)
  {
    hide Verify, InitializeStaging, Write, Publish, CloseStaging;
    hide IsStaging, IsKey, Initialized, Rewritten, Closed, Published;
    var seen := if |metas| > MAX_ACCOUNTS then metas[..MAX_ACCOUNTS] else metas;
    var tag, payload := data[0], data[1..];
    assert forall m :: m in seen ==> m in metas;
    if tag == TAG_INITIALIZE_STAGING {
      InitializeForm(ch, l, seen, payload);
      assert seen[1] in seen;
    } else if tag == TAG_WRITE {
      WriteForm(ch, l, seen, payload);
      assert seen[1] in seen;
    } else if tag == TAG_PUBLISH {
      PublishForm(ch, l, seen, payload);
      assert seen[0] in seen && seen[1] in seen && seen[2] in seen && seen[3] in seen;
    } else if tag == TAG_CLOSE_STAGING {
      CloseForm(ch, l, seen, payload);
      assert seen[0] in seen && seen[1] in seen;
    }
  }

  // --- What each kind of step keeps ---

  lemma StepKeepsInv(ch: Chain, metas: seq<Meta>, a: Address, pre: AccountState, post: AccountState)
    requires ch.programId != SYSTEM_PROGRAM_ID
    requires AccountInv(ch, a, pre) && AccountStep(ch, metas, a, pre, post)
    ensures AccountInv(ch, a, post)
  {
    hide Validation.Publishable;
  }

  lemma StepKeepsKey(ch: Chain, metas: seq<Meta>, a: Address, pre: AccountState, post: AccountState)
    requires ch.programId != SYSTEM_PROGRAM_ID
    requires IsKey(ch, a, pre) && AccountStep(ch, metas, a, pre, post)
    ensures Credited(pre, post)
  {
    hide Validation.Publishable;
  }

  /** Without its authority's signature a staging account is only ever credited. */
  lemma StepKeepsStaging(ch: Chain, metas: seq<Meta>, a: Address, pre: AccountState, post: AccountState)
    requires ch.programId != SYSTEM_PROGRAM_ID
    requires IsStaging(ch, a, pre) && AccountStep(ch, metas, a, pre, post)
    ensures Credited(pre, post) || (Signs(metas, AuthorityOf(pre)) && (Rewritten(ch, metas, a, pre, post) || post == BLANK))
  {
    hide Validation.Publishable;
  }

  lemma RuleKeepsInv(ch: Chain, a: Address, pre: AccountState, post: AccountState, signed: bool)
    requires AccountInv(ch, a, pre) && AccountRule(ch, pre, post, signed) && (signed ==> !ch.pda(a))
    requires ch.programId != SYSTEM_PROGRAM_ID
    ensures AccountInv(ch, a, post)
    ensures pre.owner == ch.programId ==> Credited(pre, post)
  {
    hide Validation.Publishable;
  }

  /** The system program's `CreateAccount` obeys the rules for foreign programs. */
  lemma CreateIsForeign(ch: Chain, l: Accounts, payer: Address, target: Address, lamports: nat, space: nat, owner: Address)
    requires SystemCreate(ch, l, payer, target, lamports, space, owner).Ok?
    requires ch.programId != SYSTEM_PROGRAM_ID
    ensures ForeignAllowed(ch, l, {payer, target}, SystemCreate(ch, l, payer, target, lamports, space, owner).value)
    ensures payer != target ==>
              Get(SystemCreate(ch, l, payer, target, lamports, space, owner).value, target) ==
              AccountState(owner, lamports, Zeros(space))
  {
    var created := AccountState(owner, 0, Zeros(space));
    var m := l[target := created];
    var r := SystemCreate(ch, l, payer, target, lamports, space, owner).value;
    TotalUpdate(l, target, created);
    if payer == target {
      var mid := WithLamports(m, payer, 0);
      TotalUpdate(m, payer, Get(mid, payer));
      TotalUpdate(mid, payer, Get(r, payer));
    } else {
      TransferForm(m, payer, target, lamports);
    }
    forall a: Address
      ensures RuleAt(ch, l, {payer, target}, r, a)
    {
    }
  }

  // --- The environment is as free as it is said to be ---

  /** Anyone may send lamports it holds to any address at all, a derived one included. */
  lemma TransfersAllowed(ch: Chain, l: Accounts, from: Address, to: Address, lamports: nat)
    requires from != to && !ch.pda(from) && Get(l, from).owner == SYSTEM_PROGRAM_ID && Get(l, from).owner != ch.programId
    requires Transfer(l, from, to, lamports).Ok?
    ensures Exec(ch, l, Foreign({from}, Transfer(l, from, to, lamports).value)) == Transfer(l, from, to, lamports)
  {
    var r := Transfer(l, from, to, lamports).value;
    TransferForm(l, from, to, lamports);
    hide Transfer;
    forall a: Address
      ensures RuleAt(ch, l, {from}, r, a)
    {
    }
  }

  /** Another program may put anything into an account it owns, or hand it over zeroed to anyone. */
  lemma OwnersMayRewrite(ch: Chain, l: Accounts, a: Address, owner: Address, data: seq<byte>)
    requires Get(l, a).owner != ch.programId && Get(l, a).owner != SYSTEM_PROGRAM_ID
    requires owner == ch.programId ==> AllZero(data)
    ensures
      var post := l[a := AccountState(owner, Get(l, a).lamports, data)];
      Exec(ch, l, Foreign({}, post)) == Ok(post)
  {
    var post := l[a := AccountState(owner, Get(l, a).lamports, data)];
    TotalUpdate(l, a, post[a]);
    forall b: Address
      ensures RuleAt(ch, l, {}, post, b)
    {
    }
  }

  /** Whoever signs for a system account may allocate it and assign it, to this program too. */
  lemma SignersMayAssign(ch: Chain, l: Accounts, a: Address, owner: Address, space: nat)
    requires Get(l, a).owner == SYSTEM_PROGRAM_ID && ch.programId != SYSTEM_PROGRAM_ID && !ch.pda(a)
    ensures
      var post := l[a := AccountState(owner, Get(l, a).lamports, Zeros(space))];
      Exec(ch, l, Foreign({a}, post)) == Ok(post)
  {
    var post := l[a := AccountState(owner, Get(l, a).lamports, Zeros(space))];
    TotalUpdate(l, a, post[a]);
    forall b: Address
      ensures RuleAt(ch, l, {a}, post, b)
    {
    }
  }

  // --- One instruction of any kind ---

  /** Whether `a` signs an instruction of this program. */
  predicate SignedBy(i: Instr, a: Address) {
    i.Groth? && Signs(i.metas, a)
  }

  ghost predicate Kept(ch: Chain, i: Instr, a: Address, pre: AccountState, post: AccountState) {
    && AccountInv(ch, a, post)
    && (IsKey(ch, a, pre) ==> Credited(pre, post))
    && (IsStaging(ch, a, pre) ==>
          Credited(pre, post)
          || (SignedBy(i, AuthorityOf(pre)) && (Rewritten(ch, i.metas, a, pre, post) || post == BLANK)))
  }

  lemma InstructionKeeps(ch: Chain, l: Accounts, i: Instr, a: Address)
    requires ch.Laws() && Inv(ch, l) && Exec(ch, l, i).Ok?
    ensures Kept(ch, i, a, Get(l, a), Get(Exec(ch, l, i).value, a))
    ensures Total(Exec(ch, l, i).value) == Total(l)
  {
    hide IsStaging, IsKey, AccountInv, AccountStep, ProcessInstruction, Rewritten, SystemCreate, AccountRule;
    assert InvAt(ch, l, a);
    var pre, r := Get(l, a), Exec(ch, l, i).value;
    match i
    case Groth(metas, data) =>
      GrothStep(ch, l, metas, data, a);
      StepFacts(ch, i, a, pre, Get(r, a));
    case Foreign(signers, post) =>
      assert RuleAt(ch, l, signers, post, a);
      RuleFacts(ch, i, a, pre, Get(r, a), a in signers);
    case CreateAccount(payer, target, lamports, space, owner) =>
      CreateIsForeign(ch, l, payer, target, lamports, space, owner);
      assert RuleAt(ch, l, {payer, target}, r, a);
      RuleFacts(ch, i, a, pre, Get(r, a), a in {payer, target});
  }

  lemma StepFacts(ch: Chain, i: Instr, a: Address, pre: AccountState, post: AccountState)
    requires ch.programId != SYSTEM_PROGRAM_ID && i.Groth?
    requires AccountInv(ch, a, pre) && AccountStep(ch, i.metas, a, pre, post)
    ensures Kept(ch, i, a, pre, post)
  {
    StepKeepsInv(ch, i.metas, a, pre, post);
    if IsKey(ch, a, pre) {
      StepKeepsKey(ch, i.metas, a, pre, post);
    }
    if IsStaging(ch, a, pre) {
      StepKeepsStaging(ch, i.metas, a, pre, post);
    }
    hide IsStaging, IsKey, AccountInv, AccountStep, Rewritten;
  }

  lemma RuleFacts(ch: Chain, i: Instr, a: Address, pre: AccountState, post: AccountState, signed: bool)
    requires ch.programId != SYSTEM_PROGRAM_ID
    requires AccountInv(ch, a, pre) && AccountRule(ch, pre, post, signed) && (signed ==> !ch.pda(a))
    ensures Kept(ch, i, a, pre, post)
  {
    hide Validation.Publishable;
    RuleKeepsInv(ch, a, pre, post, signed);
  }

  lemma InstructionInv(ch: Chain, l: Accounts, i: Instr)
    requires ch.Laws() && Inv(ch, l) && Exec(ch, l, i).Ok?
    ensures Inv(ch, Exec(ch, l, i).value) && Total(Exec(ch, l, i).value) == Total(l)
  {
    hide AccountInv, Exec;
    InstructionKeeps(ch, l, i, SYSTEM_PROGRAM_ID);
    forall a: Address
      ensures InvAt(ch, Exec(ch, l, i).value, a)
    {
      InstructionKeeps(ch, l, i, a);
    }
  }

  // --- Transactions and runs ---

  lemma {:induction false} AllInv(ch: Chain, l: Accounts, tx: Transaction)
    requires ch.Laws() && Inv(ch, l) && ExecAll(ch, l, tx).Ok?
    ensures Inv(ch, ExecAll(ch, l, tx).value) && Total(ExecAll(ch, l, tx).value) == Total(l)
    decreases |tx|
  {
    hide Exec, Inv;
    if |tx| > 0 {
      InstructionInv(ch, l, tx[0]);
      AllInv(ch, Exec(ch, l, tx[0]).value, tx[1..]);
    }
  }

  lemma PurgeInv(ch: Chain, l: Accounts)
    requires Inv(ch, l) && ch.programId != SYSTEM_PROGRAM_ID
    ensures Inv(ch, Purge(l)) && Total(Purge(l)) == Total(l)
  {
    hide IsKey, IsStaging, IsBlankOwned;
    PurgeKeepsTotal(l);
    forall a: Address
      ensures InvAt(ch, Purge(l), a)
    {
      assert InvAt(ch, l, a);
      PurgeGet(l, a);
    }
  }

  lemma CommitInv(ch: Chain, l: Accounts, tx: Transaction)
    requires ch.Laws() && Inv(ch, l)
    ensures Inv(ch, Commit(ch, l, tx)) && Total(Commit(ch, l, tx)) == Total(l)
  {
    hide Inv, ExecAll, Purge;
    if ExecAll(ch, l, tx).Ok? {
      AllInv(ch, l, tx);
      PurgeInv(ch, ExecAll(ch, l, tx).value);
    }
  }

  /** The invariant holds after every run, and lamports are neither made nor lost. */
  lemma {:induction false} RunInv(ch: Chain, l: Accounts, txs: seq<Transaction>)
    requires ch.Laws() && Inv(ch, l)
    ensures Inv(ch, Run(ch, l, txs)) && Total(Run(ch, l, txs)) == Total(l)
    decreases |txs|
  {
    hide Inv, Commit;
    if |txs| > 0 {
      CommitInv(ch, l, txs[0]);
      RunInv(ch, Commit(ch, l, txs[0]), txs[1..]);
    }
  }

  /**
   * In every reachable state each account this program owns under the key discriminator sits at
   * the canonical address and bump of its own body, at its exact length, with every point
   * validated; and a derived address the program does not own holds nothing.
   */
  lemma ReachableInv(ch: Chain, l: Accounts, txs: seq<Transaction>, a: Address)
    requires ch.Laws() && Genesis(ch, l)
    ensures
      var s := Get(Run(ch, l, txs), a);
      && (s.owner == ch.programId && |s.data| > 0 && s.data[0] == DISCRIMINATOR_KEY ==> IsKey(ch, a, s))
      && (ch.pda(a) ==> IsKey(ch, a, s) || (s.owner == SYSTEM_PROGRAM_ID && s.data == []))
  {
    hide Validation.Publishable, Run;
    forall b: Address
      ensures InvAt(ch, l, b)
    {
      assert GenesisAt(ch, l, b);
    }
    RunInv(ch, l, txs);
    assert InvAt(ch, Run(ch, l, txs), a);
  }

  // --- Published keys never change ---

  lemma {:induction false} AllKeepsKey(ch: Chain, l: Accounts, tx: Transaction, a: Address)
    requires ch.Laws() && Inv(ch, l) && ExecAll(ch, l, tx).Ok? && IsKey(ch, a, Get(l, a))
    ensures Credited(Get(l, a), Get(ExecAll(ch, l, tx).value, a))
    decreases |tx|
  {
    hide Exec, Inv, Validation.Publishable, ReadKeyAccount;
    if |tx| > 0 {
      var next := Exec(ch, l, tx[0]).value;
      InstructionKeeps(ch, l, tx[0], a);
      InstructionInv(ch, l, tx[0]);
      AllKeepsKey(ch, next, tx[1..], a);
    }
  }

  /** Immutability: once published, owner and every byte stay, and the balance never falls. */
  lemma {:induction false} KeysAreImmutable(ch: Chain, l: Accounts, txs: seq<Transaction>, a: Address)
    requires ch.Laws() && Inv(ch, l) && IsKey(ch, a, Get(l, a))
    ensures Credited(Get(l, a), Get(Run(ch, l, txs), a)) && IsKey(ch, a, Get(Run(ch, l, txs), a))
    decreases |txs|
  {
    hide ExecAll, Inv, Validation.Publishable, ReadKeyAccount;
    if |txs| > 0 {
      var tx := txs[0];
      if ExecAll(ch, l, tx).Ok? {
        AllKeepsKey(ch, l, tx, a);
        PurgeGet(ExecAll(ch, l, tx).value, a);
      }
      CommitInv(ch, l, tx);
      KeysAreImmutable(ch, Commit(ch, l, tx), txs[1..], a);
    }
  }

  // --- Staging accounts belong to their authority ---

  ghost predicate UnsignedBy(tx: Transaction, a: Address) {
    forall i :: i in tx ==> !SignedBy(i, a)
  }

  ghost predicate RunUnsignedBy(txs: seq<Transaction>, a: Address) {
    forall tx :: tx in txs ==> UnsignedBy(tx, a)
  }

  lemma CreditedStaging(ch: Chain, a: Address, pre: AccountState, post: AccountState)
    requires IsStaging(ch, a, pre) && Credited(pre, post)
    ensures IsStaging(ch, a, post) && AuthorityOf(post) == AuthorityOf(pre)
  {
  }

  lemma {:induction false} AllKeepsStaging(ch: Chain, l: Accounts, tx: Transaction, a: Address)
    requires ch.Laws() && Inv(ch, l) && ExecAll(ch, l, tx).Ok? && IsStaging(ch, a, Get(l, a))
    requires UnsignedBy(tx, AuthorityOf(Get(l, a)))
    ensures Credited(Get(l, a), Get(ExecAll(ch, l, tx).value, a))
    decreases |tx|
  {
    hide Exec, Inv, IsStaging, SignedBy;
    if |tx| > 0 {
      assert tx[0] in tx;
      var next := Exec(ch, l, tx[0]).value;
      InstructionKeeps(ch, l, tx[0], a);
      InstructionInv(ch, l, tx[0]);
      CreditedStaging(ch, a, Get(l, a), Get(next, a));
      AllKeepsStaging(ch, next, tx[1..], a);
    }
  }

  /** Isolation: without the authority's signature no run changes a funded staging account, except by crediting it. */
  lemma {:induction false} StagingIsolated(ch: Chain, l: Accounts, txs: seq<Transaction>, a: Address)
    requires ch.Laws() && Inv(ch, l) && IsStaging(ch, a, Get(l, a)) && Get(l, a).lamports > 0
    requires RunUnsignedBy(txs, AuthorityOf(Get(l, a)))
    ensures Credited(Get(l, a), Get(Run(ch, l, txs), a))
    decreases |txs|
  {
    hide ExecAll, Inv, IsStaging, UnsignedBy;
    if |txs| > 0 {
      var tx := txs[0];
      assert tx in txs;
      if ExecAll(ch, l, tx).Ok? {
        AllKeepsStaging(ch, l, tx, a);
        PurgeGet(ExecAll(ch, l, tx).value, a);
      }
      var next := Commit(ch, l, tx);
      CommitInv(ch, l, tx);
      CreditedStaging(ch, a, Get(l, a), Get(next, a));
      StagingIsolated(ch, next, txs[1..], a);
    }
  }

  /** The account is never closed along a transaction. */
  ghost predicate NeverBlank(ch: Chain, l: Accounts, tx: Transaction, a: Address)
    decreases |tx|
  {
    Get(l, a) != BLANK && (|tx| > 0 && Exec(ch, l, tx[0]).Ok? ==> NeverBlank(ch, Exec(ch, l, tx[0]).value, tx[1..], a))
  }

  lemma HeaderKept(ch: Chain, i: Instr, a: Address, pre: AccountState, post: AccountState)
    requires IsStaging(ch, a, pre) && Kept(ch, i, a, pre, post) && post != BLANK
    ensures IsStaging(ch, a, post) && ReadStagingAccount(post.data).value.0 == ReadStagingAccount(pre.data).value.0
  {
    hide Validation.Publishable;
  }

  /** Authority and `n` are fixed from initialization until closing, whoever signs. */
  lemma {:induction false} HeaderFixedUntilClosed(ch: Chain, l: Accounts, tx: Transaction, a: Address)
    requires ch.Laws() && Inv(ch, l) && ExecAll(ch, l, tx).Ok?
    requires IsStaging(ch, a, Get(l, a)) && NeverBlank(ch, l, tx, a)
    ensures
      var post := Get(ExecAll(ch, l, tx).value, a);
      IsStaging(ch, a, post) && ReadStagingAccount(post.data).value.0 == ReadStagingAccount(Get(l, a).data).value.0
    decreases |tx|
  {
    hide Exec, Inv, IsStaging, Kept, ReadStagingAccount;
    if |tx| > 0 {
      var next := Exec(ch, l, tx[0]).value;
      InstructionKeeps(ch, l, tx[0], a);
      InstructionInv(ch, l, tx[0]);
      assert NeverBlank(ch, next, tx[1..], a);
      StagingParses(ch, a, Get(l, a));
      HeaderKept(ch, tx[0], a, Get(l, a), Get(next, a));
      HeaderFixedUntilClosed(ch, next, tx[1..], a);
    }
  }

  lemma StagingParses(ch: Chain, a: Address, s: AccountState)
    requires IsStaging(ch, a, s)
    ensures ReadStagingAccount(s.data).Ok?
  {
  }

  /** The account is never closed, nor emptied at the end of a transaction, along a run. */
  ghost predicate OpenThroughout(ch: Chain, l: Accounts, txs: seq<Transaction>, a: Address)
    decreases |txs|
  {
    Get(l, a) != BLANK
    && (|txs| > 0 ==>
          (ExecAll(ch, l, txs[0]).Ok? ==> NeverBlank(ch, l, txs[0], a))
          && OpenThroughout(ch, Commit(ch, l, txs[0]), txs[1..], a))
  }

  /** The same over a whole run: until it is closed, a staging account keeps its authority and `n`. */
  lemma {:induction false} HeaderFixedOverRun(ch: Chain, l: Accounts, txs: seq<Transaction>, a: Address)
    requires ch.Laws() && Inv(ch, l) && IsStaging(ch, a, Get(l, a)) && OpenThroughout(ch, l, txs, a)
    ensures
      var post := Get(Run(ch, l, txs), a);
      IsStaging(ch, a, post) && ReadStagingAccount(post.data).value.0 == ReadStagingAccount(Get(l, a).data).value.0
    decreases |txs|
  {
    StagingParses(ch, a, Get(l, a));
    hide Inv, IsStaging, NeverBlank, ExecAll, ReadStagingAccount, Purge, Chain.Laws;
    if |txs| > 0 {
      var next := Commit(ch, l, txs[0]);
      if ExecAll(ch, l, txs[0]).Ok? {
        HeaderFixedUntilClosed(ch, l, txs[0], a);
        PurgeGet(ExecAll(ch, l, txs[0]).value, a);
        assert OpenThroughout(ch, next, txs[1..], a);
      }
      CommitInv(ch, l, txs[0]);
      HeaderFixedOverRun(ch, next, txs[1..], a);
    }
  }
}
