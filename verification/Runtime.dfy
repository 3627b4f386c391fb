// The chain around the program: transactions that commit or roll back as a whole, and an
// environment that may do anything the runtime's ownership and signature rules allow.
module Runtime {
  import opened Wrappers
  import opened Bytes
  import opened Constants
  import opened Errors
  import opened KeyLayout
  import opened AccountData
  import opened Ledger
  import opened Processor
  import Validation

  /**
   * One instruction of a transaction. `Groth` is this program, invoked directly or through another
   * program; `Foreign` is any other program, with the accounts it leaves behind and the
   * addresses that signed for it; `CreateAccount` is the system program's, which clients use.
   */
  datatype Instr =
    | Groth(metas: seq<Meta>, data: seq<byte>)
    | Foreign(signers: set<Address>, post: Accounts)
    | CreateAccount(payer: Address, target: Address, lamports: nat, space: nat, owner: Address)

  type Transaction = seq<Instr>

  const MAX_PERMITTED_DATA_LENGTH := 10 * 1024 * 1024

  /**
   * What a foreign instruction may do to one account. Only the owning program changes data or
   * debits, anyone may credit, a system account moves only with its signature, and an account
   * handed to this program carries only zeros.
   */
  predicate AccountRule(ch: Chain, pre: AccountState, post: AccountState, signed: bool) {
    if pre.owner == ch.programId || (pre.owner == SYSTEM_PROGRAM_ID && !signed)
    then post.owner == pre.owner && post.data == pre.data && post.lamports >= pre.lamports
    else post.owner == ch.programId ==> AllZero(post.data)
  }

  ghost predicate RuleAt(ch: Chain, l: Accounts, signers: set<Address>, post: Accounts, a: Address) {
    AccountRule(ch, Get(l, a), Get(post, a), a in signers)
  }

  /** A foreign instruction the runtime lets through. No one else signs for this program's addresses. */
  ghost predicate ForeignAllowed(ch: Chain, l: Accounts, signers: set<Address>, post: Accounts) {
    && (forall a :: a in signers ==> !ch.pda(a))
    && Total(post) == Total(l)
    && (forall a: Address :: RuleAt(ch, l, signers, post, a))
  }

  /** The system program's `CreateAccount`: refuses a funded target, allocates, assigns, transfers. */
  function SystemCreate(ch: Chain, l: Accounts, payer: Address, target: Address, lamports: nat, space: nat, owner: Address): Outcome {
    if ch.pda(payer) || ch.pda(target) then Err(MissingRequiredSignature)
    else if Get(l, target) != BLANK || space > MAX_PERMITTED_DATA_LENGTH then Err(CpiFailed)
    else Transfer(l[target := AccountState(owner, 0, Zeros(space))], payer, target, lamports)
  }

  predicate SignersAllowed(ch: Chain, metas: seq<Meta>) {
    forall m :: m in metas && m.isSigner ==> !ch.pda(m.address)
  }

  ghost function Exec(ch: Chain, l: Accounts, i: Instr): Outcome {
    match i
    case Groth(metas, data) =>
      if SignersAllowed(ch, metas) then ProcessInstruction(ch, l, metas, data) else Err(MissingRequiredSignature)
    case Foreign(signers, post) =>
      if ForeignAllowed(ch, l, signers, post) then Ok(post) else Err(CpiFailed)
    case CreateAccount(payer, target, lamports, space, owner) =>
      SystemCreate(ch, l, payer, target, lamports, space, owner)
  }

  ghost function ExecAll(ch: Chain, l: Accounts, tx: Transaction): Outcome
    decreases |tx|
  {
    if |tx| == 0 then Ok(l)
    else
      var next :- Exec(ch, l, tx[0]);
      ExecAll(ch, next, tx[1..])
  }

  /** All of a transaction or nothing; at its end, accounts without lamports are gone. */
  ghost function Commit(ch: Chain, l: Accounts, tx: Transaction): Accounts {
    match ExecAll(ch, l, tx)
    case Ok(after) => Purge(after)
    case Err(_) => l
  }

  ghost function Run(ch: Chain, l: Accounts, txs: seq<Transaction>): Accounts
    decreases |txs|
  {
    if |txs| == 0 then l else Run(ch, Commit(ch, l, txs[0]), txs[1..])
  }

  // --- The registry invariant ---

  /** A published key: canonical address and bump of its own body, exact length, validated points. */
  predicate IsKey(ch: Chain, a: Address, s: AccountState) {
    && s.owner == ch.programId && s.lamports > 0 && ReadKeyAccount(s.data).Ok?
    && var (h, vk) := ReadKeyAccount(s.data).value;
       && ch.derive(vk.body) == (a, h.bump)
       && s.data == KeyData(h.bump, h.numPublicInputs, vk.body)
       && Validation.Publishable(ch.curve, vk)
  }

  /** An initialized staging account: well-formed header and length, another account's authority, one that can sign. */
  predicate IsStaging(ch: Chain, a: Address, s: AccountState) {
    && s.owner == ch.programId && !ch.pda(a) && ReadStagingAccount(s.data).Ok?
    && ReadStagingAccount(s.data).value.0.authority != a && !ch.pda(ReadStagingAccount(s.data).value.0.authority)
  }

  predicate IsBlankOwned(ch: Chain, a: Address, s: AccountState) {
    s.owner == ch.programId && !ch.pda(a) && AllZero(s.data)
  }

  predicate AccountInv(ch: Chain, a: Address, s: AccountState) {
    if s.owner == ch.programId then IsKey(ch, a, s) || IsStaging(ch, a, s) || IsBlankOwned(ch, a, s)
    else ch.pda(a) ==> s.owner == SYSTEM_PROGRAM_ID && s.data == []
  }

  ghost predicate InvAt(ch: Chain, l: Accounts, a: Address) {
    AccountInv(ch, a, Get(l, a))
  }

  ghost predicate Inv(ch: Chain, l: Accounts) {
    forall a: Address :: InvAt(ch, l, a)
  }

  /** Before the program has run: it owns nothing, and its derived addresses are untouched or merely funded. */
  ghost predicate Genesis(ch: Chain, l: Accounts) {
    forall a: Address :: GenesisAt(ch, l, a)
  }

  ghost predicate GenesisAt(ch: Chain, l: Accounts, a: Address) {
    Get(l, a).owner != ch.programId && (ch.pda(a) ==> Get(l, a).owner == SYSTEM_PROGRAM_ID && Get(l, a).data == [])
  }

  // --- Kinds are told apart by the first byte ---

  lemma KindByDiscriminator(ch: Chain, a: Address, s: AccountState)
    requires AccountInv(ch, a, s) && s.owner == ch.programId
    ensures |s.data| > 0 && s.data[0] == DISCRIMINATOR_UNINITIALIZED ==> IsBlankOwned(ch, a, s)
    ensures ReadStagingAccount(s.data).Ok? ==> IsStaging(ch, a, s)
    ensures ReadKeyAccount(s.data).Ok? ==> IsKey(ch, a, s)
    ensures IsKey(ch, a, s) ==> !IsStaging(ch, a, s) && !IsBlankOwned(ch, a, s)
    ensures ch.pda(a) ==> IsKey(ch, a, s)
  {
    hide Validation.Publishable;
  }
}
