// What one successful instruction does to any one account. Six things can happen to it, and
// everything the registry promises over runs follows from this list.
module Steps {
  import opened Wrappers
  import opened Bytes
  import opened Constants
  import opened Errors
  import opened KeyLayout
  import opened AccountData
  import opened Ledger
  import opened Processor
  import opened Runtime
  import Validation
  import Verifier

  predicate Signs(metas: seq<Meta>, a: Address) {
    exists m :: m in metas && m.address == a && m.isSigner
  }

  function AuthorityOf(s: AccountState): Address
    requires ReadStagingAccount(s.data).Ok?
  {
    ReadStagingAccount(s.data).value.0.authority
  }

  predicate Credited(pre: AccountState, post: AccountState) {
    post.owner == pre.owner && post.data == pre.data && post.lamports >= pre.lamports
  }

  predicate Spent(metas: seq<Meta>, a: Address, pre: AccountState, post: AccountState) {
    pre.owner == SYSTEM_PROGRAM_ID && Signs(metas, a) && post.owner == pre.owner && post.data == pre.data
  }

  predicate Initialized(ch: Chain, metas: seq<Meta>, a: Address, pre: AccountState, post: AccountState) {
    IsBlankOwned(ch, a, pre) && IsStaging(ch, a, post) && post.lamports == pre.lamports && Signs(metas, AuthorityOf(post))
    && AllZero(ReadStagingAccount(post.data).value.1)
  }

  predicate Rewritten(ch: Chain, metas: seq<Meta>, a: Address, pre: AccountState, post: AccountState) {
    && IsStaging(ch, a, pre) && IsStaging(ch, a, post) && Signs(metas, AuthorityOf(pre))
    && post.lamports == pre.lamports && |post.data| == |pre.data|
    && post.data[..STAGING_HEADER_LEN] == pre.data[..STAGING_HEADER_LEN]
    && ReadStagingAccount(post.data).value.0 == ReadStagingAccount(pre.data).value.0
  }

  predicate Closed(ch: Chain, metas: seq<Meta>, a: Address, pre: AccountState, post: AccountState) {
    IsStaging(ch, a, pre) && Signs(metas, AuthorityOf(pre)) && post == BLANK
  }

  predicate Published(ch: Chain, a: Address, pre: AccountState, post: AccountState) {
    pre.owner == SYSTEM_PROGRAM_ID && pre.data == [] && ch.pda(a) && IsKey(ch, a, post) && post.lamports >= pre.lamports
  }

  predicate AccountStep(ch: Chain, metas: seq<Meta>, a: Address, pre: AccountState, post: AccountState) {
    || Credited(pre, post)
    || Spent(metas, a, pre, post)
    || Initialized(ch, metas, a, pre, post)
    || Rewritten(ch, metas, a, pre, post)
    || Closed(ch, metas, a, pre, post)
    || Published(ch, a, pre, post)
  }

  lemma FirstSigns(metas: seq<Meta>, i: nat)
    requires i < |metas| && metas[i].isSigner
    ensures Signs(metas, metas[i].address)
  {
    assert metas[i] in metas;
  }

  /** The distinct-accounts check and what it buys: draining moves one balance into the other. */
  lemma DrainForm(l: Accounts, from: Address, to: Address)
    requires from != to && DrainAndClose(l, from, to).Ok?
    ensures
      var r := DrainAndClose(l, from, to).value;
      && Get(r, from) == BLANK
      && Get(r, to) == Get(l, to).(lamports := Get(l, to).lamports + Get(l, from).lamports)
      && (forall a: Address :: a != from && a != to ==> Get(r, a) == Get(l, a))
      && Total(r) == Total(l)
  {
    var sum := Get(l, to).lamports + Get(l, from).lamports;
    var m := WithLamports(l, to, sum);
    TotalUpdate(l, to, Get(l, to).(lamports := sum));
    TotalUpdate(m, from, BLANK);
  }

  lemma InitializeForm(ch: Chain, l: Accounts, metas: seq<Meta>, payload: seq<byte>)
    requires Inv(ch, l) && SignersAllowed(ch, metas) && InitializeStaging(ch, l, metas, payload).Ok?
    ensures |metas| == 2 && |payload| == 2 && metas[0].isSigner && metas[1].isWritable
    ensures
      var r, s := InitializeStaging(ch, l, metas, payload).value, metas[1].address;
      && Initialized(ch, metas, s, Get(l, s), Get(r, s))
      && ReadStagingAccount(Get(r, s).data).value.0 == StagingHeader(LE(payload), metas[0].address)
      && (forall a: Address :: a != s ==> Get(r, a) == Get(l, a))
      && Total(r) == Total(l)
  {
    hide Validation.Publishable, ReadStagingAccount, ReadKeyAccount, StagingHeaderBytes, LE, IsKey;
    var r, s := InitializeStaging(ch, l, metas, payload).value, metas[1].address;
    var pre := Get(l, s);
    assert InvAt(ch, l, s);
    KindByDiscriminator(ch, s, pre);
    assert metas[0] in metas;
    var h, body := StagingHeader(LE(payload), metas[0].address), pre.data[STAGING_HEADER_LEN..];
    StagingAccountRoundTrip(h, body);
    FirstSigns(metas, 0);
    TotalUpdate(l, s, Get(r, s));
  }

  lemma WriteForm(ch: Chain, l: Accounts, metas: seq<Meta>, payload: seq<byte>)
    requires Inv(ch, l) && Write(ch, l, metas, payload).Ok?
    ensures |metas| == 2 && |payload| >= 4 && metas[1].isWritable
    ensures
      var r, s := Write(ch, l, metas, payload).value, metas[1].address;
      && Rewritten(ch, metas, s, Get(l, s), Get(r, s))
      && (forall a: Address :: a != s ==> Get(r, a) == Get(l, a))
      && Total(r) == Total(l)
  {
    hide Validation.Publishable, LE;
    var r, s := Write(ch, l, metas, payload).value, metas[1].address;
    var pre := Get(l, s);
    assert InvAt(ch, l, s);
    KindByDiscriminator(ch, s, pre);
    FirstSigns(metas, 0);
    BodyWriteKeepsHeader(pre.data, LE(payload[..4]), payload[4..]);
    TotalUpdate(l, s, Get(r, s));
  }

  lemma CloseForm(ch: Chain, l: Accounts, metas: seq<Meta>, payload: seq<byte>)
    requires Inv(ch, l) && CloseStaging(ch, l, metas, payload).Ok?
    ensures |metas| == 2 && metas[0].isWritable && metas[1].isWritable && metas[0].address != metas[1].address
    ensures
      var r, authority, s := CloseStaging(ch, l, metas, payload).value, metas[0].address, metas[1].address;
      && Closed(ch, metas, s, Get(l, s), Get(r, s)) && authority == AuthorityOf(Get(l, s))
      && Get(r, authority) == Get(l, authority).(lamports := Get(l, authority).lamports + Get(l, s).lamports)
      && (forall a: Address :: a != s && a != authority ==> Get(r, a) == Get(l, a))
      && Total(r) == Total(l)
  {
    hide Validation.Publishable;
    var s := metas[1].address;
    assert InvAt(ch, l, s);
    KindByDiscriminator(ch, s, Get(l, s));
    FirstSigns(metas, 0);
    DrainForm(l, s, metas[0].address);
  }

  // --- Publish ---

  /** Bringing the key account into existence, for a payer other than the key. */
  lemma CreateKeyForm(ch: Chain, l: Accounts, payer: Address, key: Address, space: nat)
    requires payer != key && CreateKeyAccount(ch, l, payer, key, space).Ok?
    ensures
      var r, held := CreateKeyAccount(ch, l, payer, key, space).value, Get(l, key).lamports;
      && Get(r, key) == AccountState(ch.programId, if held >= ch.rent(space) then held else ch.rent(space), Zeros(space))
      && Get(l, payer).lamports >= Get(r, key).lamports - held
      && Get(r, payer) == Get(l, payer).(lamports := Get(l, payer).lamports - (Get(r, key).lamports - held))
      && (held < ch.rent(space) ==> Get(l, payer).owner == SYSTEM_PROGRAM_ID && Get(l, payer).data == [])
      && (forall a: Address :: a != key && a != payer ==> Get(r, a) == Get(l, a))
      && Total(r) == Total(l)
  {
    var short := Shortfall(ch, l, key, space);
    var l1 := l;
    if short > 0 {
      l1 := Transfer(l, payer, key, short).value;
      TransferForm(l, payer, key, short);
    }
    var l2 := Allocate(l1, key, space).value;
    TotalUpdate(l1, key, Get(l2, key));
    TotalUpdate(l2, key, Get(Assign(l2, key, ch.programId).value, key));
  }

  lemma TransferForm(l: Accounts, from: Address, to: Address, lamports: nat)
    requires from != to && Transfer(l, from, to, lamports).Ok?
    ensures
      var r := Transfer(l, from, to, lamports).value;
      && Get(l, from).lamports >= lamports
      && Get(r, from) == Get(l, from).(lamports := Get(l, from).lamports - lamports)
      && Get(r, to) == Get(l, to).(lamports := Get(l, to).lamports + lamports)
      && (forall a: Address :: a != from && a != to ==> Get(r, a) == Get(l, a))
      && Total(r) == Total(l)
  {
    var l1 := WithLamports(l, from, Get(l, from).lamports - lamports);
    TotalUpdate(l, from, Get(l1, from));
    TotalUpdate(l1, to, Get(Transfer(l, from, to, lamports).value, to));
  }

  /** A body that passed the checks, under the header `Publish` writes, is a key account. */
  lemma WrittenKey(ch: Chain, l: Accounts, key: Address, n: nat, body: seq<byte>, s: AccountState)
    requires PublishChecks(ch, l, key, n, body).Ok?
    requires s.owner == ch.programId && s.lamports > 0 && s.data == KeyData(ch.derive(body).1, n, body)
    ensures IsKey(ch, key, s)
  {
    hide Validation.HasIdentity, Validation.PointsDecode, KeyHeaderBytes;
    KeyAccountRoundTrip(KeyHeader(ch.derive(body).1, n), body);
  }

  /** The staged header and body of a `Publish`. */
  function Staged(l: Accounts, metas: seq<Meta>): (StagingHeader, seq<byte>)
    requires |metas| == 5 && ReadStagingAccount(Get(l, metas[2].address).data).Ok?
  {
    ReadStagingAccount(Get(l, metas[2].address).data).value
  }

  /**
   * How the lamports move. The key holds the larger of what it held and its rent; the payer loses
   * exactly that difference, whatever else it is; the authority gains the staging balance.
   */
  ghost predicate PublishMoves(ch: Chain, l: Accounts, metas: seq<Meta>, r: Accounts)
    requires |metas| == 5 && ReadStagingAccount(Get(l, metas[2].address).data).Ok?
  {
    var authority, payer, staging, key := metas[0].address, metas[1].address, metas[2].address, metas[3].address;
    var held, rent := Get(l, key).lamports, ch.rent(KeyAccountLen(Staged(l, metas).0.numPublicInputs));
    var topUp := if held >= rent then 0 else rent - held;
    var paid := if payer == authority then topUp else 0;
    && Get(r, key).lamports == (if held >= rent then held else rent)
    && Get(l, authority).lamports >= paid
    && Get(r, authority) == Get(l, authority).(lamports := Get(l, authority).lamports - paid + Get(l, staging).lamports)
    && (topUp > 0 ==> Get(l, payer).owner == SYSTEM_PROGRAM_ID && Get(l, payer).data == [] && payer != staging)
    && (payer != authority && payer != staging ==>
          Get(l, payer).lamports >= topUp && Get(r, payer) == Get(l, payer).(lamports := Get(l, payer).lamports - topUp))
    && (forall a: Address :: a != key && a != payer && a != staging && a != authority ==> Get(r, a) == Get(l, a))
    && Total(r) == Total(l)
  }

  /** The two intermediate states of a successful `Publish`, and who is who. */
  lemma PublishTrace(ch: Chain, l: Accounts, metas: seq<Meta>, payload: seq<byte>) returns (l1: Accounts, l2: Accounts)
    requires ch.Laws() && Inv(ch, l) && SignersAllowed(ch, metas) && Publish(ch, l, metas, payload).Ok?
    ensures |metas| == 5 && metas[0].isWritable && metas[1].isWritable && metas[2].isWritable && metas[3].isWritable
    ensures Signs(metas, metas[0].address) && Signs(metas, metas[1].address)
    ensures ReadStagingAccount(Get(l, metas[2].address).data).Ok? && Get(l, metas[2].address).owner != SYSTEM_PROGRAM_ID
    ensures
      var authority, payer, staging, key := metas[0].address, metas[1].address, metas[2].address, metas[3].address;
      && key != authority && key != payer && key != staging && staging != authority && ch.pda(key)
      && IsStaging(ch, staging, Get(l, staging)) && authority == AuthorityOf(Get(l, staging))
      && Get(l, key).owner == SYSTEM_PROGRAM_ID && Get(l, key).data == []
      && var n, body := Staged(l, metas).0.numPublicInputs, Staged(l, metas).1;
      && PublishChecks(ch, l, key, n, body).Ok?
      && CreateKeyAccount(ch, l, payer, key, KeyAccountLen(n)) == Ok(l1)
      && l2 == WithData(l1, key, KeyData(ch.derive(body).1, n, body))
      && DrainAndClose(l2, staging, authority) == Publish(ch, l, metas, payload)
  {
    hide Validation.Publishable, Validation.Outcome, KeyData, CreateKeyAccount, DrainAndClose;
    var payer, staging, key := metas[1].address, metas[2].address, metas[3].address;
    assert InvAt(ch, l, staging);
    KindByDiscriminator(ch, staging, Get(l, staging));
    var (header, body) := Staged(l, metas);
    assert ch.DerivesAt(body);
    assert metas[0] in metas && metas[1] in metas;
    FirstSigns(metas, 0);
    FirstSigns(metas, 1);
    l1 := CreateKeyAccount(ch, l, payer, key, KeyAccountLen(header.numPublicInputs)).value;
    l2 := WithData(l1, key, KeyData(ch.derive(body).1, header.numPublicInputs, body));
  }

  /** The state of a successful `Publish`, account by account. */
  lemma PublishState(ch: Chain, l: Accounts, metas: seq<Meta>, payload: seq<byte>)
    requires ch.Laws() && Inv(ch, l) && SignersAllowed(ch, metas) && Publish(ch, l, metas, payload).Ok?
    ensures |metas| == 5 && ReadStagingAccount(Get(l, metas[2].address).data).Ok?
    ensures
      var r, key := Publish(ch, l, metas, payload).value, metas[3].address;
      var n, body := Staged(l, metas).0.numPublicInputs, Staged(l, metas).1;
      && PublishMoves(ch, l, metas, r)
      && Get(r, metas[2].address) == BLANK
      && Get(r, key) == AccountState(ch.programId, Get(r, key).lamports, KeyData(ch.derive(body).1, n, body))
      && Get(r, key).lamports >= ch.rent(KeyAccountLen(n))
  {
    hide Validation.Publishable, Validation.Outcome, KeyData, CreateKeyAccount, DrainAndClose, Publish, PublishChecks, AuthorityOf;
    hide ReadStagingAccount, Shortfall, KeyHeaderBytes, SignersAllowed, Inv, IsStaging, Chain.Laws, Signs;
    var l1, l2 := PublishTrace(ch, l, metas, payload);
    var authority, payer, staging, key := metas[0].address, metas[1].address, metas[2].address, metas[3].address;
    CreateKeyForm(ch, l, payer, key, KeyAccountLen(Staged(l, metas).0.numPublicInputs));
    TotalUpdate(l1, key, Get(l2, key));
    DrainForm(l2, staging, authority);
    var short := Get(l1, key).lamports - Get(l, key).lamports;
    KeyFilled(l1, l2, key, KeyData(ch.derive(Staged(l, metas).1).1, Staged(l, metas).0.numPublicInputs, Staged(l, metas).1));
    hide Get, WithData;
    PaidThenDrained(l, l2, Publish(ch, l, metas, payload).value, authority, payer, staging, key, short);
  }

  lemma KeyFilled(l1: Accounts, l2: Accounts, key: Address, data: seq<byte>)
    requires l2 == WithData(l1, key, data)
    ensures Get(l2, key) == Get(l1, key).(data := data) && forall a: Address :: a != key ==> Get(l2, a) == Get(l1, a)
  {
  }

  /** The payer pays for the key, then the staging account is drained: who ends with what, aliases included. */
  lemma PaidThenDrained(l: Accounts, mid: Accounts, r: Accounts, authority: Address, payer: Address, staging: Address,
                        key: Address, short: nat)
    requires key != authority && key != payer && key != staging && staging != authority
    requires Get(l, staging).owner != SYSTEM_PROGRAM_ID
    requires short > 0 ==> Get(l, payer).owner == SYSTEM_PROGRAM_ID
    requires Get(l, payer).lamports >= short
    requires Get(mid, payer) == Get(l, payer).(lamports := Get(l, payer).lamports - short)
    requires forall a: Address :: a != key && a != payer ==> Get(mid, a) == Get(l, a)
    requires Get(r, authority) == Get(mid, authority).(lamports := Get(mid, authority).lamports + Get(mid, staging).lamports)
    requires forall a: Address :: a != staging && a != authority ==> Get(r, a) == Get(mid, a)
    ensures
      var paid := if payer == authority then short else 0;
      && Get(l, authority).lamports >= paid
      && Get(r, authority) == Get(l, authority).(lamports := Get(l, authority).lamports - paid + Get(l, staging).lamports)
      && (payer != authority && payer != staging ==>
            Get(r, payer) == Get(l, payer).(lamports := Get(l, payer).lamports - short))
      && (forall a: Address :: a != key && a != payer && a != staging && a != authority ==> Get(r, a) == Get(l, a))
      && Get(r, key) == Get(mid, key)
  {
    hide Get;
  }

  /** Everything a successful `Publish` does: key created, staging closed, rent moved, nothing else. */
  lemma PublishForm(ch: Chain, l: Accounts, metas: seq<Meta>, payload: seq<byte>)
    requires ch.Laws() && Inv(ch, l) && SignersAllowed(ch, metas) && Publish(ch, l, metas, payload).Ok?
    ensures |metas| == 5 && metas[0].isWritable && metas[1].isWritable && metas[2].isWritable && metas[3].isWritable
    ensures Signs(metas, metas[0].address) && Signs(metas, metas[1].address)
    ensures
      var r := Publish(ch, l, metas, payload).value;
      var authority, payer, staging, key := metas[0].address, metas[1].address, metas[2].address, metas[3].address;
      && key != authority && key != payer && key != staging && staging != authority
      && Closed(ch, metas, staging, Get(l, staging), Get(r, staging)) && authority == AuthorityOf(Get(l, staging))
      && Published(ch, key, Get(l, key), Get(r, key))
      && ReadKeyAccount(Get(r, key).data).value.1.body == Staged(l, metas).1
      && PublishMoves(ch, l, metas, r)
  {
    hide Validation.Publishable, Validation.Outcome, KeyData, CreateKeyAccount, DrainAndClose, Publish, PublishChecks, IsKey, PublishMoves;
    var _, _ := PublishTrace(ch, l, metas, payload);
    PublishState(ch, l, metas, payload);
    var r, key := Publish(ch, l, metas, payload).value, metas[3].address;
    var (header, body) := Staged(l, metas);
    assert ch.RentAt(KeyAccountLen(header.numPublicInputs));
    WrittenKey(ch, l, key, header.numPublicInputs, body, Get(r, key));
    WrittenBody(ch, l, key, header.numPublicInputs, body);
    PublishTopUp(ch, l, metas, r);
  }

  lemma PublishTopUp(ch: Chain, l: Accounts, metas: seq<Meta>, r: Accounts)
    requires |metas| == 5 && ReadStagingAccount(Get(l, metas[2].address).data).Ok? && PublishMoves(ch, l, metas, r)
    ensures Get(r, metas[3].address).lamports >= Get(l, metas[3].address).lamports
  {
  }

  lemma WrittenBody(ch: Chain, l: Accounts, key: Address, n: nat, body: seq<byte>)
    requires PublishChecks(ch, l, key, n, body).Ok?
    ensures ReadKeyAccount(KeyData(ch.derive(body).1, n, body)).Ok?
    ensures ReadKeyAccount(KeyData(ch.derive(body).1, n, body)).value.1.body == body
  {
    hide Validation.Outcome, KeyHeaderBytes;
    KeyAccountRoundTrip(KeyHeader(ch.derive(body).1, n), body);
  }
}
