// The client's side of an upload (groth16-verify/src/instruction.rs): the `Write`s that carry a
// body, and why any order, any repetition and any company reconstructs it.
module Upload {
  import opened Wrappers
  import opened Arithmetic
  import opened Bytes
  import opened Constants
  import opened Errors
  import opened KeyLayout
  import opened AccountData
  import opened Layout
  import opened Ledger
  import opened Processor
  import opened Runtime
  import opened Steps
  import opened Registry
  import opened Guarantees
  import Validation

  // --- The builders ---

  function WriteMetas(authority: Address, staging: Address): seq<Meta> {
    [Meta(authority, true, false), Meta(staging, false, true)]
  }

  /** `write`: an offset wider than 32 bits would be cut off. */
  function WriteInstr(authority: Address, staging: Address, offset: nat, piece: seq<byte>): Instr {
    Groth(WriteMetas(authority, staging), [TAG_WRITE] + ToLE(offset, 4) + piece)
  }

  /** The same, as the builder does it: by extending a vector. */
  method BuildWrite(authority: Address, staging: Address, offset: nat, piece: seq<byte>) returns (i: Instr)
    ensures i == WriteInstr(authority, staging, offset, piece)
  {
    var data := [TAG_WRITE];
    data := data + ToLE(offset, 4);
    data := data + piece;
    i := Groth(WriteMetas(authority, staging), data);
  }

  /** `body.chunks(chunk)`. */
  function Chunks(body: seq<byte>, chunk: nat): seq<seq<byte>>
    requires chunk > 0
    decreases |body|
  {
    if |body| == 0 then []
    else if |body| <= chunk then [body]
    else [body[..chunk]] + Chunks(body[chunk..], chunk)
  }

  /** `write_body`. */
  function WriteBody(authority: Address, staging: Address, body: seq<byte>, chunk: nat): seq<Instr>
    requires chunk > 0
  {
    seq(|Chunks(body, chunk)|, i requires 0 <= i < |Chunks(body, chunk)| =>
      WriteInstr(authority, staging, i * chunk, Chunks(body, chunk)[i]))
  }

  // --- The pieces are the body, and each knows its place ---

  /** Piece `i` starts at `i * chunk`; none is empty or longer than `chunk`, and only the last may be shorter. */
  lemma {:induction false} ChunkPlace(body: seq<byte>, chunk: nat, i: nat)
    requires chunk > 0 && i < |Chunks(body, chunk)|
    ensures i * chunk + |Chunks(body, chunk)[i]| <= |body|
    ensures Chunks(body, chunk)[i] == body[i * chunk..i * chunk + |Chunks(body, chunk)[i]|]
    ensures 0 < |Chunks(body, chunk)[i]| <= chunk
    ensures i < |Chunks(body, chunk)| - 1 ==> |Chunks(body, chunk)[i]| == chunk
    decreases i
  {
    if |body| > chunk && i > 0 {
      var rest := Chunks(body[chunk..], chunk);
      ChunkPlace(body[chunk..], chunk, i - 1);
      OneMoreTime(i - 1, chunk);
      assert Chunks(body, chunk) == [body[..chunk]] + rest;
      hide Chunks;
      SliceOfRest(body, chunk, (i - 1) * chunk, (i - 1) * chunk + |rest[i - 1]|);
    }
  }

  lemma SliceOfRest(s: seq<byte>, k: nat, lo: nat, hi: nat)
    requires lo <= hi && k + hi <= |s|
    ensures s[k..][lo..hi] == s[k + lo..k + hi]
  {
  }

  lemma {:induction false} ChunksCover(body: seq<byte>, chunk: nat, p: nat) returns (i: nat)
    requires chunk > 0 && p < |body|
    ensures i < |Chunks(body, chunk)| && i * chunk <= p < i * chunk + |Chunks(body, chunk)[i]|
    decreases |body|
  {
    if p < chunk {
      i := 0;
    } else {
      var j := ChunksCover(body[chunk..], chunk, p - chunk);
      i := j + 1;
      assert i * chunk == j * chunk + chunk;
    }
  }

  lemma {:induction false} ChunkRange(body: seq<byte>, chunk: nat)
    requires chunk > 0 && |body| > 0
    ensures |Chunks(body, chunk)| > 0
    ensures (|Chunks(body, chunk)| - 1) * chunk < |body| <= |Chunks(body, chunk)| * chunk
    decreases |body|
  {
    if |body| > chunk {
      ChunkRange(body[chunk..], chunk);
      var k := |Chunks(body[chunk..], chunk)|;
      OneMoreTime(k, chunk);
      OneMoreTime(k - 1, chunk);
    }
  }

  /** There are as many pieces as `chunk` goes into the length, rounded up. */
  lemma ChunkCount(body: seq<byte>, chunk: nat)
    requires chunk > 0
    ensures |Chunks(body, chunk)| == (|body| + chunk - 1) / chunk
  {
    var k := |Chunks(body, chunk)|;
    if |body| > 0 {
      ChunkRange(body, chunk);
      OneMoreTime(k - 1, chunk);
    }
    ModIs(|body| + chunk - 1, chunk, k, |body| + chunk - 1 - k * chunk);
  }

  /** An upload takes as many instructions as there are pieces. */
  lemma WriteBodyCount(authority: Address, staging: Address, body: seq<byte>, chunk: nat)
    requires chunk > 0
    ensures |WriteBody(authority, staging, body, chunk)| == (|body| + chunk - 1) / chunk
  {
    ChunkCount(body, chunk);
    hide Chunks, WriteInstr;
  }

  /**
   * Instruction `i` of an upload: signed by the authority alone, writing to the staging account
   * alone, and carrying `body[i * chunk ..]`, `chunk` bytes of it or what is left, at that offset.
   */
  lemma WriteBodyAt(authority: Address, staging: Address, body: seq<byte>, chunk: nat, i: nat)
    requires chunk > 0 && |body| < 0x1_0000_0000 && i < |WriteBody(authority, staging, body, chunk)|
    ensures
      var offset := i * chunk;
      var size := if |body| - offset < chunk then |body| - offset else chunk;
      var w := WriteBody(authority, staging, body, chunk)[i];
      && w.Groth? && w.metas == [Meta(authority, true, false), Meta(staging, false, true)]
      && 0 < size <= chunk && |w.data| == 5 + size && w.data[0] == 1
      && U32(w.data[1], w.data[2], w.data[3], w.data[4]) == offset
      && w.data[5..] == body[offset..offset + size]
  {
    ChunkPlace(body, chunk, i);
    LastChunk(body, chunk, i);
    hide Chunks, WriteInstr;
    WriteInstrBytes(authority, staging, i * chunk, Chunks(body, chunk)[i]);
  }

  /** A `Write` byte by byte: kind 1, four little-endian bytes of offset, the piece. */
  lemma WriteInstrBytes(authority: Address, staging: Address, offset: nat, piece: seq<byte>)
    requires offset < 0x1_0000_0000
    ensures
      var w := WriteInstr(authority, staging, offset, piece);
      && w.Groth? && w.metas == [Meta(authority, true, false), Meta(staging, false, true)]
      && |w.data| == 5 + |piece| && w.data[0] == 1
      && U32(w.data[1], w.data[2], w.data[3], w.data[4]) == offset && w.data[5..] == piece
  {
    Pow256Values();
    LEToLE(offset, 4);
    FourBytes(ToLE(offset, 4));
    hide LE, ToLE, Pow256;
  }

  lemma LastChunk(body: seq<byte>, chunk: nat, i: nat)
    requires chunk > 0 && i < |Chunks(body, chunk)|
    ensures |Chunks(body, chunk)[i]| == if |body| - i * chunk < chunk then |body| - i * chunk else chunk
  {
    ChunkPlace(body, chunk, i);
    ChunkRange(body, chunk);
    var k := |Chunks(body, chunk)|;
    if i == k - 1 {
      LastPiece(body, chunk);
      OneMoreTime(i, chunk);
    }
  }

  /** The last piece ends where the body does. */
  lemma {:induction false} LastPiece(body: seq<byte>, chunk: nat)
    requires chunk > 0 && |body| > 0
    ensures var k := |Chunks(body, chunk)|; k > 0 && (k - 1) * chunk + |Chunks(body, chunk)[k - 1]| == |body|
    decreases |body|
  {
    if |body| > chunk {
      var rest := Chunks(body[chunk..], chunk);
      LastPiece(body[chunk..], chunk);
      OneMoreTime(|rest| - 1, chunk);
      assert Chunks(body, chunk) == [body[..chunk]] + rest;
      hide Chunks;
      assert Chunks(body, chunk)[|rest|] == rest[|rest| - 1];
    }
  }

  // --- What a write does to the staged body ---

  /** Byte `p` of the body is already in place. */
  predicate RightAt(s: AccountState, body: seq<byte>, p: nat) {
    p < |body| && STAGING_HEADER_LEN + p < |s.data| && s.data[STAGING_HEADER_LEN + p] == body[p]
  }

  /** The account still is the same upload, and nothing that was in place has been lost. */
  ghost predicate Progress(ch: Chain, a: Address, body: seq<byte>, pre: AccountState, post: AccountState) {
    && IsStaging(ch, a, pre) && IsStaging(ch, a, post)
    && |post.data| == |pre.data| && post.data[..STAGING_HEADER_LEN] == pre.data[..STAGING_HEADER_LEN]
    && AuthorityOf(post) == AuthorityOf(pre) && StagedN(post) == StagedN(pre)
    && post.lamports >= pre.lamports
    && (forall p: nat :: RightAt(pre, body, p) ==> RightAt(post, body, p))
  }

  ghost predicate InPlace(s: AccountState, body: seq<byte>, lo: nat, len: nat) {
    forall p: nat :: lo <= p < lo + len ==> RightAt(s, body, p)
  }

  /** The account after an in-bounds write to its body. */
  function Patched(s: AccountState, offset: nat, piece: seq<byte>): AccountState
    requires STAGING_HEADER_LEN + offset + |piece| <= |s.data|
  {
    s.(data := Splice(s.data, STAGING_HEADER_LEN + offset, piece))
  }

  /** A write by the authority, within the body, goes through. */
  lemma WriteApplies(ch: Chain, l: Accounts, staging: Address, offset: nat, piece: seq<byte>)
    requires IsStaging(ch, staging, Get(l, staging)) && offset + |piece| <= |StagedBody(Get(l, staging))|
    ensures STAGING_HEADER_LEN + offset + |piece| <= |Get(l, staging).data|
    ensures Write(ch, l, WriteMetas(AuthorityOf(Get(l, staging)), staging), ToLE(offset, 4) + piece)
            == Ok(l[staging := Patched(Get(l, staging), offset, piece)])
  {
    StagedFacts(Get(l, staging));
    OffsetFits(offset);
    hide ToLE, LE;
    var payload := ToLE(offset, 4) + piece;
    assert payload[..4] == ToLE(offset, 4) && payload[4..] == piece;
    hide Splice;
  }

  lemma WriteSucceeds(ch: Chain, l: Accounts, staging: Address, offset: nat, piece: seq<byte>)
    requires IsStaging(ch, staging, Get(l, staging)) && offset + |piece| <= |StagedBody(Get(l, staging))|
    ensures STAGING_HEADER_LEN + offset + |piece| <= |Get(l, staging).data|
    ensures Exec(ch, l, WriteInstr(AuthorityOf(Get(l, staging)), staging, offset, piece))
            == Ok(l[staging := Patched(Get(l, staging), offset, piece)])
  {
    hide ToLE, ReadStagingAccount, Splice, Write;
    var i := WriteInstr(AuthorityOf(Get(l, staging)), staging, offset, piece);
    WriteApplies(ch, l, staging, offset, piece);
    assert i.data[1..] == ToLE(offset, 4) + piece;
    assert Exec(ch, l, i) == Write(ch, l, i.metas, i.data[1..]);
  }

  /** Writing bytes of the body where they belong is progress. */
  lemma PatchProgress(ch: Chain, a: Address, body: seq<byte>, s: AccountState, offset: nat, piece: seq<byte>)
    requires IsStaging(ch, a, s) && |body| == |StagedBody(s)|
    requires offset + |piece| <= |body| && piece == body[offset..offset + |piece|]
    ensures |s.data| == STAGING_HEADER_LEN + |body|
    ensures Progress(ch, a, body, s, Patched(s, offset, piece))
    ensures InPlace(Patched(s, offset, piece), body, offset, |piece|)
  {
    hide Splice;
    BodyWriteKeepsHeader(s.data, offset, piece);
    hide ReadStagingAccount;
    SpliceAt(s.data, STAGING_HEADER_LEN + offset, piece);
  }

  /** Where a splice writes, and where it does not. */
  lemma SpliceAt(s: seq<byte>, off: nat, piece: seq<byte>)
    requires off + |piece| <= |s|
    ensures forall k :: 0 <= k < |s| ==>
              Splice(s, off, piece)[k] == if off <= k < off + |piece| then piece[k - off] else s[k]
  {
  }

  /** One piece: the write succeeds, touches no other account, and its bytes are in place. */
  lemma WriteOne(ch: Chain, l: Accounts, staging: Address, body: seq<byte>, offset: nat, piece: seq<byte>)
    requires IsStaging(ch, staging, Get(l, staging)) && |body| == |StagedBody(Get(l, staging))|
    requires offset + |piece| <= |body| && piece == body[offset..offset + |piece|]
    ensures
      var r := Exec(ch, l, WriteInstr(AuthorityOf(Get(l, staging)), staging, offset, piece));
      && r.Ok? && Progress(ch, staging, body, Get(l, staging), Get(r.value, staging))
      && InPlace(Get(r.value, staging), body, offset, |piece|)
      && (forall a: Address :: a != staging ==> Get(r.value, a) == Get(l, a))
  {
    hide Exec, WriteInstr, IsStaging, Progress, InPlace;
    WriteSucceeds(ch, l, staging, offset, piece);
    PatchProgress(ch, staging, body, Get(l, staging), offset, piece);
  }

  lemma OffsetFits(offset: nat)
    requires offset <= VkBodyLen(MAX_PUBLIC_INPUTS)
    ensures LE(ToLE(offset, 4)) == offset
  {
    Pow256Values();
    LEToLE(offset, 4);
  }

  lemma ProgressChain(ch: Chain, a: Address, body: seq<byte>, s0: AccountState, s1: AccountState, s2: AccountState)
    requires Progress(ch, a, body, s0, s1) && Progress(ch, a, body, s1, s2)
    ensures Progress(ch, a, body, s0, s2)
  {
    hide IsStaging, ReadStagingAccount;
  }

  /** Instructions of this upload only, in any order, any number of times. */
  ghost predicate Uploads(tx: Transaction, writes: seq<Instr>) {
    forall w :: w in tx ==> w in writes
  }

  /** Every byte a write carries is in place. */
  ghost predicate Delivered(s: AccountState, body: seq<byte>, chunk: nat, i: nat)
    requires chunk > 0 && i < |Chunks(body, chunk)|
  {
    InPlace(s, body, i * chunk, |Chunks(body, chunk)[i]|)
  }

  lemma NoProgress(ch: Chain, a: Address, body: seq<byte>, s: AccountState)
    requires IsStaging(ch, a, s)
    ensures Progress(ch, a, body, s, s)
  {
  }

  lemma SameUploadGoesOn(ch: Chain, a: Address, body: seq<byte>, pre: AccountState, post: AccountState)
    requires Progress(ch, a, body, pre, post)
    ensures ReadStagingAccount(pre.data).Ok? && ReadStagingAccount(post.data).Ok?
    ensures IsStaging(ch, a, post) && AuthorityOf(post) == AuthorityOf(pre)
    ensures |StagedBody(post)| == |StagedBody(pre)| && StagedN(post) == StagedN(pre)
    ensures post.lamports >= pre.lamports
  {
  }

  lemma StaysDelivered(ch: Chain, a: Address, body: seq<byte>, pre: AccountState, post: AccountState, chunk: nat, i: nat)
    requires chunk > 0 && i < |Chunks(body, chunk)| && Delivered(pre, body, chunk, i) && Progress(ch, a, body, pre, post)
    ensures Delivered(post, body, chunk, i)
  {
    hide RightAt, IsStaging, ReadStagingAccount, Chunks;
  }

  lemma PieceWrite(ch: Chain, l: Accounts, staging: Address, body: seq<byte>, chunk: nat, i: nat)
    requires chunk > 0 && IsStaging(ch, staging, Get(l, staging)) && |body| == |StagedBody(Get(l, staging))|
    requires i < |Chunks(body, chunk)|
    ensures
      var r := Exec(ch, l, WriteBody(AuthorityOf(Get(l, staging)), staging, body, chunk)[i]);
      && r.Ok? && Progress(ch, staging, body, Get(l, staging), Get(r.value, staging))
      && Delivered(Get(r.value, staging), body, chunk, i)
      && (forall a: Address :: a != staging ==> Get(r.value, a) == Get(l, a))
  {
    hide Exec, WriteInstr, IsStaging, Chunks, ReadStagingAccount, RightAt, InPlace, Progress;
    ChunkPlace(body, chunk, i);
    WriteOne(ch, l, staging, body, i * chunk, Chunks(body, chunk)[i]);
  }

  /** One write of the upload, whichever piece it carries. */
  lemma WriteNext(ch: Chain, l: Accounts, w: Instr, staging: Address, body: seq<byte>, chunk: nat) returns (next: Accounts)
    requires chunk > 0 && IsStaging(ch, staging, Get(l, staging)) && |body| == |StagedBody(Get(l, staging))|
    requires w in WriteBody(AuthorityOf(Get(l, staging)), staging, body, chunk)
    ensures Exec(ch, l, w) == Ok(next) && Progress(ch, staging, body, Get(l, staging), Get(next, staging))
    ensures forall i :: 0 <= i < |Chunks(body, chunk)| && WriteBody(AuthorityOf(Get(l, staging)), staging, body, chunk)[i] == w ==>
              Delivered(Get(next, staging), body, chunk, i)
    ensures forall a: Address :: a != staging ==> Get(next, a) == Get(l, a)
  {
    StagingParses(ch, staging, Get(l, staging));
    hide Exec, WriteInstr, IsStaging, Chunks, ReadStagingAccount, Delivered, Progress;
    var writes := WriteBody(AuthorityOf(Get(l, staging)), staging, body, chunk);
    var j :| 0 <= j < |writes| && writes[j] == w;
    PieceWrite(ch, l, staging, body, chunk, j);
    next := Exec(ch, l, w).value;
    hide WriteBody;
    forall i | 0 <= i < |writes| && writes[i] == w
      ensures Delivered(Get(next, staging), body, chunk, i)
    {
      PieceWrite(ch, l, staging, body, chunk, i);
    }
  }

  /** A transaction of nothing but this upload's writes commits, and delivers each of them. */
  lemma {:induction false} UploadAll(ch: Chain, l: Accounts, tx: Transaction, staging: Address, body: seq<byte>, chunk: nat)
    requires chunk > 0 && IsStaging(ch, staging, Get(l, staging)) && |body| == |StagedBody(Get(l, staging))|
    requires Uploads(tx, WriteBody(AuthorityOf(Get(l, staging)), staging, body, chunk))
    ensures
      var writes := WriteBody(AuthorityOf(Get(l, staging)), staging, body, chunk);
      var r := ExecAll(ch, l, tx);
      && r.Ok? && Progress(ch, staging, body, Get(l, staging), Get(r.value, staging))
      && (forall i :: 0 <= i < |writes| && writes[i] in tx ==> Delivered(Get(r.value, staging), body, chunk, i))
      && (forall a: Address :: a != staging ==> Get(r.value, a) == Get(l, a))
    decreases |tx|
  {
    StagingParses(ch, staging, Get(l, staging));
    hide Exec, WriteInstr, IsStaging, Chunks, ReadStagingAccount, RightAt, InPlace, Progress;
    if |tx| == 0 {
      NoProgress(ch, staging, body, Get(l, staging));
    } else {
      var authority := AuthorityOf(Get(l, staging));
      var next := WriteNext(ch, l, tx[0], staging, body, chunk);
      SameUploadGoesOn(ch, staging, body, Get(l, staging), Get(next, staging));
      UploadAll(ch, next, tx[1..], staging, body, chunk);
      var end := Get(ExecAll(ch, next, tx[1..]).value, staging);
      ProgressChain(ch, staging, body, Get(l, staging), Get(next, staging), end);
      forall i | 0 <= i < |Chunks(body, chunk)| && WriteBody(authority, staging, body, chunk)[i] in tx
        ensures Delivered(end, body, chunk, i)
      {
        if WriteBody(authority, staging, body, chunk)[i] == tx[0] {
          StaysDelivered(ch, staging, body, Get(next, staging), end, chunk, i);
        }
      }
    }
  }

  // --- Uploads spread over transactions, in company ---

  /** Nothing else signed by the authority happens: a transaction uploads, or is not the authority's. */
  ghost predicate Quiet(tx: Transaction, authority: Address, writes: seq<Instr>) {
    Uploads(tx, writes) || UnsignedBy(tx, authority)
  }

  ghost predicate AllQuiet(txs: seq<Transaction>, authority: Address, writes: seq<Instr>) {
    forall tx :: tx in txs ==> Quiet(tx, authority, writes)
  }

  ghost predicate Sent(txs: seq<Transaction>, writes: seq<Instr>, i: nat)
    requires i < |writes|
  {
    exists tx :: tx in txs && Uploads(tx, writes) && writes[i] in tx
  }

  lemma CreditIsProgress(ch: Chain, a: Address, body: seq<byte>, pre: AccountState, post: AccountState)
    requires IsStaging(ch, a, pre) && Credited(pre, post)
    ensures Progress(ch, a, body, pre, post)
  {
  }

  lemma CommitProgress(ch: Chain, l: Accounts, tx: Transaction, staging: Address, body: seq<byte>, chunk: nat)
    requires ch.Laws() && Inv(ch, l) && chunk > 0
    requires IsStaging(ch, staging, Get(l, staging)) && Get(l, staging).lamports > 0
    requires |body| == |StagedBody(Get(l, staging))|
    requires Quiet(tx, AuthorityOf(Get(l, staging)), WriteBody(AuthorityOf(Get(l, staging)), staging, body, chunk))
    ensures
      var writes := WriteBody(AuthorityOf(Get(l, staging)), staging, body, chunk);
      var post := Get(Commit(ch, l, tx), staging);
      && Progress(ch, staging, body, Get(l, staging), post)
      && (Uploads(tx, writes) ==> ExecAll(ch, l, tx).Ok?)
      && (Uploads(tx, writes) ==> forall i :: 0 <= i < |writes| && writes[i] in tx ==> Delivered(post, body, chunk, i))
  {
    StagingParses(ch, staging, Get(l, staging));
    hide IsStaging, Chunks, ReadStagingAccount, Delivered, Progress, ExecAll, Uploads, UnsignedBy, WriteBody, Inv, Purge;
    var pre := Get(l, staging);
    if Uploads(tx, WriteBody(AuthorityOf(pre), staging, body, chunk)) {
      UploadAll(ch, l, tx, staging, body, chunk);
      var end := ExecAll(ch, l, tx).value;
      SameUploadGoesOn(ch, staging, body, pre, Get(end, staging));
      PurgeGet(end, staging);
    } else if ExecAll(ch, l, tx).Ok? {
      AllKeepsStaging(ch, l, tx, staging);
      PurgeGet(ExecAll(ch, l, tx).value, staging);
      CreditIsProgress(ch, staging, body, pre, Get(Commit(ch, l, tx), staging));
    } else {
      NoProgress(ch, staging, body, pre);
    }
  }

  /** Over any run in which the authority only uploads: progress, and what was sent is there. */
  lemma {:induction false} RunProgress(ch: Chain, l: Accounts, txs: seq<Transaction>, staging: Address, body: seq<byte>, chunk: nat)
    requires ch.Laws() && Inv(ch, l) && chunk > 0
    requires IsStaging(ch, staging, Get(l, staging)) && Get(l, staging).lamports > 0
    requires |body| == |StagedBody(Get(l, staging))|
    requires AllQuiet(txs, AuthorityOf(Get(l, staging)), WriteBody(AuthorityOf(Get(l, staging)), staging, body, chunk))
    ensures
      var writes := WriteBody(AuthorityOf(Get(l, staging)), staging, body, chunk);
      var post := Get(Run(ch, l, txs), staging);
      && Progress(ch, staging, body, Get(l, staging), post)
      && (forall i :: 0 <= i < |writes| && Sent(txs, writes, i) ==> Delivered(post, body, chunk, i))
    decreases |txs|
  {
    StagingParses(ch, staging, Get(l, staging));
    hide IsStaging, Chunks, ReadStagingAccount, Delivered, Progress, Commit, Uploads, Quiet, Inv;
    var pre := Get(l, staging);
    if |txs| == 0 {
      NoProgress(ch, staging, body, pre);
    } else {
      var tx, next := txs[0], Commit(ch, l, txs[0]);
      var mid, end := Get(next, staging), Get(Run(ch, next, txs[1..]), staging);
      assert tx in txs;
      CommitProgress(ch, l, tx, staging, body, chunk);
      CommitInv(ch, l, tx);
      SameUploadGoesOn(ch, staging, body, pre, mid);
      RunProgress(ch, next, txs[1..], staging, body, chunk);
      ProgressChain(ch, staging, body, pre, mid, end);
      var writes := WriteBody(AuthorityOf(pre), staging, body, chunk);
      forall i | 0 <= i < |writes| && Sent(txs, writes, i)
        ensures Delivered(end, body, chunk, i)
      {
        if Uploads(tx, writes) && writes[i] in tx {
          StaysDelivered(ch, staging, body, mid, end, chunk, i);
        } else {
          assert Sent(txs[1..], writes, i);
        }
      }
    }
  }

  /**
   * Upload reconstruction: spread the writes over transactions in any order, with any repetitions,
   * between anything others do. Once each has been sent the staged body is the body and the header is
   * untouched.
   */
  lemma UploadReconstructs(ch: Chain, l: Accounts, txs: seq<Transaction>, staging: Address, body: seq<byte>, chunk: nat)
    requires ch.Laws() && Inv(ch, l) && chunk > 0
    requires IsStaging(ch, staging, Get(l, staging)) && Get(l, staging).lamports > 0
    requires |body| == |StagedBody(Get(l, staging))|
    requires
      var writes := WriteBody(AuthorityOf(Get(l, staging)), staging, body, chunk);
      AllQuiet(txs, AuthorityOf(Get(l, staging)), writes) && forall i :: 0 <= i < |writes| ==> Sent(txs, writes, i)
    ensures
      var post := Get(Run(ch, l, txs), staging);
      && IsStaging(ch, staging, post) && StagedBody(post) == body
      && post.data == Get(l, staging).data[..STAGING_HEADER_LEN] + body
      && AuthorityOf(post) == AuthorityOf(Get(l, staging)) && StagedN(post) == StagedN(Get(l, staging))
      && post.lamports >= Get(l, staging).lamports
  {
    StagingParses(ch, staging, Get(l, staging));
    RunProgress(ch, l, txs, staging, body, chunk);
    var pre, post := Get(l, staging), Get(Run(ch, l, txs), staging);
    SameUploadGoesOn(ch, staging, body, pre, post);
    hide Run, AllQuiet, Sent, IsStaging, Inv;
    forall p: nat | p < |body|
      ensures RightAt(post, body, p)
    {
      hide RightAt, ReadStagingAccount;
      var i := ChunksCover(body, chunk, p);
      assert Delivered(post, body, chunk, i);
    }
    AllRight(post, body);
  }

  lemma AllRight(s: AccountState, body: seq<byte>)
    requires ReadStagingAccount(s.data).Ok? && |body| == |StagedBody(s)|
    requires forall p: nat :: p < |body| ==> RightAt(s, body, p)
    ensures StagedBody(s) == body && s.data == s.data[..STAGING_HEADER_LEN] + body
  {
    assert forall p: nat :: p < |body| ==> StagedBody(s)[p] == s.data[STAGING_HEADER_LEN + p] && RightAt(s, body, p);
  }

  /**
   * Registration end to end: whoever uploads a publishable body to its own staging account, however
   * the writes are cut and spread, ends with that key at its address by publishing.
   */
  lemma RegistrationCompletes(ch: Chain, l: Accounts, txs: seq<Transaction>, staging: Address, body: seq<byte>, chunk: nat, payer: Address)
    requires ch.Laws() && Inv(ch, l) && Total(l) <= U64_MAX && chunk > 0 && !ch.pda(payer)
    requires IsStaging(ch, staging, Get(l, staging)) && Get(l, staging).lamports > 0
    requires PublishableBody(ch, body, StagedN(Get(l, staging)))
    requires |body| == |StagedBody(Get(l, staging))|
    requires
      var writes := WriteBody(AuthorityOf(Get(l, staging)), staging, body, chunk);
      AllQuiet(txs, AuthorityOf(Get(l, staging)), writes) && forall i :: 0 <= i < |writes| ==> Sent(txs, writes, i)
    requires CanPay(ch, Run(ch, l, txs), payer, ch.derive(body).0, StagedN(Get(l, staging)))
    ensures
      var key := ch.derive(body).0;
      var publish := PublishInstr(AuthorityOf(Get(l, staging)), payer, staging, key);
      Holds(ch, Get(Run(ch, l, txs + [[publish]]), key), body)
  {
    StagingParses(ch, staging, Get(l, staging));
    hide IsStaging, ReadStagingAccount, Sent, AllQuiet, WriteBody, Inv, CanPay, Holds, Commit, Run;
    hide PublishableBody, AuthorityOf, StagedN, Chain.Laws, PublishInstr;
    UploadReconstructs(ch, l, txs, staging, body, chunk);
    RunInv(ch, l, txs);
    PublishNow(ch, Run(ch, l, txs), staging, payer);
    RunAppend(ch, l, txs, [PublishInstr(AuthorityOf(Get(l, staging)), payer, staging, ch.derive(body).0)]);
  }

  lemma PublishNow(ch: Chain, l: Accounts, staging: Address, payer: Address)
    requires ch.Laws() && Inv(ch, l) && Total(l) <= U64_MAX && !ch.pda(payer)
    requires IsStaging(ch, staging, Get(l, staging)) && Get(l, staging).lamports > 0
    requires StagedPublishable(ch, Get(l, staging))
    requires CanPay(ch, l, payer, ch.derive(StagedBody(Get(l, staging))).0, StagedN(Get(l, staging)))
    ensures
      var key := ch.derive(StagedBody(Get(l, staging))).0;
      var publish := PublishInstr(AuthorityOf(Get(l, staging)), payer, staging, key);
      Holds(ch, Get(Commit(ch, l, [publish]), key), StagedBody(Get(l, staging)))
  {
    StagingParses(ch, staging, Get(l, staging));
    hide IsStaging, ReadStagingAccount, Inv, CanPay, Holds, Commit, StagedPublishable, AuthorityOf, StagedN, Chain.Laws, PublishInstr;
    assert Run(ch, l, []) == l;
    UploadCannotBeBlocked(ch, l, [], staging, payer);
  }

  lemma {:induction false} RunAppend(ch: Chain, l: Accounts, txs: seq<Transaction>, tx: Transaction)
    ensures Run(ch, l, txs + [tx]) == Commit(ch, Run(ch, l, txs), tx)
    decreases |txs|
  {
    hide Commit;
    if |txs| > 0 {
      assert (txs + [tx])[1..] == txs[1..] + [tx];
      RunAppend(ch, Commit(ch, l, txs[0]), txs[1..], tx);
    } else {
      assert txs + [tx] == [tx] && [tx][1..] == [];
    }
  }

  /**
   * The whole client protocol: from a fresh address, creating the staging account, uploading in any
   * way and publishing always ends with the key of a publishable body at its address.
   */
  lemma FullRegistration(ch: Chain, l: Accounts, txs: seq<Transaction>, payer: Address, authority: Address, staging: Address,
                         body: seq<byte>, n: nat, lamports: nat, chunk: nat)
    requires ch.Laws() && Inv(ch, l) && Total(l) <= U64_MAX && lamports > 0 && chunk > 0
    requires payer != staging && authority != staging && Get(l, staging) == BLANK
    requires !ch.pda(payer) && !ch.pda(authority) && !ch.pda(staging)
    requires Get(l, payer).owner == SYSTEM_PROGRAM_ID && Get(l, payer).data == [] && Get(l, payer).lamports >= lamports
    requires n <= MAX_PUBLIC_INPUTS && PublishableBody(ch, body, n)
    requires
      var writes := WriteBody(authority, staging, body, chunk);
      AllQuiet(txs, authority, writes) && forall i :: 0 <= i < |writes| ==> Sent(txs, writes, i)
    requires
      var started := Commit(ch, l, CreateStaging(ch, payer, authority, staging, n, lamports));
      CanPay(ch, Run(ch, started, txs), payer, ch.derive(body).0, n)
    ensures
      var create, key := CreateStaging(ch, payer, authority, staging, n, lamports), ch.derive(body).0;
      Holds(ch, Get(Run(ch, l, [create] + (txs + [[PublishInstr(authority, payer, staging, key)]])), key), body)
  {
    hide IsStaging, ReadStagingAccount, Sent, AllQuiet, WriteBody, Inv, CanPay, Holds, Commit, ExecAll;
    hide PublishableBody, Chain.Laws, PublishInstr, CreateStaging;
    var create, key := CreateStaging(ch, payer, authority, staging, n, lamports), ch.derive(body).0;
    var rest := txs + [[PublishInstr(authority, payer, staging, key)]];
    var started := Commit(ch, l, create);
    CreateStagingSucceeds(ch, l, payer, authority, staging, n, lamports);
    CreateStagingIsAtomic(ch, l, payer, authority, staging, n, lamports);
    CommitInv(ch, l, create);
    BodyLength(ch, body, n);
    StagingParses(ch, staging, Get(started, staging));
    StagedFacts(Get(started, staging));
    RegistrationCompletes(ch, started, txs, staging, body, chunk, payer);
    assert ([create] + rest)[1..] == rest;
  }

  lemma BodyLength(ch: Chain, body: seq<byte>, n: nat)
    requires PublishableBody(ch, body, n)
    ensures |body| == VkBodyLen(n)
  {
  }
}
