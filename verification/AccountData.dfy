// Account layouts (groth16-verify/src/state.rs): `header ++ body`, told apart by the first byte.
module AccountData {
  import opened Wrappers
  import opened Bytes
  import opened Constants
  import opened Errors
  import opened KeyLayout

  type Address = a: seq<byte> | |a| == 32 witness Zeros(32)

  const SYSTEM_PROGRAM_ID: Address := Zeros(32)

  datatype KeyHeader = KeyHeader(bump: byte, numPublicInputs: nat)
  datatype StagingHeader = StagingHeader(numPublicInputs: nat, authority: Address)

  /** The declared `n`, a little-endian u16. */
  function ReadN(data: seq<byte>): nat
    requires |data| >= KEY_HEADER_LEN
  {
    LE(data[NUM_PUBLIC_INPUTS_OFFSET..NUM_PUBLIC_INPUTS_OFFSET + 2])
  }

  function ReadKeyAccount(data: seq<byte>): Result<(KeyHeader, VerifyingKey), Groth16Error> {
    if |data| < KEY_HEADER_LEN then Err(InvalidAccountData)
    else if data[DISCRIMINATOR_OFFSET] != DISCRIMINATOR_KEY then Err(WrongDiscriminator)
    else
      var n := ReadN(data);
      var vk :- FromBodyWithLen(data[KEY_HEADER_LEN..], n);
      Ok((KeyHeader(data[KEY_BUMP_OFFSET], n), vk))
  }

  function ReadStagingAccount(data: seq<byte>): Result<(StagingHeader, seq<byte>), Groth16Error> {
    if |data| < STAGING_HEADER_LEN then Err(InvalidAccountData)
    else if data[DISCRIMINATOR_OFFSET] != DISCRIMINATOR_STAGING then Err(WrongDiscriminator)
    else
      var n := ReadN(data);
      if n > MAX_PUBLIC_INPUTS || |data| != StagingAccountLen(n) then Err(InvalidAccountData)
      else Ok((StagingHeader(n, data[STAGING_AUTHORITY_OFFSET..STAGING_HEADER_LEN]), data[STAGING_HEADER_LEN..]))
  }

  /** The header bytes `write_key_header` leaves; `n` is truncated to sixteen bits. */
  function KeyHeaderBytes(h: KeyHeader): (b: seq<byte>)
    ensures |b| == KEY_HEADER_LEN
  {
    [DISCRIMINATOR_KEY, h.bump] + ToLE(h.numPublicInputs, 2) + Zeros(4)
  }

  function StagingHeaderBytes(h: StagingHeader): (b: seq<byte>)
    ensures |b| == STAGING_HEADER_LEN
  {
    [DISCRIMINATOR_STAGING, 0] + ToLE(h.numPublicInputs, 2) + Zeros(4) + h.authority
  }

  method WriteN(data: array<byte>, n: nat)
    requires data.Length >= KEY_HEADER_LEN
    modifies data
    ensures data[..] == Splice(old(data[..]), NUM_PUBLIC_INPUTS_OFFSET, ToLE(n, 2))
  {
    CopyInto(data, NUM_PUBLIC_INPUTS_OFFSET, ToLE(n, 2));
  }

  method Fill(data: array<byte>, lo: nat, hi: nat)
    requires lo <= hi <= data.Length
    modifies data
    ensures data[..] == old(data[..lo]) + Zeros(hi - lo) + old(data[hi..])
  {
    for i := lo to hi
      invariant forall k :: 0 <= k < data.Length ==> data[k] == if lo <= k < i then 0 else old(data[k])
    {
      data[i] := 0;
    }
  }

  /** The whole header is written; nothing after it is touched. */
  method WriteKeyHeader(data: array<byte>, h: KeyHeader)
    requires data.Length >= KEY_HEADER_LEN
    modifies data
    ensures data[..] == KeyHeaderBytes(h) + old(data[KEY_HEADER_LEN..])
  {
    data[DISCRIMINATOR_OFFSET] := DISCRIMINATOR_KEY;
    data[KEY_BUMP_OFFSET] := h.bump;
    WriteN(data, h.numPublicInputs);
    Fill(data, 4, KEY_HEADER_LEN);
  }

  method WriteStagingHeader(data: array<byte>, h: StagingHeader)
    requires data.Length >= STAGING_HEADER_LEN
    modifies data
    ensures data[..] == StagingHeaderBytes(h) + old(data[STAGING_HEADER_LEN..])
  {
    data[DISCRIMINATOR_OFFSET] := DISCRIMINATOR_STAGING;
    data[1] := 0;
    WriteN(data, h.numPublicInputs);
    Fill(data, 4, STAGING_AUTHORITY_OFFSET);
    CopyInto(data, STAGING_AUTHORITY_OFFSET, h.authority);
  }

  // --- Reading back what was written ---

  lemma HeaderN(n: nat)
    requires n < 0x1_0000
    ensures LE(ToLE(n, 2)) == n
  {
    Pow256Values();
    LEToLE(n, 2);
  }

  lemma KeyAccountRoundTrip(h: KeyHeader, body: seq<byte>)
    requires h.numPublicInputs <= MAX_PUBLIC_INPUTS && |body| == VkBodyLen(h.numPublicInputs)
    ensures ReadKeyAccount(KeyHeaderBytes(h) + body) == Ok((h, VerifyingKey(body, h.numPublicInputs, Unchecked)))
  {
    var data := KeyHeaderBytes(h) + body;
    HeaderN(h.numPublicInputs);
    hide ToLE, LE;
    assert data[NUM_PUBLIC_INPUTS_OFFSET..NUM_PUBLIC_INPUTS_OFFSET + 2] == ToLE(h.numPublicInputs, 2);
    assert data[KEY_HEADER_LEN..] == body;
  }

  lemma StagingAccountRoundTrip(h: StagingHeader, body: seq<byte>)
    requires h.numPublicInputs <= MAX_PUBLIC_INPUTS && |body| == VkBodyLen(h.numPublicInputs)
    ensures ReadStagingAccount(StagingHeaderBytes(h) + body) == Ok((h, body))
  {
    var data := StagingHeaderBytes(h) + body;
    HeaderN(h.numPublicInputs);
    hide ToLE, LE;
    assert data[NUM_PUBLIC_INPUTS_OFFSET..NUM_PUBLIC_INPUTS_OFFSET + 2] == ToLE(h.numPublicInputs, 2);
    assert data[STAGING_AUTHORITY_OFFSET..STAGING_HEADER_LEN] == h.authority;
    assert data[STAGING_HEADER_LEN..] == body;
  }

  /** No data is both a key account and a staging account, even when the discriminator is ignored. */
  lemma LayoutsDisjoint(data: seq<byte>)
    requires ReadKeyAccount(data).Ok?
    ensures ReadStagingAccount(data).Err?
    ensures forall m: nat :: |data| != StagingAccountLen(m)
  {
    forall m: nat
      ensures |data| != StagingAccountLen(m)
    {
      HeaderLengthsDiffer(ReadN(data), m);
    }
  }

  /** Overwriting part of the body keeps the header, the length and so the parse. */
  lemma BodyWriteKeepsHeader(data: seq<byte>, off: nat, piece: seq<byte>)
    requires ReadStagingAccount(data).Ok? && off + |piece| <= |data| - STAGING_HEADER_LEN
    ensures
      var (h, body) := ReadStagingAccount(data).value;
      ReadStagingAccount(Splice(data, STAGING_HEADER_LEN + off, piece)) == Ok((h, Splice(body, off, piece)))
      && Splice(data, STAGING_HEADER_LEN + off, piece)[..STAGING_HEADER_LEN] == data[..STAGING_HEADER_LEN]
  {
    var after := Splice(data, STAGING_HEADER_LEN + off, piece);
    hide LE;
    assert after[NUM_PUBLIC_INPUTS_OFFSET..NUM_PUBLIC_INPUTS_OFFSET + 2]
           == data[NUM_PUBLIC_INPUTS_OFFSET..NUM_PUBLIC_INPUTS_OFFSET + 2];
    assert after[STAGING_AUTHORITY_OFFSET..STAGING_HEADER_LEN] == data[STAGING_AUTHORITY_OFFSET..STAGING_HEADER_LEN];
    assert after[STAGING_HEADER_LEN..] == Splice(data[STAGING_HEADER_LEN..], off, piece);
  }
}
