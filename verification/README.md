# A verified model of the Groth16 verifying-key registry and verifier

The repository is an on-chain program that keeps Groth16 verifying keys at content-derived addresses
and verifies proofs against them, a verifier library, and a host-side converter from gnark's files.
This project models the three together and proves what the design documents promise of them.

## What is modelled

**The registry** (`AccountData`, `Ledger`, `Processor`, `Bank`, `Program`, `Runtime`, `Steps`,
`Registry`, `Guarantees`, `Answers`, `Upload`, `Walkthrough`). The state is a ledger from addresses to owner, lamports and data.
`Processor` states the five instructions as functions from the accounts before to the accounts after
or an error, with the source's checks in the source's order. `Program` runs them in place on account
objects found by address, so that two roles given one address share one object, and is proved equal to
those functions. `Runtime` surrounds the program with transactions that commit or roll back as a whole
and an environment that may do anything the ownership and signature rules allow: credit any address,
create, allocate and assign accounts that sign, and change whatever accounts other programs own.
`Registry` proves the invariant over every run; `Guarantees` and `Upload` derive the promises to the
parties from it. `Answers` says of every instruction, for any accounts and payload, when it succeeds,
what it leaves and which error it gives, and `Layout` where every byte is; both use the documented
numbers instead of the model's constants.

**The verifier** (`Scalar`, `Syscall`, `KeyLayout`, `Groth16`, `Validation`, `Verifier`, `Decision`).
Loops, skips and buffers are methods, each proved against a function over bytes; `Decision` connects
those functions to the Groth16 equation over points.

**The converter** (`Points`, `Wire`, `GnarkFormat`, `GnarkDocuments`, `Gnark`, `Pipeline`). Field and
point codecs with the real moduli, the key and proof writers and readers, gnark's flagged encodings
with a printer for every choice of form per point, and the cursor parser as a class with a position.
`Pipeline` is the top theorem: gnark files in, on-chain answer out.

**What is imported, and why it is consistent.** Curve arithmetic, square roots, the subgroup test, the
pairing and the `alt_bn128` syscall are a record of functions (`Points.Curve`); the laws asked of it are
named predicates that every theorem using them lists in its `requires`. `Instance` discharges them all
with the discrete-logarithm model, in which both groups are the integers modulo the group order, so no
law is left as an axiom. Prime order is used by three theorems only and is proved of the same model
from the primality of the group order. The deployment (program id, address derivation, rent) is the
record `Processor.Chain`; `Walkthrough` exhibits one that satisfies its laws and follows a registration
through it to an accepted and a rejected proof, so no theorem here is about nothing. SHA-256 and the bump
search are one function from a body to an address and a bump; where collisions matter, a collision is an
alternative in the conclusion and never assumed away.

## Where the documentation and the code differ

- The design document (docs/design.md:177-179) puts gnark's compression flag in three bits of the first
  byte; the parser (tools/convert/src/gnark.rs:46-50) uses two, and so does the model.
- The parser's comment says only the empty commitment shape is supported
  (tools/convert/src/gnark.rs:75-76); the code accepts any number of empty inner slices. The model
  follows the code: `GnarkDocuments.KeyConverse` characterises the accepted inputs with that count.
- The verifier's documentation says the sum is `IC0` plus the terms; when no term is used, the code
  passes `IC0` on unread. `Verifier.PrepareInputs` states the answer for undecodable keys too.

## Model

| member | source | states |
|---|---|---|
| Pipeline.GnarkToChain | tools/convert/src/gnark.rs:53-136 | Any three files the parsers accept are printings of a key, a proof and scalars, and in every reachable state in which that key is published `Verify` with the converted bytes answers exactly the Groth16 equation over those elements, or a count mismatch, unless the published body is a hash collision |
| Pipeline.VerifyConverted | groth16-verify/src/verifier.rs:39-47 | On converted bytes the only answers are acceptance by the equation, `ProofInvalid`, and a wrong number of inputs |
| Pipeline.BuildVerify | groth16-verify/src/instruction.rs:162-179 | The data is the tag, the proof and every input in order |
| Pipeline.FlattenScalars | tools/convert/src/wire.rs:234-241 | Row-wise and flat encodings of the inputs are the same bytes |
| Registry.ReachableInv | README.md:170-174 | In every reachable state an owned account under the key discriminator is at the canonical address and bump of its own body, at its exact length with validated points, and a derived address is such a key or holds nothing |
| Registry.RunInv | program/src/processor/publish.rs:66-110 | The registry invariant survives every run of transactions by anyone, and total lamports are conserved |
| Registry.CommitInv | README.md:170-174 | A transaction keeps the invariant and the total whether it commits or rolls back |
| Registry.InstructionKeeps | program/src/processor/mod.rs:24-39 | Any instruction of this or another program leaves each account lawful, only credits a key, and only credits a staging account unless its authority signs |
| Registry.GrothStep | program/src/processor/mod.rs:24-39 | A successful instruction does to each account one of six listed things and conserves lamports, whatever aliases it is given |
| Registry.OnlyWritableChange | program/src/processor/mod.rs:50-55 | An account that changes was passed as writable |
| Registry.KeysAreImmutable | docs/design.md:112-119 | Once published, owner and every byte stay the same over every run and the balance never falls |
| Registry.StagingIsolated | docs/design.md:124-128 | Over every run its authority does not sign, a staging account is only ever credited |
| Registry.HeaderFixedUntilClosed | program/src/processor/initialize_staging.rs:37-51 | Authority and input count are fixed from initialization until the account is closed, whoever signs |
| Registry.HeaderFixedOverRun | docs/design.md:124-128 | The same over whole runs, until the account is closed or emptied |
| Registry.CreateIsForeign | groth16-verify/src/instruction.rs:65-92 | The system program's `CreateAccount` obeys the rules set for the environment and leaves the target zeroed, owned and funded as asked |
| Registry.TransfersAllowed | README.md:194-202 | The environment may send lamports to any address, a derived one included |
| Registry.OwnersMayRewrite | docs/design.md:112-119 | The environment may put anything into accounts of other programs, and hand them over zeroed |
| Registry.SignersMayAssign | README.md:224-232 | The environment may allocate and assign any system account that signs, to this program too |
| Runtime.KindByDiscriminator | groth16-verify/src/state.rs:16-18 | Under the invariant the first byte alone tells blank, key and staging accounts apart, and a derived address is always a key |
| Guarantees.UploadCannotBeBlocked | docs/design.md:130-141 | After a publishable upload no run the authority does not sign, pre-funding the target included, stops it: its `Publish` succeeds and leaves exactly this body at the address, or finds the key already there |
| Guarantees.PublishSucceeds | program/src/processor/publish.rs:66-110 | An unpublished key with a validated upload and a payer that covers the shortfall always publishes |
| Guarantees.PublishDelivers | program/src/processor/publish.rs:93-111 | What a successful `Publish` leaves at the address is the uploaded body, with the staging account gone and its balance refunded |
| Guarantees.AlreadyThere | program/src/processor/publish.rs:81-83 | Publishing an existing key fails with its own error before any point is validated |
| Guarantees.RentIsRecoverable | program/src/processor/mod.rs:66-81 | In every reachable state the authority of any staging account is another account and can close it, receiving exactly its balance |
| Guarantees.RefundGoesToAuthority | program/src/processor/mod.rs:101-120 | Whatever instruction closes a staging account, its balance reaches the recorded authority, less only that authority's own top-up of the key it published |
| Guarantees.VerifyIsSound | program/src/processor/verify.rs:17-32 | In every reachable state `Verify` on an owned key account decides the Groth16 equation of a publishable key derived at that address; the unchecked marker is always true |
| Guarantees.AddressPinsKey | docs/design.md:71-74 | On the address of a body `Verify` answers `InvalidAccountOwner` until publication, and afterwards decides the equation of exactly that body or of a collision |
| Guarantees.VerifyIsStable | docs/design.md:84-86 | After publication the same proof and inputs get the same answer in every later state |
| Guarantees.CreateStagingIsAtomic | groth16-verify/src/instruction.rs:65-92 | The paired instructions in one transaction leave nothing, or an account initialized for this authority and count |
| Guarantees.CreateStagingSucceeds | groth16-verify/src/instruction.rs:65-92 | From a fresh address and a funded payer the pair always goes through, at the stated price, touching no other funded account |
| Guarantees.BlankAccountIsAnyones | docs/design.md:143-148 | Split over two transactions, any signer can claim the blank account |
| Answers.InitializeAnswers | program/src/processor/initialize_staging.rs:23-53 | For every account list and payload: succeeds iff the pair checks hold, the count is at most 151 and the account is blank at its exact size; the forty header bytes it then writes; the error of the first failed check otherwise |
| Answers.WriteAnswers | program/src/processor/write.rs:15-36 | For every account list and payload: succeeds iff the recorded authority writes within the body, and then every byte is the payload's inside the range and the old one outside; past the end it answers 103, and every other refusal has its error |
| Answers.CloseAnswers | program/src/processor/close_staging.rs:13-30 | For every account list and payload: succeeds iff the recorded, writable authority closes and the sum fits 64 bits; the two accounts it leaves; the error of the first failed check otherwise |
| Answers.PublishAnswers | program/src/processor/publish.rs:41-157 | For every account list and payload: succeeds iff the accounts, the upload, the address, the points and the funding all pass, funding meaning that the key has its rent or an ordinary payer brings the rest; the error of the first failed check otherwise |
| Answers.PublishLeaves | program/src/processor/publish.rs:93-157 | The key account byte by byte, holding the larger of its old balance and its rent; the payer short of exactly the difference, the authority richer by the staging balance, nothing else changed |
| Answers.FundingAnswers | program/src/processor/publish.rs:126-156 | Creating the key account fails only for want of lamports |
| Answers.VerifyAcceptsIff | program/src/processor/verify.rs:17-32 | In every reachable state, for every account list and payload, `Verify` succeeds iff the one account is a published key at the address derived from its body and the payload is a proof and inputs that satisfy its Groth16 equation |
| Answers.VerifyRefusesOthers | program/src/processor/verify.rs:25 | In every state an account of any other owner is refused as such, whatever it holds |
| Answers.VerifyAnswers | program/src/processor/verify.rs:22-31 | In every state the refusals before the mathematics, in order, each with its code, and the verifier's answer after them |
| Answers.DispatchAnswers | program/src/processor/mod.rs:24-39 | The first byte, from 0 to 4, picks the instruction, any other is refused, and accounts beyond the fifth are not seen |
| Answers.PairAnswers | program/src/processor/mod.rs:87-99 | When the shared checks pass and the error of the first that does not |
| Answers.StagedAnswers | program/src/processor/mod.rs:124-134 | When data is a staging account of this authority and the error otherwise |
| Upload.FullRegistration | README.md:218-256 | The whole client flow, create, upload in any way, publish, always ends with the key of a publishable body at its address |
| Upload.RegistrationCompletes | groth16-verify/src/instruction.rs:94-111 | Uploading a publishable body by its writes, in any order, repetition and company, and then publishing leaves that key at its address |
| Upload.UploadReconstructs | groth16-verify/src/instruction.rs:94-111 | Once every write has been sent the staged bytes are the untouched 40-byte header and exactly the body |
| Upload.CommitProgress | program/src/processor/write.rs:15-36 | A transaction of this upload's writes always commits and loses nothing already in place; so does anything the authority did not sign |
| Upload.WriteOne | program/src/processor/write.rs:20-35 | A write of the body's bytes at their offset succeeds, puts them in place, keeps header, authority and count, and touches no other account |
| Upload.ChunkPlace | groth16-verify/src/instruction.rs:107-110 | Chunk `i` is the slice of the body that starts at `i` times the chunk size; none is empty or longer than the chunk size, and only the last may be shorter |
| Upload.ChunksCover | groth16-verify/src/instruction.rs:107-110 | Every byte of the body is in some chunk |
| Upload.WriteBodyCount | groth16-verify/src/instruction.rs:99-111 | An upload has as many instructions as the length over the chunk size, rounded up |
| Upload.WriteBodyAt | groth16-verify/src/instruction.rs:99-134 | Instruction `i`, account by account and byte by byte: at most a chunk of the body, at offset `i` times the chunk size |
| Upload.OffsetFits | groth16-verify/src/instruction.rs:109 | No offset within a legal body is cut off by its 32-bit encoding |
| Upload.BuildWrite | groth16-verify/src/instruction.rs:115-134 | The data is the tag, the little-endian offset and the bytes |
| Program.ProcessInstruction | program/src/processor/mod.rs:24-39 | Dispatch in place gives the answer and the accounts of the specification |
| Program.InitializeStaging | program/src/processor/initialize_staging.rs:23-53 | In place: a blank account of the exact size becomes staging for the signer, every refusal with its error |
| Program.Write | program/src/processor/write.rs:15-36 | In place: an in-bounds write by the authority splices the body, every refusal with its error |
| Program.CloseStaging | program/src/processor/close_staging.rs:13-30 | In place: the authority gets the balance and the account is gone, every refusal with its error |
| Program.Publish | program/src/processor/publish.rs:41-111 | In place: checks in order, key created, header and body written, staging drained and closed |
| Program.Verify | program/src/processor/verify.rs:17-32 | The answer of the specification, with nothing changed |
| Program.StagingPair | program/src/processor/mod.rs:87-99 | The shared checks, in order, on account objects; the two accounts are distinct |
| Program.DrainAndClose | program/src/processor/mod.rs:108-120 | The balance moves whole, checked for overflow, and the account is closed |
| Program.CreateKeyAccount | program/src/processor/publish.rs:118-157 | Top-up if short, then allocate, then assign |
| Program.PublishAccounts | program/src/processor/publish.rs:49-64 | The nine account checks in order, each with its error |
| Program.PublishChecks | program/src/processor/publish.rs:73-91 | Length, address, ownership, emptiness, then points, each with its error |
| Program.FillKey | program/src/processor/publish.rs:97-107 | Header then body over a buffer of that exact size |
| Program.Transfer | program/src/processor/publish.rs:129-134 | The system transfer as its ledger effect or an error |
| Steps.InitializeForm | program/src/processor/initialize_staging.rs:23-53 | Success turns a blank owned account into staging for the signing authority and the given count, with a zero body, and changes nothing else |
| Steps.WriteForm | program/src/processor/write.rs:15-36 | Success was signed by the recorded authority, keeps the first 40 bytes and the length, and changes nothing else |
| Steps.CloseForm | program/src/processor/close_staging.rs:13-30 | Success gives the recorded authority exactly the balance and leaves the account blank |
| Steps.CreateKeyForm | program/src/processor/publish.rs:118-157 | The key account ends owned and zeroed with the larger of its old balance and its rent, the payer short of exactly the difference, lamports conserved |
| Steps.PublishForm | program/src/processor/publish.rs:41-111 | Success creates the key of the staged body at its derived address, closes the signed-for staging account, moves lamports as stated for every aliasing of payer and authority, and changes nothing else |
| Steps.DrainForm | program/src/processor/mod.rs:101-120 | For distinct accounts draining adds one balance to the other and conserves the total |
| AccountData.WriteKeyHeader | groth16-verify/src/state.rs:91-96 | All eight header bytes are set and nothing after them changes |
| AccountData.WriteStagingHeader | groth16-verify/src/state.rs:136-142 | All forty header bytes are set and nothing after them changes |
| AccountData.WriteN | groth16-verify/src/state.rs:36-39 | Two little-endian bytes at the count's offset, nothing else |
| AccountData.KeyAccountRoundTrip | groth16-verify/src/state.rs:70-96 | Reading a written key header and body gives both back |
| AccountData.StagingAccountRoundTrip | groth16-verify/src/state.rs:110-142 | Reading a written staging header and body gives both back |
| AccountData.LayoutsDisjoint | groth16-verify/src/state.rs:16-18 | No data reads as both kinds, and no key account has a length a staging account could have |
| AccountData.BodyWriteKeepsHeader | program/src/processor/write.rs:11-13 | A body-relative write cannot reach the header and leaves the parse intact |
| Constants.HeaderLengthsDiffer | groth16-verify/src/constants.rs:66-79 | A key account and a staging account never have equal lengths, for any counts |
| Constants.FrModulusValue | groth16-verify/src/constants.rs:15-20 | The stored bytes are the group order |
| KeyLayout.LengthInference | groth16-verify/src/verifying_key.rs:72-112 | Inferring the count from the length and checking the length of a known count accept the same bodies with the same result |
| KeyLayout.OneLayout | groth16-verify/src/verifying_key.rs:97-112 | One body has one count |
| KeyLayout.SplitProof | groth16-verify/src/proof.rs:30-36 | A split proof has exact length and proof and rest make up the payload |
| Layout.KeyAccountBytes | groth16-verify/src/state.rs:70-86 | A key account byte by byte: what is accepted and each refusal |
| Layout.StagingAccountBytes | groth16-verify/src/state.rs:110-131 | A staging account byte by byte: what is accepted and each refusal |
| Layout.HeaderBytes | groth16-verify/src/state.rs:91-142 | The bytes of both headers |
| Layout.BodyLengths | groth16-verify/src/verifying_key.rs:72-91 | The lengths a body can have, the count each implies, and the one error |
| Layout.Slots | groth16-verify/src/verifying_key.rs:167-200 | The byte range of each element of a key and of a proof |
| Layout.WrittenSlots | tools/convert/src/wire.rs:142-153 | What a written body holds in each range, with the negations |
| Layout.WritableCounts | tools/convert/src/wire.rs:135-141 | A key of 1 to 152 points is written; any other count has its error |
| Layout.G1Accepted | tools/convert/src/wire.rs:89-96 | The sixty-four bytes accepted as a point, what point they are, and each refusal |
| Layout.G2Accepted | tools/convert/src/wire.rs:99-106 | The same for G2, second coefficient first |
| Decision.VerifyDecides | groth16-verify/src/verifier.rs:39-47 | For a key whose points decode, each answer has exactly one cause, acceptance is the Groth16 equation with the stored negations undone, and `InvalidPoint` is only ever caused by the proof |
| Decision.ValidatedKeyDecides | groth16-verify/src/verifying_key.rs:124-127 | A key validated by the library itself comes back unchanged and checked, is publishable, and is decided as promised |
| Decision.FourPairs | groth16-verify/src/verifier.rs:110-131 | The buffer decodes iff the proof's points do, and its product is that of the four pairs with the negated key elements |
| Decision.ConverterPreservesMeaning | tools/convert/src/wire.rs:128-158 | `verify` on a written key, proof and inputs accepts iff the un-negated equation holds |
| Decision.EncodedKey | tools/convert/src/wire.rs:128-158 | A written body is a laid-out key whose points decode to the elements written |
| Decision.EncodedProof | tools/convert/src/wire.rs:216-231 | A written proof decodes to its three points |
| Decision.FlatScalars | tools/convert/src/wire.rs:238-241 | The verifier reads back exactly the scalars written and finds them canonical |
| Decision.OneProofOneSum | groth16-verify/src/validation.rs:22-33 | For a validated key, two input vectors one proof is accepted for have the same public sum |
| Decision.OneProofOneInput | groth16-verify/src/validation.rs:22-33 | With one input whose point is not the identity, a proof is accepted for one input at most |
| Decision.IdentityGammaVerifiesAll | groth16-verify/src/validation.rs:22-33 | The identity rule is tight: with an identity gamma one fixed proof passes for every input |
| Groth16.NegatedEquation | docs/design.md:203-228 | The product of four pairs with negated G2 elements is one iff the Groth16 equation holds |
| Groth16.SameProofSameSum | groth16-verify/src/validation.rs:22-23 | With non-identity gamma the equation pins the public sum |
| Groth16.OneInputPinned | groth16-verify/src/validation.rs:22-23 | With one non-identity input point it pins the input |
| Groth16.IdentityGammaAcceptsAll | groth16-verify/src/validation.rs:22-23 | With identity gamma the proof made of alpha, beta and the identity satisfies it for every input |
| Verifier.Verify | groth16-verify/src/verifier.rs:39-47 | The specified answer, and on every run that finishes its syscalls the cost 73,612 plus that of the terms used |
| Verifier.PrepareInputs | groth16-verify/src/verifier.rs:58-94 | Count, then canonicity, then the encoded sum, with the exact condition under which an undecodable key point is noticed |
| Verifier.PrepareIsPlainSum | groth16-verify/src/verifier.rs:58-94 | For decodable keys the skips and shortcuts never fail and give the encoding of the plain sum, identities included |
| Verifier.PrepareRefusals | groth16-verify/src/verifier.rs:58-94 | The three refusals in order and no other, for keys of any points: what does not decode is noticed exactly when an input that matters brings it into the sum |
| Verifier.Accumulate | groth16-verify/src/verifier.rs:76-92 | One term under its four branches keeps the accumulator at the partial sum, at the stated cost |
| Verifier.AddTerm | groth16-verify/src/verifier.rs:86-91 | The one-shortcut and multiply-then-add agree with adding the multiple |
| Verifier.CheckScalars | groth16-verify/src/verifier.rs:67-73 | Passes iff every input is below the group order |
| Verifier.WritePairingInput | groth16-verify/src/verifier.rs:110-131 | The buffer is exactly the four slots in order |
| Verifier.CheckPairing | groth16-verify/src/verifier.rs:135-141 | Product one, product not one and undecodable are told apart |
| Verifier.CostBound | docs/cu-budget.md:44-51 | The terms cost at most 4,174 each, with equality iff no input is zero or one and no used point is the identity |
| Validation.ValidateForPublish | groth16-verify/src/validation.rs:24-50 | Succeeds iff no fixed element is the identity and every point decodes; a success costs 61,299 plus 334 for every two table points after the first, rounded up |
| Validation.ValidateIcTail | groth16-verify/src/validation.rs:43-49 | The stepped loop covers every table point after the first, odd tail included, in half as many additions, rounded up |
| Validation.ValidateThreePairs | groth16-verify/src/validation.rs:35-41 | The pairing call accepts iff alpha, the first table point and the three G2 points decode |
| Validation.FillInput | groth16-verify/src/validation.rs:35-40 | The buffer is the three pairs |
| Validation.AnyIdentity | groth16-verify/src/validation.rs:27-33 | Detects exactly the keys with an identity among the four fixed elements |
| Validation.ThreePairsDecode | groth16-verify/src/validation.rs:13-21 | The three-pair buffer decodes iff the fixed elements and the first table point do |
| Layout.ValidationRefusals | groth16-verify/src/validation.rs:24-50 | The two refusals over the body's byte ranges, the identity rule first |
| Validation.PublishableElements | groth16-verify/src/validation.rs:22-33 | A publishable key's elements are on their curves and none of the four is the identity |
| Scalar.IsCanonical | groth16-verify/src/scalar.rs:9-11 | Byte-wise comparison with the modulus is integer comparison |
| Scalar.IsZero | groth16-verify/src/scalar.rs:22-29 | The word-wise reduction is zero iff every byte is, for every length divisible by eight |
| Scalar.IsOne | groth16-verify/src/scalar.rs:32-34 | Holds iff the integer is one |
| Bytes.LexIsBE | groth16-verify/src/scalar.rs:6-11 | Equal-length big-endian strings compare as the integers they encode |
| Syscall.G1Add | groth16-verify/src/syscall.rs:20-27 | The sum of two decodable points, or `InvalidPoint` |
| Syscall.G1Mul | groth16-verify/src/syscall.rs:32-39 | The multiple of a decodable point by a canonical scalar, or `InvalidPoint` |
| Syscall.PairingIsOne | groth16-verify/src/syscall.rs:47-53 | Whether the product of the decoded pairs is one, or `InvalidPoint` |
| Syscall.GroupOp | groth16-verify/src/syscall.rs:65-81 | The result lands in the output buffer or the error is `InvalidPoint` |
| Points.FqRoundTrip | tools/convert/src/wire.rs:66-72 | Accepted iff below the modulus, and then encoding undoes decoding |
| Points.FqEncodeDecode | tools/convert/src/wire.rs:25-30 | Decoding undoes encoding |
| Points.FrRoundTrip | tools/convert/src/wire.rs:80-86 | Accepted iff below the group order, and then encoding undoes decoding |
| Points.FrEncodeDecode | tools/convert/src/wire.rs:39-44 | Decoding undoes encoding |
| Points.Fq2EncodeDecode | tools/convert/src/wire.rs:32-37 | Decoding undoes encoding, high coefficient first |
| Points.Fq2DecodeEncode | tools/convert/src/wire.rs:74-78 | Encoding undoes decoding |
| Points.Curve.G1EncodeDecode | tools/convert/src/wire.rs:46-53 | Every G1 point decodes to itself, and only the identity is all zeros |
| Points.Curve.G1DecodeEncode | tools/convert/src/wire.rs:89-96 | Every accepted string is the encoding of a point on the curve |
| Points.Curve.G2EncodeDecode | tools/convert/src/wire.rs:55-62 | Every G2 point decodes to itself, and only the identity is all zeros |
| Points.Curve.G2DecodeEncode | tools/convert/src/wire.rs:99-106 | Every accepted string is the encoding of a point of the subgroup |
| Points.Curve.Neg2Valid | tools/convert/src/wire.rs:144-149 | A G2 point is valid iff its negation is |
| Wire.New | tools/convert/src/wire.rs:128-158 | The body is the fixed elements with three negations and then the table, for every count up to the maximum, with an error outside |
| Wire.WriteIc | tools/convert/src/wire.rs:150-153 | The loop appends every table point after the fixed elements |
| Wire.NewProof | tools/convert/src/wire.rs:217-223 | The three points in order |
| Wire.EncodeG1 | tools/convert/src/wire.rs:46-53 | The buffer holds the coordinates, or zeros for the identity |
| Wire.EncodeG2 | tools/convert/src/wire.rs:55-62 | The buffer holds the coordinates, or zeros for the identity |
| Wire.DecodeOfNew | tools/convert/src/wire.rs:189-194 | `elements` inverts `new`, through the double negation |
| Wire.BodyInjective | tools/convert/src/wire.rs:128-158 | Distinct elements give distinct bodies |
| Wire.DecodeBodyIff | tools/convert/src/wire.rs:197-210 | Decoding succeeds iff the length is legal and every slot is a point |
| Wire.FromBodyRebuilds | tools/convert/src/wire.rs:161-166 | An accepted body is rebuilt byte for byte: the debug assertion never fires |
| Wire.BodyRefusals | tools/convert/src/wire.rs:197-210 | A refused body is refused for its length, or with the error of its first slot that is no point |
| Wire.ValidationAgrees | tools/convert/src/wire.rs:168-174 | On-chain validation accepts exactly what decodes off-chain and has no identity among the four elements |
| Wire.ProofSlots | tools/convert/src/wire.rs:217-223 | Each slot of a written proof is its point's encoding |
| GnarkFormat.RootChoice1 | tools/convert/src/gnark.rs:244-251 | Decompression finds the one root the flag names, for every abscissa and both flags |
| GnarkFormat.RootChoice2 | tools/convert/src/gnark.rs:13-16 | gnark's order on the extension field and the chosen root agree, both directions |
| GnarkFormat.ReadPutG1 | tools/convert/src/gnark.rs:193-212 | Every form of a G1 point, with flag 2 for the smaller root and 3 for the larger, reads back to it and leaves the rest |
| GnarkFormat.ReadPutG2 | tools/convert/src/gnark.rs:214-231 | Every form of a G2 point, with flag 2 for the smaller root and 3 for the larger, reads back to it and leaves the rest |
| GnarkFormat.ReadG1Is | tools/convert/src/gnark.rs:193-212 | Every accepted G1 encoding is one of the forms of a point on the curve |
| GnarkFormat.ReadG2Is | tools/convert/src/gnark.rs:214-231 | Every accepted G2 encoding is one of the forms of a point of the subgroup |
| GnarkFormat.SignedFlags1 | tools/convert/src/gnark.rs:46-50 | A first byte from 128 to 191 yields the G1 point whose ordinate is not above half the modulus, from 192 on the one above half, both directions, with every refusal |
| GnarkFormat.SignedFlags2 | tools/convert/src/gnark.rs:46-50 | The same for G2, the second coefficient deciding, the first where it is zero |
| GnarkFormat.UnsignedFlags | tools/convert/src/gnark.rs:46-50 | Below 64 the point is raw, and from 64 to 127 only the identity is accepted, with every refusal |
| GnarkFormat.PrintedFlags1 | tools/convert/src/gnark.rs:3-16 | The first byte of each form of a G1 point, and what is left once its flag is cleared |
| GnarkFormat.PrintedFlags2 | tools/convert/src/gnark.rs:3-16 | The same for G2, second coefficient first |
| GnarkFormat.LengthPrefix | tools/convert/src/gnark.rs:185-187 | A length is four bytes, most significant first |
| GnarkDocuments.KeyRoundTrip | tools/convert/src/gnark.rs:53-95 | Every key with every choice of form at every point parses to the same on-chain key |
| GnarkDocuments.KeyConverse | tools/convert/src/gnark.rs:53-95 | Every accepted input is such a printing, with empty commitment parts and nothing after |
| GnarkDocuments.ProofRoundTrip | tools/convert/src/gnark.rs:98-110 | Every printing of a proof parses to it |
| GnarkDocuments.ProofConverse | tools/convert/src/gnark.rs:98-110 | Every accepted input is a printing of a proof |
| GnarkDocuments.WitnessRoundTrip | tools/convert/src/gnark.rs:114-136 | Every printing of scalars parses to them |
| GnarkDocuments.WitnessConverse | tools/convert/src/gnark.rs:114-136 | Accepted inputs are exactly length, zero, length and that many canonical scalars |
| GnarkDocuments.WitnessPayload | tools/convert/src/wire.rs:239-241 | Re-encoding a parsed witness gives back its payload unchanged |
| GnarkDocuments.WitnessAnswers | tools/convert/src/gnark.rs:114-136 | Every input byte by byte: its scalars or its refusal |
| GnarkDocuments.TableRefusals | tools/convert/src/gnark.rs:62-69 | The length of the point table is refused before a point is read, with its error |
| GnarkDocuments.KeyTrailing | tools/convert/src/gnark.rs:178-183 | Bytes after a key are counted and refused |
| GnarkDocuments.ProofTrailing | tools/convert/src/gnark.rs:178-183 | Bytes after a proof are counted and refused |
| GnarkDocuments.WitnessTrailing | tools/convert/src/gnark.rs:178-183 | Bytes after a witness are counted and refused |
| Gnark.ParseVerifyingKey | tools/convert/src/gnark.rs:53-95 | The cursor parser agrees with the specification on every input, errors included |
| Gnark.ParseProof | tools/convert/src/gnark.rs:98-110 | The cursor parser agrees with the specification on every input, errors included |
| Gnark.ParsePublicWitness | tools/convert/src/gnark.rs:114-136 | The cursor parser agrees with the specification on every input, errors included |
| Gnark.Reader.Take | tools/convert/src/gnark.rs:148-156 | The cursor advances by exactly what it returns, or not at all |
| Gnark.Reader.PointG1 | tools/convert/src/gnark.rs:193-212 | One flagged point off the front of what is left |
| Gnark.Reader.PointG2 | tools/convert/src/gnark.rs:214-231 | One flagged point off the front of what is left |
| Gnark.Reader.Points | tools/convert/src/gnark.rs:70-73 | The pushing loop reads exactly that many points |
| Gnark.Reader.EmptySlices | tools/convert/src/gnark.rs:77-85 | The loop accepts exactly that many zero lengths |
| Gnark.Reader.ScalarsOf | tools/convert/src/gnark.rs:130-133 | The pushing loop reads exactly that many scalars |
| Walkthrough.RegisterAndVerify | program/tests/walkthrough.rs:1-18 | On the concrete curve and chain one run creates, uploads and publishes a key, which then accepts a true proof and rejects a false one |
| Instance.LawsHold | groth16-verify/src/syscall.rs:1-8 | Every law asked of the curve and the syscall holds of the discrete-logarithm model |
| Instance.PrimeOrderHolds | groth16-verify/src/verifying_key.rs:114-123 | If the group order is prime, non-degeneracy and the order of points hold of that model |
| Walkthrough.ChainLawsHold | groth16-verify/src/instruction.rs:20-29 | The laws asked of a deployment hold of a concrete one |

## Left out

- BN254 arithmetic, the Miller loop, the subgroup test and square roots: outside the repository; laws of `Points.Curve`, discharged by the discrete-logarithm model rather than by the real curve.
- The primality of the group order: a named hypothesis of `Instance.PrimeOrderHolds`; nothing else uses it.
- SHA-256, program-address derivation and the off-curve bump search: one function from a body to an address and a bump.
- Rent, `Rent::get` failures and the runtime's rent-state check at the end of a transaction: rent is a positive function of the size.
- Borrow flags, the entrypoint's binary interface and the privilege checks of cross-program calls: an inner call is its ledger effect or an error.
- Program.Publish: promises nothing about the accounts after an error, because the runtime discards them; the same holds of the other in-place processors.
- Cross-program nesting: an instruction another program makes to this one is a step of the transaction in its own place, with the signatures it carries.
- Error codes of the system program and the runtime: one value, `CpiFailed`.
- Verifier.Verify: counts syscall charges only; the program's own instructions and transaction fees are not modelled.
- The bincode data of `create_staging`'s first instruction: the system program's `CreateAccount` is a step with its arguments.
- `usize` overflow: no length in the model approaches 64 bits, so the checked additions of the readers and of `Write` are plain.
- tools/convert/src/arkworks.rs, the tag table, the error display strings, `tools/bench`, the Go fixture generator and the test harnesses: one-branch facts, measurement or I/O.
- Vector capacities and other choices that only affect speed: nothing depends on them.
- Provenance of keys, the trusted setup, the soundness of Groth16 itself and the program's upgrade authority: not decided by this code.
