// The three error types of the repository and the map between the first two
// (groth16-verify/src/error.rs, program/src/error.rs, tools/convert/src/lib.rs).
module Errors {

  datatype Groth16Error =
    | InvalidProofLength
    | InvalidKeyLength
    | TooManyPublicInputs
    | PublicInputCountMismatch
    | NonCanonicalScalar
    | InvalidPoint
    | ProofInvalid
    | InvalidAccountData
    | WrongDiscriminator
    | IdentityKeyElement

  /** `CpiFailed` stands for whatever the system program or the runtime reports. */
  datatype ProgramError =
    | MissingRequiredSignature
    | InvalidArgument
    | InvalidAccountOwner
    | IncorrectProgramId
    | IncorrectAuthority
    | InvalidInstructionData
    | AccountAlreadyInitialized
    | BadAccountData
    | ArithmeticOverflow
    | CpiFailed
    | Custom(code: nat)

  const KEY_ADDRESS_MISMATCH := Custom(100)
  const KEY_ALREADY_PUBLISHED := Custom(101)
  const STAGING_SIZE_MISMATCH := Custom(102)
  const WRITE_OUT_OF_BOUNDS := Custom(103)

  function MapGroth16(e: Groth16Error): ProgramError {
    match e
    case InvalidProofLength => Custom(0)
    case InvalidKeyLength => Custom(1)
    case TooManyPublicInputs => Custom(2)
    case PublicInputCountMismatch => Custom(3)
    case NonCanonicalScalar => Custom(4)
    case InvalidPoint => Custom(5)
    case ProofInvalid => Custom(6)
    case InvalidAccountData => Custom(7)
    case WrongDiscriminator => Custom(8)
    case IdentityKeyElement => Custom(104)
  }

  datatype ConvertError =
    | UnexpectedEof
    | TrailingBytes(count: nat)
    | NonCanonicalField
    | InvalidCurvePoint
    | Unsupported(what: string)
    | TooManyInputs(n: nat)
}
