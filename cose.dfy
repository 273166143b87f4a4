/** COSE constants and the verifier's result codes (`enum t_cose_err_t`). */
module Cose {

  /** A result code other than the named ones: the literal 99 returned for a
      non-integer algorithm, or whatever the hashing and public-key
      collaborators report. */
  type OtherCode = c: int | c != 0 witness 99

  datatype Status =
    | Success
    | UnsupportedSigningAlg
    | Sign1Format
    | CborNotWellFormed
    | CborStructure
    | TooManyHeaders
    | UnknownCriticalHeader
    | NoKid
    | ShortCircuitSig
    | SigVerify
    | Other(code: OtherCode)

  /** Common header labels, section 3.1 of RFC 8152. */
  const COSE_HEADER_PARAM_ALG: int := 1
  const COSE_HEADER_PARAM_CRIT: int := 2
  const COSE_HEADER_PARAM_KID: int := 4
  const COSE_HEADER_PARAM_IV: int := 5
  const COSE_HEADER_PARAM_PARTIAL_IV: int := 6

  /** Algorithm identifier 0 is reserved in the IANA COSE registry. */
  const COSE_ALGORITHM_RESERVED: int := 0

  const INT32_MIN: int := -0x8000_0000
  const INT32_MAX: int := 0x7fff_ffff

  /** The code returned when the alg header is not an integer. */
  const ALG_NOT_INTEGER: Status := Other(99)

  /** A C cast to `int32_t`, as two's-complement truncation to 32 bits. */
  function Int32Wrap(v: int): (r: int)
    ensures INT32_MIN <= r <= INT32_MAX
    ensures (v - r) % 0x1_0000_0000 == 0
    ensures INT32_MIN <= v <= INT32_MAX ==> r == v
  {
    (v - INT32_MIN) % 0x1_0000_0000 + INT32_MIN
  }
}
