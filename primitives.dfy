/**
 The value types the contracts work with: field elements of the proving
 system's base field, public keys, signatures, proof artifacts, and the
 outcome of a contract call or constraint system.
 */
module Primitives {

  /** Order of the base field of the Pallas curve, the field of every circuit value. */
  const P: int := 0x40000000000000000000000000000000224698fc094cf91b992d30ed00000001

  /** A field element. */
  newtype Field = x: int | 0 <= x < P

  /** Field addition: wraps around at the modulus. */
  function FieldAdd(a: Field, b: Field): (r: Field)
    ensures a as int + b as int < P ==> r as int == a as int + b as int
    ensures a as int + b as int >= P ==> r as int == a as int + b as int - P
  {
    ((a as int + b as int) % P) as Field
  }

  /** A public key: the x coordinate of a curve point and the parity of its y coordinate. */
  datatype PublicKey = PublicKey(x: Field, isOdd: bool)

  /** A Schnorr signature. */
  datatype Signature = Signature(r: Field, s: nat)

  /** A proof produced by the proving backend for a public input of type I. */
  datatype ProofArtifact<I> = ProofArtifact(publicInput: I, payload: seq<Field>)

  /** The assertion that stopped a call; the first one that fails wins. */
  datatype Error =
    | NotController        // the transaction sender is not the recorded controller
    | AlreadyInitialized   // the initialization flag is already set
    | NotInitialized       // the initialization flag is not set yet
    | SlotOccupied         // the empty-leaf root of the witness is not the committed root
    | NotMember            // the leaf's root under the witness is not the committed root
    | InvalidSignature     // the signature does not verify
    | InvalidProof         // the embedded proof does not verify
    | NegativeResult       // the external check result is not true
    | NonZeroState         // the public input of the trivial program is not zero

  /** Result of a contract method or of running a constraint system. */
  datatype Outcome = Ok | Fail(error: Error)
}
