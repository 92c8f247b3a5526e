/**
 The proof-gated registry contract (MVSContract in the proof-based
 revision) and its trivial proof program (MVSProofGen.generate).

 The contract holds only a root. Setting the root is unguarded; insertion
 and membership both first require an embedded proof to verify, and the
 leaf is the hash of the user's proof record.
 */
module MvsV2Proofs {
  import opened Primitives
  import opened Merkle

  /** A user's proof record: the user's key and a serialized proof. */
  datatype UserProof = UserProof(userAddress: PublicKey, proof: ProofArtifact<seq<Field>>)

  /** The foreign capabilities the contract calls. */
  datatype Backend = Backend(
    hash: Hasher,
    // Proof.fromJSON(json).verify()
    proofValid: ProofArtifact<seq<Field>> -> bool,
    // userProof.hash(): the record's fingerprint
    userProofHash: UserProof -> Field)

  /** The contract's on-ledger state. */
  datatype ContractState = ContractState(root: Field)

  /** initStateRoot: no guard at all. */
  function InitStateRootStep(s: ContractState, stateRoot: Field): (r: (Outcome, ContractState))
    ensures r == (Ok, ContractState(stateRoot))
  {
    (Ok, s.(root := stateRoot))
  }

  /**
   addNewUser: the embedded proof verifies, and the witness's slot is empty
   under the root; the record's fingerprint then fills the slot.
   */
  function AddNewUserStep(b: Backend, s: ContractState, userProof: UserProof, w: Witness): (r: (Outcome, ContractState))
    ensures r.0 == Ok <==> b.proofValid(userProof.proof) && IsEmptySlot(b.hash, w, s.root)
    ensures !b.proofValid(userProof.proof) ==> r.0 == Fail(InvalidProof)
    ensures r.0 == Ok ==> IsMember(b.hash, w, b.userProofHash(userProof), r.1.root)
    ensures r.0 != Ok ==> r.1 == s
  {
    if !b.proofValid(userProof.proof) then (Fail(InvalidProof), s)
    else if s.root != CalculateRoot(b.hash, w, EmptyLeaf) then (Fail(SlotOccupied), s)
    else (Ok, s.(root := CalculateRoot(b.hash, w, b.userProofHash(userProof))))
  }

  /** verifyUser: the embedded proof verifies and the record's fingerprint occupies the slot. */
  function VerifyUserCheck(b: Backend, s: ContractState, userProof: UserProof, w: Witness): (r: Outcome)
    ensures r == Ok <==> b.proofValid(userProof.proof) && IsMember(b.hash, w, b.userProofHash(userProof), s.root)
    ensures !b.proofValid(userProof.proof) ==> r == Fail(InvalidProof)
  {
    if !b.proofValid(userProof.proof) then Fail(InvalidProof)
    else if s.root != CalculateRoot(b.hash, w, b.userProofHash(userProof)) then Fail(NotMember)
    else Ok
  }

  /** MVSProofGen.generate: a proof exists exactly for the public input zero. */
  function Generate(state: Field): (r: Outcome)
    ensures r == Ok <==> state == 0
  {
    if state != 0 then Fail(NonZeroState) else Ok
  }

  /**
   Right after a successful addNewUser, verifyUser of the same record and
   witness succeeds: the proof it checks already verified during insertion.
   */
  lemma AddThenVerify(b: Backend, s: ContractState, userProof: UserProof, w: Witness)
    requires AddNewUserStep(b, s, userProof, w).0 == Ok
    ensures VerifyUserCheck(b, AddNewUserStep(b, s, userProof, w).1, userProof, w) == Ok
  {
  }

  /**
   A record verifies against the root held before its insertion only if
   its fingerprint left the root as it was; so a record with a non-empty
   fingerprint does not, unless hashing the fingerprint and the empty leaf
   up the witness meets a collision.
   */
  lemma NotMemberBeforeInsertion(b: Backend, s: ContractState, userProof: UserProof, w: Witness)
    requires AddNewUserStep(b, s, userProof, w).0 == Ok
    ensures VerifyUserCheck(b, s, userProof, w) == Ok ==>
      CalculateRoot(b.hash, w, b.userProofHash(userProof)) == CalculateRoot(b.hash, w, EmptyLeaf)
    ensures b.userProofHash(userProof) != EmptyLeaf ==>
      VerifyUserCheck(b, s, userProof, w) != Ok || CollisionOnPath(b.hash, b.userProofHash(userProof), EmptyLeaf, w)
  {
    if b.userProofHash(userProof) != EmptyLeaf {
      InsertionChangesRoot(b.hash, w, b.userProofHash(userProof));
    }
  }

  /** A state-changing contract call. */
  datatype Call =
    | InitRootCall(stateRoot: Field)
    | AddUserCall(userProof: UserProof, w: Witness)

  function Apply(b: Backend, s: ContractState, c: Call): (r: (Outcome, ContractState))
  {
    match c
    case InitRootCall(stateRoot) => InitStateRootStep(s, stateRoot)
    case AddUserCall(userProof, w) => AddNewUserStep(b, s, userProof, w)
  }

  function Run(b: Backend, s: ContractState, calls: seq<Call>): (last: ContractState)
    decreases |calls|
  {
    if calls == [] then s else Run(b, Apply(b, s, calls[0]).1, calls[1..])
  }

  /** Every call is accepted when all of them are initStateRoot calls, and the last root wins. */
  lemma {:induction false} InitStateRootRepeatable(b: Backend, s: ContractState, calls: seq<Call>)
    requires calls != []
    requires forall i :: 0 <= i < |calls| ==> calls[i].InitRootCall?
    ensures Run(b, s, calls).root == calls[|calls| - 1].stateRoot
    ensures forall i :: 0 <= i < |calls| ==> Apply(b, Run(b, s, calls[..i]), calls[i]).0 == Ok
    decreases |calls|
  {
    var s' := Apply(b, s, calls[0]).1;
    if |calls| > 1 {
      InitStateRootRepeatable(b, s', calls[1..]);
      forall i | 0 < i < |calls|
        ensures Run(b, s, calls[..i]) == Run(b, s', calls[1..][..i - 1])
      {
        assert calls[..i][1..] == calls[1..][..i - 1];
      }
      forall i | 0 < i < |calls|
        ensures Apply(b, Run(b, s, calls[..i]), calls[i]).0 == Ok
      {
        assert calls[i] == calls[1..][i - 1];
      }
    }
    assert calls[..0] == [];
  }

  /**
   Without initStateRoot calls, the root changes only through an insertion
   whose embedded proof verifies.
   */
  lemma {:induction false} InsertionNeedsValidProof(b: Backend, s: ContractState, calls: seq<Call>)
    requires forall i :: 0 <= i < |calls| ==> calls[i].AddUserCall? && !b.proofValid(calls[i].userProof.proof)
    ensures Run(b, s, calls) == s
    decreases |calls|
  {
    if calls != [] {
      InsertionNeedsValidProof(b, Apply(b, s, calls[0]).1, calls[1..]);
    }
  }

  class MvsContract {
    const backend: Backend
    var root: Field

    function State(): (s: ContractState)
      reads this
    {
      ContractState(root)
    }

    /** Deployment: the root is left at its zero default. */
    constructor (backend: Backend)
      ensures this.backend == backend && root == 0
    {
      this.backend := backend;
      root := 0;
    }

    method InitStateRoot(stateRoot: Field) returns (r: Outcome)
      modifies this
      ensures (r, State()) == InitStateRootStep(old(State()), stateRoot)
    {
      root := stateRoot;
      r := Ok;
    }

    method AddNewUser(userProof: UserProof, userWitness: Witness) returns (r: Outcome)
      modifies this
      ensures (r, State()) == AddNewUserStep(backend, old(State()), userProof, userWitness)
    {
      var commitment := root;
      if !backend.proofValid(userProof.proof) {
        return Fail(InvalidProof);
      }
      var emptyRoot := CalculateRoot(backend.hash, userWitness, EmptyLeaf);
      if commitment != emptyRoot {
        return Fail(SlotOccupied);
      }
      var newCommitment := CalculateRoot(backend.hash, userWitness, backend.userProofHash(userProof));
      root := newCommitment;
      r := Ok;
    }

    method VerifyUser(userProof: UserProof, userWitness: Witness) returns (r: Outcome)
      ensures r == VerifyUserCheck(backend, State(), userProof, userWitness)
    {
      var commitment := root;
      if !backend.proofValid(userProof.proof) {
        return Fail(InvalidProof);
      }
      var userCommitment := CalculateRoot(backend.hash, userWitness, backend.userProofHash(userProof));
      if commitment != userCommitment {
        return Fail(NotMember);
      }
      r := Ok;
    }
  }
}
