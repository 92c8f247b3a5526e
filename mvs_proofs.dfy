/**
 The controller-gated registry contract (MVSContractV2) and the
 insertion-validity program (MVSProofGen.getProof).

 The contract holds four state slots: the committed root, a record counter,
 the controller's key and an initialization flag. Every method makes all of
 its assertions before it sets any slot, so a failing call changes nothing.
 Signature and proof verification belong to the proving backend and are
 parameters here.
 */
module MvsProofs {
  import opened Primitives
  import opened Merkle

  /** The foreign capabilities the contract calls. */
  datatype Backend = Backend(
    hash: Hasher,
    // signature.verify(publicKey, message)
    signatureValid: (Signature, PublicKey, seq<Field>) -> bool,
    // proof.verify() of a recursive proof over a witness
    selfProofValid: ProofArtifact<Witness> -> bool)

  /** The contract's on-ledger state. */
  datatype ContractState = ContractState(
    storageRoot: Field,
    numOfUsers: Field,
    mvsController: PublicKey,
    initialized: bool)

  // ---------------------------------------------------------------------------
  // The transitions, as functions of the state before the call
  // ---------------------------------------------------------------------------

  /** The state after deployment: zero defaults, then `init`. */
  function Deployed(sender: PublicKey): (s: ContractState)
    ensures s.numOfUsers == 0 && !s.initialized && s.mvsController == sender
    ensures s.storageRoot == 0
  {
    ContractState(0, 0, sender, false)
  }

  /** setZkdbRoot: controller only, once; sets the root and the lock. */
  function SetZkdbRootStep(s: ContractState, sender: PublicKey, root: Field): (r: (Outcome, ContractState))
    ensures r.0 == Ok <==> sender == s.mvsController && !s.initialized
    ensures sender != s.mvsController ==> r.0 == Fail(NotController)
    ensures r.0 == Ok ==> r.1 == s.(storageRoot := root, initialized := true)
    ensures r.0 != Ok ==> r.1 == s
  {
    if s.mvsController != sender then (Fail(NotController), s)
    else if s.initialized then (Fail(AlreadyInitialized), s)
    else (Ok, s.(storageRoot := root, initialized := true))
  }

  /**
   addProofRecord as written: controller only, the flag must still be
   false, and the witness's slot must be empty under the committed root;
   then the record fills the slot and the counter goes up by one.
   */
  function AddProofRecordStep(h: Hasher, s: ContractState, sender: PublicKey, record: Field, w: Witness)
    : (r: (Outcome, ContractState))
    ensures r.0 == Ok <==>
      sender == s.mvsController && !s.initialized && IsEmptySlot(h, w, s.storageRoot)
    ensures r.0 == Ok ==>
      IsMember(h, w, record, r.1.storageRoot) &&
      r.1 == s.(storageRoot := r.1.storageRoot, numOfUsers := FieldAdd(s.numOfUsers, 1))
    ensures r.0 != Ok ==> r.1 == s
  {
    if s.mvsController != sender then (Fail(NotController), s)
    else if s.initialized then (Fail(AlreadyInitialized), s)
    else if CalculateRoot(h, w, EmptyLeaf) != s.storageRoot then (Fail(SlotOccupied), s)
    else (Ok, s.(storageRoot := CalculateRoot(h, w, record), numOfUsers := FieldAdd(s.numOfUsers, 1)))
  }

  /**
   verifyProofRecord: the record occupies the witness's slot, the signature
   over the proof's field encoding verifies, and the nested proof verifies.
   */
  function VerifyProofRecordCheck(b: Backend, s: ContractState, record: Field, w: Witness,
                                  signature: Signature, proof: ProofArtifact<Witness>,
                                  proofAsFields: seq<Field>, userPubKey: PublicKey): (r: Outcome)
    ensures r == Ok <==>
      IsMember(b.hash, w, record, s.storageRoot) &&
      b.signatureValid(signature, userPubKey, proofAsFields) &&
      b.selfProofValid(proof)
    ensures !IsMember(b.hash, w, record, s.storageRoot) ==> r == Fail(NotMember)
  {
    if CalculateRoot(b.hash, w, record) != s.storageRoot then Fail(NotMember)
    else if !b.signatureValid(signature, userPubKey, proofAsFields) then Fail(InvalidSignature)
    else if !b.selfProofValid(proof) then Fail(InvalidProof)
    else Ok
  }

  // ---------------------------------------------------------------------------
  // The insertion-validity program
  // ---------------------------------------------------------------------------

  /**
   MVSProofGen.getProof: the public witness's slot is empty under the
   private commitment, and the private check result is true. A proof can
   be produced exactly when the outcome is Ok.
   */
  function GetProof(h: Hasher, publicInput: Witness, commitmentRoot: Field, result: bool): (r: Outcome)
    ensures r == Ok <==> IsEmptySlot(h, publicInput, commitmentRoot) && result
    ensures !result ==> r != Ok
  {
    if CalculateRoot(h, publicInput, EmptyLeaf) != commitmentRoot then Fail(SlotOccupied)
    else if !result then Fail(NegativeResult)
    else Ok
  }

  /**
   A getProof proof over the contract's current root exists exactly when the
   check result is true and addProofRecord's slot guard passes for the
   same w.
   */
  lemma GetProofMatchesSlotGuard(h: Hasher, s: ContractState, w: Witness, result: bool, record: Field)
    ensures GetProof(h, w, s.storageRoot, result) == Ok <==>
      result && AddProofRecordStep(h, s.(initialized := false), s.mvsController, record, w).0 == Ok
  {
  }

  // ---------------------------------------------------------------------------
  // Properties of single calls
  // ---------------------------------------------------------------------------

  /** After a successful setZkdbRoot, every later setZkdbRoot fails, whoever calls it. */
  lemma SetZkdbRootOnce(s: ContractState, sender: PublicKey, root: Field, sender': PublicKey, root': Field)
    requires SetZkdbRootStep(s, sender, root).0 == Ok
    ensures var s' := SetZkdbRootStep(s, sender, root).1;
      SetZkdbRootStep(s', sender', root').0 != Ok &&
      SetZkdbRootStep(s', sender', root').1 == s'
  {
  }

  /** Right after a successful addProofRecord, the record is a member of the new root. */
  lemma AddThenVerify(b: Backend, s: ContractState, sender: PublicKey, record: Field, w: Witness,
                      signature: Signature, proof: ProofArtifact<Witness>,
                      proofAsFields: seq<Field>, userPubKey: PublicKey)
    requires AddProofRecordStep(b.hash, s, sender, record, w).0 == Ok
    ensures var s' := AddProofRecordStep(b.hash, s, sender, record, w).1;
      VerifyProofRecordCheck(b, s', record, w, signature, proof, proofAsFields, userPubKey) == Ok <==>
      b.signatureValid(signature, userPubKey, proofAsFields) && b.selfProofValid(proof)
  {
  }

  /**
   A second addProofRecord with the same witness, after a record filled the
   slot, is accepted only if that record left the root as it was; so it
   fails once a non-empty record fills the slot, unless hashing the record
   and the empty leaf up the witness meets a collision.
   */
  lemma SlotFilledOnce(h: Hasher, s: ContractState, sender: PublicKey, record: Field, w: Witness,
                       sender': PublicKey, record': Field)
    requires AddProofRecordStep(h, s, sender, record, w).0 == Ok
    ensures var second := AddProofRecordStep(h, AddProofRecordStep(h, s, sender, record, w).1, sender', record', w);
      second.0 == Ok ==> CalculateRoot(h, w, record) == CalculateRoot(h, w, EmptyLeaf)
    ensures record != EmptyLeaf ==>
      AddProofRecordStep(h, AddProofRecordStep(h, s, sender, record, w).1, sender', record', w).0 != Ok
      || CollisionOnPath(h, record, EmptyLeaf, w)
  {
    if record != EmptyLeaf {
      InsertionChangesRoot(h, w, record);
    }
  }

  /**
   Membership of a record against the root the contract held before the
   record was inserted holds only if the record left the root as it was;
   so it fails for a non-empty record, unless hashing the record and the
   empty leaf up the witness meets a collision.
   */
  lemma NotMemberBeforeInsertion(b: Backend, s: ContractState, sender: PublicKey, record: Field, w: Witness,
                                 signature: Signature, proof: ProofArtifact<Witness>,
                                 proofAsFields: seq<Field>, userPubKey: PublicKey)
    requires AddProofRecordStep(b.hash, s, sender, record, w).0 == Ok
    ensures VerifyProofRecordCheck(b, s, record, w, signature, proof, proofAsFields, userPubKey) == Ok ==>
      CalculateRoot(b.hash, w, record) == CalculateRoot(b.hash, w, EmptyLeaf)
    ensures record != EmptyLeaf ==>
      VerifyProofRecordCheck(b, s, record, w, signature, proof, proofAsFields, userPubKey) != Ok
      || CollisionOnPath(b.hash, record, EmptyLeaf, w)
  {
    if record != EmptyLeaf {
      InsertionChangesRoot(b.hash, w, record);
    }
  }

  // ---------------------------------------------------------------------------
  // Properties of call sequences
  // ---------------------------------------------------------------------------

  /** A state-changing contract call. */
  datatype Call =
    | SetRootCall(sender: PublicKey, root: Field)
    | AddRecordCall(sender: PublicKey, record: Field, w: Witness)

  function Apply(h: Hasher, s: ContractState, c: Call): (r: (Outcome, ContractState))
  {
    match c
    case SetRootCall(sender, root) => SetZkdbRootStep(s, sender, root)
    case AddRecordCall(sender, record, w) => AddProofRecordStep(h, s, sender, record, w)
  }

  /** The state after the calls, in order; failed calls leave the state as it was. */
  function Run(h: Hasher, s: ContractState, calls: seq<Call>): (last: ContractState)
    decreases |calls|
  {
    if calls == [] then s else Run(h, Apply(h, s, calls[0]).1, calls[1..])
  }

  /** How many of the calls are accepted insertions. */
  function Insertions(h: Hasher, s: ContractState, calls: seq<Call>): (n: nat)
    decreases |calls|
  {
    if calls == [] then 0
    else
      var (outcome, s') := Apply(h, s, calls[0]);
      (if outcome == Ok && calls[0].AddRecordCall? then 1 else 0) + Insertions(h, s', calls[1..])
  }

  /** How many of the calls are accepted root initializations. */
  function RootSets(h: Hasher, s: ContractState, calls: seq<Call>): (n: nat)
    decreases |calls|
  {
    if calls == [] then 0
    else
      var (outcome, s') := Apply(h, s, calls[0]);
      (if outcome == Ok && calls[0].SetRootCall? then 1 else 0) + RootSets(h, s', calls[1..])
  }

  /** No call changes the controller. */
  lemma {:induction false} ControllerFixed(h: Hasher, s: ContractState, calls: seq<Call>)
    ensures Run(h, s, calls).mvsController == s.mvsController
    decreases |calls|
  {
    if calls != [] {
      ControllerFixed(h, Apply(h, s, calls[0]).1, calls[1..]);
    }
  }

  /** The root is set successfully at most once in the contract's lifetime. */
  lemma {:induction false} RootSetAtMostOnce(h: Hasher, s: ContractState, calls: seq<Call>)
    ensures RootSets(h, s, calls) <= if s.initialized then 0 else 1
    ensures s.initialized ==> Run(h, s, calls).initialized
    decreases |calls|
  {
    if calls != [] {
      RootSetAtMostOnce(h, Apply(h, s, calls[0]).1, calls[1..]);
    }
  }

  /**
   As written, once the flag is set no call succeeds: the root, the counter
   and every other slot stay as they are for good.
   */
  lemma {:induction false} LockFreezesState(h: Hasher, s: ContractState, calls: seq<Call>)
    requires s.initialized
    ensures Run(h, s, calls) == s
    ensures Insertions(h, s, calls) == 0
    decreases |calls|
  {
    if calls != [] {
      LockFreezesState(h, Apply(h, s, calls[0]).1, calls[1..]);
    }
  }

  /**
   The counter goes up by exactly one per accepted insertion and never
   goes down, as long as it stays below the field modulus.
   */
  lemma {:induction false} CounterCountsInsertions(h: Hasher, s: ContractState, calls: seq<Call>)
    requires s.numOfUsers as int + |calls| < P
    ensures Run(h, s, calls).numOfUsers as int == s.numOfUsers as int + Insertions(h, s, calls)
    ensures Run(h, s, calls).numOfUsers >= s.numOfUsers
    decreases |calls|
  {
    if calls != [] {
      var s' := Apply(h, s, calls[0]).1;
      assert s'.numOfUsers as int <= s.numOfUsers as int + 1;
      CounterCountsInsertions(h, s', calls[1..]);
    }
  }

  // ---------------------------------------------------------------------------
  // The insertion guard, as written and as evidently intended
  // ---------------------------------------------------------------------------

  /**
   As written: deploy, set the root of the empty tree, then try to insert a
   record into an empty slot of that tree. The insertion is refused.
   */
  lemma InsertionAfterRootSetRefused(h: Hasher, controller: PublicKey, root: Field, record: Field, w: Witness)
    requires IsEmptySlot(h, w, root)
    ensures var s1 := SetZkdbRootStep(Deployed(controller), controller, root);
      s1.0 == Ok && AddProofRecordStep(h, s1.1, controller, record, w) == (Fail(AlreadyInitialized), s1.1)
  {
  }

  /** addProofRecord with the flag check the comment describes: the flag must be set. */
  function AddProofRecordAfterInitStep(h: Hasher, s: ContractState, sender: PublicKey, record: Field, w: Witness)
    : (r: (Outcome, ContractState))
    ensures r.0 == Ok <==>
      sender == s.mvsController && s.initialized && IsEmptySlot(h, w, s.storageRoot)
    ensures r.0 == Ok ==>
      IsMember(h, w, record, r.1.storageRoot) &&
      r.1 == s.(storageRoot := r.1.storageRoot, numOfUsers := FieldAdd(s.numOfUsers, 1))
    ensures r.0 != Ok ==> r.1 == s
  {
    if s.mvsController != sender then (Fail(NotController), s)
    else if !s.initialized then (Fail(NotInitialized), s)
    else if CalculateRoot(h, w, EmptyLeaf) != s.storageRoot then (Fail(SlotOccupied), s)
    else (Ok, s.(storageRoot := CalculateRoot(h, w, record), numOfUsers := FieldAdd(s.numOfUsers, 1)))
  }

  /**
   With the corrected guard the end-to-end flow works: deploy, set the root,
   insert a record into an empty slot (counter 1, root changed), verify its
   membership, and refuse a second record in the same slot; the last two
   hold unless hashing the record and the empty leaf up the witness meets a collision.
   */
  lemma InsertionAfterRootSetAccepted(b: Backend, controller: PublicKey, root: Field, record: Field, w: Witness,
                                      other: Field, signature: Signature, proof: ProofArtifact<Witness>,
                                      proofAsFields: seq<Field>, userPubKey: PublicKey)
    requires IsEmptySlot(b.hash, w, root)
    requires record != EmptyLeaf
    requires b.signatureValid(signature, userPubKey, proofAsFields) && b.selfProofValid(proof)
    ensures var s1 := SetZkdbRootStep(Deployed(controller), controller, root);
      var s2 := AddProofRecordAfterInitStep(b.hash, s1.1, controller, record, w);
      s1.0 == Ok && s2.0 == Ok && s2.1.numOfUsers == 1 &&
      (s2.1.storageRoot != root || CollisionOnPath(b.hash, record, EmptyLeaf, w)) &&
      VerifyProofRecordCheck(b, s2.1, record, w, signature, proof, proofAsFields, userPubKey) == Ok &&
      (AddProofRecordAfterInitStep(b.hash, s2.1, controller, other, w).0 == Ok ==> s2.1.storageRoot == root) &&
      (AddProofRecordAfterInitStep(b.hash, s2.1, controller, other, w).0 != Ok || CollisionOnPath(b.hash, record, EmptyLeaf, w))
  {
    InsertionChangesRoot(b.hash, w, record);
  }

  // ---------------------------------------------------------------------------
  // The contract object
  // ---------------------------------------------------------------------------

  class MvsContractV2 {
    const backend: Backend
    var storageRoot: Field
    var numOfUsers: Field
    var mvsController: PublicKey
    var initialized: bool

    function State(): (s: ContractState)
      reads this
    {
      ContractState(storageRoot, numOfUsers, mvsController, initialized)
    }

    /** Deployment followed by `init`: the deployer becomes the controller. */
    constructor (backend: Backend, sender: PublicKey)
      ensures this.backend == backend
      ensures storageRoot == 0 && numOfUsers == 0 && !initialized && mvsController == sender
    {
      this.backend := backend;
      storageRoot, numOfUsers, initialized := 0, 0, false;
      mvsController := sender;
    }

    method SetZkdbRoot(sender: PublicKey, root: Field) returns (r: Outcome)
      modifies this
      ensures (r, State()) == SetZkdbRootStep(old(State()), sender, root)
    {
      var isInitialized := initialized;
      var controller := mvsController;
      if controller != sender {
        return Fail(NotController);
      }
      if isInitialized {
        return Fail(AlreadyInitialized);
      }
      storageRoot := root;
      initialized := true;
      r := Ok;
    }

    method AddProofRecord(sender: PublicKey, record: Field, w: Witness) returns (r: Outcome)
      modifies this
      ensures (r, State()) == AddProofRecordStep(backend.hash, old(State()), sender, record, w)
    {
      var controller := mvsController;
      var isInitialized := initialized;
      var root := storageRoot;
      var noOfUsers := numOfUsers;
      if controller != sender {
        return Fail(NotController);
      }
      if isInitialized {
        return Fail(AlreadyInitialized);
      }
      var emptyRoot := CalculateRoot(backend.hash, w, EmptyLeaf);
      if emptyRoot != root {
        return Fail(SlotOccupied);
      }
      var newRoot := CalculateRoot(backend.hash, w, record);
      storageRoot := newRoot;
      numOfUsers := FieldAdd(noOfUsers, 1);
      r := Ok;
    }

    /** Read-only: callable by anybody. */
    method VerifyProofRecord(record: Field, w: Witness, signature: Signature,
                             proof: ProofArtifact<Witness>, proofAsFields: seq<Field>, userPubKey: PublicKey)
      returns (r: Outcome)
      ensures r == VerifyProofRecordCheck(backend, State(), record, w, signature, proof, proofAsFields, userPubKey)
    {
      var root := storageRoot;
      var userRoot := CalculateRoot(backend.hash, w, record);
      if root != userRoot {
        return Fail(NotMember);
      }
      var validSignature := backend.signatureValid(signature, userPubKey, proofAsFields);
      if !validSignature {
        return Fail(InvalidSignature);
      }
      if !backend.selfProofValid(proof) {
        return Fail(InvalidProof);
      }
      r := Ok;
    }
  }
}
