/**
 The first registry contract (MVSContract in the v1 source): a root and a
 one-shot lock on setting it. Anybody may set the root once; anybody may
 insert into an empty slot, and the insertion path never looks at the lock.
 */
module MvsV1 {
  import opened Primitives
  import opened Merkle

  /** The contract's on-ledger state. */
  datatype ContractState = ContractState(root: Field, initiated: bool)

  /** The state after deployment: `init` only zeroes every slot. */
  function Deployed(): (s: ContractState)
    ensures s.root == 0 && !s.initiated
  {
    ContractState(0, false)
  }

  /** setZkdbCommitment: no caller check; refused once the lock is set. */
  function SetZkdbCommitmentStep(s: ContractState, commitment: Field): (r: (Outcome, ContractState))
    ensures r.0 == Ok <==> !s.initiated
    ensures r.0 == Ok ==> r.1 == ContractState(commitment, true)
    ensures r.0 != Ok ==> r.1 == s
  {
    if s.initiated then (Fail(AlreadyInitialized), s)
    else (Ok, s.(root := commitment, initiated := true))
  }

  /** addNewUser: the witness's slot must be empty under the root; the leaf then fills it. */
  function AddNewUserStep(h: Hasher, s: ContractState, userData: Field, w: Witness): (r: (Outcome, ContractState))
    ensures r.0 == Ok <==> IsEmptySlot(h, w, s.root)
    ensures r.0 == Ok ==> IsMember(h, w, userData, r.1.root)
    ensures r.1.initiated == s.initiated
    ensures r.0 != Ok ==> r.1 == s
  {
    if CalculateRoot(h, w, EmptyLeaf) != s.root then (Fail(SlotOccupied), s)
    else (Ok, s.(root := CalculateRoot(h, w, userData)))
  }

  /** verifyUser: the leaf occupies the witness's slot under the root. */
  function VerifyUserCheck(h: Hasher, s: ContractState, userData: Field, w: Witness): (r: Outcome)
    ensures r == Ok <==> IsMember(h, w, userData, s.root)
  {
    if s.root != CalculateRoot(h, w, userData) then Fail(NotMember) else Ok
  }

  /** addNewUser neither reads nor writes the lock: its effect is the same whichever value the lock has. */
  lemma AddNewUserIgnoresLock(h: Hasher, s: ContractState, userData: Field, w: Witness, lock: bool)
    ensures var r := AddNewUserStep(h, s, userData, w);
      AddNewUserStep(h, s.(initiated := lock), userData, w) == (r.0, r.1.(initiated := lock))
  {
  }

  /** After a successful setZkdbCommitment, every later one fails. */
  lemma SetZkdbCommitmentOnce(s: ContractState, commitment: Field, commitment': Field)
    requires SetZkdbCommitmentStep(s, commitment).0 == Ok
    ensures SetZkdbCommitmentStep(SetZkdbCommitmentStep(s, commitment).1, commitment') ==
      (Fail(AlreadyInitialized), ContractState(commitment, true))
  {
  }

  /** Right after a successful addNewUser, verifyUser of the same leaf and witness succeeds. */
  lemma AddThenVerify(h: Hasher, s: ContractState, userData: Field, w: Witness)
    requires AddNewUserStep(h, s, userData, w).0 == Ok
    ensures VerifyUserCheck(h, AddNewUserStep(h, s, userData, w).1, userData, w) == Ok
  {
  }

  /**
   Repeating addNewUser with the same witness succeeds only if the first
   leaf left the root as it was, so only if that leaf was the empty leaf or
   hashing it and the empty leaf up the witness meets a collision.
   */
  lemma SameWitnessTwice(h: Hasher, s: ContractState, userData: Field, userData': Field, w: Witness)
    requires AddNewUserStep(h, s, userData, w).0 == Ok
    requires AddNewUserStep(h, AddNewUserStep(h, s, userData, w).1, userData', w).0 == Ok
    ensures CalculateRoot(h, w, userData) == CalculateRoot(h, w, EmptyLeaf)
    ensures userData == EmptyLeaf || CollisionOnPath(h, userData, EmptyLeaf, w)
  {
    RootDeterminesLeaf(h, w, userData, EmptyLeaf);
  }

  /**
   A leaf verifies against the root held before its insertion only if it
   left the root as it was; so a non-empty leaf does not, unless hashing it
   and the empty leaf up the witness meets a collision.
   */
  lemma NotMemberBeforeInsertion(h: Hasher, s: ContractState, userData: Field, w: Witness)
    requires AddNewUserStep(h, s, userData, w).0 == Ok
    ensures VerifyUserCheck(h, s, userData, w) == Ok ==>
      CalculateRoot(h, w, userData) == CalculateRoot(h, w, EmptyLeaf)
    ensures userData != EmptyLeaf ==> VerifyUserCheck(h, s, userData, w) != Ok || CollisionOnPath(h, userData, EmptyLeaf, w)
  {
    if userData != EmptyLeaf {
      InsertionChangesRoot(h, w, userData);
    }
  }

  /** A state-changing contract call. */
  datatype Call =
    | CommitCall(commitment: Field)
    | AddUserCall(userData: Field, w: Witness)

  function Apply(h: Hasher, s: ContractState, c: Call): (r: (Outcome, ContractState))
  {
    match c
    case CommitCall(commitment) => SetZkdbCommitmentStep(s, commitment)
    case AddUserCall(userData, w) => AddNewUserStep(h, s, userData, w)
  }

  function Run(h: Hasher, s: ContractState, calls: seq<Call>): (last: ContractState)
    decreases |calls|
  {
    if calls == [] then s else Run(h, Apply(h, s, calls[0]).1, calls[1..])
  }

  /** How many of the calls are accepted setZkdbCommitment calls. */
  function Commitments(h: Hasher, s: ContractState, calls: seq<Call>): (n: nat)
    decreases |calls|
  {
    if calls == [] then 0
    else
      var (outcome, s') := Apply(h, s, calls[0]);
      (if outcome == Ok && calls[0].CommitCall? then 1 else 0) + Commitments(h, s', calls[1..])
  }

  /**
   Over the contract's lifetime setZkdbCommitment succeeds at most once,
   and once the lock is set it stays set.
   */
  lemma {:induction false} CommitmentAtMostOnce(h: Hasher, s: ContractState, calls: seq<Call>)
    ensures Commitments(h, s, calls) <= if s.initiated then 0 else 1
    ensures s.initiated ==> Run(h, s, calls).initiated
    decreases |calls|
  {
    if calls != [] {
      CommitmentAtMostOnce(h, Apply(h, s, calls[0]).1, calls[1..]);
    }
  }

  /**
   Before the lock is set, insertions are accepted against the zero root,
   and a later setZkdbCommitment discards them.
   */
  lemma CommitmentOverwritesEarlierInsertions(h: Hasher, userData: Field, w: Witness, commitment: Field)
    requires IsEmptySlot(h, w, 0)
    ensures var s1 := AddNewUserStep(h, Deployed(), userData, w);
      s1.0 == Ok && !s1.1.initiated &&
      SetZkdbCommitmentStep(s1.1, commitment) == (Ok, ContractState(commitment, true))
  {
  }

  class MvsContract {
    const hash: Hasher
    var root: Field
    var initiated: bool

    function State(): (s: ContractState)
      reads this
    {
      ContractState(root, initiated)
    }

    /** Deployment: `init` leaves every slot at its zero default. */
    constructor (hash: Hasher)
      ensures this.hash == hash
      ensures root == 0 && !initiated
    {
      this.hash := hash;
      root, initiated := 0, false;
    }

    method SetZkdbCommitment(initialCommitment: Field) returns (r: Outcome)
      modifies this
      ensures (r, State()) == SetZkdbCommitmentStep(old(State()), initialCommitment)
    {
      if initiated {
        return Fail(AlreadyInitialized);
      }
      root := initialCommitment;
      initiated := true;
      r := Ok;
    }

    method AddNewUser(userData: Field, userWitness: Witness) returns (r: Outcome)
      modifies this
      ensures (r, State()) == AddNewUserStep(hash, old(State()), userData, userWitness)
    {
      var commitment := root;
      var emptyRoot := CalculateRoot(hash, userWitness, EmptyLeaf);
      if commitment != emptyRoot {
        return Fail(SlotOccupied);
      }
      var newCommitment := CalculateRoot(hash, userWitness, userData);
      root := newCommitment;
      r := Ok;
    }

    method VerifyUser(userData: Field, userWitness: Witness) returns (r: Outcome)
      ensures r == VerifyUserCheck(hash, State(), userData, userWitness)
    {
      var commitment := root;
      var userCommitment := CalculateRoot(hash, userWitness, userData);
      if commitment != userCommitment {
        return Fail(NotMember);
      }
      r := Ok;
    }
  }
}
