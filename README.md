# MVS contracts: a Merkle-anchored registry, modelled in Dafny

The Mina Verification Service keeps a registry of user records on a ledger as
a single Merkle root. New records may only go into slots that are empty under
the committed root. Membership of a record is checked against that root. The
repository holds three revisions of the contract and two small proof programs:

- `MvsProofs` (src/mvsProofs.ts) is the controller-gated contract `MVSContractV2`.
  It has four state slots: `storageRoot`, `numOfUsers`, `mvsController` and
  `initialized`. It also holds the insertion-validity program
  `MVSProofGen.getProof`, which proves "this slot is empty under the commitment
  and the external check returned true".
- `MvsV1` (src/mvsV1.ts) is the first `MVSContract`. It holds a root and a
  one-shot lock. `setZkdbCommitment` has no caller check. `addNewUser` and
  `verifyUser` check empty-slot and membership against the root.
- `MvsV2Proofs` (src/mvsV2proofs.ts) is the proof-gated `MVSContract`. It holds
  a root that `initStateRoot` sets without any guard. Insertion and membership
  first require an embedded proof to verify. The leaf is the hash of the user's
  proof record. The module also holds the trivial `MVSProofGen.generate`
  program.
- `Merkle` is the root recomputation that all three use. It is a fold over a
  19-step path (tree height 20, counting the leaf level). Each step holds a
  sibling and a direction bit. `Primitives` holds the field, the keys, the
  signatures, and the outcome of a call.

How the model is built:

- Each contract is a class whose fields are the contract's state slots.
- Each contract method is a method of that class. Its `ensures` ties the
  outcome and the new state to a pure step function of the old state.
- Each step function states, in its own `ensures`, exactly when the call is
  accepted and what the new state is. On any failure the state is left as it
  was, because every assertion in the source comes before every `set`.
- Lemmas relate steps to each other: insertion then membership, a second
  initialization, a second insertion into the same slot. Lemmas over call
  sequences state lifetime invariants.
- Three operations belong to the proving system: the Poseidon hash, signature
  verification and proof verification. Each is a function-typed field of a
  `Backend` value, so every result holds whichever functions they are.
- The lemmas about distinct leaves never assume the hash is injective.
  They conclude "the leaves are equal, or hashing the two leaves up the
  witness meets a collision" (`Merkle.CollisionOnPath`). Such a collision is
  a level at which the two running nodes still differ, yet hash with the
  same sibling to the same parent. The colliding pair is determined by the
  two leaves and the witness. This is the reduction to collision
  resistance: any failure of the conclusion exhibits a concrete collision
  of the hash. The contract-level lemmas also state the exact, hash-free
  condition. The second insertion, or the stale membership check, succeeds
  only if the record's root equals the empty-leaf root under the same
  witness.

The comment in `MVSContractV2.addProofRecord` says the method checks that the
contract has been initialized. The assertion under it requires the flag to
still be false (src/mvsProofs.ts:110-111), while `setZkdbRoot` sets it to true.
The model keeps the assertion as written, and the discrepancy is recorded under
"## Findings". The controller is recorded at deployment (`init`), not by
`setZkdbRoot`. `setZkdbRoot` and `addProofRecord` compare the transaction's
`this.sender` with that controller; the model takes the sender as the caller's
identity (see "## Left out").

In `verifyProofRecord`, the signature covers `proofAsFields` and the nested
proof is verified on its own. Nothing ties the two to each other, to the
record, or to the witness. The model keeps them independent, as the source
does.

## Model

| member | source | states |
|---|---|---|
| Primitives.FieldAdd | src/mvsProofs.ts:120 | Field addition is the plain sum below the modulus and wraps around by exactly the modulus above it |
| Merkle.FoldInjective | src/mvsProofs.ts:113-117 | Hashing up a whole path keeps two different starting nodes different, unless the two folds meet a collision of the hash at some level, named by the two nodes and the path |
| Merkle.RootDeterminesLeaf | src/mvsProofs.ts:113-117 | Two leaves with the same root under one witness are the same leaf, unless hashing the two leaves up the witness meets a collision |
| Merkle.EmptyExcludesMember | src/mvsV1.ts:86-105 | A slot cannot be both empty and hold a non-empty leaf under the same root, unless hashing the two leaves up the witness meets a collision |
| Merkle.InsertionChangesRoot | src/mvsV1.ts:86-90 | Putting a non-empty leaf into an empty slot gives a different root, unless hashing the two leaves up the witness meets a collision |
| MvsProofs.Deployed | src/mvsProofs.ts:76-84 | After deployment and `init` the counter is 0, the flag is false, the controller is the deployer and the root is the zero default |
| MvsProofs.SetZkdbRootStep | src/mvsProofs.ts:87-99 | Accepted iff the sender is the controller and the flag is false; a non-controller gets NotController; on success the root is the argument and the flag is set, otherwise nothing changes |
| MvsProofs.AddProofRecordStep | src/mvsProofs.ts:102-121 | Accepted iff the sender is the controller, the flag is false and the witness's slot is empty under the root; on success the record is a member of the new root and the counter is the old one plus one in the field; otherwise nothing changes |
| MvsProofs.VerifyProofRecordCheck | src/mvsProofs.ts:124-144 | Accepted iff the record is a member under the root, the signature verifies over the proof's fields under the user key, and the nested proof verifies; a non-member is rejected first |
| MvsProofs.GetProof | src/mvsProofs.ts:31-41 | A proof exists iff the witness's empty-leaf root equals the private commitment and the check result is true; with result false there is never a proof |
| MvsProofs.GetProofMatchesSlotGuard | src/mvsProofs.ts:31-41 | A getProof proof over the contract's root exists iff the check result is true and addProofRecord's empty-slot guard passes for the same witness |
| MvsProofs.SetZkdbRootOnce | src/mvsProofs.ts:94-98 | After a successful setZkdbRoot, every later setZkdbRoot fails, whoever calls it, and changes nothing |
| MvsProofs.AddThenVerify | src/mvsProofs.ts:113-143 | Right after a successful addProofRecord, verifyProofRecord of the same record and witness succeeds iff the signature and the nested proof verify |
| MvsProofs.SlotFilledOnce | src/mvsProofs.ts:113-119 | After a record fills a slot, a second addProofRecord with the same witness succeeds only if that record's root equals the empty-leaf root; for a non-empty record it therefore fails unless hashing it and the empty leaf up the witness meets a collision |
| MvsProofs.NotMemberBeforeInsertion | src/mvsProofs.ts:113-137 | A record verifies against the root held before its insertion only if its root equals the empty-leaf root; a non-empty record therefore does not, unless hashing the two leaves up the witness meets a collision |
| MvsProofs.ControllerFixed | src/mvsProofs.ts:87-121 | No sequence of setZkdbRoot and addProofRecord calls changes the controller |
| MvsProofs.RootSetAtMostOnce | src/mvsProofs.ts:94-98 | In any sequence of setZkdbRoot and addProofRecord calls, setZkdbRoot succeeds at most once, and never once the flag is set; the flag is never cleared |
| MvsProofs.LockFreezesState | src/mvsProofs.ts:94-115 | Once the flag is set, no call sequence changes any slot and no insertion is accepted |
| MvsProofs.CounterCountsInsertions | src/mvsProofs.ts:119-120 | Below the field modulus, the counter after a call sequence is the old counter plus the number of accepted insertions, so it never decreases |
| MvsProofs.InsertionAfterRootSetRefused | src/mvsProofs.ts:98-111 | As written: deploy, set the root, then insert into an empty slot of that root; the insertion is refused with AlreadyInitialized |
| MvsProofs.AddProofRecordAfterInitStep | src/mvsProofs.ts:110-121 | Corrected guard: accepted iff the sender is the controller, the flag is set and the slot is empty; same effect as addProofRecord |
| MvsProofs.InsertionAfterRootSetAccepted | src/mvsProofs.ts:87-144 | With the corrected guard: deploy, set the root, insert a record (counter 1), verify its membership; a second record in the same slot is accepted only if the first left the root unchanged; root change and refusal hold unless hashing the two leaves up the witness meets a collision |
| MvsProofs.MvsContractV2.constructor | src/mvsProofs.ts:76-84 | Deployment and init: counter 0, flag false, controller is the sender, root 0 |
| MvsProofs.MvsContractV2.SetZkdbRoot | src/mvsProofs.ts:87-99 | Outcome and new state are those of SetZkdbRootStep on the old state |
| MvsProofs.MvsContractV2.AddProofRecord | src/mvsProofs.ts:102-121 | Outcome and new state are those of AddProofRecordStep on the old state |
| MvsProofs.MvsContractV2.VerifyProofRecord | src/mvsProofs.ts:124-144 | Changes nothing; the outcome is VerifyProofRecordCheck on the current state |
| MvsV1.Deployed | src/mvsV1.ts:67-69 | After deployment the root is 0 and the lock is not set |
| MvsV1.SetZkdbCommitmentStep | src/mvsV1.ts:71-77 | Takes no caller; accepted iff the lock is not set; on success the root is the argument and the lock is set, otherwise nothing changes |
| MvsV1.AddNewUserStep | src/mvsV1.ts:79-94 | Accepted iff the witness's slot is empty under the root; on success the leaf is a member of the new root; the lock is never changed; on failure nothing changes |
| MvsV1.VerifyUserCheck | src/mvsV1.ts:96-106 | Accepted iff the leaf is a member under the root |
| MvsV1.AddNewUserIgnoresLock | src/mvsV1.ts:79-94 | addNewUser gives the same outcome and root whatever the lock's value, and leaves the lock as it found it |
| MvsV1.SetZkdbCommitmentOnce | src/mvsV1.ts:71-77 | After a successful setZkdbCommitment, every later one fails and changes nothing |
| MvsV1.AddThenVerify | src/mvsV1.ts:79-106 | Right after a successful addNewUser, verifyUser of the same leaf and witness succeeds |
| MvsV1.SameWitnessTwice | src/mvsV1.ts:86-93 | Two successful addNewUser calls with the same witness imply the first leaf's root equals the empty-leaf root, so that leaf is empty or hashing it and the empty leaf up the witness meets a collision |
| MvsV1.NotMemberBeforeInsertion | src/mvsV1.ts:86-105 | A leaf verifies against the root held before its insertion only if its root equals the empty-leaf root; a non-empty leaf therefore does not, unless hashing the two leaves up the witness meets a collision |
| MvsV1.CommitmentAtMostOnce | src/mvsV1.ts:71-94 | In any sequence of setZkdbCommitment and addNewUser calls, setZkdbCommitment succeeds at most once, and never once the lock is set; the lock is never cleared |
| MvsV1.CommitmentOverwritesEarlierInsertions | src/mvsV1.ts:67-94 | From deployment, an insertion against the zero root is accepted without the lock, and a later setZkdbCommitment still succeeds and replaces that root |
| MvsV1.MvsContract.constructor | src/mvsV1.ts:67-69 | Deployment: root 0, lock not set |
| MvsV1.MvsContract.SetZkdbCommitment | src/mvsV1.ts:71-77 | Outcome and new state are those of SetZkdbCommitmentStep on the old state |
| MvsV1.MvsContract.AddNewUser | src/mvsV1.ts:79-94 | Outcome and new state are those of AddNewUserStep on the old state |
| MvsV1.MvsContract.VerifyUser | src/mvsV1.ts:96-106 | Changes nothing; the outcome is VerifyUserCheck on the current state |
| MvsV2Proofs.InitStateRootStep | src/mvsV2proofs.ts:58-60 | Always accepted; the root becomes the argument |
| MvsV2Proofs.AddNewUserStep | src/mvsV2proofs.ts:62-81 | Accepted iff the embedded proof verifies and the slot is empty under the root; an invalid proof is rejected first; on success the record's hash is a member of the new root; on failure nothing changes |
| MvsV2Proofs.VerifyUserCheck | src/mvsV2proofs.ts:83-97 | Accepted iff the embedded proof verifies and the record's hash is a member under the root; an invalid proof is rejected first |
| MvsV2Proofs.Generate | src/mvsV2proofs.ts:102-114 | A proof exists iff the public input is zero |
| MvsV2Proofs.AddThenVerify | src/mvsV2proofs.ts:62-97 | Right after a successful addNewUser, verifyUser of the same record and witness succeeds |
| MvsV2Proofs.NotMemberBeforeInsertion | src/mvsV2proofs.ts:62-97 | A record verifies against the root held before its insertion only if its hash's root equals the empty-leaf root; with a non-empty hash it therefore does not, unless hashing the two leaves up the witness meets a collision |
| MvsV2Proofs.InitStateRootRepeatable | src/mvsV2proofs.ts:58-60 | In a sequence of initStateRoot calls every call is accepted and the last root wins |
| MvsV2Proofs.InsertionNeedsValidProof | src/mvsV2proofs.ts:62-81 | A sequence of addNewUser calls whose proofs all fail to verify leaves the root unchanged |
| MvsV2Proofs.MvsContract.constructor | src/mvsV2proofs.ts:47-56 | Deployment: root 0 |
| MvsV2Proofs.MvsContract.InitStateRoot | src/mvsV2proofs.ts:58-60 | Outcome and new state are those of InitStateRootStep on the old state |
| MvsV2Proofs.MvsContract.AddNewUser | src/mvsV2proofs.ts:62-81 | Outcome and new state are those of AddNewUserStep on the old state |
| MvsV2Proofs.MvsContract.VerifyUser | src/mvsV2proofs.ts:83-97 | Changes nothing; the outcome is VerifyUserCheck on the current state |

## Left out

- The Poseidon hash and the internals of `MerkleWitness.calculateRoot` belong to the proving library. The hash is a parameter. The root is a fold over the path, lowest level first, with the direction bit ordering the two children.
- Signature verification, `proof.verify()` and `Proof.fromJSON` are cryptographic calls into the proving backend. They are parameters of each module's `Backend`.
- The proof object that `getProof` and `generate` return is not modelled. Only whether one can be produced (the outcome) is modelled.
- The `getAndAssertEquals` and `root.assertEquals` preconditions on the on-chain state always hold in a sequential model. Ledger atomicity, concurrent callers and transaction fees belong to the chain.
- The deploy permission setup (src/mvsV2proofs.ts:50-56) is ledger plumbing.
- The schema classes `ProofRecord`, `UserSession`, `UserData` and `UserProof` and their `deserialize`, `json` and `index` are left out. They wrap a serializer that is not part of this model. `UserProof` is kept only as a value with an uninterpreted hash.
- The top-level script in src/mvsV2proofs.ts:116-134 compiles the program and prints. It is I/O.
- `init` of the v1 contract is modelled as deployment only. What the ledger does if it is called again is outside the model.
- src/deploy/test-helper.ts, jest.config.js and src/index.ts are configuration, network selection and re-exports.
- Merkle.InsertionChangesRoot: concludes "different roots, or hashing the leaf and the empty leaf up the witness meets a collision" rather than plain inequality. The model does not assume that Poseidon is collision resistant, so the collision case stays in the conclusion.
- Merkle.RootDeterminesLeaf: carries the same named-collision case, for the same reason.
- Merkle.FoldInjective: carries the same named-collision case, for the same reason.
- Merkle.EmptyExcludesMember: carries the same named-collision case, for the same reason.
- MvsProofs.SlotFilledOnce: refusal of the second insertion carries the same named-collision case. It also needs a non-empty record, since inserting the empty leaf leaves the slot empty.
- MvsProofs.NotMemberBeforeInsertion: rejection against the earlier root carries the same named-collision case.
- MvsProofs.InsertionAfterRootSetAccepted: its root-change and refusal conjuncts carry the same named-collision case.
- MvsV1.SameWitnessTwice: "the first leaf is empty" carries the same named-collision case.
- MvsV1.NotMemberBeforeInsertion: rejection against the earlier root carries the same named-collision case.
- MvsV2Proofs.NotMemberBeforeInsertion: rejection against the earlier root carries the same named-collision case.
- The transaction sender (`this.sender` in src/mvsProofs.ts:83, 92 and 109) is modelled as the authenticated identity of the caller. How the ledger binds the sender to a signature or proof is not captured, so the controller checks in `MvsProofs.SetZkdbRootStep` and `MvsProofs.AddProofRecordStep`, and what `MvsProofs.ControllerFixed` means for access control, hold only to the extent the ledger authenticates the sender.
- MvsProofs.CounterCountsInsertions: assumes the counter plus the number of calls stays below the field modulus. Past it, `numOfUsers.add(1)` wraps around, and `Primitives.FieldAdd` models that wrap.

## Findings

| source | as written | input that shows it | evidently intended | confidence | as-written member | corrected member |
|---|---|---|---|---|---|---|
| src/mvsProofs.ts:110-111 | `addProofRecord` asserts that `initialized` is false, under a comment saying it checks that the contract has been initialized; `setZkdbRoot` sets it to true (line 98) | deploy, `setZkdbRoot(r)` by the controller, then `addProofRecord(rec, w)` by the controller with `w` empty under `r`: refused | insertion accepted only after the root is set (`initialized` true) | medium, not executed | MvsProofs.InsertionAfterRootSetRefused | MvsProofs.AddProofRecordAfterInitStep |

The contract class `MvsProofs.MvsContractV2` keeps the guard as written.
`MvsProofs.LockFreezesState` shows what follows from it: once the root is set,
no later call changes the contract. `MvsProofs.InsertionAfterRootSetAccepted`
proves the intended end-to-end flow for the corrected guard.
