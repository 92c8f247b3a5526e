/**
 The sparse Merkle commitment: a fixed-height binary tree of field elements
 whose root is recomputed from a leaf and the path of siblings above it.
 The two-to-one hash is a parameter, so every result holds for any hash.
 Where distinct leaves are concerned, the conclusion is "or hashing the two
 leaves up the witness meets a collision": a level at which the two running
 nodes differ but hash, with the same sibling, to the same parent. That is
 the reduction to collision resistance, with the colliding pair named.
 */
module Merkle {
  import opened Primitives

  /** Height of the tree, counting the leaf level. */
  const MerkleHeight: nat := 20

  /** A witness carries one sibling per level above the leaves. */
  const PathLength: nat := MerkleHeight - 1

  /** The value of an unoccupied leaf. */
  const EmptyLeaf: Field := 0

  /** A two-to-one hash of field elements. */
  type Hasher = (Field, Field) -> Field

  /** One level of a witness: the sibling and whether the running node is the left child. */
  datatype PathStep = PathStep(sibling: Field, isLeft: bool)

  /** A path witness for a tree of height MerkleHeight. */
  type Witness = w: seq<PathStep> | |w| == PathLength witness seq(PathLength, _ => PathStep(0, true))

  /** The parent of `node`: the direction bit orders the two children. */
  function Combine(h: Hasher, node: Field, step: PathStep): (parent: Field)
  {
    if step.isLeft then h(node, step.sibling) else h(step.sibling, node)
  }

  /** Hashes `node` up through `steps`, lowest level first. */
  function Fold(h: Hasher, node: Field, steps: seq<PathStep>): (top: Field)
    decreases |steps|
  {
    if steps == [] then node else Fold(h, Combine(h, node, steps[0]), steps[1..])
  }

  /** The root of the tree in which `leaf` sits at the slot `w` describes. */
  function CalculateRoot(h: Hasher, w: Witness, leaf: Field): (root: Field)
  {
    Fold(h, leaf, w)
  }

  /** Non-membership: the slot described by `w` is empty under `root`. */
  predicate IsEmptySlot(h: Hasher, w: Witness, root: Field)
  {
    CalculateRoot(h, w, EmptyLeaf) == root
  }

  /** Membership: `leaf` occupies the slot described by `w` under `root`. */
  predicate IsMember(h: Hasher, w: Witness, leaf: Field, root: Field)
  {
    CalculateRoot(h, w, leaf) == root
  }

  /**
   Hashing `a` and `b` up `steps` meets a collision of the hash: at some
   level the two running nodes still differ, yet their parents, computed
   with the same sibling and direction, are equal. The colliding pair is
   determined by `a`, `b` and `steps`.
   */
  ghost predicate CollisionOnPath(h: Hasher, a: Field, b: Field, steps: seq<PathStep>)
  {
    exists i :: 0 <= i < |steps| &&
      Fold(h, a, steps[..i]) != Fold(h, b, steps[..i]) &&
      Combine(h, Fold(h, a, steps[..i]), steps[i]) == Combine(h, Fold(h, b, steps[..i]), steps[i])
  }

  /** Folding one more level onto a prefix of the path. */
  lemma {:induction false} FoldStep(h: Hasher, node: Field, steps: seq<PathStep>, i: nat)
    requires i < |steps|
    ensures Fold(h, node, steps[..i + 1]) == Combine(h, Fold(h, node, steps[..i]), steps[i])
    decreases i
  {
    if i > 0 {
      var node' := Combine(h, node, steps[0]);
      FoldStep(h, node', steps[1..], i - 1);
      assert steps[..i + 1][1..] == steps[1..][..i];
      assert steps[..i][1..] == steps[1..][..i - 1];
    } else {
      assert steps[..1][1..] == [];
    }
  }

  /**
   Folding keeps distinct nodes distinct, unless the two folds run into a
   collision of the hash on the way up.
   */
  lemma {:induction false} FoldInjective(h: Hasher, a: Field, b: Field, steps: seq<PathStep>)
    requires Fold(h, a, steps) == Fold(h, b, steps)
    ensures a == b || CollisionOnPath(h, a, b, steps)
  {
    if a != b {
      // the last level at which the two running nodes still differ
      var i := |steps|;
      assert steps[..i] == steps;
      while Fold(h, a, steps[..i]) == Fold(h, b, steps[..i])
        invariant 0 <= i <= |steps|
        invariant Fold(h, a, steps[..i]) == Fold(h, b, steps[..i]) ==> i > 0
        invariant i < |steps| ==>
          Combine(h, Fold(h, a, steps[..i]), steps[i]) == Combine(h, Fold(h, b, steps[..i]), steps[i])
        decreases i
      {
        assert steps[..0] == [];
        i := i - 1;
        FoldStep(h, a, steps, i);
        FoldStep(h, b, steps, i);
      }
      assert i < |steps|;
    }
  }

  /** Two leaves with the same root under one witness are equal, unless hashing them up meets a collision. */
  lemma RootDeterminesLeaf(h: Hasher, w: Witness, a: Field, b: Field)
    requires CalculateRoot(h, w, a) == CalculateRoot(h, w, b)
    ensures a == b || CollisionOnPath(h, a, b, w)
  {
    FoldInjective(h, a, b, w);
  }

  /**
   A slot cannot be both empty and occupied by a non-empty leaf under the
   same root, unless hashing the two leaves up meets a collision.
   */
  lemma EmptyExcludesMember(h: Hasher, w: Witness, leaf: Field, root: Field)
    requires IsEmptySlot(h, w, root) && IsMember(h, w, leaf, root)
    ensures leaf == EmptyLeaf || CollisionOnPath(h, leaf, EmptyLeaf, w)
  {
    RootDeterminesLeaf(h, w, leaf, EmptyLeaf);
  }

  /**
   Replacing the empty leaf of a slot by any other leaf changes the root,
   unless hashing the two leaves up meets a collision.
   */
  lemma InsertionChangesRoot(h: Hasher, w: Witness, leaf: Field)
    requires leaf != EmptyLeaf
    ensures CalculateRoot(h, w, leaf) != CalculateRoot(h, w, EmptyLeaf) || CollisionOnPath(h, leaf, EmptyLeaf, w)
  {
    if CalculateRoot(h, w, leaf) == CalculateRoot(h, w, EmptyLeaf) {
      RootDeterminesLeaf(h, w, leaf, EmptyLeaf);
    }
  }
}
