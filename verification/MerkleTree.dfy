/**
 What an accepted proof of launcher/src/merkle_verify.rs proves about the tree whose root it is
 checked against: trees of any shape, and paths and claimed leaf counts of any length.
 */
module MerkleTree {
  import opened Wrappers
  import opened MerkleEncoding
  import opened MerkleProof

  datatype Tree = Leaf(fields: seq<Field>) | Node(left: Tree, right: Tree)

  // What the root of a tree is the digest of.
  function Top(H: HashFunction, t: Tree): seq<byte>
    decreases t, 0
  {
    match t
    case Leaf(fields) => LeafPreimage(LEAF_VERSION, fields)
    case Node(left, right) => NodePreimage(Root(H, left), Root(H, right))
  }

  function Root(H: HashFunction, t: Tree): Digest
    decreases t, 1
  {
    H(Top(H, t))
  }

  // Everything hashed to build a tree.
  function Preimages(H: HashFunction, t: Tree): seq<seq<byte>> {
    match t
    case Leaf(_) => [Top(H, t)]
    case Node(left, right) => [Top(H, t)] + (Preimages(H, left) + Preimages(H, right))
  }

  // Down a path that is given from the bottom up; each step names the side it does not take.
  function Descend(t: Tree, path: seq<ProofStep>): Option<Tree>
    decreases |path|
  {
    if path == [] then Some(t)
    else if t.Leaf? then None
    else
      var n := |path| - 1;
      Descend(if path[n].siblingIsRight then t.left else t.right, path[..n])
  }

  // The path leads to a leaf with the given fields, as far as their encoding tells.
  predicate LeadsTo(t: Tree, path: seq<ProofStep>, fields: seq<Field>) {
    var end := Descend(t, path);
    end.Some? && end.value.Leaf? && EncodedFields(end.value.fields) == EncodedFields(fields)
  }

  // The path that a proof walks: one that claims a single leaf has its own digest for a sibling.
  function ProvenPath(H: HashFunction, p: Proof): seq<ProofStep> {
    if p.leafCount == 1 then [ProofStep(LeafHash(H, p), true)] else p.path
  }

  // ----- trees of any shape

  lemma TopInPreimages(H: HashFunction, t: Tree)
    ensures Top(H, t) in Preimages(H, t)
  {
  }

  lemma LeafMeetsTop(H: HashFunction, t: Tree, leaf: seq<Field>)
    requires LeafPreimage(LEAF_VERSION, leaf) == Top(H, t)
    ensures LeadsTo(t, [], leaf)
  {
    hide LeafPreimage, NodePreimage;
    match t
    case Leaf(fields) =>
      LeafPreimageIsInjective(LEAF_VERSION, leaf, fields);
    case Node(left, right) =>
      DomainsAreSeparate(LEAF_VERSION, leaf, Root(H, left), Root(H, right));
  }

  // A parent's preimage that is the top of a tree is that of a node with the child on the side taken.
  lemma ParentMeetsTop(H: HashFunction, t: Tree, h: Digest, step: ProofStep)
    requires ParentPreimage(h, step) == Top(H, t)
    ensures t.Node? && Root(H, if step.siblingIsRight then t.left else t.right) == h
  {
    hide LeafPreimage, NodePreimage, Root;
    match t
    case Leaf(fields) =>
      if step.siblingIsRight {
        DomainsAreSeparate(LEAF_VERSION, fields, h, step.sibling);
      } else {
        DomainsAreSeparate(LEAF_VERSION, fields, step.sibling, h);
      }
    case Node(left, right) =>
      if step.siblingIsRight {
        NodePreimageIsInjective(h, step.sibling, Root(H, left), Root(H, right));
      } else {
        NodePreimageIsInjective(step.sibling, h, Root(H, left), Root(H, right));
      }
  }

  // The last step of a path hashes its parent into the end of the fold.
  lemma LastStep(H: HashFunction, h: Digest, path: seq<ProofStep>)
    requires path != []
    ensures var n := |path| - 1; var x := ParentPreimage(Fold(H, h, path[..n]), path[n]);
      Fold(H, h, path) == H(x) && PathPreimages(H, h, path) == PathPreimages(H, h, path[..n]) + [x]
  {
    var n := |path| - 1;
    FoldSplit(H, h, path, n);
    assert path[n..] == [path[n]] && path[n..][1..] == [];
  }

  /** A path folded from a leaf to the root of a tree leads down to that leaf, or a collision was hashed. */
  lemma {:induction false} FoldedFromLeaf(H: HashFunction, t: Tree, leaf: seq<Field>, path: seq<ProofStep>)
    requires Fold(H, H(LeafPreimage(LEAF_VERSION, leaf)), path) == Root(H, t)
    ensures var x := LeafPreimage(LEAF_VERSION, leaf);
      LeadsTo(t, path, leaf) || Collide(H, [x] + PathPreimages(H, H(x), path), Preimages(H, t))
    decreases |path|
  {
    hide LeafPreimage, ParentPreimage, EncodedFields, PathPreimages, Preimages, Fold;
    var x := LeafPreimage(LEAF_VERSION, leaf);
    var all := [x] + PathPreimages(H, H(x), path);
    TopInPreimages(H, t);
    if path == [] {
      FoldOfNothing(H, H(x));
      assert x in all;
      if x == Top(H, t) {
        LeafMeetsTop(H, t, leaf);
      }
    } else {
      var n := |path| - 1;
      var y := ParentPreimage(Fold(H, H(x), path[..n]), path[n]);
      LastStep(H, H(x), path);
      assert y in all;
      if y == Top(H, t) {
        ParentMeetsTop(H, t, Fold(H, H(x), path[..n]), path[n]);
        var child := if path[n].siblingIsRight then t.left else t.right;
        FoldedFromLeaf(H, child, leaf, path[..n]);
        var below := [x] + PathPreimages(H, H(x), path[..n]);
        if Collide(H, below, Preimages(H, child)) {
          ChildInPreimages(H, t);
          CollideMore(H, below, Preimages(H, child), all, Preimages(H, t));
        }
      }
    }
  }

  lemma FoldOfNothing(H: HashFunction, h: Digest)
    ensures Fold(H, h, []) == h
  {
  }

  lemma ChildInPreimages(H: HashFunction, t: Tree)
    requires t.Node?
    ensures forall x :: x in Preimages(H, t.left) || x in Preimages(H, t.right) ==> x in Preimages(H, t)
  {
    hide Top;
  }

  lemma ProvenFold(H: HashFunction, p: Proof, root: Digest, category: string)
    requires Accepts(H, p, root, category)
    ensures Fold(H, LeafHash(H, p), ProvenPath(H, p)) == root
    ensures Hashed(H, p) == [LeafPreimage(p.leafVersion, p.leaf)] + PathPreimages(H, LeafHash(H, p), ProvenPath(H, p))
  {
    hide LeafPreimage, NodePreimage;
    if p.leafCount == 1 {
      assert ProvenPath(H, p)[1..] == [];
    } else {
      WalkIsFold(H, LeafHash(H, p), p.path, p.leafIndex);
    }
  }

  /**
   Against the root of any tree, whatever leaf count and however long a path it claims, an accepted
   proof follows its path down to a leaf of the tree with the same encoding as its own; otherwise
   checking the proof and building the tree hash two different inputs to one digest.
   */
  lemma AcceptedLeadsToLeaf(H: HashFunction, t: Tree, p: Proof, category: string)
    requires Accepts(H, p, Root(H, t), category)
    ensures LeadsTo(t, ProvenPath(H, p), p.leaf) || Collide(H, Hashed(H, p), Preimages(H, t))
  {
    hide LeafPreimage, EncodedFields;
    ProvenFold(H, p, Root(H, t), category);
    FoldedFromLeaf(H, t, p.leaf, ProvenPath(H, p));
  }

  // ----- perfect trees

  // The level above: neighbours joined in pairs.
  function Lift(level: seq<Tree>): seq<Tree> {
    seq(|level| / 2, i requires 0 <= i < |level| / 2 => Node(level[2 * i], level[2 * i + 1]))
  }

  function TreeOver(level: seq<Tree>, k: nat): Tree
    requires |level| == Pow2(k)
    decreases k
  {
    if k == 0 then level[0] else TreeOver(Lift(level), k - 1)
  }

  function Roots(H: HashFunction, level: seq<Tree>): seq<Digest> {
    seq<Digest>(|level|, i requires 0 <= i < |level| => Root(H, level[i]))
  }

  lemma RootsLift(H: HashFunction, level: seq<Tree>)
    ensures Roots(H, Lift(level)) == Parents(H, Roots(H, level))
  {
    var up, down := Roots(H, Lift(level)), Parents(H, Roots(H, level));
    forall i | 0 <= i < |level| / 2
      ensures up[i] == down[i]
    {
      RootOfNode(H, level[2 * i], level[2 * i + 1]);
    }
    hide Root, NodePreimage;
    assert up == down;
  }

  lemma RootOfNode(H: HashFunction, left: Tree, right: Tree)
    ensures Root(H, Node(left, right)) == H(NodePreimage(Root(H, left), Root(H, right)))
  {
  }

  lemma RootOfLeaf(H: HashFunction, fields: seq<Field>)
    ensures Root(H, Leaf(fields)) == H(LeafPreimage(LEAF_VERSION, fields))
  {
  }

  lemma {:induction false} RootOver(H: HashFunction, level: seq<Tree>, k: nat)
    requires |level| == Pow2(k)
    ensures Root(H, TreeOver(level, k)) == TreeRoot(H, Roots(H, level), k)
    decreases k
  {
    if k > 0 {
      RootsLift(H, level);
      RootOver(H, Lift(level), k - 1);
      hide Root, Lift, Roots, Parents;
    }
  }

  // All leaves of the tree are d levels down.
  predicate Uniform(t: Tree, d: nat) {
    match t
    case Leaf(_) => d == 0
    case Node(left, right) => d > 0 && Uniform(left, d - 1) && Uniform(right, d - 1)
  }

  lemma {:induction false} UniformOver(level: seq<Tree>, d: nat, k: nat)
    requires |level| == Pow2(k) && forall i :: 0 <= i < |level| ==> Uniform(level[i], d)
    ensures Uniform(TreeOver(level, k), d + k)
    decreases k
  {
    if k > 0 {
      assert forall i :: 0 <= i < |Lift(level)| ==> Uniform(Lift(level)[i], d + 1);
      UniformOver(Lift(level), d + 1, k - 1);
    }
  }

  lemma {:induction false} LeafDepth(t: Tree, d: nat, path: seq<ProofStep>)
    requires Uniform(t, d) && Descend(t, path).Some? && Descend(t, path).value.Leaf?
    ensures |path| == d
    decreases |path|
  {
    if path != [] {
      var n := |path| - 1;
      LeafDepth(if path[n].siblingIsRight then t.left else t.right, d - 1, path[..n]);
    }
  }

  // The position a path stands for: its first step is the lowest bit.
  function PositionOf(path: seq<ProofStep>): (i: nat)
    ensures i < Pow2(|path|)
  {
    if path == [] then 0 else (if path[0].siblingIsRight then 0 else 1) + 2 * PositionOf(path[1..])
  }

  lemma {:induction false} DescendCons(t: Tree, step: ProofStep, path: seq<ProofStep>)
    ensures Descend(t, [step] + path) ==
      match Descend(t, path) case None => None case Some(u) => Descend(u, [step])
    decreases |path|
  {
    if path != [] {
      var n := |path| - 1;
      assert ([step] + path)[..n + 1] == [step] + path[..n];
      if t.Node? {
        DescendCons(if path[n].siblingIsRight then t.left else t.right, step, path[..n]);
      }
    } else {
      assert [step] + path == [step];
    }
  }

  lemma OneDown(t: Tree, step: ProofStep)
    requires t.Node?
    ensures Descend(t, [step]) == Some(if step.siblingIsRight then t.left else t.right)
  {
    assert [step][..0] == [];
  }

  lemma {:induction false} DescendOver(level: seq<Tree>, k: nat, path: seq<ProofStep>)
    requires |level| == Pow2(k) && |path| == k
    ensures Descend(TreeOver(level, k), path) == Some(level[PositionOf(path)])
    decreases k
  {
    if k > 0 {
      var rest := path[1..];
      DescendOver(Lift(level), k - 1, rest);
      hide Descend, TreeOver;
      assert path == [path[0]] + rest;
      DescendCons(TreeOver(Lift(level), k - 1), path[0], rest);
      OneDown(Lift(level)[PositionOf(rest)], path[0]);
      TreeOverLift(level, k);
    }
  }

  lemma TreeOverLift(level: seq<Tree>, k: nat)
    requires |level| == Pow2(k) && k > 0
    ensures TreeOver(level, k) == TreeOver(Lift(level), k - 1)
  {
  }

  // The parity check makes the index the position, as far as the path goes.
  lemma {:induction false} IndexIsPosition(H: HashFunction, h: Digest, path: seq<ProofStep>, i: nat)
    requires WalkUp(H, h, path, i).Some?
    ensures PositionOf(path) == i % Pow2(|path|)
    decreases |path|
  {
    if path != [] {
      IndexIsPosition(H, H(ParentPreimage(h, path[0])), path[1..], i / 2);
      HalfModulo(i, Pow2(|path| - 1));
      hide ParentPreimage;
    }
  }

  function Leaves(leaves: seq<seq<Field>>): seq<Tree> {
    seq(|leaves|, i requires 0 <= i < |leaves| => Leaf(leaves[i]))
  }

  // The tree of 2^k leaves as it is published: a single leaf is doubled.
  function PublishedTree(leaves: seq<seq<Field>>, k: nat): Tree
    requires |leaves| == Pow2(k)
  {
    if k == 0 then Node(Leaf(leaves[0]), Leaf(leaves[0])) else TreeOver(Leaves(leaves), k)
  }

  lemma PublishedRootIs(H: HashFunction, leaves: seq<seq<Field>>, k: nat)
    requires |leaves| == Pow2(k)
    ensures Root(H, PublishedTree(leaves, k)) == PublishedRoot(H, leaves, k)
  {
    hide LeafPreimage, NodePreimage, TreeRoot, TreeOver, Root;
    forall i | 0 <= i < |leaves|
      ensures Roots(H, Leaves(leaves))[i] == LeafDigests(H, leaves)[i]
    {
      RootOfLeaf(H, leaves[i]);
    }
    assert Roots(H, Leaves(leaves)) == LeafDigests(H, leaves);
    if k > 0 {
      RootOver(H, Leaves(leaves), k);
    } else {
      RootOfLeaf(H, leaves[0]);
      RootOfNode(H, Leaf(leaves[0]), Leaf(leaves[0]));
    }
  }

  // How far down the leaves of the published tree are.
  function Height(k: nat): nat {
    if k == 0 then 1 else k
  }

  // The position a proof claims, as far as the tree has positions.
  function ClaimedPosition(p: Proof, k: nat): (i: nat)
    ensures i < Pow2(k)
  {
    if k == 0 || p.leafCount == 1 then 0 else p.leafIndex % Pow2(k)
  }

  lemma {:induction false} PublishedLeaf(leaves: seq<seq<Field>>, k: nat, path: seq<ProofStep>)
    requires |leaves| == Pow2(k) && Descend(PublishedTree(leaves, k), path).Some?
    requires Descend(PublishedTree(leaves, k), path).value.Leaf?
    ensures |path| == Height(k)
    ensures Descend(PublishedTree(leaves, k), path).value == Leaf(leaves[if k == 0 then 0 else PositionOf(path)])
  {
    if k == 0 {
      LeafDepth(PublishedTree(leaves, 0), 1, path);
      assert path == [path[0]];
      OneDown(PublishedTree(leaves, 0), path[0]);
    } else {
      UniformOver(Leaves(leaves), 0, k);
      LeafDepth(TreeOver(Leaves(leaves), k), k, path);
      DescendOver(Leaves(leaves), k, path);
    }
  }

  /**
   Against the root of a perfect tree every accepted proof is of the height of the tree and carries
   the leaf at the position it claims, up to encoding; a shorter or a longer one, or one with a
   wrong leaf count, exhibits a collision with what building the tree hashes.
   */
  lemma AcceptedInPerfectTree(H: HashFunction, leaves: seq<seq<Field>>, k: nat, p: Proof, category: string)
    requires |leaves| == Pow2(k) && Accepts(H, p, PublishedRoot(H, leaves, k), category)
    ensures
      || (|ProvenPath(H, p)| == Height(k) && EncodedFields(p.leaf) == EncodedFields(leaves[ClaimedPosition(p, k)]))
      || Collide(H, Hashed(H, p), Preimages(H, PublishedTree(leaves, k)))
  {
    hide PublishedTree, PublishedRoot, Preimages, Root, LeafPreimage, EncodedFields, Descend, Hashed;
    var t, path := PublishedTree(leaves, k), ProvenPath(H, p);
    PublishedRootIs(H, leaves, k);
    AcceptedLeadsToLeaf(H, t, p, category);
    if LeadsTo(t, path, p.leaf) {
      PublishedLeaf(leaves, k, path);
      if p.leafCount != 1 {
        IndexIsPosition(H, LeafHash(H, p), p.path, p.leafIndex);
      }
    }
  }

  /** With bodies that fit their length prefixes it is the leaf itself. */
  lemma LeafInPerfectTree(H: HashFunction, leaves: seq<seq<Field>>, k: nat, p: Proof, category: string)
    requires |leaves| == Pow2(k) && Accepts(H, p, PublishedRoot(H, leaves, k), category)
    requires AllShort(p.leaf) && AllShort(leaves[ClaimedPosition(p, k)])
    ensures p.leaf == leaves[ClaimedPosition(p, k)] || Collide(H, Hashed(H, p), Preimages(H, PublishedTree(leaves, k)))
  {
    AcceptedInPerfectTree(H, leaves, k, p, category);
    hide PublishedTree, PublishedRoot, Preimages, Hashed, EncodedFields;
    if EncodedFields(p.leaf) == EncodedFields(leaves[ClaimedPosition(p, k)]) {
      EncodingIsInjective(p.leaf, leaves[ClaimedPosition(p, k)]);
    }
  }
}
