/**
 The Merkle proof check of launcher/src/merkle_verify.rs: domain-separated hashing, and the
 walk from a leaf to the root. The hash is a parameter, so everything holds for any hash.
 */
module MerkleProof {
  import opened Wrappers
  import opened MerkleEncoding
  import Decimal

  type HashFunction = seq<byte> -> Digest

  predicate IsAscii(s: string) {
    forall i :: 0 <= i < |s| ==> s[i] as int < 128
  }

  function Ascii(s: string): seq<byte>
    requires IsAscii(s)
  {
    seq<byte>(|s|, i requires 0 <= i < |s| => s[i] as int)
  }

  const LEAF_DOMAIN: seq<byte> := Ascii("capix:merkle:leaf:v1")
  const NODE_DOMAIN: seq<byte> := Ascii("capix:merkle:node:v1")

  const LEAF_VERSION := 1

  function LeafPreimage(version: nat, fields: seq<Field>): seq<byte> {
    LEAF_DOMAIN + U32Le(version) + EncodedFields(fields)
  }

  function NodePreimage(left: Digest, right: Digest): seq<byte> {
    NODE_DOMAIN + left + right
  }

  /** No leaf preimage is a node preimage: the tags differ. */
  lemma DomainsAreSeparate(version: nat, fields: seq<Field>, left: Digest, right: Digest)
    ensures LeafPreimage(version, fields) != NodePreimage(left, right)
  {
    assert LEAF_DOMAIN[13] == 'l' as int && NODE_DOMAIN[13] == 'n' as int;
    assert LeafPreimage(version, fields)[13] == LEAF_DOMAIN[13];
    assert NodePreimage(left, right)[13] == NODE_DOMAIN[13];
  }

  lemma NodePreimageIsInjective(l: Digest, r: Digest, l': Digest, r': Digest)
    requires NodePreimage(l, r) == NodePreimage(l', r')
    ensures l == l' && r == r'
  {
    var n := |NODE_DOMAIN|;
    assert NodePreimage(l, r)[n..n + 32] == l && NodePreimage(l, r)[n + 32..] == r;
    assert NodePreimage(l', r')[n..n + 32] == l' && NodePreimage(l', r')[n + 32..] == r';
  }

  lemma LeafPreimageIsInjective(version: nat, x: seq<Field>, y: seq<Field>)
    requires LeafPreimage(version, x) == LeafPreimage(version, y)
    ensures EncodedFields(x) == EncodedFields(y)
  {
    var n := |LEAF_DOMAIN + U32Le(version)|;
    assert LeafPreimage(version, x)[n..] == EncodedFields(x);
    assert LeafPreimage(version, y)[n..] == EncodedFields(y);
  }

  // ----- proofs and their verification

  datatype ProofStep = ProofStep(sibling: Digest, siblingIsRight: bool)

  datatype Proof = Proof(
    leafCategory: string, leafVersion: nat, leaf: seq<Field>,
    leafIndex: u64, leafCount: u64, path: seq<ProofStep>)

  function LeafHash(H: HashFunction, p: Proof): Digest {
    H(LeafPreimage(p.leafVersion, p.leaf))
  }

  // The preimage of the parent, with the sibling on the side its step names.
  function ParentPreimage(h: Digest, step: ProofStep): seq<byte> {
    if step.siblingIsRight then NodePreimage(h, step.sibling) else NodePreimage(step.sibling, h)
  }

  // From h up the path; every side must match the parity of the index at that height.
  function WalkUp(H: HashFunction, h: Digest, path: seq<ProofStep>, idx: nat): Option<Digest>
    decreases |path|
  {
    if path == [] then Some(h)
    else if path[0].siblingIsRight != (idx % 2 == 0) then None
    else WalkUp(H, H(ParentPreimage(h, path[0])), path[1..], idx / 2)
  }

  predicate Accepts(H: HashFunction, p: Proof, root: Digest, category: string) {
    && p.leafCategory == category
    && p.leafVersion == LEAF_VERSION
    && if p.leafCount == 1 then
         p.path == [] && H(NodePreimage(LeafHash(H, p), LeafHash(H, p))) == root
       else
         WalkUp(H, LeafHash(H, p), p.path, p.leafIndex) == Some(root)
  }

  function Pow2(n: nat): (p: nat)
    ensures p > 0
  {
    if n == 0 then 1 else 2 * Pow2(n - 1)
  }

  // The bitwise operators on the n low bits.
  function BitXor(x: nat, y: nat, n: nat): nat
    decreases n
  {
    if n == 0 then 0 else 2 * BitXor(x / 2, y / 2, n - 1) + if x % 2 == y % 2 then 0 else 1
  }

  function BitOr(x: nat, y: nat, n: nat): nat
    decreases n
  {
    if n == 0 then 0 else 2 * BitOr(x / 2, y / 2, n - 1) + if x % 2 == 0 == y % 2 then 0 else 1
  }

  lemma {:induction false} XorIsZero(x: nat, y: nat, n: nat)
    requires x < Pow2(n) && y < Pow2(n)
    ensures BitXor(x, y, n) == 0 <==> x == y
    ensures BitXor(x, y, n) < Pow2(n)
    decreases n
  {
    if n > 0 {
      XorIsZero(x / 2, y / 2, n - 1);
    }
  }

  lemma {:induction false} OrIsZero(x: nat, y: nat, n: nat)
    requires x < Pow2(n) && y < Pow2(n)
    ensures BitOr(x, y, n) == 0 <==> x == 0 && y == 0
    ensures BitOr(x, y, n) < Pow2(n)
    decreases n
  {
    if n > 0 {
      OrIsZero(x / 2, y / 2, n - 1);
    }
  }

  /** Compares without stopping at the first difference. */
  method ConstantTimeEq(a: Digest, b: Digest) returns (equal: bool)
    ensures equal <==> a == b
  {
    var diff: nat := 0;
    assert Pow2(4) == 16 && Pow2(8) == 256;
    for i := 0 to 32
      invariant diff < Pow2(8)
      invariant diff == 0 <==> a[..i] == b[..i]
    {
      assert a[..i + 1] == a[..i] + [a[i]] && b[..i + 1] == b[..i] + [b[i]];
      XorIsZero(a[i], b[i], 8);
      OrIsZero(diff, BitXor(a[i], b[i], 8), 8);
      diff := BitOr(diff, BitXor(a[i], b[i], 8), 8);
    }
    assert a[..32] == a && b[..32] == b;
    equal := diff == 0;
  }

  method Verify(H: HashFunction, p: Proof, root: Digest, expectedCategory: string) returns (verified: bool)
    ensures verified <==> Accepts(H, p, root, expectedCategory)
    ensures verified <==> AcceptsBytes(H, p, root, expectedCategory)
  {
    AcceptedInBytes(H, p, root, expectedCategory);
    hide AcceptsBytes, NodePreimage, LeafPreimage;
    if p.leafCategory != expectedCategory {
      return false;
    }
    if p.leafVersion != LEAF_VERSION {
      return false;
    }
    var h := H(LeafPreimage(p.leafVersion, p.leaf));
    if p.leafCount == 1 {
      if |p.path| != 0 {
        return false;
      }
      verified := ConstantTimeEq(H(NodePreimage(h, h)), root);
      return;
    }
    var idx: nat := p.leafIndex;
    assert p.path[0..] == p.path;
    for i := 0 to |p.path|
      invariant WalkUp(H, LeafHash(H, p), p.path, p.leafIndex) == WalkUp(H, h, p.path[i..], idx)
    {
      var step := p.path[i];
      assert p.path[i..][0] == step && p.path[i..][1..] == p.path[i + 1..];
      if step.siblingIsRight {
        if idx % 2 != 0 {
          return false;
        }
        h := H(NodePreimage(h, step.sibling));
      } else {
        if idx % 2 != 1 {
          return false;
        }
        h := H(NodePreimage(step.sibling, h));
      }
      idx := idx / 2;
    }
    verified := ConstantTimeEq(h, root);
  }

  // ----- what is hashed and accepted, byte by byte

  predicate IsTag(x: seq<byte>, tag: string) {
    |x| == |tag| && forall i :: 0 <= i < |x| ==> x[i] == tag[i] as int
  }

  // Tag, version 1 in four bytes, and the encoded fields.
  predicate IsLeafString(x: seq<byte>, fields: seq<byte>) {
    |x| == 24 + |fields| && IsTag(x[..20], "capix:merkle:leaf:v1") && x[20..24] == [1, 0, 0, 0] && x[24..] == fields
  }

  // Tag, the left child's digest, and the right one's.
  predicate IsNodeString(x: seq<byte>, left: Digest, right: Digest) {
    |x| == 84 && IsTag(x[..20], "capix:merkle:node:v1") && x[20..52] == left && x[52..84] == right
  }

  lemma Tags()
    ensures IsTag(LEAF_DOMAIN, "capix:merkle:leaf:v1") && IsTag(NODE_DOMAIN, "capix:merkle:node:v1")
  {
  }

  lemma SameTag(x: seq<byte>, y: seq<byte>, tag: string)
    requires IsTag(x, tag) && IsTag(y, tag)
    ensures x == y
  {
  }

  lemma LeafStringIs(fields: seq<Field>, x: seq<byte>)
    ensures x == LeafPreimage(1, fields) <==> IsLeafString(x, EncodedFields(fields))
  {
    Tags();
    assert U32Le(1) == [1, 0, 0, 0];
    hide IsTag, U32Le, EncodedFields;
    var y := LeafPreimage(1, fields);
    assert |LEAF_DOMAIN| == 20;
    assert y[..20] == LEAF_DOMAIN && y[20..24] == U32Le(1) && y[24..] == EncodedFields(fields);
    if IsLeafString(x, EncodedFields(fields)) {
      SameTag(x[..20], LEAF_DOMAIN, "capix:merkle:leaf:v1");
      assert x == x[..20] + x[20..24] + x[24..];
    }
  }

  lemma NodeStringIs(left: Digest, right: Digest, x: seq<byte>)
    ensures x == NodePreimage(left, right) <==> IsNodeString(x, left, right)
  {
    Tags();
    hide IsTag;
    var y := NodePreimage(left, right);
    assert |NODE_DOMAIN| == 20;
    assert y[..20] == NODE_DOMAIN && y[20..52] == left && y[52..84] == right;
    if IsNodeString(x, left, right) {
      SameTag(x[..20], NODE_DOMAIN, "capix:merkle:node:v1");
      assert x == x[..20] + x[20..52] + x[52..84];
    }
  }

  // The parent's digest is that of the two children's, the sibling on the side its step names.
  ghost predicate StepsTo(H: HashFunction, h: Digest, step: ProofStep, parent: Digest) {
    exists x ::
      (H(x) == parent
       && if step.siblingIsRight then IsNodeString(x, h, step.sibling) else IsNodeString(x, step.sibling, h))
  }

  lemma StepsToIs(H: HashFunction, h: Digest, step: ProofStep, parent: Digest)
    ensures StepsTo(H, h, step, parent) <==> parent == H(ParentPreimage(h, step))
  {
    var y := ParentPreimage(h, step);
    NodeStringIs(h, step.sibling, y);
    NodeStringIs(step.sibling, h, y);
    hide IsNodeString, NodePreimage;
    if StepsTo(H, h, step, parent) {
      var x :| H(x) == parent && if step.siblingIsRight then IsNodeString(x, h, step.sibling) else IsNodeString(x, step.sibling, h);
      NodeStringIs(h, step.sibling, x);
      NodeStringIs(step.sibling, h, x);
    }
  }

  // The digests on the way up the path: siblings are on the right at the heights where the index has a zero bit.
  ghost predicate Climbs(H: HashFunction, path: seq<ProofStep>, index: nat, digests: seq<Digest>) {
    && |digests| == |path| + 1
    && forall k :: 0 <= k < |path| ==>
         (path[k].siblingIsRight <==> index / Pow2(k) % 2 == 0) && StepsTo(H, digests[k], path[k], digests[k + 1])
  }

  lemma HalfAndPower(i: nat, k: nat)
    ensures i / Pow2(0) == i && i / Pow2(k + 1) == i / 2 / Pow2(k)
  {
    HalfModulo(i, Pow2(k));
    var p, q, r := Pow2(k), i / 2 / Pow2(k), (i / 2) % Pow2(k);
    assert i / 2 == p * q + r;
    assert i == (2 * p) * q + (2 * r + i % 2);
    Decimal.DivModUnique(i, 2 * p, q, 2 * r + i % 2);
  }

  lemma NextClimb(H: HashFunction, path: seq<ProofStep>, index: nat, digests: seq<Digest>)
    requires path != [] && |digests| == |path| + 1
    ensures Climbs(H, path, index, digests) <==>
      ((path[0].siblingIsRight <==> index % 2 == 0) && StepsTo(H, digests[0], path[0], digests[1])
       && Climbs(H, path[1..], index / 2, digests[1..]))
  {
    hide StepsTo, Pow2;
    HalfAndPower(index, 0);
    forall k: nat
      ensures index / Pow2(k + 1) == index / 2 / Pow2(k)
    {
      HalfAndPower(index, k);
    }
    if Climbs(H, path[1..], index / 2, digests[1..]) {
      forall k | 1 <= k < |path|
        ensures path[k].siblingIsRight <==> index / Pow2(k) % 2 == 0
        ensures StepsTo(H, digests[k], path[k], digests[k + 1])
      {
        assert path[1..][k - 1] == path[k] && digests[1..][k - 1] == digests[k] && digests[1..][k] == digests[k + 1];
        assert index / Pow2(k - 1 + 1) == index / 2 / Pow2(k - 1);
      }
    }
    if Climbs(H, path, index, digests) {
      forall k | 0 <= k < |path[1..]|
        ensures path[1..][k].siblingIsRight <==> index / 2 / Pow2(k) % 2 == 0
        ensures StepsTo(H, digests[1..][k], path[1..][k], digests[1..][k + 1])
      {
        assert path[1..][k] == path[k + 1] && digests[1..][k] == digests[k + 1] && digests[1..][k + 1] == digests[k + 2];
      }
    }
  }

  // A completed walk is a climb, and the other way round.
  lemma {:induction false} WalkClimbs(H: HashFunction, h: Digest, path: seq<ProofStep>, index: nat) returns (digests: seq<Digest>)
    requires WalkUp(H, h, path, index).Some?
    ensures Climbs(H, path, index, digests) && digests[0] == h && Some(digests[|path|]) == WalkUp(H, h, path, index)
    decreases |path|
  {
    hide ParentPreimage;
    if path == [] {
      digests := [h];
    } else {
      var above := H(ParentPreimage(h, path[0]));
      var rest := WalkClimbs(H, above, path[1..], index / 2);
      digests := [h] + rest;
      assert digests[1..] == rest;
      StepsToIs(H, h, path[0], above);
      hide Climbs, StepsTo;
      NextClimb(H, path, index, digests);
    }
  }

  lemma {:induction false} ClimbWalks(H: HashFunction, path: seq<ProofStep>, index: nat, digests: seq<Digest>)
    requires Climbs(H, path, index, digests)
    ensures WalkUp(H, digests[0], path, index) == Some(digests[|path|])
    decreases |path|
  {
    hide ParentPreimage;
    if path != [] {
      NextClimb(H, path, index, digests);
      StepsToIs(H, digests[0], path[0], digests[1]);
      hide StepsTo;
      ClimbWalks(H, path[1..], index / 2, digests[1..]);
    }
  }

  // What is accepted, down to the bytes that are hashed.
  ghost predicate AcceptsBytes(H: HashFunction, p: Proof, root: Digest, category: string) {
    && p.leafCategory == category && p.leafVersion == 1
    && exists leaf :: IsLeafString(leaf, EncodedFields(p.leaf)) && Reaches(H, H(leaf), p, root)
  }

  ghost predicate Reaches(H: HashFunction, h: Digest, p: Proof, root: Digest) {
    if p.leafCount == 1 then p.path == [] && StepsTo(H, h, ProofStep(h, true), root)
    else exists digests :: Climbs(H, p.path, p.leafIndex, digests) && digests[0] == h && digests[|p.path|] == root
  }

  lemma ReachesIs(H: HashFunction, h: Digest, p: Proof, root: Digest)
    ensures Reaches(H, h, p, root) <==>
      if p.leafCount == 1 then p.path == [] && H(NodePreimage(h, h)) == root
      else WalkUp(H, h, p.path, p.leafIndex) == Some(root)
  {
    hide WalkUp, NodePreimage, StepsTo;
    if p.leafCount == 1 {
      StepsToIs(H, h, ProofStep(h, true), root);
    } else {
      if WalkUp(H, h, p.path, p.leafIndex) == Some(root) {
        var digests := WalkClimbs(H, h, p.path, p.leafIndex);
      }
      hide Climbs;
      if Reaches(H, h, p, root) {
        var digests :| Climbs(H, p.path, p.leafIndex, digests) && digests[0] == h && digests[|p.path|] == root;
        ClimbWalks(H, p.path, p.leafIndex, digests);
      }
    }
  }

  /** A proof is accepted exactly when the bytes of its leaf and of the nodes above hash up to the root. */
  lemma AcceptedInBytes(H: HashFunction, p: Proof, root: Digest, category: string)
    ensures Accepts(H, p, root, category) <==> AcceptsBytes(H, p, root, category)
  {
    if p.leafVersion == 1 {
      var leaf := LeafPreimage(1, p.leaf);
      LeafStringIs(p.leaf, leaf);
      hide WalkUp, NodePreimage, LeafPreimage, IsLeafString, Reaches;
      ReachesIs(H, H(leaf), p, root);
      if AcceptsBytes(H, p, root, category) {
        var x :| IsLeafString(x, EncodedFields(p.leaf)) && Reaches(H, H(x), p, root);
        LeafStringIs(p.leaf, x);
      }
    }
  }

  // ----- soundness: what two accepted proofs have in common

  // Everything hashed on the way up.
  function PathPreimages(H: HashFunction, h: Digest, path: seq<ProofStep>): seq<seq<byte>>
    decreases |path|
  {
    if path == [] then [] else
      [ParentPreimage(h, path[0])] + PathPreimages(H, H(ParentPreimage(h, path[0])), path[1..])
  }

  // Everything that checking a proof hashes.
  function Hashed(H: HashFunction, p: Proof): seq<seq<byte>> {
    [LeafPreimage(p.leafVersion, p.leaf)] +
    if p.leafCount == 1 then [NodePreimage(LeafHash(H, p), LeafHash(H, p))]
    else PathPreimages(H, LeafHash(H, p), p.path)
  }

  // Two of the given preimages are different and have one digest.
  ghost predicate Collide(H: HashFunction, xs: seq<seq<byte>>, ys: seq<seq<byte>>) {
    exists x, y :: x in xs && y in ys && x != y && H(x) == H(y)
  }

  lemma CollideMore(H: HashFunction, xs: seq<seq<byte>>, ys: seq<seq<byte>>, xs': seq<seq<byte>>, ys': seq<seq<byte>>)
    requires Collide(H, xs, ys)
    requires (forall x :: x in xs ==> x in xs') && (forall y :: y in ys ==> y in ys')
    ensures Collide(H, xs', ys')
  {
  }

  lemma HalfAgrees(i: nat, j: nat, n: nat)
    requires n > 0 && i % Pow2(n) == j % Pow2(n)
    ensures i % 2 == j % 2 && (i / 2) % Pow2(n - 1) == (j / 2) % Pow2(n - 1)
  {
    HalfModulo(i, Pow2(n - 1));
    HalfModulo(j, Pow2(n - 1));
  }

  lemma HalfModulo(i: nat, p: nat)
    requires p > 0
    ensures i % (2 * p) % 2 == i % 2 && i % (2 * p) / 2 == (i / 2) % p
  {
    var q, r := (i / 2) / p, (i / 2) % p;
    assert i / 2 == p * q + r;
    assert i == (2 * p) * q + (2 * r + i % 2);
    Decimal.DivModUnique(i, 2 * p, q, 2 * r + i % 2);
  }

  // The walk without the parity check.
  function Fold(H: HashFunction, h: Digest, path: seq<ProofStep>): Digest
    decreases |path|
  {
    if path == [] then h else Fold(H, H(ParentPreimage(h, path[0])), path[1..])
  }

  ghost predicate SameSides(path: seq<ProofStep>, path': seq<ProofStep>) {
    |path| == |path'| && forall k :: 0 <= k < |path| ==> path[k].siblingIsRight == path'[k].siblingIsRight
  }

  // A completed walk is a fold, and low index bits decide the sides.
  lemma {:induction false} WalkIsFold(H: HashFunction, h: Digest, path: seq<ProofStep>, i: nat)
    requires WalkUp(H, h, path, i).Some?
    ensures WalkUp(H, h, path, i) == Some(Fold(H, h, path))
    decreases |path|
  {
    if path != [] {
      WalkIsFold(H, H(ParentPreimage(h, path[0])), path[1..], i / 2);
    }
  }

  lemma {:induction false} BitsDecideSides(H: HashFunction, h: Digest, path: seq<ProofStep>, i: nat,
                                           h': Digest, path': seq<ProofStep>, j: nat)
    requires |path| == |path'| && i % Pow2(|path|) == j % Pow2(|path|)
    requires WalkUp(H, h, path, i).Some? && WalkUp(H, h', path', j).Some?
    ensures SameSides(path, path')
    decreases |path|
  {
    if path != [] {
      HalfAgrees(i, j, |path|);
      BitsDecideSides(H, H(ParentPreimage(h, path[0])), path[1..], i / 2,
                      H(ParentPreimage(h', path'[0])), path'[1..], j / 2);
      assert forall k :: 1 <= k < |path| ==> path[k] == path[1..][k - 1] && path'[k] == path'[1..][k - 1];
    }
  }

  // Two folds with the same sides that meet started at the same node over the same path,
  // or hashed a collision.
  lemma {:induction false} FoldsMeet(H: HashFunction, h: Digest, path: seq<ProofStep>, h': Digest, path': seq<ProofStep>)
    requires SameSides(path, path') && Fold(H, h, path) == Fold(H, h', path')
    ensures (h == h' && path == path') || Collide(H, PathPreimages(H, h, path), PathPreimages(H, h', path'))
    decreases |path|
  {
    if path != [] {
      var x, y := ParentPreimage(h, path[0]), ParentPreimage(h', path'[0]);
      var xs, ys := PathPreimages(H, H(x), path[1..]), PathPreimages(H, H(y), path'[1..]);
      assert PathPreimages(H, h, path) == [x] + xs && PathPreimages(H, h', path') == [y] + ys;
      FoldsMeet(H, H(x), path[1..], H(y), path'[1..]);
      if Collide(H, xs, ys) {
        CollideMore(H, xs, ys, [x] + xs, [y] + ys);
      } else if x != y {
        assert x in [x] + xs && y in [y] + ys;
      } else {
        if path[0].siblingIsRight {
          NodePreimageIsInjective(h, path[0].sibling, h', path'[0].sibling);
        } else {
          NodePreimageIsInjective(path[0].sibling, h, path'[0].sibling, h');
        }
        assert path == [path[0]] + path[1..] && path' == [path'[0]] + path'[1..];
      }
    }
  }

  /**
   Position binding: two accepted proofs against one root, of one path length and with indices
   that agree in that many low bits, encode the same leaf and carry the same path; otherwise
   checking them hashes two different inputs to one digest.
   */
  lemma PositionBinding(H: HashFunction, p: Proof, q: Proof, root: Digest, pCategory: string, qCategory: string)
    requires Accepts(H, p, root, pCategory) && Accepts(H, q, root, qCategory)
    requires |p.path| == |q.path| && p.leafIndex % Pow2(|p.path|) == q.leafIndex % Pow2(|p.path|)
    ensures (EncodedFields(p.leaf) == EncodedFields(q.leaf) && p.path == q.path)
            || Collide(H, Hashed(H, p), Hashed(H, q))
  {
    hide LeafPreimage, NodePreimage, U32Le;
    var x, y := LeafPreimage(LEAF_VERSION, p.leaf), LeafPreimage(LEAF_VERSION, q.leaf);
    assert x in Hashed(H, p) && y in Hashed(H, q);
    if p.leafCount == 1 || q.leafCount == 1 {
      var u, v := TopPreimage(H, p), TopPreimage(H, q);
      if u != v {
        assert Collide(H, Hashed(H, p), Hashed(H, q));
      } else {
        TopLeaves(H, p, q);
      }
    } else {
      WalkIsFold(H, H(x), p.path, p.leafIndex);
      WalkIsFold(H, H(y), q.path, q.leafIndex);
      BitsDecideSides(H, H(x), p.path, p.leafIndex, H(y), q.path, q.leafIndex);
      FoldsMeet(H, H(x), p.path, H(y), q.path);
      if Collide(H, PathPreimages(H, H(x), p.path), PathPreimages(H, H(y), q.path)) {
        CollideMore(H, PathPreimages(H, H(x), p.path), PathPreimages(H, H(y), q.path), Hashed(H, p), Hashed(H, q));
      }
    }
    if x == y {
      LeafPreimageIsInjective(LEAF_VERSION, p.leaf, q.leaf);
    }
  }

  // What the root of an accepted proof with an empty path is the digest of.
  function TopPreimage(H: HashFunction, p: Proof): seq<byte> {
    if p.leafCount == 1 then NodePreimage(LeafHash(H, p), LeafHash(H, p)) else LeafPreimage(p.leafVersion, p.leaf)
  }

  lemma TopLeaves(H: HashFunction, p: Proof, q: Proof)
    requires p.leafVersion == q.leafVersion == LEAF_VERSION && TopPreimage(H, p) == TopPreimage(H, q)
    requires p.leafCount == 1 || q.leafCount == 1
    ensures LeafHash(H, p) == LeafHash(H, q)
  {
    if p.leafCount == 1 && q.leafCount == 1 {
      NodePreimageIsInjective(LeafHash(H, p), LeafHash(H, p), LeafHash(H, q), LeafHash(H, q));
    } else if p.leafCount == 1 {
      DomainsAreSeparate(q.leafVersion, q.leaf, LeafHash(H, p), LeafHash(H, p));
    } else {
      DomainsAreSeparate(p.leafVersion, p.leaf, LeafHash(H, q), LeafHash(H, q));
    }
  }

  /** With bodies that fit their length prefixes, the leaf fields themselves are bound. */
  lemma LeafBinding(H: HashFunction, p: Proof, q: Proof, root: Digest, pCategory: string, qCategory: string)
    requires Accepts(H, p, root, pCategory) && Accepts(H, q, root, qCategory)
    requires |p.path| == |q.path| && p.leafIndex == q.leafIndex
    requires AllShort(p.leaf) && AllShort(q.leaf)
    ensures (p.leaf == q.leaf && p.path == q.path) || Collide(H, Hashed(H, p), Hashed(H, q))
  {
    PositionBinding(H, p, q, root, pCategory, qCategory);
    if EncodedFields(p.leaf) == EncodedFields(q.leaf) {
      EncodingIsInjective(p.leaf, q.leaf);
    }
  }

  // ----- proofs of different lengths

  lemma NextFold(H: HashFunction, h: Digest, path: seq<ProofStep>)
    ensures path == [] ==> Fold(H, h, path) == h && PathPreimages(H, h, path) == []
    ensures path != [] ==>
      var x := ParentPreimage(h, path[0]);
      Fold(H, h, path) == Fold(H, H(x), path[1..]) && PathPreimages(H, h, path) == [x] + PathPreimages(H, H(x), path[1..])
  {
    hide ParentPreimage;
  }

  lemma {:induction false} FoldSplit(H: HashFunction, h: Digest, path: seq<ProofStep>, d: nat)
    requires d <= |path|
    ensures Fold(H, h, path) == Fold(H, Fold(H, h, path[..d]), path[d..])
    ensures PathPreimages(H, h, path) == PathPreimages(H, h, path[..d]) + PathPreimages(H, Fold(H, h, path[..d]), path[d..])
    decreases d
  {
    hide ParentPreimage, Fold, PathPreimages;
    NextFold(H, h, path);
    NextFold(H, h, path[..d]);
    if d == 0 {
      assert path[0..] == path && path[..0] == [];
    } else {
      FoldSplit(H, H(ParentPreimage(h, path[0])), path[1..], d - 1);
      assert path[..d][1..] == path[1..][..d - 1] && path[1..][d - 1..] == path[d..];
    }
  }

  // A fold of at least one step ends in a hashed node preimage.
  lemma {:induction false} FoldEndsInNode(H: HashFunction, h: Digest, path: seq<ProofStep>) returns (left: Digest, right: Digest)
    requires path != []
    ensures NodePreimage(left, right) in PathPreimages(H, h, path)
    ensures Fold(H, h, path) == H(NodePreimage(left, right))
    decreases |path|
  {
    var step := path[0];
    if |path| == 1 {
      left, right := if step.siblingIsRight then h else step.sibling, if step.siblingIsRight then step.sibling else h;
    } else {
      left, right := FoldEndsInNode(H, H(ParentPreimage(h, step)), path[1..]);
    }
  }

  /**
   A leaf cannot pass for an inner node: when a shorter accepted proof follows the last sides of
   a longer one to the same root, checking the two hashes a collision.
   */
  lemma NoShortcut(H: HashFunction, p: Proof, q: Proof, root: Digest, pCategory: string, qCategory: string)
    requires Accepts(H, p, root, pCategory) && Accepts(H, q, root, qCategory)
    requires p.leafCount != 1 && q.leafCount != 1 && |p.path| < |q.path|
    requires SameSides(p.path, q.path[|q.path| - |p.path|..])
    ensures Collide(H, Hashed(H, p), Hashed(H, q))
  {
    hide LeafPreimage, NodePreimage, U32Le;
    var h, g, d := LeafHash(H, p), LeafHash(H, q), |q.path| - |p.path|;
    WalkIsFold(H, h, p.path, p.leafIndex);
    WalkIsFold(H, g, q.path, q.leafIndex);
    FoldSplit(H, g, q.path, d);
    var mid := Fold(H, g, q.path[..d]);
    FoldsMeet(H, h, p.path, mid, q.path[d..]);
    if Collide(H, PathPreimages(H, h, p.path), PathPreimages(H, mid, q.path[d..])) {
      CollideMore(H, PathPreimages(H, h, p.path), PathPreimages(H, mid, q.path[d..]), Hashed(H, p), Hashed(H, q));
    } else {
      var left, right := FoldEndsInNode(H, g, q.path[..d]);
      DomainsAreSeparate(p.leafVersion, p.leaf, left, right);
      assert LeafPreimage(p.leafVersion, p.leaf) in Hashed(H, p) && NodePreimage(left, right) in Hashed(H, q);
    }
  }

  // ----- completeness: honest proofs are accepted

  // The level above: neighbours hashed in pairs.
  function Parents(H: HashFunction, level: seq<Digest>): (above: seq<Digest>)
    ensures |above| == |level| / 2
  {
    seq(|level| / 2, i requires 0 <= i < |level| / 2 => H(NodePreimage(level[2 * i], level[2 * i + 1])))
  }

  function TreeRoot(H: HashFunction, leaves: seq<Digest>, k: nat): Digest
    requires |leaves| == Pow2(k)
    decreases k
  {
    if k == 0 then leaves[0] else TreeRoot(H, Parents(H, leaves), k - 1)
  }

  function SiblingOf(level: seq<Digest>, i: nat): ProofStep
    requires |level| % 2 == 0 && i < |level|
  {
    if i % 2 == 0 then ProofStep(level[i + 1], true) else ProofStep(level[i - 1], false)
  }

  lemma ParentOf(H: HashFunction, level: seq<Digest>, i: nat)
    requires |level| % 2 == 0 && i < |level|
    ensures i / 2 < |level| / 2 && Parents(H, level)[i / 2] == H(ParentPreimage(level[i], SiblingOf(level, i)))
  {
    assert i % 2 == 0 ==> 2 * (i / 2) == i;
    assert i % 2 == 1 ==> 2 * (i / 2) + 1 == i;
  }

  lemma WalkStep(H: HashFunction, h: Digest, step: ProofStep, path: seq<ProofStep>, i: nat)
    requires step.siblingIsRight <==> i % 2 == 0
    ensures WalkUp(H, h, [step] + path, i) == WalkUp(H, H(ParentPreimage(h, step)), path, i / 2)
  {
    assert ([step] + path)[1..] == path;
  }

  // The sibling of node i on every level, from the leaves up.
  function HonestPath(H: HashFunction, leaves: seq<Digest>, k: nat, i: nat): (path: seq<ProofStep>)
    requires |leaves| == Pow2(k) && i < |leaves|
    ensures |path| == k
    decreases k
  {
    if k == 0 then [] else
      [SiblingOf(leaves, i)] + HonestPath(H, Parents(H, leaves), k - 1, i / 2)
  }

  // Up one level, from a node and its honest path to its parent and the parent's.
  lemma HonestStep(H: HashFunction, leaves: seq<Digest>, k: nat, i: nat)
    requires |leaves| == Pow2(k) && i < |leaves| && k > 0
    ensures i / 2 < |Parents(H, leaves)| == Pow2(k - 1)
    ensures var above := Parents(H, leaves);
            WalkUp(H, leaves[i], HonestPath(H, leaves, k, i), i) ==
            WalkUp(H, above[i / 2], HonestPath(H, above, k - 1, i / 2), i / 2)
  {
    hide ParentPreimage, WalkUp, Parents;
    ParentOf(H, leaves, i);
    WalkStep(H, leaves[i], SiblingOf(leaves, i), HonestPath(H, Parents(H, leaves), k - 1, i / 2), i);
  }

  lemma {:induction false} HonestWalk(H: HashFunction, leaves: seq<Digest>, k: nat, i: nat)
    requires |leaves| == Pow2(k) && i < |leaves|
    ensures WalkUp(H, leaves[i], HonestPath(H, leaves, k, i), i) == Some(TreeRoot(H, leaves, k))
    decreases k
  {
    if k > 0 {
      hide ParentPreimage, WalkUp, Parents, HonestPath;
      HonestStep(H, leaves, k, i);
      HonestWalk(H, Parents(H, leaves), k - 1, i / 2);
    }
  }

  function LeafDigests(H: HashFunction, leaves: seq<seq<Field>>): seq<Digest> {
    seq<Digest>(|leaves|, i requires 0 <= i < |leaves| => H(LeafPreimage(LEAF_VERSION, leaves[i])))
  }

  function HonestProof(H: HashFunction, leaves: seq<seq<Field>>, k: nat, i: u64, count: u64, category: string): Proof
    requires |leaves| == Pow2(k) && i < |leaves|
  {
    Proof(category, LEAF_VERSION, leaves[i], i, count, HonestPath(H, LeafDigests(H, leaves), k, i))
  }

  // The root of a perfect tree as it is published: a single leaf is doubled.
  function PublishedRoot(H: HashFunction, leaves: seq<seq<Field>>, k: nat): Digest
    requires |leaves| == Pow2(k)
  {
    var level := LeafDigests(H, leaves);
    if k == 0 then H(NodePreimage(level[0], level[0])) else TreeRoot(H, level, k)
  }

  /** Every leaf of a perfect tree has an accepted proof, the tree of one leaf included. */
  lemma HonestProofAccepted(H: HashFunction, leaves: seq<seq<Field>>, k: nat, i: u64, count: u64, category: string)
    requires |leaves| == Pow2(k) && i < |leaves| && (count == 1 <==> k == 0)
    ensures Accepts(H, HonestProof(H, leaves, k, i, count, category), PublishedRoot(H, leaves, k), category)
  {
    if k > 0 {
      HonestWalk(H, LeafDigests(H, leaves), k, i);
    }
  }

  /** Against the root of a perfect tree, an accepted proof of full length proves the leaf at its index. */
  lemma AcceptedIsInTree(H: HashFunction, leaves: seq<seq<Field>>, k: nat, p: Proof, category: string)
    requires |leaves| == Pow2(k) && p.leafIndex < |leaves| && |p.path| == k
    requires Accepts(H, p, PublishedRoot(H, leaves, k), category)
    ensures var honest := HonestProof(H, leaves, k, p.leafIndex, if k == 0 then 1 else 2, category);
      EncodedFields(p.leaf) == EncodedFields(leaves[p.leafIndex]) || Collide(H, Hashed(H, p), Hashed(H, honest))
  {
    var count: u64 := if k == 0 then 1 else 2;
    HonestProofAccepted(H, leaves, k, p.leafIndex, count, category);
    PositionBinding(H, p, HonestProof(H, leaves, k, p.leafIndex, count, category), PublishedRoot(H, leaves, k), category, category);
  }
}
