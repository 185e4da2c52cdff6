/** The incremental sparse Merkle tree of packages/merkle-tree/index.ts. */
module MerkleTree {
  import opened Decimal
  import opened Options
  import opened Powers

  type Digest = nat
  // The digest of a string; which digest it is (keccak, sha256) is left open.
  type Hash = string -> Digest
  // The `${level}_${index}` key of a stored node.
  type NodeKey = (nat, nat)

  /** What the tree needs of a hash: the empty leaf's digest and the digest of two children. */
  datatype Hashing = Hashing(zero: Digest, pair: (Digest, Digest) -> Digest)

  /** `_hashPair` digests the concatenated decimal texts of its arguments; it is not assumed injective. */
  function TextHashing(hash: Hash): Hashing {
    Hashing(hash("0"), (left, right) => hash(Print(left) + Print(right)))
  }

  function ZeroHash(h: Hashing, level: nat): Digest {
    if level == 0 then h.zero
    else h.pair(ZeroHash(h, level - 1), ZeroHash(h, level - 1))
  }

  // ---- The meaning of a tree: every node recomputed from the leaves ----

  function LeafDigest(h: Hashing, leaves: map<nat, Digest>, index: nat): Digest {
    if index in leaves then leaves[index] else h.zero
  }

  function NodeHash(h: Hashing, leaves: map<nat, Digest>, level: nat, index: nat): Digest {
    if level == 0 then LeafDigest(h, leaves, index)
    else h.pair(NodeHash(h, leaves, level - 1, 2 * index), NodeHash(h, leaves, level - 1, 2 * index + 1))
  }

  /** `nodes.get(key) || zeroHashes[level]`: a stored zero reads as absent. */
  function ReadNode(h: Hashing, nodes: map<NodeKey, Digest>, level: nat, index: nat): Digest {
    if (level, index) in nodes && nodes[(level, index)] != 0 then nodes[(level, index)] else ZeroHash(h, level)
  }

  /** Whether the sparse node map, read through its zero-hash fallback, shows exactly the recomputed tree. */
  ghost predicate Agrees(h: Hashing, depth: nat, nodes: map<NodeKey, Digest>, leaves: map<nat, Digest>) {
    forall level: nat, index: nat {:trigger ReadNode(h, nodes, level, index)} ::
      level <= depth ==> ReadNode(h, nodes, level, index) == NodeHash(h, leaves, level, index)
  }

  // ---- The incremental form ----

  function Sibling(index: nat): nat {
    if index % 2 == 0 then index + 1 else index - 1
  }

  function Ancestor(index: nat, level: nat): nat {
    if level == 0 then index else Ancestor(index, level - 1) / 2
  }

  function Combine(h: Hashing, onLeft: bool, current: Digest, sibling: Digest): Digest {
    if onLeft then h.pair(current, sibling) else h.pair(sibling, current)
  }

  /** The digest an update of `index` computes at `level`, reading siblings from `nodes`. */
  function PathHash(h: Hashing, nodes: map<NodeKey, Digest>, index: nat, leaf: Digest, level: nat): Digest {
    if level == 0 then leaf
    else
      var below := Ancestor(index, level - 1);
      Combine(h, below % 2 == 0, PathHash(h, nodes, index, leaf, level - 1),
              ReadNode(h, nodes, level - 1, Sibling(below)))
  }

  /** The node map after an update of `index` has reached `level`. */
  function WritePath(h: Hashing, nodes: map<NodeKey, Digest>, index: nat, leaf: Digest, level: nat): map<NodeKey, Digest> {
    (if level == 0 then nodes else WritePath(h, nodes, index, leaf, level - 1))
    [(level, Ancestor(index, level)) := PathHash(h, nodes, index, leaf, level)]
  }

  lemma {:induction false} WritePathEntry(h: Hashing, nodes: map<NodeKey, Digest>, index: nat, leaf: Digest, top: nat,
                                          level: nat, k: nat)
    ensures var after := WritePath(h, nodes, index, leaf, top);
            if level <= top && k == Ancestor(index, level) then
              (level, k) in after && after[(level, k)] == PathHash(h, nodes, index, leaf, level)
            else
              ((level, k) in after <==> (level, k) in nodes) &&
              ((level, k) in nodes ==> after[(level, k)] == nodes[(level, k)])
  {
    if top > 0 {
      WritePathEntry(h, nodes, index, leaf, top - 1, level, k);
    }
  }

  /** Two leaf maps that differ at most at `index`. */
  ghost predicate SameElsewhere(m: map<nat, Digest>, m': map<nat, Digest>, index: nat) {
    forall j :: j != index ==> (j in m <==> j in m') && (j in m ==> m[j] == m'[j])
  }

  lemma {:induction false} NodeHashFrame(h: Hashing, m: map<nat, Digest>, m': map<nat, Digest>, index: nat,
                                         level: nat, k: nat)
    requires SameElsewhere(m, m', index) && Ancestor(index, level) != k
    ensures NodeHash(h, m', level, k) == NodeHash(h, m, level, k)
  {
    if level == 0 {
      assert index != k;
    } else {
      var below := Ancestor(index, level - 1);
      assert below / 2 != k;
      assert below != 2 * k && below != 2 * k + 1;
      NodeHashFrame(h, m, m', index, level - 1, 2 * k);
      NodeHashFrame(h, m, m', index, level - 1, 2 * k + 1);
    }
  }

  lemma CombineChildren(h: Hashing, m: map<nat, Digest>, level: nat, below: nat)
    ensures Combine(h, below % 2 == 0, NodeHash(h, m, level, below), NodeHash(h, m, level, Sibling(below)))
            == NodeHash(h, m, level + 1, below / 2)
  {
    var above := below / 2;
    if below % 2 == 0 {
      assert below == 2 * above && Sibling(below) == 2 * above + 1;
    } else {
      assert below == 2 * above + 1 && Sibling(below) == 2 * above;
    }
  }

  lemma PathStep(h: Hashing, nodes: map<NodeKey, Digest>, m: map<nat, Digest>, index: nat, leaf: Digest,
                 level: nat, below: nat)
    requires below == Ancestor(index, level)
    requires PathHash(h, nodes, index, leaf, level) == NodeHash(h, m, level, below)
    requires ReadNode(h, nodes, level, Sibling(below)) == NodeHash(h, m, level, Sibling(below))
    ensures PathHash(h, nodes, index, leaf, level + 1) == NodeHash(h, m, level + 1, below / 2)
  {
    CombineChildren(h, m, level, below);
  }

  lemma SiblingIsRecompute(h: Hashing, depth: nat, nodes: map<NodeKey, Digest>,
                           m: map<nat, Digest>, m': map<nat, Digest>, index: nat, level: nat)
    requires Agrees(h, depth, nodes, m) && SameElsewhere(m, m', index) && level <= depth
    ensures var sibling := Sibling(Ancestor(index, level));
            ReadNode(h, nodes, level, sibling) == NodeHash(h, m', level, sibling)
  {
    var sibling := Sibling(Ancestor(index, level));
    assert ReadNode(h, nodes, level, sibling) == NodeHash(h, m, level, sibling);
    NodeHashFrame(h, m, m', index, level, sibling);
  }

  /** One path is enough: the digests written by an update are those a full recompute would give. */
  lemma {:induction false} PathIsRecompute(h: Hashing, depth: nat, nodes: map<NodeKey, Digest>, m: map<nat, Digest>,
                                           m': map<nat, Digest>, index: nat, leaf: Digest, level: nat)
    requires Agrees(h, depth, nodes, m) && SameElsewhere(m, m', index) && level <= depth
    requires leaf == LeafDigest(h, m', index)
    ensures PathHash(h, nodes, index, leaf, level) == NodeHash(h, m', level, Ancestor(index, level))
  {
    if level > 0 {
      PathIsRecompute(h, depth, nodes, m, m', index, leaf, level - 1);
      SiblingIsRecompute(h, depth, nodes, m, m', index, level - 1);
      PathStep(h, nodes, m', index, leaf, level - 1, Ancestor(index, level - 1));
    }
  }

  /** Whether a digest stored at `level` can be read back. */
  predicate Visible(h: Hashing, level: nat, digest: Digest) {
    digest != 0 || ZeroHash(h, level) == 0
  }

  /** Whether every recomputed digest on the path of `index` can be read back. */
  ghost predicate PathVisible(h: Hashing, depth: nat, leaves: map<nat, Digest>, index: nat) {
    forall level: nat {:trigger Ancestor(index, level)} ::
      level <= depth ==> Visible(h, level, NodeHash(h, leaves, level, Ancestor(index, level)))
  }

  /** An update keeps map and leaves in agreement exactly when none of the digests it stores reads as absent. */
  lemma UpdateAgreesExactly(h: Hashing, depth: nat, nodes: map<NodeKey, Digest>,
                            m: map<nat, Digest>, m': map<nat, Digest>, index: nat)
    requires Agrees(h, depth, nodes, m) && SameElsewhere(m, m', index)
    ensures Agrees(h, depth, WritePath(h, nodes, index, LeafDigest(h, m', index), depth), m')
            <==> PathVisible(h, depth, m', index)
  {
    var leaf := LeafDigest(h, m', index);
    var after := WritePath(h, nodes, index, leaf, depth);
    forall level: nat, k: nat | level <= depth
      ensures k != Ancestor(index, level) ==> ReadNode(h, after, level, k) == NodeHash(h, m', level, k)
      ensures k == Ancestor(index, level) ==>
                (ReadNode(h, after, level, k) == NodeHash(h, m', level, k)
                 <==> Visible(h, level, NodeHash(h, m', level, k)))
    {
      WritePathEntry(h, nodes, index, leaf, depth, level, k);
      if k != Ancestor(index, level) {
        NodeHashFrame(h, m, m', index, level, k);
        assert ReadNode(h, nodes, level, k) == NodeHash(h, m, level, k);
      } else {
        PathIsRecompute(h, depth, nodes, m, m', index, leaf, level);
      }
    }
    if Agrees(h, depth, after, m') {
      forall level: nat | level <= depth
        ensures Visible(h, level, NodeHash(h, m', level, Ancestor(index, level)))
      {
        assert ReadNode(h, after, level, Ancestor(index, level)) == NodeHash(h, m', level, Ancestor(index, level));
      }
    }
    if PathVisible(h, depth, m', index) {
      forall level: nat, k: nat | level <= depth
        ensures ReadNode(h, after, level, k) == NodeHash(h, m', level, k)
      {
        assert Visible(h, level, NodeHash(h, m', level, Ancestor(index, level)));
      }
    }
  }

  lemma {:induction false} EmptyTree(h: Hashing, level: nat, index: nat)
    ensures NodeHash(h, map[], level, index) == ZeroHash(h, level)
  {
    if level > 0 {
      EmptyTree(h, level - 1, 2 * index);
      EmptyTree(h, level - 1, 2 * index + 1);
    }
  }

  lemma EmptyAgrees(h: Hashing, depth: nat)
    ensures Agrees(h, depth, map[], map[])
  {
    forall level: nat, index: nat
      ensures NodeHash(h, map[], level, index) == ZeroHash(h, level)
    {
      EmptyTree(h, level, index);
    }
  }

  lemma {:induction false} AncestorRange(index: nat, depth: nat, level: nat)
    requires index < Pow2(depth) && level <= depth
    ensures Ancestor(index, level) < Pow2(depth - level)
  {
    if level > 0 {
      AncestorRange(index, depth, level - 1);
    }
  }

  // ---- Runs ----

  datatype Op = Insert(index: int, json: string) | Remove(index: int)

  datatype Tree = Tree(leaves: map<nat, Digest>, nodes: map<NodeKey, Digest>, root: Digest, epoch: nat)

  predicate InRange(depth: nat, index: int) {
    0 <= index < Pow2(depth)
  }

  function LeavesOp(hash: Hash, depth: nat, leaves: map<nat, Digest>, op: Op): map<nat, Digest> {
    if !InRange(depth, op.index) then leaves
    else match op
      case Insert(index, json) => leaves[index := hash(json)]
      case Remove(index) => leaves - {index}
  }

  /** `insert` and `remove`; an index out of range throws before anything changes. */
  function StepTree(hash: Hash, depth: nat, t: Tree, op: Op): Tree {
    if !InRange(depth, op.index) then t
    else
      var h := TextHashing(hash);
      var leaf := if op.Insert? then hash(op.json) else h.zero;
      Tree(LeavesOp(hash, depth, t.leaves, op),
           WritePath(h, t.nodes, op.index, leaf, depth),
           PathHash(h, t.nodes, op.index, leaf, depth),
           t.epoch + 1)
  }

  function EmptyState(hash: Hash, depth: nat): Tree {
    Tree(map[], map[], ZeroHash(TextHashing(hash), depth), 0)
  }

  function TreeAfter(hash: Hash, depth: nat, ops: seq<Op>): Tree {
    if ops == [] then EmptyState(hash, depth)
    else StepTree(hash, depth, TreeAfter(hash, depth, ops[..|ops| - 1]), ops[|ops| - 1])
  }

  ghost predicate TreeAgrees(hash: Hash, depth: nat, t: Tree) {
    && Agrees(TextHashing(hash), depth, t.nodes, t.leaves)
    && t.root == NodeHash(TextHashing(hash), t.leaves, depth, 0)
  }

  /**
   * One step, for any hash: the new root is always the recomputed one, and the node map keeps
   * showing the recomputed tree exactly when no digest on the written path reads as absent.
   */
  lemma StepExact(hash: Hash, depth: nat, t: Tree, op: Op)
    requires TreeAgrees(hash, depth, t) && InRange(depth, op.index)
    ensures var h, t' := TextHashing(hash), StepTree(hash, depth, t, op);
            && t'.root == NodeHash(h, t'.leaves, depth, 0)
            && (TreeAgrees(hash, depth, t') <==> PathVisible(h, depth, t'.leaves, op.index))
  {
    var h, t' := TextHashing(hash), StepTree(hash, depth, t, op);
    PathIsRecompute(h, depth, t.nodes, t.leaves, t'.leaves, op.index, LeafDigest(h, t'.leaves, op.index), depth);
    AncestorRange(op.index, depth, depth);
    UpdateAgreesExactly(h, depth, t.nodes, t.leaves, t'.leaves, op.index);
  }

  /** No string hashes to zero. */
  ghost predicate NonZero(hash: Hash) {
    forall s :: hash(s) != 0
  }

  lemma NonZeroIsVisible(hash: Hash, depth: nat, leaves: map<nat, Digest>, index: nat)
    requires NonZero(hash) && (index in leaves ==> leaves[index] != 0)
    ensures PathVisible(TextHashing(hash), depth, leaves, index)
  {
    var h := TextHashing(hash);
    forall level: nat | 0 < level <= depth
      ensures NodeHash(h, leaves, level, Ancestor(index, level)) != 0
    {
      var k := Ancestor(index, level);
      var left, right := NodeHash(h, leaves, level - 1, 2 * k), NodeHash(h, leaves, level - 1, 2 * k + 1);
      assert h.pair(left, right) == hash(Print(left) + Print(right));
    }
  }

  /** Every digest the run stored could be read back when it was stored. */
  ghost predicate VisibleRun(hash: Hash, depth: nat, ops: seq<Op>) {
    ops == []
    || (&& VisibleRun(hash, depth, ops[..|ops| - 1])
        && var index := ops[|ops| - 1].index;
           InRange(depth, index) ==> PathVisible(TextHashing(hash), depth, TreeAfter(hash, depth, ops).leaves, index))
  }

  /** So it is for every run when no string hashes to zero. */
  lemma {:induction false} NonZeroRunIsVisible(hash: Hash, depth: nat, ops: seq<Op>)
    requires NonZero(hash)
    ensures VisibleRun(hash, depth, ops)
  {
    if ops != [] {
      NonZeroRunIsVisible(hash, depth, ops[..|ops| - 1]);
      var op := ops[|ops| - 1];
      if InRange(depth, op.index) {
        NonZeroIsVisible(hash, depth, TreeAfter(hash, depth, ops).leaves, op.index);
      }
    }
  }

  /** After every run, every node read through the sparse map is the recomputed one, and so is the root. */
  lemma {:induction false} RunAgrees(hash: Hash, depth: nat, ops: seq<Op>)
    requires VisibleRun(hash, depth, ops)
    ensures TreeAgrees(hash, depth, TreeAfter(hash, depth, ops))
  {
    if ops == [] {
      EmptyAgrees(TextHashing(hash), depth);
      EmptyTree(TextHashing(hash), depth, 0);
    } else {
      RunAgrees(hash, depth, ops[..|ops| - 1]);
      if InRange(depth, ops[|ops| - 1].index) {
        StepExact(hash, depth, TreeAfter(hash, depth, ops[..|ops| - 1]), ops[|ops| - 1]);
      }
    }
  }

  /** For any hash: map and leaves agree all along a run exactly when the run stored nothing that reads as absent. */
  lemma {:induction false} AgreesThroughoutExactly(hash: Hash, depth: nat, ops: seq<Op>)
    ensures (forall k :: 0 <= k <= |ops| ==> TreeAgrees(hash, depth, TreeAfter(hash, depth, ops[..k])))
            <==> VisibleRun(hash, depth, ops)
  {
    assert ops[..|ops|] == ops;
    if ops == [] {
      RunAgrees(hash, depth, ops);
    } else {
      var before, op := ops[..|ops| - 1], ops[|ops| - 1];
      AgreesThroughoutExactly(hash, depth, before);
      assert forall k :: 0 <= k < |ops| ==> ops[..k] == before[..k];
      assert before[..|before|] == before;
      if VisibleRun(hash, depth, before) && InRange(depth, op.index) {
        RunAgrees(hash, depth, before);
        StepExact(hash, depth, TreeAfter(hash, depth, before), op);
      }
    }
  }

  // ---- Proofs ----

  datatype Proof = Proof(path: seq<Digest>, indices: seq<int>)

  function Siblings(h: Hashing, nodes: map<NodeKey, Digest>, index: nat, levels: nat): (path: seq<Digest>)
    ensures |path| == levels
    ensures forall k :: 0 <= k < levels ==> path[k] == ReadNode(h, nodes, k, Sibling(Ancestor(index, k)))
  {
    if levels == 0 then []
    else Siblings(h, nodes, index, levels - 1)
         + [ReadNode(h, nodes, levels - 1, Sibling(Ancestor(index, levels - 1)))]
  }

  function Directions(index: nat, levels: nat): (indices: seq<int>)
    ensures |indices| == levels
    ensures forall k :: 0 <= k < levels ==> indices[k] == Ancestor(index, k) % 2
  {
    if levels == 0 then [] else Directions(index, levels - 1) + [Ancestor(index, levels - 1) % 2]
  }

  function ProofOf(h: Hashing, depth: nat, nodes: map<NodeKey, Digest>, index: nat): Proof {
    Proof(Siblings(h, nodes, index, depth), Directions(index, depth))
  }

  /** The digest `verify` holds after its first `k` steps; a missing direction counts as non-zero. */
  function Fold(h: Hashing, leaf: Digest, proof: Proof, k: nat): Digest
    requires k <= |proof.path|
  {
    if k == 0 then leaf
    else Combine(h, k - 1 < |proof.indices| && proof.indices[k - 1] == 0,
                 Fold(h, leaf, proof, k - 1), proof.path[k - 1])
  }

  predicate Verifies(hash: Hash, proof: Proof, root: string, json: string) {
    Print(Fold(TextHashing(hash), hash(json), proof, |proof.path|)) == root
  }

  lemma FoldStep(h: Hashing, leaves: map<nat, Digest>, below: nat, leaf: Digest, proof: Proof, k: nat)
    requires k < |proof.path| == |proof.indices|
    requires proof.path[k] == NodeHash(h, leaves, k, Sibling(below)) && proof.indices[k] == below % 2
    requires Fold(h, leaf, proof, k) == NodeHash(h, leaves, k, below)
    ensures Fold(h, leaf, proof, k + 1) == NodeHash(h, leaves, k + 1, below / 2)
  {
    CombineChildren(h, leaves, k, below);
  }

  ghost predicate ProofEntry(h: Hashing, leaves: map<nat, Digest>, index: nat, proof: Proof, k: nat)
    requires k < |proof.path| == |proof.indices|
  {
    && proof.path[k] == NodeHash(h, leaves, k, Sibling(Ancestor(index, k)))
    && proof.indices[k] == Ancestor(index, k) % 2
  }

  /** A proof made of the recomputed siblings of `index` folds, from its leaf, to the recomputed ancestors. */
  lemma {:induction false} ProofFolds(h: Hashing, leaves: map<nat, Digest>, index: nat, leaf: Digest, proof: Proof,
                                      k: nat)
    requires k <= |proof.path| == |proof.indices| && leaf == LeafDigest(h, leaves, index)
    requires forall j {:trigger ProofEntry(h, leaves, index, proof, j)} :: 0 <= j < k ==> ProofEntry(h, leaves, index, proof, j)
    ensures Fold(h, leaf, proof, k) == NodeHash(h, leaves, k, Ancestor(index, k))
  {
    if k > 0 {
      ProofFolds(h, leaves, index, leaf, proof, k - 1);
      assert ProofEntry(h, leaves, index, proof, k - 1);
      FoldStep(h, leaves, Ancestor(index, k - 1), leaf, proof, k - 1);
    }
  }

  lemma OwnProofFolds(h: Hashing, depth: nat, nodes: map<NodeKey, Digest>, leaves: map<nat, Digest>,
                      index: nat, leaf: Digest)
    requires Agrees(h, depth, nodes, leaves) && index < Pow2(depth) && leaf == LeafDigest(h, leaves, index)
    ensures Fold(h, leaf, ProofOf(h, depth, nodes, index), depth) == NodeHash(h, leaves, depth, 0)
  {
    var proof := ProofOf(h, depth, nodes, index);
    forall j | 0 <= j < depth
      ensures ProofEntry(h, leaves, index, proof, j)
    {
      assert ReadNode(h, nodes, j, Sibling(Ancestor(index, j))) == NodeHash(h, leaves, j, Sibling(Ancestor(index, j)));
    }
    ProofFolds(h, leaves, index, leaf, proof, depth);
    AncestorRange(index, depth, depth);
  }

  lemma {:induction false} LatestOpDecidesLeaf(hash: Hash, depth: nat, ops: seq<Op>, at: nat)
    requires at < |ops| && InRange(depth, ops[at].index)
    requires forall k :: at < k < |ops| ==> ops[k].index != ops[at].index
    ensures var leaves := TreeAfter(hash, depth, ops).leaves;
            match ops[at]
            case Insert(index, json) => index in leaves && leaves[index] == hash(json)
            case Remove(index) => index !in leaves
  {
    if at < |ops| - 1 {
      LatestOpDecidesLeaf(hash, depth, ops[..|ops| - 1], at);
    }
  }

  /**
   * Completeness: the proof handed out for an index verifies against the current root for the value of
   * the latest insert there, whatever happened at other indices before or after.
   */
  lemma Completeness(hash: Hash, depth: nat, ops: seq<Op>, at: nat)
    requires VisibleRun(hash, depth, ops)
    requires at < |ops| && ops[at].Insert? && InRange(depth, ops[at].index)
    requires forall k :: at < k < |ops| ==> ops[k].index != ops[at].index
    ensures var t := TreeAfter(hash, depth, ops);
            Verifies(hash, ProofOf(TextHashing(hash), depth, t.nodes, ops[at].index), Print(t.root), ops[at].json)
  {
    var h, t, index := TextHashing(hash), TreeAfter(hash, depth, ops), ops[at].index;
    RunAgrees(hash, depth, ops);
    LatestOpDecidesLeaf(hash, depth, ops, at);
    OwnProofFolds(h, depth, t.nodes, t.leaves, index, hash(ops[at].json));
  }

  /** The index at `level` that the directions of a proof spell, read from the root down. */
  function Spelled(indices: seq<int>, level: nat): nat
    requires level <= |indices| && forall k :: 0 <= k < |indices| ==> indices[k] == 0 || indices[k] == 1
    decreases |indices| - level
  {
    if level == |indices| then 0 else 2 * Spelled(indices, level + 1) + indices[level]
  }

  datatype Pair = Pair(left: Digest, right: Digest)

  predicate Collides(h: Hashing, a: Pair, b: Pair) {
    a != b && h.pair(a.left, a.right) == h.pair(b.left, b.right)
  }

  /** The arguments a proof and the tree give to the pair hash for the node above `level`. */
  function ProofPair(h: Hashing, leaf: Digest, proof: Proof, level: nat): Pair
    requires level < |proof.path| == |proof.indices|
  {
    var current := Fold(h, leaf, proof, level);
    if proof.indices[level] == 0 then Pair(current, proof.path[level]) else Pair(proof.path[level], current)
  }

  function TreePair(h: Hashing, leaves: map<nat, Digest>, level: nat, index: nat): Pair {
    Pair(NodeHash(h, leaves, level, 2 * index), NodeHash(h, leaves, level, 2 * index + 1))
  }

  ghost predicate CollisionFound(h: Hashing, leaves: map<nat, Digest>, leaf: Digest, proof: Proof)
    requires |proof.path| == |proof.indices|
    requires forall k :: 0 <= k < |proof.indices| ==> proof.indices[k] == 0 || proof.indices[k] == 1
  {
    exists level: nat :: level < |proof.path|
      && Collides(h, ProofPair(h, leaf, proof, level), TreePair(h, leaves, level, Spelled(proof.indices, level + 1)))
  }

  lemma {:induction false} BindingFrom(h: Hashing, leaves: map<nat, Digest>, leaf: Digest, proof: Proof, level: nat)
    requires level <= |proof.path| == |proof.indices|
    requires forall k :: 0 <= k < |proof.indices| ==> proof.indices[k] == 0 || proof.indices[k] == 1
    requires Fold(h, leaf, proof, level) == NodeHash(h, leaves, level, Spelled(proof.indices, level))
    ensures leaf == LeafDigest(h, leaves, Spelled(proof.indices, 0)) || CollisionFound(h, leaves, leaf, proof)
  {
    if level > 0 {
      var a := ProofPair(h, leaf, proof, level - 1);
      var b := TreePair(h, leaves, level - 1, Spelled(proof.indices, level));
      assert h.pair(a.left, a.right) == h.pair(b.left, b.right);
      if a != b {
        assert Collides(h, a, b);
      } else {
        BindingFrom(h, leaves, leaf, proof, level - 1);
      }
    }
  }

  /**
   * Binding: a full-length proof that verifies against the root of a reachable tree is about the leaf its
   * directions spell, or it exhibits two distinct argument pairs with the same pair hash.
   */
  lemma Binding(hash: Hash, depth: nat, ops: seq<Op>, proof: Proof, json: string)
    requires VisibleRun(hash, depth, ops)
    requires |proof.path| == |proof.indices| == depth
    requires forall k :: 0 <= k < depth ==> proof.indices[k] == 0 || proof.indices[k] == 1
    requires Verifies(hash, proof, Print(TreeAfter(hash, depth, ops).root), json)
    ensures var h, leaves := TextHashing(hash), TreeAfter(hash, depth, ops).leaves;
            || hash(json) == LeafDigest(h, leaves, Spelled(proof.indices, 0))
            || CollisionFound(h, leaves, hash(json), proof)
  {
    var h, t := TextHashing(hash), TreeAfter(hash, depth, ops);
    RunAgrees(hash, depth, ops);
    PrintInjective(Fold(h, hash(json), proof, depth), t.root);
    BindingFrom(h, t.leaves, hash(json), proof, depth);
  }

  /** The proofs handed out spell their own index. */
  lemma {:induction false} OwnProofSpells(h: Hashing, depth: nat, nodes: map<NodeKey, Digest>, index: nat, level: nat)
    requires index < Pow2(depth) && level <= depth
    ensures Spelled(ProofOf(h, depth, nodes, index).indices, level) == Ancestor(index, level)
    decreases depth - level
  {
    if level < depth {
      OwnProofSpells(h, depth, nodes, index, level + 1);
    } else {
      AncestorRange(index, depth, depth);
    }
  }

  /**
   * A value verifies with the proof handed out for an index only if its digest is the leaf there, or the pair
   * hash has a collision on the path.
   */
  lemma OwnProofIsAboutIndex(hash: Hash, depth: nat, ops: seq<Op>, index: nat, json: string)
    requires VisibleRun(hash, depth, ops) && index < Pow2(depth)
    requires var t := TreeAfter(hash, depth, ops);
             Verifies(hash, ProofOf(TextHashing(hash), depth, t.nodes, index), Print(t.root), json)
    ensures var h, t := TextHashing(hash), TreeAfter(hash, depth, ops);
            || hash(json) == LeafDigest(h, t.leaves, index)
            || CollisionFound(h, t.leaves, hash(json), ProofOf(h, depth, t.nodes, index))
  {
    var h, t := TextHashing(hash), TreeAfter(hash, depth, ops);
    Binding(hash, depth, ops, ProofOf(h, depth, t.nodes, index), json);
    OwnProofSpells(h, depth, t.nodes, index, 0);
  }

  // ---- History independence ----

  /** Runs that end in the same leaves give the same root and the same proof for every index. */
  lemma HistoryIndependence(hash: Hash, depth: nat, ops: seq<Op>, ops': seq<Op>)
    requires VisibleRun(hash, depth, ops) && VisibleRun(hash, depth, ops')
    requires TreeAfter(hash, depth, ops).leaves == TreeAfter(hash, depth, ops').leaves
    ensures TreeAfter(hash, depth, ops).root == TreeAfter(hash, depth, ops').root
    ensures forall index: nat :: ProofOf(TextHashing(hash), depth, TreeAfter(hash, depth, ops).nodes, index)
                              == ProofOf(TextHashing(hash), depth, TreeAfter(hash, depth, ops').nodes, index)
  {
    var h, t, t' := TextHashing(hash), TreeAfter(hash, depth, ops), TreeAfter(hash, depth, ops');
    RunAgrees(hash, depth, ops);
    RunAgrees(hash, depth, ops');
    forall index: nat
      ensures ProofOf(h, depth, t.nodes, index) == ProofOf(h, depth, t'.nodes, index)
    {
      forall level: nat | level < depth
        ensures ProofOf(h, depth, t.nodes, index).path[level] == ProofOf(h, depth, t'.nodes, index).path[level]
      {
        var k := Sibling(Ancestor(index, level));
        assert ReadNode(h, t.nodes, level, k) == NodeHash(h, t.leaves, level, k);
        assert ReadNode(h, t'.nodes, level, k) == NodeHash(h, t.leaves, level, k);
      }
    }
  }

  lemma AppendOne(hash: Hash, depth: nat, ops: seq<Op>, a: Op)
    ensures TreeAfter(hash, depth, ops + [a]).leaves == LeavesOp(hash, depth, TreeAfter(hash, depth, ops).leaves, a)
  {
    assert (ops + [a])[..|ops|] == ops;
  }

  lemma AppendTwo(hash: Hash, depth: nat, ops: seq<Op>, a: Op, b: Op)
    ensures TreeAfter(hash, depth, ops + [a, b]).leaves
            == LeavesOp(hash, depth, LeavesOp(hash, depth, TreeAfter(hash, depth, ops).leaves, a), b)
  {
    var once, twice := ops + [a], ops + [a, b];
    assert twice == once + [b];
    calc {
      TreeAfter(hash, depth, twice).leaves;
      { AppendOne(hash, depth, once, b); }
      LeavesOp(hash, depth, TreeAfter(hash, depth, once).leaves, b);
      { AppendOne(hash, depth, ops, a); }
      LeavesOp(hash, depth, LeavesOp(hash, depth, TreeAfter(hash, depth, ops).leaves, a), b);
    }
  }

  lemma PrefixIsVisible(hash: Hash, depth: nat, ops: seq<Op>, a: Op, b: Op)
    requires VisibleRun(hash, depth, ops + [a, b])
    ensures VisibleRun(hash, depth, ops)
  {
    var once, twice := ops + [a], ops + [a, b];
    assert twice[..|twice| - 1] == once && once[..|once| - 1] == ops;
  }

  /** Inserts at distinct indices commute. */
  lemma InsertsCommute(hash: Hash, depth: nat, ops: seq<Op>, i: int, v: string, j: int, w: string)
    requires i != j
    requires VisibleRun(hash, depth, ops + [Insert(i, v), Insert(j, w)])
    requires VisibleRun(hash, depth, ops + [Insert(j, w), Insert(i, v)])
    ensures TreeAfter(hash, depth, ops + [Insert(i, v), Insert(j, w)]).root
            == TreeAfter(hash, depth, ops + [Insert(j, w), Insert(i, v)]).root
  {
    AppendTwo(hash, depth, ops, Insert(i, v), Insert(j, w));
    AppendTwo(hash, depth, ops, Insert(j, w), Insert(i, v));
    HistoryIndependence(hash, depth, ops + [Insert(i, v), Insert(j, w)], ops + [Insert(j, w), Insert(i, v)]);
  }

  /** Removing a freshly inserted index restores the root. */
  lemma RemoveUndoesInsert(hash: Hash, depth: nat, ops: seq<Op>, i: nat, v: string)
    requires VisibleRun(hash, depth, ops + [Insert(i, v), Remove(i)]) && i !in TreeAfter(hash, depth, ops).leaves
    ensures TreeAfter(hash, depth, ops + [Insert(i, v), Remove(i)]).root == TreeAfter(hash, depth, ops).root
  {
    AppendTwo(hash, depth, ops, Insert(i, v), Remove(i));
    PrefixIsVisible(hash, depth, ops, Insert(i, v), Remove(i));
    HistoryIndependence(hash, depth, ops + [Insert(i, v), Remove(i)], ops);
  }

  lemma TwoSteps(hash: Hash, a: Op, b: Op)
    ensures TreeAfter(hash, 1, [a, b]) == StepTree(hash, 1, StepTree(hash, 1, EmptyState(hash, 1), a), b)
  {
    assert [a, b][..1] == [a] && [a][..0] == [];
    assert TreeAfter(hash, 1, [a]) == StepTree(hash, 1, EmptyState(hash, 1), a);
  }

  function SkewedHash(): Hash {
    s => if s == "a" then 0 else if s == "02" then 7 else |s| + 1
  }

  lemma SkewedPairs()
    ensures var hash := SkewedHash();
            && hash("a") == 0 && hash("b") == 2 && TextHashing(hash).zero == 2
            && TextHashing(hash).pair(0, 2) == 7 && TextHashing(hash).pair(2, 2) == 3
  {
    assert Print(0) + Print(2) == "02";
    assert Print(2) + Print(2) == "22" && "22"[0] != "02"[0] && "0" != "a" && "b" != "a";
  }

  lemma SkewedRoots(h: Hashing)
    requires h.zero == 2 && h.pair(0, 2) == 7 && h.pair(2, 2) == 3
    ensures PathHash(h, WritePath(h, map[], 0, 0, 1), 1, 2, 1) == 3
    ensures PathHash(h, WritePath(h, map[], 1, 2, 1), 0, 0, 1) == 7
  {
    WritePathEntry(h, map[], 0, 0, 1, 0, 0);
    WritePathEntry(h, map[], 1, 2, 1, 0, 1);
  }

  /**
   * Why digests must be readable: under a hypothetical hash with a zero digest, two insertions in the two orders give
   * two roots.
   */
  lemma ZeroDigestBreaksHistoryIndependence()
    ensures var hash, ab, ba := SkewedHash(), [Insert(0, "a"), Insert(1, "b")], [Insert(1, "b"), Insert(0, "a")];
            && TreeAfter(hash, 1, ab).leaves == TreeAfter(hash, 1, ba).leaves
            && TreeAfter(hash, 1, ab).root == 3 && TreeAfter(hash, 1, ba).root == 7
  {
    var hash := SkewedHash();
    SkewedPairs();
    SkewedRoots(TextHashing(hash));
    var a, b := Insert(0, "a"), Insert(1, "b");
    AppendTwo(hash, 1, [], a, b);
    AppendTwo(hash, 1, [], b, a);
    assert [] + [a, b] == [a, b] && [] + [b, a] == [b, a];
    TwoSteps(hash, a, b);
    TwoSteps(hash, b, a);
  }

  // ---- The class ----

  class MerkleTree {
    const depth: nat
    const hash: Hash
    var root: Digest
    var epoch: nat
    var leaves: map<nat, Digest>
    var nodes: map<NodeKey, Digest>
    var zeroHashes: seq<Digest>

    predicate Valid()
      reads this
    {
      |zeroHashes| == depth + 1 &&
      forall level :: 0 <= level <= depth ==> zeroHashes[level] == ZeroHash(TextHashing(hash), level)
    }

    function State(): Tree
      reads this
    {
      Tree(leaves, nodes, root, epoch)
    }

    constructor (depth: nat, hash: Hash)
      ensures Valid() && this.depth == depth && this.hash == hash
      ensures State() == EmptyState(hash, depth)
    {
      this.depth, this.hash := depth, hash;
      epoch, leaves, nodes := 0, map[], map[];
      var zeros := ComputeZeroHashes(hash, depth);
      zeroHashes := zeros;
      root := zeros[depth];
    }

    static method ComputeZeroHashes(hash: Hash, depth: nat) returns (zeros: seq<Digest>)
      ensures |zeros| == depth + 1
      ensures forall level :: 0 <= level <= depth ==> zeros[level] == ZeroHash(TextHashing(hash), level)
    {
      var current := hash("0");
      zeros := [current];
      for i := 1 to depth + 1
        invariant |zeros| == i && current == zeros[i - 1]
        invariant forall level :: 0 <= level < i ==> zeros[level] == ZeroHash(TextHashing(hash), level)
      {
        current := HashPair(hash, current, current);
        zeros := zeros + [current];
      }
    }

    /** `_hashPair` */
    static function HashPair(hash: Hash, left: Digest, right: Digest): Digest {
      hash(Print(left) + Print(right))
    }

    function GetNode(level: nat, index: nat): Digest
      requires Valid() && level <= depth
      reads this
    {
      if (level, index) in nodes && nodes[(level, index)] != 0 then nodes[(level, index)] else zeroHashes[level]
    }

    method Insert(index: int, json: string) returns (ok: bool)
      requires Valid()
      modifies this
      ensures Valid() && ok == InRange(depth, index)
      ensures State() == StepTree(hash, depth, old(State()), Op.Insert(index, json))
    {
      if !InRange(depth, index) {
        return false;
      }
      var leafHash := hash(json);
      leaves := leaves[index := leafHash];
      UpdatePath(index, leafHash);
      epoch := epoch + 1;
      return true;
    }

    method Remove(index: int) returns (ok: bool)
      requires Valid()
      modifies this
      ensures Valid() && ok == InRange(depth, index)
      ensures State() == StepTree(hash, depth, old(State()), Op.Remove(index))
    {
      if !InRange(depth, index) {
        return false;
      }
      leaves := leaves - {index};
      UpdatePath(index, zeroHashes[0]);
      epoch := epoch + 1;
      return true;
    }

    method UpdatePath(index: nat, leafHash: Digest)
      requires Valid()
      modifies this`nodes, this`root
      ensures nodes == WritePath(TextHashing(hash), old(nodes), index, leafHash, depth)
      ensures root == PathHash(TextHashing(hash), old(nodes), index, leafHash, depth)
    {
      ghost var h := TextHashing(hash);
      var currentHash, currentIndex := leafHash, index;
      nodes := nodes[(0, currentIndex) := currentHash];
      for level := 0 to depth
        invariant currentIndex == Ancestor(index, level)
        invariant currentHash == PathHash(h, old(nodes), index, leafHash, level)
        invariant nodes == WritePath(h, old(nodes), index, leafHash, level)
      {
        var siblingIndex := if currentIndex % 2 == 0 then currentIndex + 1 else currentIndex - 1;
        WritePathEntry(h, old(nodes), index, leafHash, level, level, siblingIndex);
        var sibling := GetNode(level, siblingIndex);
        if currentIndex % 2 == 0 {
          currentHash := HashPair(hash, currentHash, sibling);
        } else {
          currentHash := HashPair(hash, sibling, currentHash);
        }
        currentIndex := currentIndex / 2;
        nodes := nodes[(level + 1, currentIndex) := currentHash];
      }
      root := currentHash;
    }

    method GetProof(index: int) returns (proof: Option<Proof>)
      requires Valid()
      ensures proof == if InRange(depth, index) then Some(ProofOf(TextHashing(hash), depth, nodes, index)) else None
    {
      if !InRange(depth, index) {
        return None;
      }
      var path: seq<Digest>, indices: seq<int> := [], [];
      var currentIndex: nat := index;
      for level := 0 to depth
        invariant currentIndex == Ancestor(index, level)
        invariant path == Siblings(TextHashing(hash), nodes, index, level) && indices == Directions(index, level)
      {
        var siblingIndex := if currentIndex % 2 == 0 then currentIndex + 1 else currentIndex - 1;
        var sibling := GetNode(level, siblingIndex);
        path := path + [sibling];
        indices := indices + [currentIndex % 2];
        currentIndex := currentIndex / 2;
      }
      return Some(Proof(path, indices));
    }

    method Verify(proof: Proof, root: string, index: int, json: string) returns (valid: bool)
      ensures valid == Verifies(hash, proof, root, json)
    {
      var currentHash := hash(json);
      for i := 0 to |proof.path|
        invariant currentHash == Fold(TextHashing(hash), hash(json), proof, i)
      {
        var sibling := proof.path[i];
        if i < |proof.indices| && proof.indices[i] == 0 {
          currentHash := HashPair(hash, currentHash, sibling);
        } else {
          currentHash := HashPair(hash, sibling, currentHash);
        }
      }
      return Print(currentHash) == root;
    }

    method GetRoot() returns (text: string)
      ensures text == Print(State().root)
    {
      return Print(root);
    }
  }

  /** The class refines the runs above. */
  method Replay(hash: Hash, depth: nat, ops: seq<Op>) returns (tree: MerkleTree)
    ensures fresh(tree) && tree.Valid() && tree.hash == hash && tree.depth == depth
    ensures tree.State() == TreeAfter(hash, depth, ops)
  {
    tree := new MerkleTree(depth, hash);
    for i := 0 to |ops|
      invariant fresh(tree) && tree.Valid() && tree.hash == hash && tree.depth == depth
      invariant tree.State() == TreeAfter(hash, depth, ops[..i])
    {
      assert ops[..i + 1][..i] == ops[..i];
      match ops[i]
      case Insert(index, json) => var _ := tree.Insert(index, json);
      case Remove(index) => var _ := tree.Remove(index);
    }
    assert ops[..|ops|] == ops;
  }
}
