/**
 * Binary Merkle trees whose odd trailing node is promoted, not duplicated (src/block.js:13-24,
 * src/proof.js:103-142, src/stateproof.js:69-135). `pair` stands for hashing two concatenated nodes.
 */
module Merkle {
  import opened Common
  import opened Types

  type Digest = Hash
  type Pair = (Digest, Digest) -> Digest

  /** One step of a proof: the sibling, and whether it stands on the right. */
  datatype Step = Step(onRight: bool, sibling: Digest)

  /** The level above: pairs hashed, an odd last node promoted unchanged. */
  function Up(pair: Pair, level: seq<Digest>): (above: seq<Digest>)
    ensures |above| == (|level| + 1) / 2
    ensures forall j :: 0 <= j < |above| ==>
              above[j] == if 2 * j + 1 < |level| then pair(level[2 * j], level[2 * j + 1]) else level[2 * j]
  {
    if |level| <= 1 then level else [pair(level[0], level[1])] + Up(pair, level[2..])
  }

  function Root(pair: Pair, level: seq<Digest>): Digest
    requires level != []
    decreases |level|
  {
    if |level| == 1 then level[0] else Root(pair, Up(pair, level))
  }

  lemma {:induction false} UpJoins(pair: Pair, a: seq<Digest>, b: seq<Digest>)
    requires |a| % 2 == 0
    ensures Up(pair, a + b) == Up(pair, a) + Up(pair, b)
  {
    if a == [] {
      assert a + b == b;
    } else {
      assert (a + b)[2..] == a[2..] + b;
      UpJoins(pair, a[2..], b);
    }
  }

  /** The root is the left part's and the right part's, in that order, wherever the left part is a full tree. */
  lemma {:induction false} RootSplits(pair: Pair, a: seq<Digest>, b: seq<Digest>, k: nat)
    requires |a| == Pow2(k) && 0 < |b| <= |a|
    ensures Root(pair, a + b) == pair(Root(pair, a), Root(pair, b))
    decreases k
  {
    if k == 0 {
      assert a + b == [a[0], b[0]] && Up(pair, a + b) == [pair(a[0], b[0])];
    } else {
      UpJoins(pair, a, b);
      RootSplits(pair, Up(pair, a), Up(pair, b), k - 1);
      if |b| == 1 { assert Up(pair, b) == b; }
    }
  }

  /** What one level contributes to a proof: the sibling, or nothing where the node is promoted. */
  function StepAt(level: seq<Digest>, pos: nat): seq<Step>
    requires pos < |level|
  {
    if pos % 2 == 1 then [Step(false, level[pos - 1])]
    else if pos + 1 < |level| then [Step(true, level[pos + 1])]
    else []
  }

  /** The proof of a position, from the bottom up. */
  function Path(pair: Pair, level: seq<Digest>, pos: nat): seq<Step>
    requires pos < |level|
    decreases |level|
  {
    if |level| == 1 then [] else StepAt(level, pos) + Path(pair, Up(pair, level), pos / 2)
  }

  function Climb(pair: Pair, node: Digest, path: seq<Step>): Digest {
    if path == [] then node
    else
      var below := Climb(pair, node, path[..|path| - 1]);
      var top := path[|path| - 1];
      if top.onRight then pair(below, top.sibling) else pair(top.sibling, below)
  }

  lemma {:induction false} ClimbAppend(pair: Pair, node: Digest, a: seq<Step>, b: seq<Step>)
    ensures Climb(pair, node, a + b) == Climb(pair, Climb(pair, node, a), b)
    decreases |b|
  {
    if b == [] {
      assert a + b == a;
    } else {
      assert (a + b)[..|a + b| - 1] == a + b[..|b| - 1];
      ClimbAppend(pair, node, a, b[..|b| - 1]);
    }
  }

  lemma ClimbOne(pair: Pair, node: Digest, step: Step)
    ensures Climb(pair, node, []) == node
    ensures Climb(pair, node, [step]) == if step.onRight then pair(node, step.sibling) else pair(step.sibling, node)
  {
    assert [step][..0] == [];
  }

  lemma {:induction false} StepClimbs(pair: Pair, level: seq<Digest>, pos: nat)
    requires pos < |level|
    ensures Climb(pair, level[pos], StepAt(level, pos)) == Up(pair, level)[pos / 2]
  {
    hide Climb, Up;
    var above := Up(pair, level);
    if pos % 2 == 1 {
      ClimbOne(pair, level[pos], Step(false, level[pos - 1]));
      assert above[pos / 2] == pair(level[pos - 1], level[pos]);
    } else if pos + 1 < |level| {
      ClimbOne(pair, level[pos], Step(true, level[pos + 1]));
      assert above[pos / 2] == pair(level[pos], level[pos + 1]);
    } else {
      ClimbOne(pair, level[pos], Step(true, level[pos]));
      assert above[pos / 2] == level[pos];
    }
  }

  /** Complete for every leaf count and every index. */
  lemma {:induction false} ProofsVerify(pair: Pair, level: seq<Digest>, pos: nat)
    requires pos < |level|
    ensures Climb(pair, level[pos], Path(pair, level, pos)) == Root(pair, level)
    decreases |level|
  {
    if |level| > 1 {
      StepClimbs(pair, level, pos);
      ProofsVerify(pair, Up(pair, level), pos / 2);
      ClimbAppend(pair, level[pos], StepAt(level, pos), Path(pair, Up(pair, level), pos / 2));
    }
  }

  // ------------------------------------------------------------- soundness, by the tree behind the root

  datatype Tree = Leaf(d: Digest) | Node(left: Tree, right: Tree)

  function Eval(pair: Pair, t: Tree): Digest {
    match t
    case Leaf(d) => d
    case Node(l, r) => pair(Eval(pair, l), Eval(pair, r))
  }

  function Evals(pair: Pair, ts: seq<Tree>): (ds: seq<Digest>)
    ensures |ds| == |ts| && forall i :: 0 <= i < |ts| ==> ds[i] == Eval(pair, ts[i])
  {
    seq(|ts|, i requires 0 <= i < |ts| => Eval(pair, ts[i]))
  }

  function UpTrees(ts: seq<Tree>): (above: seq<Tree>)
    ensures |above| == (|ts| + 1) / 2
    ensures forall j :: 0 <= j < |above| ==>
              above[j] == if 2 * j + 1 < |ts| then Node(ts[2 * j], ts[2 * j + 1]) else ts[2 * j]
  {
    if |ts| <= 1 then ts else [Node(ts[0], ts[1])] + UpTrees(ts[2..])
  }

  function Build(ts: seq<Tree>): Tree
    requires ts != []
    decreases |ts|
  {
    if |ts| == 1 then ts[0] else Build(UpTrees(ts))
  }

  function Leaves(ds: seq<Digest>): (ts: seq<Tree>)
    ensures |ts| == |ds| && forall i :: 0 <= i < |ds| ==> ts[i] == Leaf(ds[i])
  {
    seq(|ds|, i requires 0 <= i < |ds| => Leaf(ds[i]))
  }

  function Flatten(t: Tree): seq<Digest> {
    match t
    case Leaf(d) => [d]
    case Node(l, r) => Flatten(l) + Flatten(r)
  }

  function FlattenAll(ts: seq<Tree>): seq<Digest> {
    if ts == [] then [] else Flatten(ts[0]) + FlattenAll(ts[1..])
  }

  lemma {:induction false} EvalsUp(pair: Pair, ts: seq<Tree>)
    ensures Evals(pair, UpTrees(ts)) == Up(pair, Evals(pair, ts))
  {
  }

  lemma {:induction false} EvalBuild(pair: Pair, ts: seq<Tree>)
    requires ts != []
    ensures Eval(pair, Build(ts)) == Root(pair, Evals(pair, ts))
    decreases |ts|
  {
    if |ts| > 1 {
      EvalsUp(pair, ts);
      EvalBuild(pair, UpTrees(ts));
    }
  }

  lemma {:induction false} FlattenUp(ts: seq<Tree>)
    ensures FlattenAll(UpTrees(ts)) == FlattenAll(ts)
    decreases |ts|
  {
    if |ts| > 1 {
      FlattenUp(ts[2..]);
      assert UpTrees(ts)[1..] == UpTrees(ts[2..]);
      assert ts[1..][1..] == ts[2..];
    }
  }

  lemma {:induction false} FlattenBuild(ts: seq<Tree>)
    requires ts != []
    ensures Flatten(Build(ts)) == FlattenAll(ts)
    decreases |ts|
  {
    if |ts| > 1 {
      FlattenUp(ts);
      FlattenBuild(UpTrees(ts));
    } else {
      assert ts[1..] == [];
    }
  }

  lemma {:induction false} FlattenLeaves(ds: seq<Digest>)
    ensures FlattenAll(Leaves(ds)) == ds
    decreases |ds|
  {
    if ds != [] {
      assert Leaves(ds)[1..] == Leaves(ds[1..]);
      FlattenLeaves(ds[1..]);
    }
  }

  /** No two pairs hash alike. */
  ghost predicate Injective(pair: Pair) {
    forall a, b, c, d :: pair(a, b) == pair(c, d) ==> a == c && b == d
  }

  /** A digest that is not the hash of a pair. */
  ghost predicate IsLeaf(pair: Pair, d: Digest) { forall a, b :: pair(a, b) != d }

  ghost predicate AllLeaves(pair: Pair, t: Tree) {
    match t
    case Leaf(d) => IsLeaf(pair, d)
    case Node(l, r) => AllLeaves(pair, l) && AllLeaves(pair, r)
  }

  lemma {:induction false} BuildAllLeaves(pair: Pair, ts: seq<Tree>)
    requires ts != [] && forall i :: 0 <= i < |ts| ==> AllLeaves(pair, ts[i])
    ensures AllLeaves(pair, Build(ts))
    decreases |ts|
  {
    if |ts| > 1 { BuildAllLeaves(pair, UpTrees(ts)); }
  }

  lemma {:induction false} EvalInjective(pair: Pair, a: Tree, b: Tree)
    requires Injective(pair) && AllLeaves(pair, a) && AllLeaves(pair, b) && Eval(pair, a) == Eval(pair, b)
    ensures a == b
  {
    if a.Node? && b.Node? {
      EvalInjective(pair, a.left, b.left);
      EvalInjective(pair, a.right, b.right);
    }
  }

  /** A root commits to the whole list, its length included: no list has a look-alike, of any size. */
  lemma {:induction false} RootCommits(pair: Pair, a: seq<Digest>, b: seq<Digest>)
    requires Injective(pair) && a != [] && b != []
    requires (forall d <- a :: IsLeaf(pair, d)) && (forall d <- b :: IsLeaf(pair, d))
    requires Root(pair, a) == Root(pair, b)
    ensures a == b
  {
    hide IsLeaf;
    EvalBuild(pair, Leaves(a));
    EvalBuild(pair, Leaves(b));
    assert Evals(pair, Leaves(a)) == a && Evals(pair, Leaves(b)) == b;
    BuildAllLeaves(pair, Leaves(a));
    BuildAllLeaves(pair, Leaves(b));
    EvalInjective(pair, Build(Leaves(a)), Build(Leaves(b)));
    FlattenBuild(Leaves(a));
    FlattenBuild(Leaves(b));
    FlattenLeaves(a);
    FlattenLeaves(b);
  }

  /** `path` leads from a leaf `d` of `t` to its top. */
  predicate Located(pair: Pair, t: Tree, d: Digest, path: seq<Step>) {
    match t
    case Leaf(x) => x == d && path == []
    case Node(l, r) =>
      path != [] &&
      var top, below := path[|path| - 1], path[..|path| - 1];
      if top.onRight then top.sibling == Eval(pair, r) && Located(pair, l, d, below)
      else top.sibling == Eval(pair, l) && Located(pair, r, d, below)
  }

  lemma {:induction false} ClimbersAreLocated(pair: Pair, t: Tree, d: Digest, path: seq<Step>)
    requires Injective(pair) && AllLeaves(pair, t) && IsLeaf(pair, d)
    requires Climb(pair, d, path) == Eval(pair, t)
    ensures Located(pair, t, d, path)
  {
    if path != [] && t.Node? {
      var top, below := path[|path| - 1], path[..|path| - 1];
      if top.onRight {
        ClimbersAreLocated(pair, t.left, d, below);
      } else {
        ClimbersAreLocated(pair, t.right, d, below);
      }
    }
  }

  /** A leaf located under a node of the level above is located under one of the nodes it was made of. */
  lemma {:induction false} LocatedBelow(pair: Pair, ts: seq<Tree>, k: nat, d: Digest, upper: seq<Step>)
    returns (j: nat, below: seq<Step>)
    requires k < |UpTrees(ts)| && Located(pair, UpTrees(ts)[k], d, upper)
    ensures j < |ts| && j / 2 == k && Located(pair, ts[j], d, below)
    ensures upper == below + StepAt(Evals(pair, ts), j)
  {
    if 2 * k + 1 < |ts| {
      var top := upper[|upper| - 1];
      below := upper[..|upper| - 1];
      j := if top.onRight then 2 * k else 2 * k + 1;
      assert StepAt(Evals(pair, ts), j) == [top];
    } else {
      j, below := 2 * k, upper;
    }
  }

  /** A located leaf of the built tree sits under some node of the level, and the rest of its path is that node's. */
  lemma {:induction false} LocatedUnder(pair: Pair, ts: seq<Tree>, d: Digest, path: seq<Step>)
    returns (j: nat, below: seq<Step>)
    requires ts != [] && Located(pair, Build(ts), d, path)
    ensures j < |ts| && Located(pair, ts[j], d, below)
    ensures path == below + Path(pair, Evals(pair, ts), j)
    decreases |ts|
  {
    hide StepAt, Located, Up, UpTrees;
    if |ts| == 1 {
      j, below := 0, path;
      assert path == below + [];
    } else {
      var k, upper := LocatedUnder(pair, UpTrees(ts), d, path);
      EvalsUp(pair, ts);
      j, below := LocatedBelow(pair, ts, k, d, upper);
      var rest := Path(pair, Up(pair, Evals(pair, ts)), k);
      assert upper + rest == below + (StepAt(Evals(pair, ts), j) + rest);
    }
  }

  /** What verifies is exactly what was issued: a leaf of the list, with the very path of its position. */
  lemma {:induction false} OnlyIssuedProofsVerify(pair: Pair, leaves: seq<Digest>, d: Digest, path: seq<Step>)
    requires Injective(pair) && leaves != [] && IsLeaf(pair, d) && forall x <- leaves :: IsLeaf(pair, x)
    ensures Climb(pair, d, path) == Root(pair, leaves) <==>
            exists j :: 0 <= j < |leaves| && leaves[j] == d && path == Path(pair, leaves, j)
  {
    var ts := Leaves(leaves);
    assert Evals(pair, ts) == leaves;
    EvalBuild(pair, ts);
    BuildAllLeaves(pair, ts);
    if Climb(pair, d, path) == Root(pair, leaves) {
      ClimbersAreLocated(pair, Build(ts), d, path);
      var j, below := LocatedUnder(pair, ts, d, path);
      assert leaves[j] == d && path == Path(pair, leaves, j);
    }
    if j :| 0 <= j < |leaves| && leaves[j] == d && path == Path(pair, leaves, j) {
      ProofsVerify(pair, leaves, j);
    }
  }

  // ------------------------------------------------------------- the loops

  /** Below `i`, the level above holds one node for each pair. */
  lemma {:induction false} UpPrefix(pair: Pair, level: seq<Digest>, next: seq<Digest>, i: nat)
    requires i % 2 == 0 && i < |level| && next == Up(pair, level)[..i / 2]
    ensures next + [if i + 1 < |level| then pair(level[i], level[i + 1]) else level[i]] == Up(pair, level)[..i / 2 + 1]
  {
    hide Up;
    var above, k := Up(pair, level), i / 2;
    assert 2 * k == i;
    assert above[..k + 1] == above[..k] + [above[k]];
  }

  /** One level up, as merkleRoot, stateRoot and proofFor build it. */
  method NextLevel(pair: Pair, level: seq<Digest>) returns (next: seq<Digest>)
    ensures next == Up(pair, level)
  {
    hide Up;
    next := [];
    var i := 0;
    while i < |level|
      invariant i % 2 == 0 && 0 <= i <= |level| + 1
      invariant next == Up(pair, level)[..i / 2]
    {
      UpPrefix(pair, level, next, i);
      next := next + [if i + 1 < |level| then pair(level[i], level[i + 1]) else level[i]];
      i := i + 2;
    }
    assert i / 2 == |Up(pair, level)|;
  }

  /** merkleRoot over transaction hashes (src/block.js:13-24) and stateRoot over line hashes
      (src/stateproof.js:69-80). */
  method MerkleRoot(pair: Pair, leaves: seq<Digest>, zero: Digest) returns (root: Digest)
    ensures root == if leaves == [] then zero else Root(pair, leaves)
  {
    hide Up;
    if |leaves| == 0 { return zero; }
    var level := leaves;
    while |level| > 1
      invariant level != [] && Root(pair, level) == Root(pair, leaves)
      decreases |level|
    {
      level := NextLevel(pair, level);
    }
    return level[0];
  }

  /** One level up, recording the step of the pair that holds the position (src/proof.js:111-127). */
  method NextWithStep(pair: Pair, level: seq<Digest>, position: nat) returns (next: seq<Digest>, here: seq<Step>)
    requires position < |level|
    ensures next == Up(pair, level) && here == StepAt(level, position)
  {
    hide Up;
    next, here := [], [];
    var i := 0;
    while i < |level|
      invariant i % 2 == 0 && 0 <= i <= |level| + 1
      invariant next == Up(pair, level)[..i / 2]
      invariant here == if position - position % 2 < i then StepAt(level, position) else []
    {
      var hasSibling := i + 1 < |level|;
      if i == position - position % 2 && hasSibling {
        here := here + [if position % 2 == 0 then Step(true, level[i + 1]) else Step(false, level[i])];
      }
      UpPrefix(pair, level, next, i);
      next := next + [if hasSibling then pair(level[i], level[i + 1]) else level[i]];
      i := i + 2;
    }
    assert i / 2 == |Up(pair, level)|;
  }

  lemma PathStep(pair: Pair, level: seq<Digest>, pos: nat, done: seq<Step>)
    requires pos < |level| && |level| > 1
    ensures done + Path(pair, level, pos) == done + StepAt(level, pos) + Path(pair, Up(pair, level), pos / 2)
  {
  }

  /** merkleProof: the step is recorded while the pair that holds the position is hashed (src/proof.js:103-130). */
  method MerkleProof(pair: Pair, leaves: seq<Digest>, index: int) returns (path: Option<seq<Step>>)
    ensures path == if 0 <= index < |leaves| then Some(Path(pair, leaves, index)) else None
  {
    hide Up, StepAt;
    if index < 0 || index >= |leaves| { return None; }
    var level, position := leaves, index;
    var steps: seq<Step> := [];
    while |level| > 1
      invariant 0 <= position < |level|
      invariant steps + Path(pair, level, position) == Path(pair, leaves, index)
      decreases |level|
    {
      var next, here := NextWithStep(pair, level, position);
      PathStep(pair, level, position, steps);
      steps := steps + here;
      level, position := next, position / 2;
    }
    assert steps + [] == steps;
    return Some(steps);
  }

  /** proofFor: siblings and sides kept apart, the partner found by index (src/stateproof.js:94-119). */
  method ProofFor(pair: Pair, leaves: seq<Digest>, index: int) returns (proof: Option<(seq<Digest>, seq<bool>)>)
    ensures proof.Some? <==> 0 <= index < |leaves|
    ensures proof.Some? ==> proof.value == (Siblings(Path(pair, leaves, index)), Sides(Path(pair, leaves, index)))
  {
    hide Up;
    if index < 0 || index >= |leaves| { return None; }
    var level, i := leaves, index;
    var siblings: seq<Digest>, sides: seq<bool> := [], [];
    ghost var done: seq<Step> := [];
    while |level| > 1
      invariant 0 <= i < |level|
      invariant done + Path(pair, level, i) == Path(pair, leaves, index)
      invariant siblings == Siblings(done) && sides == Sides(done)
      decreases |level|
    {
      var isLeft := i % 2 == 0;
      var partner := if isLeft then i + 1 else i - 1;
      if partner < |level| {
        siblings, sides := siblings + [level[partner]], sides + [isLeft];
      }
      PathStep(pair, level, i, done);
      done := done + StepAt(level, i);
      level := NextLevel(pair, level);
      i := i / 2;
    }
    assert done + [] == done;
    return Some((siblings, sides));
  }

  function Siblings(path: seq<Step>): seq<Digest> {
    seq(|path|, i requires 0 <= i < |path| => path[i].sibling)
  }

  function Sides(path: seq<Step>): seq<bool> {
    seq(|path|, i requires 0 <= i < |path| => path[i].onRight)
  }

  /** Recompute the root from a leaf and its path (src/proof.js:133-142). */
  method RootFromPath(pair: Pair, leaf: Digest, path: seq<Step>) returns (root: Digest)
    ensures root == Climb(pair, leaf, path)
  {
    root := leaf;
    for i := 0 to |path|
      invariant root == Climb(pair, leaf, path[..i])
    {
      assert path[..i + 1][..i] == path[..i];
      root := if path[i].onRight then pair(root, path[i].sibling) else pair(path[i].sibling, root);
    }
    assert path[..|path|] == path;
  }

  /** rootFromProof: refused when siblings and sides do not pair up (src/stateproof.js:125-135). */
  method RootFromProof(pair: Pair, leaf: Digest, siblings: seq<Digest>, sides: seq<bool>) returns (root: Option<Digest>)
    ensures root.Some? <==> |siblings| == |sides|
    ensures forall path: seq<Step> :: siblings == Siblings(path) && sides == Sides(path) ==>
            root == Some(Climb(pair, leaf, path))
  {
    if |siblings| != |sides| { return None; }
    var node := leaf;
    ghost var path := seq(|siblings|, i requires 0 <= i < |siblings| => Step(sides[i], siblings[i]));
    for i := 0 to |siblings|
      invariant node == Climb(pair, leaf, path[..i])
    {
      assert path[..i + 1][..i] == path[..i];
      node := if sides[i] then pair(node, siblings[i]) else pair(siblings[i], node);
    }
    assert path[..|path|] == path;
    forall p: seq<Step> | siblings == Siblings(p) && sides == Sides(p)
      ensures p == path
    {
      assert |p| == |Siblings(p)|;
      forall i | 0 <= i < |p|
        ensures p[i] == path[i]
      {
        assert Siblings(p)[i] == p[i].sibling && Sides(p)[i] == p[i].onRight;
      }
    }
    return Some(node);
  }
}
