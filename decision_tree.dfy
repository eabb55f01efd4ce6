/**
 * A fitted sklearn regression tree, given as its node arrays
 * (`tree_.feature`, `threshold`, `children_left`, `children_right`,
 * `value`), and the root-to-leaf walk of one sample.
 */
module DecisionTree {
  import opened Features

  /** `children_left[i] == TREE_LEAF` marks a leaf. */
  const TREE_LEAF: int := -1

  datatype Tree = Tree(
    feature: seq<int>,
    threshold: seq<real>,
    left: seq<int>,
    right: seq<int>,
    value: seq<real>)

  function Size(t: Tree): nat { |t.feature| }

  /**
   * Well-formed node arrays: equal lengths, a root, leaves marked in both
   * child arrays, and every internal node's children numbered after it
   * (sklearn numbers nodes depth first) with a feature index below 5.
   */
  predicate ValidTree(t: Tree) {
    && Size(t) > 0
    && |t.threshold| == Size(t) && |t.left| == Size(t) && |t.right| == Size(t) && |t.value| == Size(t)
    && forall i :: 0 <= i < Size(t) ==>
         && (t.left[i] == TREE_LEAF <==> t.right[i] == TREE_LEAF)
         && (t.left[i] != TREE_LEAF ==>
               && i < t.left[i] < Size(t) && i < t.right[i] < Size(t)
               && 0 <= t.feature[i] < |FEATURES|)
  }

  predicate IsLeaf(t: Tree, i: nat)
    requires ValidTree(t) && i < Size(t)
  {
    t.left[i] == TREE_LEAF
  }

  /** Every path from `node` has at most `d` internal nodes. */
  predicate DepthAtMost(t: Tree, node: nat, d: nat)
    requires ValidTree(t) && node < Size(t)
    decreases d
  {
    IsLeaf(t, node) || (d > 0 && DepthAtMost(t, t.left[node], d - 1) && DepthAtMost(t, t.right[node], d - 1))
  }

  /** `DecisionTreeRegressor(max_depth=3)` after fitting. */
  const MAX_DEPTH: nat := 3

  type FittedTree = t: Tree | ValidTree(t) && DepthAtMost(t, 0, MAX_DEPTH)
    witness Tree([-2], [-2.0], [TREE_LEAF], [TREE_LEAF], [0.0])

  function NodeFeature(t: Tree, i: nat): Feature
    requires ValidTree(t) && i < Size(t) && !IsLeaf(t, i)
  {
    FEATURES[t.feature[i]]
  }

  /** The sample goes left when its value is at most the node's threshold. */
  predicate GoesLeft(t: Tree, x: Values, i: nat)
    requires ValidTree(t) && i < Size(t) && !IsLeaf(t, i)
  {
    x.Get(NodeFeature(t, i)) <= t.threshold[i]
  }

  function Child(t: Tree, x: Values, i: nat): (c: nat)
    requires ValidTree(t) && i < Size(t) && !IsLeaf(t, i)
    ensures i < c < Size(t)
  {
    if GoesLeft(t, x, i) then t.left[i] else t.right[i]
  }

  /** Node k + 1 of `p` is the child that node k sends the sample to. */
  predicate StepTaken(t: Tree, x: Values, p: seq<nat>, k: nat)
    requires ValidTree(t) && k + 1 < |p| && p[k] < Size(t) && !IsLeaf(t, p[k])
  {
    p[k + 1] == Child(t, x, p[k])
  }

  /**
   * `decision_path`: the nodes visited from `node` down to a leaf, in
   * increasing order, each step taken by the comparison rule.
   */
  function Path(t: Tree, x: Values, node: nat): (p: seq<nat>)
    requires ValidTree(t) && node < Size(t)
    ensures |p| >= 1 && p[0] == node
    ensures forall k :: 0 <= k < |p| ==> p[k] < Size(t)
    ensures IsLeaf(t, p[|p| - 1])
    ensures forall k :: 0 <= k < |p| - 1 ==> !IsLeaf(t, p[k]) && StepTaken(t, x, p, k)
    decreases Size(t) - node
  {
    if IsLeaf(t, node) then [node]
    else [node] + Path(t, x, Child(t, x, node))
  }

  /** `apply`: the leaf the sample lands in. */
  function Leaf(t: Tree, x: Values): (l: nat)
    requires ValidTree(t)
    ensures l < Size(t) && IsLeaf(t, l)
  {
    var p := Path(t, x, 0);
    p[|p| - 1]
  }

  /** `predict`: the value stored at the sample's leaf. */
  function Predict(t: Tree, x: Values): real
    requires ValidTree(t)
  {
    t.value[Leaf(t, x)]
  }

  /** The leaf is the only leaf on the path, and it comes last. */
  lemma LeafOnlyAtEnd(t: Tree, x: Values)
    requires ValidTree(t)
    ensures forall k :: 0 <= k < |Path(t, x, 0)| ==>
      (Path(t, x, 0)[k] == Leaf(t, x) <==> k == |Path(t, x, 0)| - 1)
  {
  }

  /** A tree of depth at most d has paths of at most d internal nodes. */
  lemma {:induction false} PathLength(t: Tree, x: Values, node: nat, d: nat)
    requires ValidTree(t) && node < Size(t) && DepthAtMost(t, node, d)
    ensures |Path(t, x, node)| <= d + 1
    decreases d
  {
    if !IsLeaf(t, node) {
      var c := Child(t, x, node);
      PathLength(t, x, c, d - 1);
    }
  }

  /** A fitted tree explains a prediction in at most three comparisons. */
  lemma FittedPathLength(t: FittedTree, x: Values)
    ensures |Path(t, x, 0)| - 1 <= MAX_DEPTH
  {
    PathLength(t, x, 0, MAX_DEPTH);
  }
}
