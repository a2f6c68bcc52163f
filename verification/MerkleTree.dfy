/** Trees of hash values over a sequence of leaves, for any way of joining two values.
    A tree of n leaves splits at the largest power of two below n. */
module MerkleTree {
  import opened Bits

  function Tree<V>(join: (V, V) -> V, s: seq<V>): V
    requires |s| >= 1
    decreases |s|
  {
    if |s| == 1 then s[0]
    else
      var p := SplitPoint(|s|);
      join(Tree(join, s[..p]), Tree(join, s[p..]))
  }

  lemma TreeStep<V>(join: (V, V) -> V, s: seq<V>)
    requires |s| >= 2
    ensures Tree(join, s) == join(Tree(join, s[..SplitPoint(|s|)]), Tree(join, s[SplitPoint(|s|)..]))
  {
  }

  /** One layer of parents, an odd value left over being carried up unchanged. */
  function Pairs<V>(join: (V, V) -> V, s: seq<V>): (r: seq<V>)
    ensures |r| == (|s| + 1) / 2
  {
    if |s| < 2 then s else [join(s[0], s[1])] + Pairs(join, s[2..])
  }

  lemma {:induction false} PairsAt<V>(join: (V, V) -> V, s: seq<V>, i: nat)
    requires i < (|s| + 1) / 2
    ensures Pairs(join, s)[i] == if 2 * i + 1 < |s| then join(s[2 * i], s[2 * i + 1]) else s[2 * i]
  {
    if i > 0 {
      PairsAt(join, s[2..], i - 1);
    }
  }

  lemma {:induction false} PairsSplit<V>(join: (V, V) -> V, a: seq<V>, b: seq<V>)
    requires |a| % 2 == 0
    ensures Pairs(join, a + b) == Pairs(join, a) + Pairs(join, b)
  {
    if |a| == 0 {
      assert a + b == b;
    } else {
      PairsSplit(join, a[2..], b);
      assert (a + b)[2..] == a[2..] + b;
    }
  }

  /** Pairing keeps the place where the tree splits. */
  lemma PairsAtSplit<V>(join: (V, V) -> V, s: seq<V>)
    requires |s| > 2
    ensures SplitPoint((|s| + 1) / 2) == SplitPoint(|s|) / 2
    ensures Pairs(join, s)[..SplitPoint(|s|) / 2] == Pairs(join, s[..SplitPoint(|s|)])
    ensures Pairs(join, s)[SplitPoint(|s|) / 2..] == Pairs(join, s[SplitPoint(|s|)..])
  {
    var p := SplitPoint(|s|);
    var a, b := s[..p], s[p..];
    assert s == a + b;
    PairsSplit(join, a, b);
    assert |a| == p && |Pairs(join, a)| == p / 2;
    SplitPointUnique(p / 2, (|s| + 1) / 2);
  }

  /** Pairing from the bottom up and splitting from the top down build the same tree. */
  lemma {:induction false} PairsKeepsTree<V>(join: (V, V) -> V, s: seq<V>)
    requires |s| >= 1
    ensures Tree(join, Pairs(join, s)) == Tree(join, s)
    decreases |s|
  {
    if |s| == 2 {
      assert Pairs(join, s) == [join(s[0], s[1])];
    } else if |s| > 2 {
      var p := SplitPoint(|s|);
      PairsAtSplit(join, s);
      PairsKeepsTree(join, s[..p]);
      PairsKeepsTree(join, s[p..]);
    }
  }

  /** w condenses s without deciding its root: both halves of w, split where a tree of |w| leaves
      splits, hash to the two children of the tree over s. */
  ghost predicate Condenses<V>(join: (V, V) -> V, w: seq<V>, s: seq<V>)
  {
    && |w| >= 2 && |s| >= 2
    && Tree(join, w[..SplitPoint(|w|)]) == Tree(join, s[..SplitPoint(|s|)])
    && Tree(join, w[SplitPoint(|w|)..]) == Tree(join, s[SplitPoint(|s|)..])
  }

  lemma PairsCondenses<V>(join: (V, V) -> V, w: seq<V>, s: seq<V>)
    requires Condenses(join, w, s) && |w| > 2
    ensures Condenses(join, Pairs(join, w), s)
  {
    PairsAtSplit(join, w);
    PairsKeepsTree(join, w[..SplitPoint(|w|)]);
    PairsKeepsTree(join, w[SplitPoint(|w|)..]);
  }

  // ----- condensing a subtree at a given degree of parallelism -----

  function AtLeast2(degree: nat): nat
  {
    if degree > 2 then degree else 2
  }

  /** w is what hashing the leaves at the given degree may return: the same tree with its root
      undecided, no wider than the degree (or 2), and exactly that wide for a complete subtree. */
  ghost predicate Wide<V>(join: (V, V) -> V, degree: nat, leaves: seq<V>, w: seq<V>)
  {
    && 1 <= |w| <= AtLeast2(degree) && |leaves| >= 1
    && Tree(join, w) == Tree(join, leaves)
    && (|leaves| >= 2 ==> Condenses(join, w, leaves))
    && (|leaves| == 1 ==> |w| == 1)
    && (IsPow2(|leaves|) && |leaves| >= AtLeast2(degree) ==> |w| == AtLeast2(degree))
  }

  lemma WideLeaves<V>(join: (V, V) -> V, degree: nat, leaves: seq<V>)
    requires 1 <= |leaves| <= degree
    ensures Wide(join, degree, leaves, leaves)
  {
  }

  lemma Pow2Gap(a: nat, b: nat)
    requires IsPow2(a) && IsPow2(b) && b < 2 * a
    ensures b <= a
    decreases a
  {
    if a > 1 && b > 1 { Pow2Gap(a / 2, b / 2); }
  }

  /** The left part of a split is complete, so its values fill the degree. */
  lemma WideLeft<V>(join: (V, V) -> V, degree: nat, leaves: seq<V>, left: seq<V>)
    requires IsPow2(degree) && |leaves| > degree && |leaves| >= 2
    requires Wide(join, degree, leaves[..SplitPoint(|leaves|)], left)
    ensures SplitPoint(|leaves|) == 1 <==> |left| == 1
    ensures SplitPoint(|leaves|) == 1 ==> degree == 1 && |leaves| == 2 && left == leaves[..1]
    ensures SplitPoint(|leaves|) > 1 ==> |left| == AtLeast2(degree)
  {
    Pow2Gap(SplitPoint(|leaves|), degree);
  }

  lemma WideTwo<V>(join: (V, V) -> V, leaves: seq<V>, left: seq<V>, right: seq<V>)
    requires |leaves| == 2 && left == leaves[..1] && Wide(join, 1, leaves[1..], right)
    ensures left + right == leaves && Wide(join, 1, leaves, left + right)
  {
    assert right == [right[0]] && leaves[1..] == [leaves[1]];
  }

  lemma WideConcat<V>(join: (V, V) -> V, degree: nat, leaves: seq<V>, left: seq<V>, right: seq<V>)
    requires IsPow2(degree) && |leaves| > degree && SplitPoint(|leaves|) > 1
    requires Wide(join, degree, leaves[..SplitPoint(|leaves|)], left)
    requires Wide(join, degree, leaves[SplitPoint(|leaves|)..], right)
    ensures |left| == AtLeast2(degree) && Condenses(join, left + right, leaves)
  {
    hide Tree;
    WideLeft(join, degree, leaves, left);
    var w := left + right;
    SplitPointUnique(|left|, |w|);
    assert w[..|left|] == left && w[|left|..] == right;
  }

  lemma CondensesTree<V>(join: (V, V) -> V, w: seq<V>, s: seq<V>)
    requires Condenses(join, w, s)
    ensures Tree(join, w) == Tree(join, s)
  {
    TreeStep(join, w);
    TreeStep(join, s);
  }

  lemma WideRight<V>(join: (V, V) -> V, degree: nat, leaves: seq<V>, right: seq<V>)
    requires IsPow2(degree) && |leaves| > degree && SplitPoint(|leaves|) > 1
    requires Wide(join, degree, leaves[SplitPoint(|leaves|)..], right)
    ensures 1 <= |right| <= AtLeast2(degree)
    ensures IsPow2(|leaves|) ==> |right| == AtLeast2(degree)
  {
    hide Tree, Condenses;
    if IsPow2(|leaves|) {
      Pow2Gap(SplitPoint(|leaves|), degree);
      SplitPointUnique(|leaves| / 2, |leaves|);
    }
  }

  lemma WideLengths<V>(join: (V, V) -> V, degree: nat, leaves: seq<V>, left: seq<V>, right: seq<V>)
    requires IsPow2(degree) && |leaves| > degree && SplitPoint(|leaves|) > 1
    requires Wide(join, degree, leaves[..SplitPoint(|leaves|)], left)
    requires Wide(join, degree, leaves[SplitPoint(|leaves|)..], right)
    ensures 2 < |left| + |right| <= 2 * AtLeast2(degree)
    ensures IsPow2(|leaves|) ==> |left| + |right| == 2 * AtLeast2(degree)
  {
    WideLeft(join, degree, leaves, left);
    WideRight(join, degree, leaves, right);
  }

  lemma HalfLength<V>(left: seq<V>, right: seq<V>, n: nat)
    requires 2 < |left| + |right| <= 2 * n
    ensures 1 <= (|left + right| + 1) / 2 <= n
    ensures |left| + |right| == 2 * n ==> (|left + right| + 1) / 2 == n
  {
  }

  lemma WideCondenses<V>(join: (V, V) -> V, degree: nat, leaves: seq<V>, w: seq<V>)
    requires Wide(join, degree, leaves, w) && |leaves| >= 2
    ensures 2 <= |w| <= AtLeast2(degree) && Condenses(join, w, leaves)
  {
  }

  /** Two values that condense s are the two children of its tree. */
  lemma CondensedToTwo<V>(join: (V, V) -> V, w: seq<V>, s: seq<V>)
    requires Condenses(join, w, s) && |w| == 2
    ensures |s| >= 2
    ensures w[0] == Tree(join, s[..SplitPoint(|s|)]) && w[1] == Tree(join, s[SplitPoint(|s|)..])
  {
  }

  lemma WidePairs<V>(join: (V, V) -> V, degree: nat, leaves: seq<V>, left: seq<V>, right: seq<V>)
    requires IsPow2(degree) && |leaves| > degree && SplitPoint(|leaves|) > 1
    requires Wide(join, degree, leaves[..SplitPoint(|leaves|)], left)
    requires Wide(join, degree, leaves[SplitPoint(|leaves|)..], right)
    ensures Wide(join, degree, leaves, Pairs(join, left + right))
  {
    WideLengths(join, degree, leaves, left, right);
    WideConcat(join, degree, leaves, left, right);
    hide Tree, Pairs, Condenses, IsPow2, SplitPoint;
    PairsCondenses(join, left + right, leaves);
    CondensesTree(join, Pairs(join, left + right), leaves);
    HalfLength(left, right, AtLeast2(degree));
  }

  // ----- the stack of complete subtrees -----

  /** Values of the complete subtrees named by the one bits of |v|, largest first. */
  function Spine<V>(join: (V, V) -> V, v: seq<V>): (r: seq<V>)
    decreases |v|
  {
    if |v| == 0 then []
    else if |v| % 2 == 0 then Spine(join, Pairs(join, v))
    else Spine(join, Pairs(join, v[..|v| - 1])) + [v[|v| - 1]]
  }

  /** Joins x with the values of a stack from the top down. */
  function Fold<V>(join: (V, V) -> V, stack: seq<V>, x: V): V
  {
    if |stack| == 0 then x
    else Fold(join, stack[..|stack| - 1], join(stack[|stack| - 1], x))
  }

  lemma PairsAppendOne<V>(join: (V, V) -> V, v: seq<V>, x: V)
    requires |v| % 2 == 0
    ensures Pairs(join, v + [x]) == Pairs(join, v) + [x]
  {
    PairsSplit(join, v, [x]);
  }

  lemma AppendTwice<V>(v: seq<V>, y: V, x: V)
    ensures v + [y] + [x] == v + [y, x]
  {
  }

  lemma PairOfTwo<V>(join: (V, V) -> V, y: V, x: V)
    ensures Pairs(join, [y, x]) == [join(y, x)]
  {
  }

  lemma PairsAppendTwo<V>(join: (V, V) -> V, v: seq<V>, y: V, x: V)
    requires |v| % 2 == 0
    ensures Pairs(join, v + [y] + [x]) == Pairs(join, v) + [join(y, x)]
  {
    hide Pairs;
    AppendTwice(v, y, x);
    PairOfTwo(join, y, x);
    PairsSplit(join, v, [y, x]);
  }

  lemma {:induction false} SpineLength<V>(join: (V, V) -> V, v: seq<V>)
    ensures |Spine(join, v)| == PopCount(|v|)
    decreases |v|
  {
    if |v| == 0 {
    } else if |v| % 2 == 0 {
      SpineLength(join, Pairs(join, v));
    } else {
      SpineLength(join, Pairs(join, v[..|v| - 1]));
    }
  }

  lemma SpineEven<V>(join: (V, V) -> V, v: seq<V>)
    requires |v| % 2 == 0
    ensures Spine(join, v) == Spine(join, Pairs(join, v))
  {
    if |v| == 0 { assert Pairs(join, v) == v; }
  }

  lemma SpineOdd<V>(join: (V, V) -> V, s: seq<V>)
    requires |s| % 2 == 1
    ensures Spine(join, s) == Spine(join, Pairs(join, s[..|s| - 1])) + [s[|s| - 1]]
  {
  }

  lemma SpineAppend<V>(join: (V, V) -> V, v: seq<V>, y: V)
    requires |v| % 2 == 0
    ensures Spine(join, v + [y]) == Spine(join, v) + [y]
  {
    hide Spine, Pairs;
    var s := v + [y];
    SpineEven(join, v);
    assert s[..|s| - 1] == v && s[|s| - 1] == y;
    SpineOdd(join, s);
  }

  lemma FoldAppend<V>(join: (V, V) -> V, stack: seq<V>, y: V, x: V)
    ensures Fold(join, stack + [y], x) == Fold(join, stack, join(y, x))
  {
    assert (stack + [y])[..|stack|] == stack;
  }

  /** v is s with complete groups of leaves already joined: the same tree, the same spine, and the
      same two values under the root while v has not come down to one value. */
  ghost predicate IsLevel<V>(join: (V, V) -> V, v: seq<V>, s: seq<V>)
  {
    && |v| >= 1 && |s| >= 1
    && Spine(join, v) == Spine(join, s)
    && Tree(join, v) == Tree(join, s)
    && (|v| >= 2 ==> Condenses(join, v, s))
  }

  lemma NextLevel<V>(join: (V, V) -> V, v: seq<V>, s: seq<V>)
    requires |v| >= 1 && |v| % 2 == 0 && IsLevel(join, v, s)
    ensures IsLevel(join, Pairs(join, v), s)
  {
    hide Spine, Pairs, Tree, Condenses;
    SpineEven(join, v);
    PairsKeepsTree(join, v);
    if |v| > 2 {
      PairsCondenses(join, v, s);
    }
  }

  /** A stack over the leaves s whose last value x is not merged yet. */
  ghost predicate Pending<V>(join: (V, V) -> V, stack: seq<V>, s: seq<V>, w: seq<V>, x: V)
  {
    && IsLevel(join, w + [x], s)
    && stack == Spine(join, w) + [x]
  }

  lemma PopCountEven(h: nat)
    requires h >= 1
    ensures PopCount(2 * h) <= PopCount(2 * h - 1)
  {
    var n := 2 * h - 1;
    assert n / 2 == h - 1 && n % 2 == 1;
    assert (2 * h) / 2 == h && (2 * h) % 2 == 0;
    assert PopCount(n) == PopCount(h - 1) + 1;
    PopCountSucc(h - 1);
  }

  /** If the level has an odd number of values the stack is the spine of its leaves. */
  lemma Merged<V>(join: (V, V) -> V, stack: seq<V>, s: seq<V>, w: seq<V>, x: V)
    requires Pending(join, stack, s, w, x) && |w| % 2 == 0
    ensures stack == Spine(join, s) && |stack| == PopCount(|s|)
  {
    hide Spine, Pairs, Tree, PopCount;
    SpineAppend(join, w, x);
    SpineLength(join, s);
  }

  lemma MergeDue<V>(join: (V, V) -> V, stack: seq<V>, s: seq<V>, w: seq<V>, x: V)
    requires Pending(join, stack, s, w, x) && |w| % 2 == 1
    ensures |stack| > PopCount(|s|)
  {
    hide Spine, Pairs, Tree, PopCount;
    SpineLength(join, w);
    SpineLength(join, w + [x]);
    SpineLength(join, s);
    PopCountEven(|w| / 2 + 1);
  }

  /** Otherwise the stack is longer than the population count, its top two values belong together, and
      joining them leaves the stack pending one level up. */
  lemma MergeStep<V>(join: (V, V) -> V, stack: seq<V>, s: seq<V>, w: seq<V>, y: V, x: V)
    requires Pending(join, stack, s, w + [y], x) && |w| % 2 == 0
    ensures stack == Spine(join, w) + [y] + [x]
    ensures Pending(join, Spine(join, w) + [join(y, x)], s, Pairs(join, w), join(y, x))
  {
    hide Spine, Pairs, Tree, IsLevel;
    SpineAppend(join, w, y);
    SpineEven(join, w);
    PairsAppendTwo(join, w, y, x);
    NextLevel(join, w + [y] + [x], s);
  }

  lemma PushOne<V>(join: (V, V) -> V, s: seq<V>, x: V)
    ensures Pending(join, Spine(join, s) + [x], s + [x], s, x)
  {
  }

  lemma PushTwoLeaves<V>(join: (V, V) -> V, s: seq<V>, a: seq<V>, b: seq<V>)
    requires |s| % 2 == 0 && |a| == |b| == 1
    ensures Pending(join, Spine(join, s) + [Tree(join, a), Tree(join, b)], s + (a + b), s + a, Tree(join, b))
  {
    hide Spine, Pairs;
    SpineAppend(join, s, a[0]);
    assert a == [a[0]] && b == [b[0]];
    assert s + a + b == s + (a + b);
  }

  lemma PairsAligned<V>(join: (V, V) -> V, s: seq<V>, a: seq<V>)
    requires IsPow2(|a|) && |a| > 1 && |s| % (2 * |a|) == 0
    ensures |s| % 2 == 0
    ensures IsPow2(|Pairs(join, a)|) && |s| / 2 % (2 * |Pairs(join, a)|) == 0
  {
    ModHalf(|s|, |a|);
  }

  lemma PairsOfThree<V>(join: (V, V) -> V, s: seq<V>, a: seq<V>, b: seq<V>)
    requires |a| % 2 == 0 && |s| % 2 == 0
    ensures Pairs(join, s + (a + b)) == Pairs(join, s) + (Pairs(join, a) + Pairs(join, b))
  {
    hide Pairs;
    PairsSplit(join, s, a + b);
    PairsSplit(join, a, b);
  }

  lemma EvenLength<V>(s: seq<V>, a: seq<V>, b: seq<V>)
    requires |a| == |b| && |s| % 2 == 0
    ensures |s + (a + b)| % 2 == 0
    ensures |a| >= 2 ==> |s + (a + b)| > 2
  {
  }

  lemma CondensesPaired<V>(join: (V, V) -> V, v: seq<V>, s: seq<V>)
    requires |s| > 2 && Condenses(join, v, Pairs(join, s))
    ensures Condenses(join, v, s)
  {
    hide Tree, Pairs;
    PairsAtSplit(join, s);
    PairsKeepsTree(join, s[..SplitPoint(|s|)]);
    PairsKeepsTree(join, s[SplitPoint(|s|)..]);
  }

  lemma LevelOfPaired<V>(join: (V, V) -> V, all: seq<V>, v: seq<V>)
    requires |all| > 2 && |all| % 2 == 0 && IsLevel(join, v, Pairs(join, all))
    ensures IsLevel(join, v, all)
  {
    hide Spine, Pairs, Tree, Condenses;
    SpineEven(join, all);
    PairsKeepsTree(join, all);
    if |v| >= 2 {
      CondensesPaired(join, v, all);
    }
  }

  lemma PushTwoLevel<V>(join: (V, V) -> V, s: seq<V>, a: seq<V>, b: seq<V>, v: seq<V>)
    requires |a| == |b| >= 1 && |a| % 2 == 0 && |s| % 2 == 0
    requires IsLevel(join, v, Pairs(join, s) + (Pairs(join, a) + Pairs(join, b)))
    ensures IsLevel(join, v, s + (a + b))
  {
    hide IsLevel, Pairs;
    PairsOfThree(join, s, a, b);
    EvenLength(s, a, b);
    LevelOfPaired(join, s + (a + b), v);
  }

  lemma PushTwoStep<V>(join: (V, V) -> V, s: seq<V>, a: seq<V>, b: seq<V>, w: seq<V>)
    requires |a| == |b| >= 1 && |a| % 2 == 0 && |s| % 2 == 0
    requires Pending(join, Spine(join, Pairs(join, s)) + [Tree(join, Pairs(join, a)), Tree(join, Pairs(join, b))],
                     Pairs(join, s) + (Pairs(join, a) + Pairs(join, b)), w, Tree(join, Pairs(join, b)))
    ensures Pending(join, Spine(join, s) + [Tree(join, a), Tree(join, b)], s + (a + b), w, Tree(join, b))
  {
    hide Spine, Pairs, Tree, IsLevel;
    SpineEven(join, s);
    PairsKeepsTree(join, a);
    PairsKeepsTree(join, b);
    PushTwoLevel(join, s, a, b, w + [Tree(join, b)]);
  }

  /** Adding the two halves of a complete subtree that is aligned with the leaves before it leaves the
      stack pending on its second half. */
  lemma {:induction false} PushTwo<V>(join: (V, V) -> V, s: seq<V>, a: seq<V>, b: seq<V>) returns (w: seq<V>)
    requires IsPow2(|a|) && |a| == |b| && |s| % (2 * |a|) == 0
    ensures |w| >= 1
    ensures Pending(join, Spine(join, s) + [Tree(join, a), Tree(join, b)], s + (a + b), w, Tree(join, b))
    decreases |a|
  {
    hide Spine, Pairs, Tree, IsLevel, Pending;
    if |a| == 1 {
      w := s + a;
      PushTwoLeaves(join, s, a, b);
    } else {
      PairsAligned(join, s, a);
      w := PushTwo(join, Pairs(join, s), Pairs(join, a), Pairs(join, b));
      PushTwoStep(join, s, a, b, w);
    }
  }

  /** Adding the first half alone completes one more subtree of the spine. */
  lemma {:induction false} AlignedSpine<V>(join: (V, V) -> V, s: seq<V>, a: seq<V>)
    requires IsPow2(|a|) && |s| % (2 * |a|) == 0
    ensures Spine(join, s + a) == Spine(join, s) + [Tree(join, a)]
    decreases |a|
  {
    if |a| == 1 {
      hide Spine, Pairs;
      SpineAppend(join, s, a[0]);
      assert a == [a[0]];
    } else {
      hide Spine, Pairs, Tree;
      PairsAligned(join, s, a);
      AlignedSpine(join, Pairs(join, s), Pairs(join, a));
      PairsSplit(join, s, a);
      SpineEven(join, s);
      PairsKeepsTree(join, a);
      EvenSum(s, a);
      SpineEven(join, s + a);
    }
  }

  lemma EvenSum<V>(s: seq<V>, a: seq<V>)
    requires |s| % 2 == 0 && |a| % 2 == 0
    ensures |s + a| % 2 == 0
  {
  }

  // ----- finalizing -----

  /** The bottom of the stack and the fold of the rest over x are the two children of the root. */
  ghost predicate RootOf<V>(join: (V, V) -> V, stack: seq<V>, x: V, s: seq<V>)
  {
    && |stack| >= 1 && |s| >= 2
    && stack[0] == Tree(join, s[..SplitPoint(|s|)])
    && Fold(join, stack[1..], x) == Tree(join, s[SplitPoint(|s|)..])
  }

  lemma RootOfOne<V>(join: (V, V) -> V, y: V, x: V)
    ensures Spine(join, [y]) == [y]
    ensures RootOf(join, [y], x, [y] + [x])
  {
    SpineAppend(join, [], y);
    assert [] + [y] == [y];
    var s := [y] + [x];
    assert s[..1] == [y] && s[1..] == [x];
  }

  lemma RootOfPaired<V>(join: (V, V) -> V, stack: seq<V>, x: V, s: seq<V>)
    requires |s| > 2 && RootOf(join, stack, x, Pairs(join, s))
    ensures RootOf(join, stack, x, s)
  {
    hide Tree, Pairs, Fold;
    PairsAtSplit(join, s);
    PairsKeepsTree(join, s[..SplitPoint(|s|)]);
    PairsKeepsTree(join, s[SplitPoint(|s|)..]);
  }

  lemma RootOfAppend<V>(join: (V, V) -> V, stack: seq<V>, y: V, x: V, s: seq<V>)
    requires RootOf(join, stack, join(y, x), s)
    ensures RootOf(join, stack + [y], x, s)
  {
    hide Tree, Fold;
    FoldAppend(join, stack[1..], y, x);
    assert (stack + [y])[1..] == stack[1..] + [y];
  }

  /** Rolling the spine up over x never decides the root before its last step. */
  lemma {:induction false} RootOfSpine<V>(join: (V, V) -> V, v: seq<V>, x: V)
    requires |v| >= 1
    ensures RootOf(join, Spine(join, v), x, v + [x])
    decreases |v|
  {
    hide Spine, Pairs, RootOf;
    if |v| == 1 {
      assert v == [v[0]];
      RootOfOne(join, v[0], x);
    } else if |v| % 2 == 0 {
      SpineEven(join, v);
      PairsAppendOne(join, v, x);
      RootOfSpine(join, Pairs(join, v), x);
      RootOfPaired(join, Spine(join, v), x, v + [x]);
    } else {
      var w, y := v[..|v| - 1], v[|v| - 1];
      assert v == w + [y];
      SpineAppend(join, w, y);
      SpineEven(join, w);
      PairsAppendTwo(join, w, y, x);
      RootOfSpine(join, Pairs(join, w), join(y, x));
      RootOfAppend(join, Spine(join, w), y, x, Pairs(join, w) + [join(y, x)]);
      RootOfPaired(join, Spine(join, v), x, v + [x]);
    }
  }

  /** The stack with its unmerged last value x still shows the two children of the root over s. */
  lemma RootOfPending<V>(join: (V, V) -> V, stack: seq<V>, s: seq<V>, w: seq<V>, x: V)
    requires Pending(join, stack, s, w, x) && |w| >= 1
    ensures RootOf(join, Spine(join, w), x, s)
  {
    hide Spine, Tree, Fold;
    RootOfSpine(join, w, x);
  }
}
