/**
  The deterministic split tree of a range of sequences. The root is the whole range `first..last`;
  a node of two or more sequences has the two halves given by `Split` as its children.
*/
module SplitTree {
  import opened PowersOfTwo

  /** `a..b` is a node of the split tree of `first..last`. */
  predicate Node(first: nat, last: nat, a: nat, b: nat)
    decreases last - first
  {
    first <= last &&
    ( (a == first && b == last)
      || (first < last &&
          var m := Split(first, last);
          Node(first, m - 1, a, b) || Node(m, last, a, b)))
  }

  lemma {:induction false} NodeBounds(first: nat, last: nat, a: nat, b: nat)
    requires Node(first, last, a, b)
    ensures first <= a <= b <= last
    decreases last - first
  {
    if !(a == first && b == last) {
      var m := Split(first, last);
      if Node(first, m - 1, a, b) {
        NodeBounds(first, m - 1, a, b);
      } else {
        NodeBounds(m, last, a, b);
      }
    }
  }

  lemma {:induction false} NodeTrans(first: nat, last: nat, c: nat, d: nat, a: nat, b: nat)
    requires Node(first, last, c, d) && Node(c, d, a, b)
    ensures Node(first, last, a, b)
    decreases last - first
  {
    if !(c == first && d == last) {
      var m := Split(first, last);
      if Node(first, m - 1, c, d) {
        NodeTrans(first, m - 1, c, d, a, b);
      } else {
        NodeTrans(m, last, c, d, a, b);
      }
    }
  }

  /** The two halves of an inner node are nodes. */
  lemma NodeChildren(first: nat, last: nat, a: nat, b: nat)
    requires Node(first, last, a, b) && a < b
    ensures Node(first, last, a, Split(a, b) - 1) && Node(first, last, Split(a, b), b)
    ensures Node(a, b, a, Split(a, b) - 1) && Node(a, b, Split(a, b), b)
  {
    NodeTrans(first, last, a, b, a, Split(a, b) - 1);
    NodeTrans(first, last, a, b, Split(a, b), b);
  }

  predicate Disjoint(a: nat, b: nat, c: nat, d: nat) {
    b < c || d < a
  }

  /** The tree is laminar: two nodes are disjoint, or one lies in the tree of the other. */
  lemma {:induction false} Laminar(first: nat, last: nat, a: nat, b: nat, c: nat, d: nat)
    requires Node(first, last, a, b) && Node(first, last, c, d)
    ensures Disjoint(a, b, c, d) || Node(a, b, c, d) || Node(c, d, a, b)
    decreases last - first
  {
    NodeBounds(first, last, a, b);
    NodeBounds(first, last, c, d);
    if !(a == first && b == last) && !(c == first && d == last) {
      var m := Split(first, last);
      if Node(first, m - 1, a, b) {
        NodeBounds(first, m - 1, a, b);
        if Node(first, m - 1, c, d) {
          Laminar(first, m - 1, a, b, c, d);
        } else {
          NodeBounds(m, last, c, d);
        }
      } else {
        NodeBounds(m, last, a, b);
        if Node(m, last, c, d) {
          Laminar(m, last, a, b, c, d);
        } else {
          NodeBounds(first, m - 1, c, d);
        }
      }
    }
  }

  /** `a..b` is one of the two halves of `c..d`. */
  predicate IsHalf(c: nat, d: nat, a: nat, b: nat) {
    c < d && ((a == c && b == Split(c, d) - 1) || (a == Split(c, d) && b == d))
  }

  /** A node is a half of at most one node. */
  lemma ParentUnique(first: nat, last: nat, a: nat, b: nat, c: nat, d: nat, e: nat, f: nat)
    requires Node(first, last, c, d) && Node(first, last, e, f)
    requires IsHalf(c, d, a, b) && IsHalf(e, f, a, b)
    ensures c == e && d == f
  {
    Laminar(first, last, c, d, e, f);
    if Node(c, d, e, f) {
      HalfInside(c, d, e, f, a, b);
    } else {
      HalfInside(e, f, c, d, a, b);
    }
  }

  /** A node of the tree of `c..d` with a half of `c..d` among its own halves is `c..d` itself. */
  lemma HalfInside(c: nat, d: nat, e: nat, f: nat, a: nat, b: nat)
    requires Node(c, d, e, f) && IsHalf(c, d, a, b) && IsHalf(e, f, a, b)
    ensures c == e && d == f
  {
    if !(c == e && d == f) {
      var m := Split(c, d);
      if Node(c, m - 1, e, f) {
        NodeBounds(c, m - 1, e, f);
      } else {
        NodeBounds(m, d, e, f);
      }
    }
  }

  /**
    The nodes in closed form: `a..b` starts at a multiple of its size rounded up to a power of two,
    and either has exactly that size or ends where the whole range ends.
  */
  predicate AlignedNode(first: nat, last: nat, a: nat, b: nat) {
    first <= a <= b <= last &&
    var size := CeilPow2(b + 1 - a);
    (a - first) % size == 0 && (b + 1 - a == size || b == last)
  }

  lemma {:induction false} NodesAreAligned(first: nat, last: nat, a: nat, b: nat)
    requires Node(first, last, a, b)
    ensures AlignedNode(first, last, a, b)
    decreases last - first
  {
    if !(a == first && b == last) {
      var m := Split(first, last);
      if Node(first, m - 1, a, b) {
        NodesAreAligned(first, m - 1, a, b);
        AlignedInLeftHalf(first, last, a, b);
      } else {
        NodesAreAligned(m, last, a, b);
        AlignedInRightHalf(first, last, a, b);
      }
    }
  }

  lemma AlignedInLeftHalf(first: nat, last: nat, a: nat, b: nat)
    requires first < last && AlignedNode(first, Split(first, last) - 1, a, b)
    ensures AlignedNode(first, last, a, b)
  {
    var p, size := Split(first, last) - first, CeilPow2(b + 1 - a);
    SplitSizeIsCeil(last + 1 - first);
    CeilPow2Fits(b + 1 - a, p);
    MultipleGap(a - first, p, size);
  }

  lemma AlignedInRightHalf(first: nat, last: nat, a: nat, b: nat)
    requires first < last && AlignedNode(Split(first, last), last, a, b)
    ensures AlignedNode(first, last, a, b)
  {
    var p, size := Split(first, last) - first, CeilPow2(b + 1 - a);
    SplitSizeIsCeil(last + 1 - first);
    CeilPow2Fits(b + 1 - a, p);
    DropMultiple(a - first, p, size);
  }

  /** A range no longer than the power of two `p` rounds up to a divisor of `p`. */
  lemma CeilPow2Fits(n: nat, p: nat)
    requires 1 <= n <= p && CeilPow2(p) == p
    ensures CeilPow2(n) <= p && p % CeilPow2(n) == 0
  {
    CeilPow2Monotone(n, p);
    CeilPow2Divides(n, p);
  }

  lemma SplitSizeIsCeil(n: nat)
    requires n >= 2
    ensures CeilPow2(SplitSize(n)) == SplitSize(n)
  {
    SplitSizeHeight(n);
    CeilPow2OfPow2(SplitSize(n));
  }

  lemma {:induction false} AlignedAreNodes(first: nat, last: nat, a: nat, b: nat)
    requires AlignedNode(first, last, a, b)
    ensures Node(first, last, a, b)
    decreases last - first
  {
    var n, size := last + 1 - first, CeilPow2(b + 1 - a);
    if !(a == first && b == last) {
      if first == last {
        assert false;
      }
      var m := Split(first, last);
      var p := m - first;
      SplitSizeIsCeil(n);
      assert CeilPow2(n) == 2 * p;
      AlignedIsSmall(first, last, a, b);
      CeilPow2Divides(b + 1 - a, p);
      if a < m {
        MultipleGap(a - first, p, size);
        AlignedAreNodes(first, m - 1, a, b);
      } else {
        DropMultiple(a - first, p, size);
        AlignedAreNodes(m, last, a, b);
      }
    }
  }

  /** An aligned range other than the whole one rounds up to no more than the split size. */
  lemma AlignedIsSmall(first: nat, last: nat, a: nat, b: nat)
    requires AlignedNode(first, last, a, b) && first < last && !(a == first && b == last)
    ensures CeilPow2(b + 1 - a) <= SplitSize(last + 1 - first)
  {
    var n, size, p := last + 1 - first, CeilPow2(b + 1 - a), SplitSize(last + 1 - first);
    if size > p {
      SplitSizeIsCeil(n);
      NextPow2(p, b + 1 - a);
      assert a - first < n <= size;
      MultipleGap(0, size, size);
      if a > first {
        MultipleGap(0, a - first, size);
      }
    }
  }

  /** Above the power of two `p`, the next rounded size is at least `2p`. */
  lemma NextPow2(p: nat, n: nat)
    requires p >= 1 && CeilPow2(p) == p && n >= 1 && CeilPow2(n) > p
    ensures CeilPow2(n) >= 2 * p
  {
    CeilPow2Height(p);
    CeilPow2Height(n);
    Pow2Order(Height(p), Height(n));
    Pow2Order(Height(n), Height(p));
  }

  /** The closed form and the recursive split agree on every range. */
  lemma NodeIffAligned(first: nat, last: nat, a: nat, b: nat)
    ensures Node(first, last, a, b) <==> AlignedNode(first, last, a, b)
  {
    if Node(first, last, a, b) {
      NodesAreAligned(first, last, a, b);
    }
    if AlignedNode(first, last, a, b) {
      AlignedAreNodes(first, last, a, b);
    }
  }

  // ---- aligned chunks, the nodes that do not depend on the end ----

  /** A power-of-two chunk at a multiple of its own size from `first`. */
  ghost predicate Chunk(first: nat, a: nat, b: nat) {
    first <= a <= b && IsPow2(b + 1 - a) && (a - first) % (b + 1 - a) == 0
  }

  lemma ChunkIsNode(first: nat, a: nat, b: nat, last: nat)
    requires Chunk(first, a, b) && b <= last
    ensures Node(first, last, a, b)
  {
    CeilPow2OfPow2(b + 1 - a);
    NodeIffAligned(first, last, a, b);
  }

  lemma NodeShortOfEndIsChunk(first: nat, a: nat, b: nat, last: nat)
    requires Node(first, last, a, b) && b < last
    ensures Chunk(first, a, b)
  {
    NodeIffAligned(first, last, a, b);
    CeilPow2Height(b + 1 - a);
    assert IsPow2(Pow2(Height(b + 1 - a)));
  }

  ghost predicate NodeForEveryEnd(first: nat, a: nat, b: nat) {
    forall last: nat :: last >= b ==> Node(first, last, a, b)
  }

  /** The chunks are exactly the ranges that are nodes for every end at or past their own. */
  lemma ChunkIffNodeForEveryEnd(first: nat, a: nat, b: nat)
    requires first <= a <= b
    ensures Chunk(first, a, b) <==> NodeForEveryEnd(first, a, b)
  {
    if Chunk(first, a, b) {
      forall last: nat | last >= b
        ensures Node(first, last, a, b)
      {
        ChunkIsNode(first, a, b, last);
      }
    }
    if NodeForEveryEnd(first, a, b) {
      NodeShortOfEndIsChunk(first, a, b, b + 1);
    }
  }

  // ---- the inner nodes ----

  /** The inner nodes of the tree, as ranges. */
  function InnerNodes(first: nat, last: nat): (s: set<(nat, nat)>)
    decreases last - first
  {
    if first >= last then {}
    else
      var m := Split(first, last);
      {(first, last)} + InnerNodes(first, m - 1) + InnerNodes(m, last)
  }

  lemma {:induction false} InnerNodesExact(first: nat, last: nat, x: (nat, nat))
    ensures x in InnerNodes(first, last) <==> Node(first, last, x.0, x.1) && x.0 < x.1
    decreases last - first
  {
    if first < last {
      var m := Split(first, last);
      InnerNodesExact(first, m - 1, x);
      InnerNodesExact(m, last, x);
    }
  }

  lemma InnerNodesWithin(first: nat, last: nat)
    ensures forall x :: x in InnerNodes(first, last) ==> first <= x.0 < x.1 <= last
  {
    forall x | x in InnerNodes(first, last)
      ensures first <= x.0 < x.1 <= last
    {
      InnerNodesExact(first, last, x);
      NodeBounds(first, last, x.0, x.1);
    }
  }

  lemma CardinalityOfParts<T>(x: T, s: set<T>, t: set<T>)
    requires x !in s && x !in t && s !! t
    ensures |{x} + s + t| == 1 + |s| + |t|
  {
    assert |{x} + s| == 1 + |s|;
  }

  /** `n` leaves have exactly `n - 1` inner nodes. */
  lemma {:induction false} InnerNodesCount(first: nat, last: nat)
    requires first <= last
    ensures |InnerNodes(first, last)| == last - first
    decreases last - first
  {
    if first < last {
      InnerNodesCount(first, Split(first, last) - 1);
      InnerNodesCount(Split(first, last), last);
      InnerNodesSplit(first, last);
    }
  }

  lemma InnerNodesSplit(first: nat, last: nat)
    requires first < last
    ensures |InnerNodes(first, last)|
         == 1 + |InnerNodes(first, Split(first, last) - 1)| + |InnerNodes(Split(first, last), last)|
  {
    var m := Split(first, last);
    InnerNodesWithin(first, m - 1);
    InnerNodesWithin(m, last);
    CardinalityOfParts((first, last), InnerNodes(first, m - 1), InnerNodes(m, last));
  }

  /** The merge rounds the node `a..b` needs. */
  function NodeHeight(a: nat, b: nat): nat
    requires a <= b
  {
    Height(b + 1 - a)
  }

  /** The left half is exactly one round lower; the right half is at least one round lower. */
  lemma HeightStep(a: nat, b: nat)
    requires a < b
    ensures NodeHeight(a, Split(a, b) - 1) == NodeHeight(a, b) - 1
    ensures NodeHeight(Split(a, b), b) <= NodeHeight(a, b) - 1
  {
    var n := b + 1 - a;
    var p := SplitSize(n);
    SplitSizeHeight(n);
    CeilPow2Height(p);
    SplitSizeIsCeil(n);
    Pow2Order(Height(p), Height(n) - 1);
    Pow2Order(Height(n) - 1, Height(p));
    CeilPow2Monotone(n - p, p);
  }
}
