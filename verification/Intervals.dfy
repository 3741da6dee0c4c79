/** The augmented AVL tree of `src/js/private/intervaltree.js` as a value. */
module Intervals {
  /** An interval with both ends included, and what the client stored with it: nothing, or an
      index and the name and colour of a span. */
  datatype Record = Record(low: int, high: int, data: Data)

  datatype Data = Nothing | Entry(index: int, name: string, color: int)

  datatype Tree =
    | Empty
    | Node(key: int, records: seq<Record>, height: int, max: int, left: Tree, right: Tree)

  function Max(a: int, b: int): int { if a < b then b else a }

  /** `height`; a missing child has -1. */
  function H(t: Tree): int { if t.Empty? then -1 else t.height }

  /** The records in key order. */
  ghost function Records(t: Tree): seq<Record> {
    if t.Empty? then [] else Records(t.left) + t.records + Records(t.right)
  }

  /** The largest `high`, as `getNodeHigh` computes it. */
  function High(s: seq<Record>): int
    requires s != []
  {
    if |s| == 1 then s[0].high else Max(High(s[..|s| - 1]), s[|s| - 1].high)
  }

  // ------------------------------------------------------------------ the invariant

  ghost predicate AllBelow(t: Tree, k: int) {
    forall r :: r in Records(t) ==> r.low < k
  }

  ghost predicate AllAbove(t: Tree, k: int) {
    forall r :: r in Records(t) ==> k < r.low
  }

  /** Search tree order; a node holds the records with its key, at least one. */
  ghost predicate Ordered(t: Tree) {
    t.Node? ==>
      && t.records != [] && (forall r :: r in t.records ==> r.low == t.key && r.low <= r.high)
      && Ordered(t.left) && Ordered(t.right) && AllBelow(t.left, t.key) && AllAbove(t.right, t.key)
  }

  /** Stored heights are true and differ by at most one between siblings. */
  ghost predicate Balanced(t: Tree) {
    t.Node? ==>
      && Balanced(t.left) && Balanced(t.right)
      && t.height == Max(H(t.left), H(t.right)) + 1
      && H(t.left) - 1 <= H(t.right) <= H(t.left) + 1
  }

  /** `max` is the largest `high` in the subtree. */
  ghost predicate Marked(t: Tree) {
    t.Node? ==>
      && t.records != [] && Marked(t.left) && Marked(t.right) && Records(t) != [] && t.max == High(Records(t))
  }

  ghost predicate Sound(t: Tree) {
    Ordered(t) && Balanced(t) && Marked(t)
  }

  lemma HeightFloor(t: Tree)
    requires Balanced(t)
    ensures H(t) >= -1 && (H(t) == -1 <==> t.Empty?)
  {
  }

  /** The bound is exact: it is reached and never passed. */
  lemma {:induction false} HighIs(s: seq<Record>)
    requires s != []
    ensures forall r :: r in s ==> r.high <= High(s)
    ensures exists r :: r in s && r.high == High(s)
    decreases |s|
  {
    var n := |s| - 1;
    if n > 0 {
      HighIs(s[..n]);
      assert forall r :: r in s ==> r in s[..n] || r == s[n];
      if High(s) == s[n].high {
        assert s[n] in s;
      } else {
        var r :| r in s[..n] && r.high == High(s[..n]);
        assert r in s;
      }
    } else {
      assert s[0] in s;
    }
  }

  lemma HighBoth(a: seq<Record>, b: seq<Record>)
    requires a != [] || b != []
    ensures High(a + b) == if a == [] then High(b) else if b == [] then High(a) else Max(High(a), High(b))
  {
    if a == [] {
      assert a + b == b;
    } else if b == [] {
      assert a + b == a;
    } else {
      HighIs(a);
      HighIs(b);
      HighIs(a + b);
      var x :| x in a && x.high == High(a);
      var y :| y in b && y.high == High(b);
      assert x in a + b && y in a + b;
    }
  }

  /** The four cases in which the code combines the maxima of the children and the node. */
  function MaxOf(t: Tree): int
    requires t.Node? && t.records != []
  {
    if t.left.Empty? && t.right.Node? then Max(High(t.records), t.right.max)
    else if t.left.Node? && t.right.Empty? then Max(High(t.records), t.left.max)
    else if t.left.Empty? && t.right.Empty? then High(t.records)
    else Max(Max(t.left.max, t.right.max), High(t.records))
  }

  lemma MaxOfIs(t: Tree)
    requires t.Node? && t.records != [] && Marked(t.left) && Marked(t.right)
    ensures Records(t) != [] && MaxOf(t) == High(Records(t))
  {
    HighBoth(Records(t.left), t.records);
    HighBoth(Records(t.left) + t.records, Records(t.right));
  }

  // ------------------------------------------------------------------ rotations

  function WithHeight(t: Tree): Tree
    requires t.Node?
  {
    t.(height := Max(H(t.left), H(t.right)) + 1)
  }

  function WithMax(t: Tree): Tree
    requires t.Node? && t.records != []
  {
    t.(max := MaxOf(t))
  }

  function RotateLeft(t: Tree): Tree
    requires t.Node? && t.right.Node?
  {
    var z := WithHeight(t.(right := t.right.left));
    WithHeight(t.right.(left := z))
  }

  function RotateRight(t: Tree): Tree
    requires t.Node? && t.left.Node?
  {
    var z := WithHeight(t.(left := t.left.right));
    WithHeight(t.left.(right := z))
  }

  /** `_updateMaxAfterLeftRotate` and `_updateMaxAfterRightRotate`: both children, then the node. */
  function Remarked(t: Tree): Tree
    requires t.Node? && t.left.Node? && t.right.Node? && t.records != [] && t.left.records != []
      && t.right.records != []
  {
    WithMax(t.(left := WithMax(t.left), right := WithMax(t.right)))
  }

  /** The nodes that `_rebalance` is going to rotate are there and hold records. */
  predicate Rotatable(t: Tree) {
    && t.Node? && t.records != []
    && (H(t.left) >= 2 + H(t.right) ==>
          && t.left.Node? && t.left.records != []
          && var x := if H(t.left.left) >= H(t.left.right) then t.left.left else t.left.right;
          x.Node? && x.records != [])
    && (H(t.right) >= 2 + H(t.left) ==>
          && t.right.Node? && t.right.records != []
          && var x := if H(t.right.right) >= H(t.right.left) then t.right.right else t.right.left;
          x.Node? && x.records != [])
  }

  /** `_rebalance` */
  function Rebalance(t: Tree): Tree
    requires Rotatable(t)
  {
    if H(t.left) >= 2 + H(t.right) then
      if H(t.left.left) >= H(t.left.right) then Remarked(RotateRight(t))
      else Remarked(RotateRight(t.(left := RotateLeft(t.left))))
    else if H(t.right) >= 2 + H(t.left) then
      if H(t.right.right) >= H(t.right.left) then Remarked(RotateLeft(t))
      else Remarked(RotateLeft(t.(right := RotateRight(t.right))))
    else t
  }

  /** Balanced below, and off by at most two at the top. */
  ghost predicate NearlyBalanced(t: Tree) {
    && t.Node? && Balanced(t.left) && Balanced(t.right) && t.height == Max(H(t.left), H(t.right)) + 1
    && H(t.left) - 2 <= H(t.right) <= H(t.left) + 2
  }

  lemma CanRotate(t: Tree)
    requires NearlyBalanced(t) && t.records != [] && Marked(t.left) && Marked(t.right)
    ensures Rotatable(t)
  {
    HeightFloor(t.left);
    HeightFloor(t.right);
    if t.left.Node? {
      HeightFloor(t.left.left);
      HeightFloor(t.left.right);
    }
    if t.right.Node? {
      HeightFloor(t.right.left);
      HeightFloor(t.right.right);
    }
  }

  lemma RotatedRight(t: Tree)
    requires t.Node? && t.left.Node? && Balanced(t.left.left) && Balanced(t.left.right) && Balanced(t.right)
    requires H(t.left.right) - 1 <= H(t.right) <= H(t.left.right) + 1
    requires H(t.left.left) - 1 <= Max(H(t.left.right), H(t.right)) + 1 <= H(t.left.left) + 1
    ensures Balanced(RotateRight(t)) && H(RotateRight(t))
      == Max(H(t.left.left), Max(H(t.left.right), H(t.right)) + 1) + 1
  {
  }

  lemma RotatedLeft(t: Tree)
    requires t.Node? && t.right.Node? && Balanced(t.right.left) && Balanced(t.right.right) && Balanced(t.left)
    requires H(t.right.left) - 1 <= H(t.left) <= H(t.right.left) + 1
    requires H(t.right.right) - 1 <= Max(H(t.right.left), H(t.left)) + 1 <= H(t.right.right) + 1
    ensures Balanced(RotateLeft(t)) && H(RotateLeft(t))
      == Max(H(t.right.right), Max(H(t.right.left), H(t.left)) + 1) + 1
  {
  }

  lemma RemarkedBalanced(t: Tree)
    requires Balanced(t) && t.Node? && t.left.Node? && t.right.Node?
    requires t.records != [] && t.left.records != [] && t.right.records != []
    ensures Balanced(Remarked(t)) && H(Remarked(t)) == H(t) && Remarked(t).Node?
  {
  }

  /** Where the four subtrees and the three nodes of a double rotation end up. */
  lemma DoubleRight(t: Tree)
    requires t.Node? && t.left.Node? && t.left.right.Node?
    ensures var y, x := t.left, t.left.right;
      var l, r := WithHeight(y.(right := x.left)), WithHeight(t.(left := x.right));
      RotateRight(t.(left := RotateLeft(y))) == WithHeight(x.(left := l, right := r))
  {
  }

  lemma DoubleLeft(t: Tree)
    requires t.Node? && t.right.Node? && t.right.left.Node?
    ensures var y, x := t.right, t.right.left;
      var l, r := WithHeight(t.(right := x.left)), WithHeight(y.(left := x.right));
      RotateLeft(t.(right := RotateRight(y))) == WithHeight(x.(left := l, right := r))
  {
  }

  lemma BalancedParts(t: Tree)
    requires Balanced(t) && t.Node?
    ensures Balanced(t.left) && Balanced(t.right) && t.height == Max(H(t.left), H(t.right)) + 1
    ensures H(t.left) - 1 <= H(t.right) <= H(t.left) + 1
  {
  }

  /** The result of `_rebalance` before the maxima are set: `x` on top of `l` and `r`. */
  lemma Joined(t: Tree, l: Tree, r: Tree)
    requires t.Node? && Balanced(l) && Balanced(r) && H(l) - 1 <= H(r) <= H(l) + 1
    ensures Balanced(WithHeight(t.(left := l, right := r)))
      && H(WithHeight(t.(left := l, right := r))) == Max(H(l), H(r)) + 1
  {
  }

  lemma DoubleRightBalances(t: Tree)
    requires NearlyBalanced(t) && Rotatable(t) && H(t.left) >= 2 + H(t.right) && H(t.left.left) < H(t.left.right)
    ensures var u := RotateRight(t.(left := RotateLeft(t.left)));
      && Balanced(u) && u.Node? && u.left.Node? && u.right.Node? && H(u) == t.height - 1
      && u.records != [] && u.left.records != [] && u.right.records != []
  {
    var y, x := t.left, t.left.right;
    DoubleRight(t);
    BalancedParts(y);
    BalancedParts(x);
    Joined(y, y.left, x.left);
    Joined(t, x.right, t.right);
    Joined(x, WithHeight(y.(right := x.left)), WithHeight(t.(left := x.right)));
  }

  lemma DoubleLeftBalances(t: Tree)
    requires NearlyBalanced(t) && Rotatable(t) && H(t.right) >= 2 + H(t.left) && H(t.right.right) < H(t.right.left)
    ensures var u := RotateLeft(t.(right := RotateRight(t.right)));
      && Balanced(u) && u.Node? && u.left.Node? && u.right.Node? && H(u) == t.height - 1
      && u.records != [] && u.left.records != [] && u.right.records != []
  {
    var y, x := t.right, t.right.left;
    DoubleLeft(t);
    BalancedParts(y);
    BalancedParts(x);
    Joined(t, t.left, x.left);
    Joined(y, x.right, y.right);
    Joined(x, WithHeight(t.(right := x.left)), WithHeight(y.(left := x.right)));
  }

  /** In all four cases the result is balanced, and at most one level was lost. */
  lemma RebalanceBalances(t: Tree)
    requires NearlyBalanced(t) && Rotatable(t)
    ensures Balanced(Rebalance(t)) && Rebalance(t).Node?
    ensures if H(t.left) - 1 <= H(t.right) <= H(t.left) + 1 then Rebalance(t) == t
            else t.height - 1 <= H(Rebalance(t)) <= t.height
  {
    hide Remarked, WithMax, MaxOf;
    if H(t.left) >= 2 + H(t.right) {
      BalancedParts(t.left);
      if H(t.left.left) >= H(t.left.right) {
        RotatedRight(t);
        RemarkedBalanced(RotateRight(t));
      } else {
        DoubleRightBalances(t);
        RemarkedBalanced(RotateRight(t.(left := RotateLeft(t.left))));
      }
    } else if H(t.right) >= 2 + H(t.left) {
      BalancedParts(t.right);
      if H(t.right.right) >= H(t.right.left) {
        RotatedLeft(t);
        RemarkedBalanced(RotateLeft(t));
      } else {
        DoubleLeftBalances(t);
        RemarkedBalanced(RotateLeft(t.(right := RotateRight(t.right))));
      }
    }
  }

  lemma Regroup(a: seq<Record>, b: seq<Record>, c: seq<Record>, d: seq<Record>, e: seq<Record>)
    ensures a + b + (c + d + e) == (a + b + c) + d + e
  {
  }

  lemma LeftRecords(t: Tree)
    requires t.Node? && t.right.Node?
    ensures Records(RotateLeft(t)) == Records(t)
  {
    hide H, Max;
    Regroup(Records(t.left), t.records, Records(t.right.left), t.right.records, Records(t.right.right));
    var z := WithHeight(t.(right := t.right.left));
    assert Records(z) == Records(t.left) + t.records + Records(t.right.left);
    assert Records(RotateLeft(t)) == Records(z) + t.right.records + Records(t.right.right);
  }

  lemma RightRecords(t: Tree)
    requires t.Node? && t.left.Node?
    ensures Records(RotateRight(t)) == Records(t)
  {
    hide H, Max;
    Regroup(Records(t.left.left), t.left.records, Records(t.left.right), t.records, Records(t.right));
    var z := WithHeight(t.(left := t.left.right));
    assert Records(z) == Records(t.left.right) + t.records + Records(t.right);
    assert Records(RotateRight(t)) == Records(t.left.left) + t.left.records + Records(z);
  }

  lemma OrderedMax(t: Tree)
    requires Ordered(t) && t.Node?
    ensures Ordered(WithMax(t)) && Records(WithMax(t)) == Records(t)
  {
  }

  lemma RemarkedRecords(t: Tree)
    requires t.Node? && t.left.Node? && t.right.Node? && t.records != [] && t.left.records != []
      && t.right.records != []
    ensures Records(Remarked(t)) == Records(t)
    ensures Ordered(t) ==> Ordered(Remarked(t))
  {
    hide MaxOf, AllBelow, AllAbove;
    var l, r := WithMax(t.left), WithMax(t.right);
    assert Records(l) == Records(t.left) && Records(r) == Records(t.right);
    if Ordered(t) {
      OrderedMax(t.left);
      OrderedMax(t.right);
      SwapOrdered(t, l, r);
      OrderedMax(t.(left := l, right := r));
    }
  }

  lemma LeftOrdered(t: Tree)
    requires Ordered(t) && t.Node? && t.right.Node?
    ensures Ordered(RotateLeft(t))
  {
    hide H, Max;
    var r := t.right;
    assert r.records[0] in Records(r);
    assert forall x :: x in Records(r.left) ==> x in Records(r);
    var z := WithHeight(t.(right := r.left));
    assert Records(z) == Records(t.left) + t.records + Records(r.left);
    assert Ordered(z);
    assert AllBelow(z, r.key);
  }

  lemma RightOrdered(t: Tree)
    requires Ordered(t) && t.Node? && t.left.Node?
    ensures Ordered(RotateRight(t))
  {
    hide H, Max;
    var l := t.left;
    assert l.records[0] in Records(l);
    assert forall x :: x in Records(l.right) ==> x in Records(l);
    var z := WithHeight(t.(left := l.right));
    assert Records(z) == Records(l.right) + t.records + Records(t.right);
    assert Ordered(z);
    assert AllAbove(z, l.key);
  }

  lemma SwapOrdered(t: Tree, l: Tree, r: Tree)
    requires Ordered(t) && t.Node? && Ordered(l) && Ordered(r)
    requires Records(l) == Records(t.left) && Records(r) == Records(t.right)
    ensures Ordered(t.(left := l, right := r)) && Records(t.(left := l, right := r)) == Records(t)
  {
  }

  /** Rebalancing moves no record, and searching still works. */
  lemma RebalanceOrdered(t: Tree)
    requires Ordered(t) && Rotatable(t)
    ensures Ordered(Rebalance(t)) && Records(Rebalance(t)) == Records(t)
  {
    hide Ordered, Records, RotateLeft, RotateRight, Remarked;
    if H(t.left) >= 2 + H(t.right) {
      var u := t;
      if H(t.left.left) < H(t.left.right) {
        ChildrenOrdered(t);
        LeftOrdered(t.left);
        LeftRecords(t.left);
        u := t.(left := RotateLeft(t.left));
        SwapOrdered(t, RotateLeft(t.left), t.right);
      }
      RightShape(t, u);
      RightOrdered(u);
      RightRecords(u);
      RemarkedRecords(RotateRight(u));
    } else if H(t.right) >= 2 + H(t.left) {
      var u := t;
      if H(t.right.right) < H(t.right.left) {
        ChildrenOrdered(t);
        RightOrdered(t.right);
        RightRecords(t.right);
        u := t.(right := RotateRight(t.right));
        SwapOrdered(t, t.left, RotateRight(t.right));
      }
      LeftShape(t, u);
      LeftOrdered(u);
      LeftRecords(u);
      RemarkedRecords(RotateLeft(u));
    }
  }

  lemma ChildrenOrdered(t: Tree)
    requires Ordered(t) && t.Node?
    ensures Ordered(t.left) && Ordered(t.right)
  {
  }

  lemma RightShape(t: Tree, u: Tree)
    requires Rotatable(t) && H(t.left) >= 2 + H(t.right)
    requires u == if H(t.left.left) >= H(t.left.right) then t else t.(left := RotateLeft(t.left))
    ensures u.Node? && u.left.Node? && var r := RotateRight(u);
      && r.Node? && r.left.Node? && r.right.Node? && r.records != [] && r.left.records != [] && r.right.records != []
      && Rebalance(t) == Remarked(r)
  {
  }

  lemma LeftShape(t: Tree, u: Tree)
    requires Rotatable(t) && !(H(t.left) >= 2 + H(t.right)) && H(t.right) >= 2 + H(t.left)
    requires u == if H(t.right.right) >= H(t.right.left) then t else t.(right := RotateRight(t.right))
    ensures u.Node? && u.right.Node? && var r := RotateLeft(u);
      && r.Node? && r.left.Node? && r.right.Node? && r.records != [] && r.left.records != [] && r.right.records != []
      && Rebalance(t) == Remarked(r)
  {
  }

  lemma RemarkedMarked(t: Tree)
    requires t.Node? && t.left.Node? && t.right.Node? && t.records != [] && t.left.records != []
      && t.right.records != []
    requires Marked(t.left.left) && Marked(t.left.right) && Marked(t.right.left) && Marked(t.right.right)
    ensures Marked(Remarked(t))
  {
    MaxOfIs(t.left);
    MaxOfIs(t.right);
    MaxOfIs(t.(left := WithMax(t.left), right := WithMax(t.right)));
  }

  /** All maxima are right again after a rotation. */
  lemma RebalanceMarked(t: Tree)
    requires Marked(t) && Rotatable(t)
    ensures Marked(Rebalance(t))
  {
    hide Remarked, MaxOf, Records, High, Max, H;
    MarkedChildren(t);
    MarkedChildren(t.left);
    MarkedChildren(t.right);
    if H(t.left) >= 2 + H(t.right) {
      if H(t.left.left) >= H(t.left.right) {
        RemarkedMarked(RotateRight(t));
      } else {
        DoubleRight(t);
        RemarkedMarked(RotateRight(t.(left := RotateLeft(t.left))));
      }
    } else if H(t.right) >= 2 + H(t.left) {
      if H(t.right.right) >= H(t.right.left) {
        RemarkedMarked(RotateLeft(t));
      } else {
        DoubleLeft(t);
        RemarkedMarked(RotateLeft(t.(right := RotateRight(t.right))));
      }
    }
  }

  lemma MarkedChildren(t: Tree)
    requires Marked(t)
    ensures t.Node? ==> Marked(t.left) && Marked(t.right)
    ensures t.Node? && t.left.Node? ==> Marked(t.left.left) && Marked(t.left.right)
    ensures t.Node? && t.right.Node? ==> Marked(t.right.left) && Marked(t.right.right)
  {
  }

  // ------------------------------------------------------------------ insertion

  /** `r` behind all records with the same or a smaller `low`. */
  ghost function Placed(s: seq<Record>, r: Record): seq<Record>
    decreases |s|
  {
    if s == [] then [r]
    else if r.low < s[0].low then [r] + s
    else [s[0]] + Placed(s[1..], r)
  }

  /** Where that is: everything in front of it has a `low` that is not larger, the next one a larger. */
  lemma {:induction false} PlacedBehind(s: seq<Record>, r: Record) returns (n: nat)
    ensures n <= |s| && Placed(s, r) == s[..n] + [r] + s[n..]
    ensures (forall i :: 0 <= i < n ==> s[i].low <= r.low) && (n < |s| ==> r.low < s[n].low)
    decreases |s|
  {
    if s == [] || r.low < s[0].low {
      n := 0;
    } else {
      var k := PlacedBehind(s[1..], r);
      n := k + 1;
      assert s[..n] == [s[0]] + s[1..][..k] && s[n..] == s[1..][k..];
      forall i | 0 <= i < n ensures s[i].low <= r.low {
        assert i > 0 ==> s[i] == s[1..][i - 1];
      }
    }
  }

  lemma {:induction false} PlacedLeft(a: seq<Record>, b: seq<Record>, r: Record)
    requires b != [] && r.low < b[0].low
    ensures Placed(a + b, r) == Placed(a, r) + b
    decreases |a|
  {
    if a == [] {
      assert a + b == b;
    } else {
      assert (a + b)[1..] == a[1..] + b;
      PlacedLeft(a[1..], b, r);
    }
  }

  lemma {:induction false} PlacedRight(a: seq<Record>, b: seq<Record>, r: Record)
    requires forall x :: x in a ==> x.low <= r.low
    ensures Placed(a + b, r) == a + Placed(b, r)
    decreases |a|
  {
    if a == [] {
      assert a + b == b;
    } else {
      assert (a + b)[1..] == a[1..] + b;
      PlacedRight(a[1..], b, r);
    }
  }

  lemma {:induction false} PlacedHas(s: seq<Record>, r: Record)
    ensures forall x :: x in Placed(s, r) <==> x in s || x == r
    decreases |s|
  {
    if s != [] {
      PlacedHas(s[1..], r);
      assert s == [s[0]] + s[1..];
    }
  }

  ghost predicate Fresh(t: Tree, low: int) {
    forall x :: x in Records(t) ==> x.low != low
  }

  function NewNode(r: Record): Tree { Node(r.low, [r], 0, r.high, Empty, Empty) }

  /** `this.max`, raised if needed, and the height, before the rebalancing. */
  function Raised(t: Tree, high: int): Tree
    requires t.Node?
  {
    WithHeight(if t.max < high then t.(max := high) else t)
  }

  /** `Node.insert` */
  ghost function Inserted(t: Tree, r: Record): (u: Tree)
    requires Sound(t) && Fresh(t, r.low) && r.low <= r.high
    ensures Sound(u) && u.Node? && H(t) <= H(u) <= H(t) + 1 && Records(u) == Placed(Records(t), r)
  {
    hide Ordered, Balanced, Marked, Rebalance, Raised, Placed;
    if t.Empty? then NewSound(r); NewNode(r)
    else
      SoundChildren(t);
      var u := if r.low < t.key then t.(left := Inserted(t.left, r)) else t.(right := Inserted(t.right, r));
      InsertReady(t, u, r);
      Rebalance(Raised(u, r.high))
  }

  lemma NewSound(r: Record)
    requires r.low <= r.high
    ensures Sound(NewNode(r)) && Records(NewNode(r)) == Placed([], r)
  {
    var t := NewNode(r);
    assert Records(t) == [r];
  }

  lemma SoundChildren(t: Tree)
    requires Sound(t) && t.Node?
    ensures Sound(t.left) && Sound(t.right)
    ensures forall x :: x in Records(t.left) || x in Records(t.right) ==> x in Records(t)
    ensures t.records != [] && t.records[0] in Records(t) && t.records[0].low == t.key
  {
    assert Records(t) == Records(t.left) + t.records + Records(t.right);
  }

  /** A child replaced by one with one more record. */
  ghost predicate OneMore(t: Tree, u: Tree, r: Record) {
    && t.Node? && u.Node? && u == t.(left := u.left, right := u.right)
    && if r.low < t.key then
         u.right == t.right && Sound(u.left) && H(t.left) <= H(u.left) <= H(t.left) + 1
         && Records(u.left) == Placed(Records(t.left), r)
       else
         u.left == t.left && Sound(u.right) && H(t.right) <= H(u.right) <= H(t.right) + 1
         && Records(u.right) == Placed(Records(t.right), r)
  }

  lemma OneMoreRecords(t: Tree, u: Tree, r: Record)
    requires Ordered(t) && OneMore(t, u, r)
    ensures Records(u) == Placed(Records(t), r)
  {
    var a, b, c := Records(t.left), t.records, Records(t.right);
    if r.low < t.key {
      PlacedLeft(a, b + c, r);
      assert a + (b + c) == a + b + c;
      assert Placed(a, r) + (b + c) == Placed(a, r) + b + c;
    } else {
      PlacedRight(a + b, c, r);
    }
  }

  lemma OneMoreOrdered(t: Tree, u: Tree, r: Record)
    requires Ordered(t) && OneMore(t, u, r) && Fresh(t, r.low)
    ensures Ordered(u)
  {
    assert t.records[0] in Records(t) && t.records[0].low == t.key;
    PlacedHas(Records(t.left), r);
    PlacedHas(Records(t.right), r);
  }

  lemma RaisedMarked(t: Tree, u: Tree, r: Record)
    requires Marked(t) && OneMore(t, u, r) && Records(u) == Placed(Records(t), r)
    ensures Marked(Raised(u, r.high)) && Records(Raised(u, r.high)) == Records(u)
  {
    PlacedHas(Records(t), r);
    HighIs(Records(t));
    HighIs(Records(u));
    var x :| x in Records(u) && x.high == High(Records(u));
    var y :| y in Records(t) && y.high == High(Records(t));
    assert r in Records(u) && y in Records(u);
  }

  lemma RaisedOrdered(u: Tree, high: int)
    requires Ordered(u) && u.Node?
    ensures Ordered(Raised(u, high))
  {
  }

  lemma InsertReady(t: Tree, u: Tree, r: Record)
    requires Sound(t) && t.Node? && Fresh(t, r.low) && OneMore(t, u, r)
    ensures var w := Raised(u, r.high);
      && Rotatable(w) && Sound(Rebalance(w)) && Rebalance(w).Node?
      && H(t) <= H(Rebalance(w)) <= H(t) + 1 && Records(Rebalance(w)) == Placed(Records(t), r)
  {
    var w := Raised(u, r.high);
    OneMoreRecords(t, u, r);
    OneMoreOrdered(t, u, r);
    RaisedMarked(t, u, r);
    RaisedOrdered(u, r.high);
    NearlyThere(t, u, r);
    hide Records, Ordered, Marked, Balanced, Raised, OneMore, Placed, Rebalance;
    CanRotate(w);
    RebalanceOrdered(w);
    RebalanceMarked(w);
    RebalanceBalances(w);
  }

  lemma NearlyThere(t: Tree, u: Tree, r: Record)
    requires Sound(t) && OneMore(t, u, r)
    ensures var w := Raised(u, r.high);
      && NearlyBalanced(w) && w.records != [] && Marked(w.left) && Marked(w.right)
      && H(t) <= w.height <= H(t) + 1
      && (!(H(w.left) - 1 <= H(w.right) <= H(w.left) + 1) ==> w.height == H(t) + 1)
  {
  }

  // ------------------------------------------------------------------ one more record for a key

  /** A record for a key that is there: the node gets it, and the maxima above are computed again. */
  ghost function Pushed(t: Tree, r: Record): (u: Tree)
    requires Sound(t) && !Fresh(t, r.low) && r.low <= r.high
    ensures Sound(u) && u.Node? && H(u) == H(t) && Records(u) == Placed(Records(t), r)
  {
    if t.Empty? then t
    else
      SoundChildren(t);
      if r.low == t.key then
        PushHere(t, r);
        t.(records := t.records + [r], max := Max(t.max, r.high))
      else if r.low < t.key then
        OtherSides(t, r.low);
        var u := t.(left := Pushed(t.left, r));
        PushAbove(t, u, r);
        WithMax(u)
      else
        OtherSides(t, r.low);
        var u := t.(right := Pushed(t.right, r));
        PushAbove(t, u, r);
        WithMax(u)
  }

  /** The search for a key goes the right way. */
  lemma OtherSides(t: Tree, low: int)
    requires Ordered(t) && t.Node?
    ensures low < t.key ==> (Fresh(t, low) <==> Fresh(t.left, low))
    ensures low > t.key ==> (Fresh(t, low) <==> Fresh(t.right, low))
    ensures low == t.key ==> !Fresh(t, low)
  {
    assert Records(t) == Records(t.left) + t.records + Records(t.right);
    assert t.records[0] in t.records && t.records[0] in Records(t);
  }

  lemma PlacedFirst(s: seq<Record>, r: Record)
    requires s != [] ==> r.low < s[0].low
    ensures Placed(s, r) == [r] + s
  {
  }

  lemma PushRecords(t: Tree, u: Tree, r: Record)
    requires Ordered(t) && t.Node? && u.Node? && r.low == t.key && u == t.(records := t.records + [r], max := u.max)
    ensures Records(u) == Placed(Records(t), r)
  {
    hide High, Placed;
    var a, b, c := Records(t.left), t.records, Records(t.right);
    assert forall x: Record :: x in a + b ==> x.low <= r.low;
    PlacedRight(a + b, c, r);
    assert c != [] ==> c[0] in c;
    PlacedFirst(c, r);
    Around(a, b, r, c);
  }

  lemma Around(a: seq<Record>, b: seq<Record>, r: Record, c: seq<Record>)
    ensures a + b + ([r] + c) == a + (b + [r]) + c
  {
  }

  lemma PushHere(t: Tree, r: Record)
    requires Sound(t) && t.Node? && r.low == t.key && r.low <= r.high
    ensures var u := t.(records := t.records + [r], max := Max(t.max, r.high));
      Sound(u) && H(u) == H(t) && Records(u) == Placed(Records(t), r)
  {
    var u := t.(records := t.records + [r], max := Max(t.max, r.high));
    PushRecords(t, u, r);
    PlacedHas(Records(t), r);
    hide Records, High, Placed;
    assert r in Records(u);
    HighMore(Records(t), Records(u), r);
  }

  /** The largest end, with one more record. */
  lemma HighMore(s: seq<Record>, w: seq<Record>, r: Record)
    requires s != [] && w != [] && forall x :: x in w <==> x in s || x == r
    ensures High(w) == Max(High(s), r.high)
  {
    hide High;
    HighIs(s);
    HighIs(w);
    var y :| y in s && y.high == High(s);
    assert y in w && r in w;
  }

  lemma PushAbove(t: Tree, u: Tree, r: Record)
    requires Sound(t) && OneMore(t, u, r) && r.low != t.key
    requires H(u.left) == H(t.left) && H(u.right) == H(t.right)
    ensures Sound(WithMax(u)) && H(WithMax(u)) == H(t) && Records(WithMax(u)) == Placed(Records(t), r)
  {
    OneMoreRecords(t, u, r);
    PlacedHas(Records(t.left), r);
    PlacedHas(Records(t.right), r);
    MaxOfIs(u);
    assert Ordered(u);
    OrderedMax(u);
  }

  // ------------------------------------------------------------------ search

  ghost predicate Overlaps(r: Record, low: int, high: int) {
    r.low <= high && low <= r.high
  }

  predicate Within(x: int, low: int, high: int) { low <= x <= high }

  /** Two ranges overlap when they have a place in common. */
  lemma OverlapsMeets(r: Record, low: int, high: int)
    requires r.low <= r.high && low <= high
    ensures Overlaps(r, low, high) <==> exists x :: Within(x, r.low, r.high) && Within(x, low, high)
  {
    if Overlaps(r, low, high) {
      var x := Max(r.low, low);
      assert Within(x, r.low, r.high) && Within(x, low, high);
    }
  }

  ghost predicate Ascending(s: seq<Record>) {
    forall i, j :: 0 <= i < j < |s| ==> s[i].low <= s[j].low
  }

  /** The records of a search tree are in the order of their `low`. */
  lemma {:induction false} RecordsAscend(t: Tree)
    requires Ordered(t)
    ensures Ascending(Records(t))
  {
    if t.Node? {
      RecordsAscend(t.left);
      RecordsAscend(t.right);
      var a, b, c := Records(t.left), t.records, Records(t.right);
      assert forall i :: 0 <= i < |a| ==> a[i] in a;
      assert forall i :: 0 <= i < |b| ==> b[i] in b;
      assert forall i :: 0 <= i < |c| ==> c[i] in c;
      assert Ascending(b) && Ascending(a + b);
    }
  }

  /** The scan keeps the records that overlap, each as often as it is there. */
  lemma {:induction false} FilterCounts(s: seq<Record>, r: Record, low: int, high: int)
    ensures multiset(Filter(s, low, high))[r] == if Overlaps(r, low, high) then multiset(s)[r] else 0
    decreases |s|
  {
    if s != [] {
      FilterCounts(s[1..], r, low, high);
      assert s == [s[0]] + s[1..];
    }
  }

  /** The scan finds something exactly when a record overlaps. */
  lemma {:induction false} FilterFinds(s: seq<Record>, low: int, high: int)
    ensures forall r :: r in Filter(s, low, high) <==> r in s && Overlaps(r, low, high)
    decreases |s|
  {
    if s != [] {
      FilterFinds(s[1..], low, high);
      assert s == [s[0]] + s[1..];
    }
  }

  /** And it keeps their order. */
  lemma {:induction false} FilterAscends(s: seq<Record>, low: int, high: int)
    requires Ascending(s)
    ensures Ascending(Filter(s, low, high))
    decreases |s|
  {
    if s != [] {
      var rest := Filter(s[1..], low, high);
      FilterAscends(s[1..], low, high);
      FilterFinds(s[1..], low, high);
      forall i | 0 <= i < |rest| ensures s[0].low <= rest[i].low {
        assert rest[i] in s[1..];
      }
    }
  }

  /** The linear scan that the tree search replaces. */
  ghost function Filter(s: seq<Record>, low: int, high: int): seq<Record> {
    if s == [] then [] else (if Overlaps(s[0], low, high) then [s[0]] else []) + Filter(s[1..], low, high)
  }

  lemma {:induction false} FilterBoth(a: seq<Record>, b: seq<Record>, low: int, high: int)
    ensures Filter(a + b, low, high) == Filter(a, low, high) + Filter(b, low, high)
    decreases |a|
  {
    if a == [] {
      assert a + b == b;
    } else {
      hide Overlaps;
      var first := if Overlaps(a[0], low, high) then [a[0]] else [];
      assert (a + b)[1..] == a[1..] + b && (a + b)[0] == a[0];
      FilterBoth(a[1..], b, low, high);
      Associative(first, Filter(a[1..], low, high), Filter(b, low, high));
    }
  }

  lemma Associative(a: seq<Record>, b: seq<Record>, c: seq<Record>)
    ensures a + (b + c) == a + b + c
  {
  }

  lemma {:induction false} FilterNone(s: seq<Record>, low: int, high: int)
    requires forall r :: r in s ==> !Overlaps(r, low, high)
    ensures Filter(s, low, high) == []
    decreases |s|
  {
    if s != [] {
      FilterNone(s[1..], low, high);
    }
  }

  /** The records of one node that reach `low`. */
  ghost function Reaching(s: seq<Record>, low: int): seq<Record> {
    if s == [] then [] else Reaching(s[..|s| - 1], low) + if s[|s| - 1].high >= low then [s[|s| - 1]] else []
  }

  /** `_getOverlappingRecords` */
  ghost function Own(t: Tree, low: int, high: int): seq<Record>
    requires t.Node? && t.records != []
  {
    if t.key <= high && low <= High(t.records) then Reaching(t.records, low) else []
  }

  lemma {:induction false} ReachingIsFilter(s: seq<Record>, low: int, high: int)
    requires forall r :: r in s ==> r.low <= high
    ensures Reaching(s, low) == Filter(s, low, high)
    decreases |s|
  {
    if s != [] {
      var n := |s| - 1;
      ReachingIsFilter(s[..n], low, high);
      assert s == s[..n] + [s[n]];
      FilterBoth(s[..n], [s[n]], low, high);
      assert [s[n]][1..] == [];
    }
  }

  lemma OwnIsFilter(t: Tree, low: int, high: int)
    requires Ordered(t) && t.Node?
    ensures Own(t, low, high) == Filter(t.records, low, high)
  {
    HighIs(t.records);
    if t.key <= high && low <= High(t.records) {
      ReachingIsFilter(t.records, low, high);
    } else {
      FilterNone(t.records, low, high);
    }
  }

  /** `Node.search`, with both of its cut-offs. */
  ghost function Search(t: Tree, low: int, high: int): seq<Record>
    requires Ordered(t)
  {
    if t.Empty? || low > t.max then []
    else
      var left := if t.left.Node? && t.left.max >= low then Search(t.left, low, high) else [];
      var own := Own(t, low, high);
      if high < t.key then left + own
      else left + own + Search(t.right, low, high)
  }

  /** The search finds exactly the overlapping records, in key order. */
  lemma {:induction false} SearchIsFilter(t: Tree, low: int, high: int)
    requires Ordered(t) && Marked(t)
    ensures Search(t, low, high) == Filter(Records(t), low, high)
  {
    if t.Node? {
      HighIs(Records(t));
      if low > t.max {
        FilterNone(Records(t), low, high);
      } else {
        FilterBoth(Records(t.left) + t.records, Records(t.right), low, high);
        FilterBoth(Records(t.left), t.records, low, high);
        OwnIsFilter(t, low, high);
        SearchIsFilter(t.left, low, high);
        if t.left.Node? && t.left.max < low {
          HighIs(Records(t.left));
          FilterNone(Records(t.left), low, high);
        }
        if high < t.key {
          FilterNone(Records(t.right), low, high);
        } else {
          SearchIsFilter(t.right, low, high);
        }
      }
    }
  }

  // ------------------------------------------------------------------ how flat the tree is

  ghost function Fib(n: nat): nat {
    if n < 2 then n else Fib(n - 1) + Fib(n - 2)
  }

  ghost function Size(t: Tree): nat {
    if t.Empty? then 0 else Size(t.left) + 1 + Size(t.right)
  }

  lemma {:induction false} FibGrows(m: nat, n: nat)
    requires m <= n
    ensures Fib(m) <= Fib(n)
    decreases n
  {
    if m < n {
      FibGrows(m, n - 1);
    }
  }

  /** A tree of height `h` has at least as many nodes as the Fibonacci number of `h + 3`, less one. */
  lemma {:induction false} FibBound(t: Tree)
    requires Balanced(t)
    ensures H(t) >= -1 && Size(t) + 1 >= Fib(H(t) + 3)
  {
    if t.Node? {
      FibBound(t.left);
      FibBound(t.right);
      FibGrows(t.height + 1, H(t.left) + 3);
      FibGrows(t.height + 1, H(t.right) + 3);
    }
  }
}
