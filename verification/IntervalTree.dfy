/** `src/js/private/intervaltree.js` in memory: nodes with links to their parents, rotated in
    place. */
module IntervalTree {
  import opened Intervals

  class Item {
    const key: int
    var records: seq<Record>
    var height: int
    var max: int
    var left: Item?
    var right: Item?
    var parent: Item?

    /** `new Node(tree, record)`, with the parent that the caller sets next. */
    constructor (record: Record, parent: Item?)
      ensures key == record.low && records == [record] && height == 0 && max == record.high
      ensures left == null && right == null && this.parent == parent
    {
      key, records, height, max := record.low, [record], 0, record.high;
      left, right, this.parent := null, null, parent;
    }

    function Fields(): Cell
      reads this
    {
      Cell(key, records, height, max, left, right, parent)
    }
  }

  datatype Cell = Cell(key: int, records: seq<Record>, height: int, max: int, left: Item?, right: Item?, parent: Item?)

  type Memory = map<Item, Cell>

  ghost predicate Shown(mem: Memory)
    reads mem.Keys
  {
    forall n {:trigger mem[n]} :: n in mem ==> n.Fields() == mem[n]
  }

  // ------------------------------------------------------------------ trees in memory

  ghost function Foot(mem: Memory, n: Item?, t: Tree): set<Item>
    decreases t
  {
    if n == null || n !in mem || t.Empty? then {}
    else {n} + Foot(mem, mem[n].left, t.left) + Foot(mem, mem[n].right, t.right)
  }

  /** The memory holds the tree `t` at `n`, below `p`: every node knows its parent. */
  ghost predicate Shape(mem: Memory, n: Item?, t: Tree, p: Item?)
    decreases t
  {
    if t.Empty? then n == null
    else
      && n != null && n in mem
      && var c := mem[n];
      && c == Cell(t.key, t.records, t.height, t.max, c.left, c.right, p)
      && Shape(mem, c.left, t.left, n) && Shape(mem, c.right, t.right, n)
      && n !in Foot(mem, c.left, t.left) && n !in Foot(mem, c.right, t.right)
      && Foot(mem, c.left, t.left) !! Foot(mem, c.right, t.right)
  }

  ghost predicate SameOn(mem: Memory, w: Memory, f: set<Item>) {
    forall x :: x in f && x in mem ==> x in w && w[x] == mem[x]
  }

  lemma {:induction false} FootKnown(mem: Memory, n: Item?, t: Tree, p: Item?)
    requires Shape(mem, n, t, p)
    ensures Foot(mem, n, t) <= mem.Keys && (t.Node? ==> n in Foot(mem, n, t))
    decreases t
  {
    if t.Node? {
      FootKnown(mem, mem[n].left, t.left, n);
      FootKnown(mem, mem[n].right, t.right, n);
    }
  }

  lemma {:induction false} Framed(mem: Memory, w: Memory, n: Item?, t: Tree, p: Item?)
    requires Shape(mem, n, t, p) && SameOn(mem, w, Foot(mem, n, t))
    ensures Shape(w, n, t, p) && Foot(w, n, t) == Foot(mem, n, t)
    decreases t
  {
    FootKnown(mem, n, t, p);
    if t.Node? {
      Framed(mem, w, mem[n].left, t.left, n);
      Framed(mem, w, mem[n].right, t.right, n);
    }
  }

  /** A subtree under another parent: only its top changes. */
  lemma Adopted(mem: Memory, w: Memory, n: Item?, t: Tree, p: Item?, q: Item?)
    requires Shape(mem, n, t, p) && SameOn(mem, w, Foot(mem, n, t) - {n})
    requires n != null ==> n in w && n in mem && w[n] == mem[n].(parent := q)
    ensures Shape(w, n, t, q) && Foot(w, n, t) == Foot(mem, n, t)
  {
    if t.Node? {
      FootKnown(mem, mem[n].left, t.left, n);
      FootKnown(mem, mem[n].right, t.right, n);
      Framed(mem, w, mem[n].left, t.left, n);
      Framed(mem, w, mem[n].right, t.right, n);
    }
  }

  /** A node with two subtrees under it. */
  lemma Assembled(w: Memory, n: Item, t: Tree, p: Item?)
    requires t.Node? && n in w && var c := w[n];
      && c == Cell(t.key, t.records, t.height, t.max, c.left, c.right, p)
      && Shape(w, c.left, t.left, n) && Shape(w, c.right, t.right, n)
      && n !in Foot(w, c.left, t.left) && n !in Foot(w, c.right, t.right)
      && Foot(w, c.left, t.left) !! Foot(w, c.right, t.right)
    ensures Shape(w, n, t, p) && Foot(w, n, t) == {n} + Foot(w, w[n].left, t.left) + Foot(w, w[n].right, t.right)
  {
  }

  /** `p` has `n` as exactly one of its children; without a parent `n` is the root. */
  ghost predicate Under(mem: Memory, root: Item?, n: Item?, f: set<Item>, p: Item?) {
    if p == null then root == n
    else p in mem && p !in f && ((mem[p].left == n) != (mem[p].right == n))
  }

  /** The link from above now leads to `y` instead of `z`. */
  ghost function Relinked(c: Cell, z: Item?, y: Item?): Cell {
    if c.left == z then c.(left := y) else c.(right := y)
  }

  /** From `mem` to `w` the subtree at `z` below `p` became the subtree at `y`, and nothing else
      changed but the link to it. */
  ghost predicate Replaced(mem: Memory, root: Item?, w: Memory, top: Item?, z: Item?, t: Tree, y: Item?, u: Tree,
                           p: Item?, f: set<Item>) {
    && mem.Keys <= w.Keys && w.Keys <= mem.Keys + f
    && Shape(w, y, u, p) && Foot(w, y, u) <= Foot(mem, z, t) + f
    && (if p == null then top == y else top == root && p in mem && w[p] == Relinked(mem[p], z, y))
    && (forall n :: n in mem && n !in Foot(mem, z, t) && n != p ==> w[n] == mem[n])
  }

  // ------------------------------------------------------------------ rotations in memory

  lemma HeightIs(mem: Memory, n: Item?, t: Tree, p: Item?)
    requires Shape(mem, n, t, p)
    ensures n == null <==> t.Empty?
    ensures n != null ==>
      && n in mem && mem[n].height == H(t) && mem[n].max == t.max && mem[n].records == t.records
      && mem[n].key == t.key && mem[n].parent == p
    ensures n != null ==> Shape(mem, mem[n].left, t.left, n) && Shape(mem, mem[n].right, t.right, n)
  {
  }

  ghost predicate Known(mem: Memory, n: Item?) { n == null || n in mem }

  ghost function HeightAt(mem: Memory, n: Item?): int
    requires Known(mem, n)
  {
    if n == null then -1 else mem[n].height
  }

  lemma RotatesToNode(t: Tree)
    requires t.Node?
    ensures t.right.Node? ==> RotateLeft(t).Node?
    ensures t.left.Node? ==> RotateRight(t).Node?
  {
  }

  lemma UnderParent(mem: Memory, root: Item?, n: Item?, f: set<Item>, p: Item?)
    requires Under(mem, root, n, f, p)
    ensures p == null ==> root == n
    ensures p != null ==> p in mem && p !in f && ((mem[p].left == n) != (mem[p].right == n))
  {
  }

  /** The links `_leftRotate` writes, one after the other. */
  ghost function LeftLinked(mem: Memory, z: Item, y: Item, b: Item?, p: Item?): (w: Memory)
    requires z in mem && y in mem && (b != null ==> b in mem) && (p != null ==> p in mem)
    ensures w.Keys == mem.Keys
  {
    var m1 := mem[y := mem[y].(parent := p)];
    var m2 := if p == null then m1 else m1[p := Relinked(m1[p], z, y)];
    var m3 := m2[z := m2[z].(right := b)];
    var m4 := if b == null then m3 else m3[b := m3[b].(parent := z)];
    var m5 := m4[y := m4[y].(left := z)];
    m5[z := m5[z].(parent := y)]
  }

  /** And the two heights. */
  ghost function LeftRotated(mem: Memory, z: Item, y: Item, b: Item?, p: Item?, hz: int, hy: int): Memory
    requires z in mem && y in mem && (b != null ==> b in mem) && (p != null ==> p in mem)
  {
    var m6 := LeftLinked(mem, z, y, b, p);
    var m7 := m6[z := m6[z].(height := hz)];
    m7[y := m7[y].(height := hy)]
  }

  /** The nodes a left rotation works on. */
  lemma LeftNodes(mem: Memory, z: Item, t: Tree, p: Item?)
    requires t.Node? && t.right.Node? && Shape(mem, z, t, p)
    ensures z in mem && mem[z].right != null && mem[z].right in mem && mem[z].parent == p
    ensures var y := mem[z].right; var b := mem[y].left;
      && y != z && (b != null ==> b in mem && b != y && b != z)
      && {z, y} <= Foot(mem, z, t) && (b != null ==> b in Foot(mem, z, t))
      && Shape(mem, mem[z].left, t.left, z) && Shape(mem, b, t.right.left, y)
      && Shape(mem, mem[y].right, t.right.right, y)
  {
    FootKnown(mem, z, t, p);
    FootKnown(mem, mem[z].right, t.right, z);
    FootKnown(mem, mem[mem[z].right].left, t.right.left, mem[z].right);
  }

  /** The slots of the three subtrees and the two nodes of a left rotation. */
  lemma LeftFeet(mem: Memory, z: Item, t: Tree, p: Item?)
    requires t.Node? && t.right.Node? && Shape(mem, z, t, p)
    requires z in mem && mem[z].right != null && mem[z].right in mem
    ensures var y := mem[z].right; var b := mem[y].left;
      var f, g, h := Foot(mem, mem[z].left, t.left), Foot(mem, b, t.right.left), Foot(mem, mem[y].right, t.right.right);
      && Foot(mem, z, t) == {z, y} + f + g + h && f !! g && f !! h && g !! h
      && z !in f && z !in g && z !in h && y !in f && y !in g && y !in h
      && (b != null ==> b in g) && f + g + h <= mem.Keys
  {
    FootKnown(mem, mem[z].left, t.left, z);
    FootKnown(mem, mem[z].right, t.right, z);
    FootKnown(mem, mem[mem[z].right].left, t.right.left, mem[z].right);
    FootKnown(mem, mem[mem[z].right].right, t.right.right, mem[z].right);
  }

  /** What the writes amount to. */
  lemma LeftRotatedIs(mem: Memory, z: Item, y: Item, b: Item?, p: Item?, hz: int, hy: int)
    requires z in mem && y in mem && (b != null ==> b in mem) && (p != null ==> p in mem)
    requires z != y && z != b && y != b && p != z && p != y && (p != null ==> p != b)
    ensures var w := LeftRotated(mem, z, y, b, p, hz, hy);
      && w.Keys == mem.Keys
      && w[z] == mem[z].(right := b, parent := y, height := hz)
      && w[y] == mem[y].(left := z, parent := p, height := hy)
      && (b != null ==> w[b] == mem[b].(parent := z))
      && (p != null ==> w[p] == Relinked(mem[p], z, y))
      && forall n :: n in mem && n != z && n != y && n != b && n != p ==> w[n] == mem[n]
  {
  }

  lemma LeftRotates(mem: Memory, root: Item?, z: Item, t: Tree, p: Item?)
    requires t.Node? && t.right.Node? && Shape(mem, z, t, p) && Under(mem, root, z, Foot(mem, z, t), p)
    ensures z in mem && mem[z].right != null && mem[z].right in mem
    ensures var y := mem[z].right; var b := mem[y].left;
      (b != null ==> b in mem) &&
      var w := LeftRotated(mem, z, y, b, p, Max(H(t.left), H(t.right.left)) + 1, RotateLeft(t).height);
      && Replaced(mem, root, w, if p == null then y else root, z, t, y, RotateLeft(t), p, {})
      && w.Keys == mem.Keys && Foot(w, y, RotateLeft(t)) == Foot(mem, z, t)
  {
    hide LeftRotated, Shape, Foot, RotateLeft;
    UnderParent(mem, root, z, Foot(mem, z, t), p);
    RotatesToNode(t);
    LeftNodes(mem, z, t, p);
    var y := mem[z].right;
    var b := mem[y].left;
    var w := LeftRotated(mem, z, y, b, p, Max(H(t.left), H(t.right.left)) + 1, RotateLeft(t).height);
    LeftRotatedIs(mem, z, y, b, p, Max(H(t.left), H(t.right.left)) + 1, RotateLeft(t).height);
    LeftFeet(mem, z, t, p);
    Framed(mem, w, mem[z].left, t.left, z);
    Framed(mem, w, mem[y].right, t.right.right, y);
    Adopted(mem, w, b, t.right.left, y, z);
    LeftBuilt(mem, w, z, y, b, t, p);
  }

  /** Both nodes put together again. */
  lemma LeftBuilt(mem: Memory, w: Memory, z: Item, y: Item, b: Item?, t: Tree, p: Item?)
    requires t.Node? && t.right.Node? && Shape(mem, z, t, p) && z in mem && mem[z].right == y && y in mem
      && mem[y].left == b
    requires z in w && w[z] == mem[z].(right := b, parent := y, height := Max(H(t.left), H(t.right.left)) + 1)
    requires y in w && w[y] == mem[y].(left := z, parent := p, height := RotateLeft(t).height)
    requires Shape(w, w[z].left, t.left, z) && Shape(w, b, t.right.left, z) && Shape(w, w[y].right, t.right.right, y)
    requires Foot(w, w[z].left, t.left) == Foot(mem, mem[z].left, t.left)
    requires Foot(w, b, t.right.left) == Foot(mem, b, t.right.left)
    requires Foot(w, w[y].right, t.right.right) == Foot(mem, mem[y].right, t.right.right)
    ensures Shape(w, y, RotateLeft(t), p) && Foot(w, y, RotateLeft(t)) == Foot(mem, z, t)
  {
    var u := RotateLeft(t);
    Assembled(w, z, u.left, y);
    Assembled(w, y, u, p);
  }

  /** The heights that `updateHeight` reads after the links are set. */
  lemma LeftHeights(m: Memory, w: Memory, z: Item, t: Tree, p: Item?)
    requires t.Node? && t.right.Node? && Shape(m, z, t, p) && (p != null ==> p in m && p !in Foot(m, z, t))
    requires z in m && m[z].right != null && m[z].right in m
    requires var y := m[z].right; var b := m[y].left; (b != null ==> b in m) && w == LeftLinked(m, z, y, b, p)
    ensures z in w && Known(w, w[z].left) && Known(w, w[z].right)
    ensures Max(HeightAt(w, w[z].left), HeightAt(w, w[z].right)) + 1 == Max(H(t.left), H(t.right.left)) + 1
  {
    LeftNodes(m, z, t, p);
    var y := m[z].right;
    HeightIs(m, m[z].left, t.left, z);
    HeightIs(m, m[y].left, t.right.left, y);
    FootKnown(m, m[z].left, t.left, z);
    FootKnown(m, m[y].left, t.right.left, y);
    FootKnown(m, z, t, p);
  }

  lemma LeftTopHeight(m: Memory, w: Memory, z: Item, t: Tree, p: Item?)
    requires t.Node? && t.right.Node? && Shape(m, z, t, p) && (p != null ==> p in m && p !in Foot(m, z, t))
    requires z in m && m[z].right != null && m[z].right in m
    requires var y := m[z].right; var b := m[y].left;
      && (b != null ==> b in m)
      && var v := LeftLinked(m, z, y, b, p); w == v[z := v[z].(height := Max(H(t.left), H(t.right.left)) + 1)]
    ensures var y := m[z].right;
      && y in w && Known(w, w[y].left) && Known(w, w[y].right)
      && Max(HeightAt(w, w[y].left), HeightAt(w, w[y].right)) + 1 == RotateLeft(t).height
  {
    LeftNodes(m, z, t, p);
    var y := m[z].right;
    HeightIs(m, m[y].right, t.right.right, y);
    FootKnown(m, m[y].right, t.right.right, y);
    FootKnown(m, z, t, p);
  }

  /** The links `_rightRotate` writes, one after the other. */
  ghost function RightLinked(mem: Memory, z: Item, y: Item, b: Item?, p: Item?): (w: Memory)
    requires z in mem && y in mem && (b != null ==> b in mem) && (p != null ==> p in mem)
    ensures w.Keys == mem.Keys
  {
    var m1 := mem[y := mem[y].(parent := p)];
    var m2 := if p == null then m1 else m1[p := Relinked(m1[p], z, y)];
    var m3 := m2[z := m2[z].(left := b)];
    var m4 := if b == null then m3 else m3[b := m3[b].(parent := z)];
    var m5 := m4[y := m4[y].(right := z)];
    m5[z := m5[z].(parent := y)]
  }

  /** And the two heights. */
  ghost function RightRotated(mem: Memory, z: Item, y: Item, b: Item?, p: Item?, hz: int, hy: int): Memory
    requires z in mem && y in mem && (b != null ==> b in mem) && (p != null ==> p in mem)
  {
    var m6 := RightLinked(mem, z, y, b, p);
    var m7 := m6[z := m6[z].(height := hz)];
    m7[y := m7[y].(height := hy)]
  }

  /** The nodes a right rotation works on. */
  lemma RightNodes(mem: Memory, z: Item, t: Tree, p: Item?)
    requires t.Node? && t.left.Node? && Shape(mem, z, t, p)
    ensures z in mem && mem[z].left != null && mem[z].left in mem && mem[z].parent == p
    ensures var y := mem[z].left; var b := mem[y].right;
      && y != z && (b != null ==> b in mem && b != y && b != z)
      && {z, y} <= Foot(mem, z, t) && (b != null ==> b in Foot(mem, z, t))
      && Shape(mem, mem[z].right, t.right, z) && Shape(mem, b, t.left.right, y)
      && Shape(mem, mem[y].left, t.left.left, y)
  {
    FootKnown(mem, z, t, p);
    FootKnown(mem, mem[z].left, t.left, z);
    FootKnown(mem, mem[mem[z].left].right, t.left.right, mem[z].left);
  }

  /** The slots of the three subtrees and the two nodes of a right rotation. */
  lemma RightFeet(mem: Memory, z: Item, t: Tree, p: Item?)
    requires t.Node? && t.left.Node? && Shape(mem, z, t, p)
    requires z in mem && mem[z].left != null && mem[z].left in mem
    ensures var y := mem[z].left; var b := mem[y].right;
      var f, g, h := Foot(mem, mem[z].right, t.right), Foot(mem, b, t.left.right), Foot(mem, mem[y].left, t.left.left);
      && Foot(mem, z, t) == {z, y} + f + g + h && f !! g && f !! h && g !! h
      && z !in f && z !in g && z !in h && y !in f && y !in g && y !in h
      && (b != null ==> b in g) && f + g + h <= mem.Keys
  {
    FootKnown(mem, mem[z].right, t.right, z);
    FootKnown(mem, mem[z].left, t.left, z);
    FootKnown(mem, mem[mem[z].left].right, t.left.right, mem[z].left);
    FootKnown(mem, mem[mem[z].left].left, t.left.left, mem[z].left);
  }

  /** What the writes amount to. */
  lemma RightRotatedIs(mem: Memory, z: Item, y: Item, b: Item?, p: Item?, hz: int, hy: int)
    requires z in mem && y in mem && (b != null ==> b in mem) && (p != null ==> p in mem)
    requires z != y && z != b && y != b && p != z && p != y && (p != null ==> p != b)
    ensures var w := RightRotated(mem, z, y, b, p, hz, hy);
      && w.Keys == mem.Keys
      && w[z] == mem[z].(left := b, parent := y, height := hz)
      && w[y] == mem[y].(right := z, parent := p, height := hy)
      && (b != null ==> w[b] == mem[b].(parent := z))
      && (p != null ==> w[p] == Relinked(mem[p], z, y))
      && forall n :: n in mem && n != z && n != y && n != b && n != p ==> w[n] == mem[n]
  {
  }

  lemma RightRotates(mem: Memory, root: Item?, z: Item, t: Tree, p: Item?)
    requires t.Node? && t.left.Node? && Shape(mem, z, t, p) && Under(mem, root, z, Foot(mem, z, t), p)
    ensures z in mem && mem[z].left != null && mem[z].left in mem
    ensures var y := mem[z].left; var b := mem[y].right;
      (b != null ==> b in mem) &&
      var w := RightRotated(mem, z, y, b, p, Max(H(t.right), H(t.left.right)) + 1, RotateRight(t).height);
      && Replaced(mem, root, w, if p == null then y else root, z, t, y, RotateRight(t), p, {})
      && w.Keys == mem.Keys && Foot(w, y, RotateRight(t)) == Foot(mem, z, t)
  {
    hide RightRotated, Shape, Foot, RotateRight;
    UnderParent(mem, root, z, Foot(mem, z, t), p);
    RotatesToNode(t);
    RightNodes(mem, z, t, p);
    var y := mem[z].left;
    var b := mem[y].right;
    var w := RightRotated(mem, z, y, b, p, Max(H(t.right), H(t.left.right)) + 1, RotateRight(t).height);
    RightRotatedIs(mem, z, y, b, p, Max(H(t.right), H(t.left.right)) + 1, RotateRight(t).height);
    RightFeet(mem, z, t, p);
    Framed(mem, w, mem[z].right, t.right, z);
    Framed(mem, w, mem[y].left, t.left.left, y);
    Adopted(mem, w, b, t.left.right, y, z);
    RightBuilt(mem, w, z, y, b, t, p);
  }

  /** Both nodes put together again. */
  lemma RightBuilt(mem: Memory, w: Memory, z: Item, y: Item, b: Item?, t: Tree, p: Item?)
    requires t.Node? && t.left.Node? && Shape(mem, z, t, p) && z in mem && mem[z].left == y && y in mem
      && mem[y].right == b
    requires z in w && w[z] == mem[z].(left := b, parent := y, height := Max(H(t.right), H(t.left.right)) + 1)
    requires y in w && w[y] == mem[y].(right := z, parent := p, height := RotateRight(t).height)
    requires Shape(w, w[z].right, t.right, z) && Shape(w, b, t.left.right, z) && Shape(w, w[y].left, t.left.left, y)
    requires Foot(w, w[z].right, t.right) == Foot(mem, mem[z].right, t.right)
    requires Foot(w, b, t.left.right) == Foot(mem, b, t.left.right)
    requires Foot(w, w[y].left, t.left.left) == Foot(mem, mem[y].left, t.left.left)
    ensures Shape(w, y, RotateRight(t), p) && Foot(w, y, RotateRight(t)) == Foot(mem, z, t)
  {
    var u := RotateRight(t);
    Assembled(w, z, u.right, y);
    Assembled(w, y, u, p);
  }

  /** The heights that `updateHeight` reads after the links are set. */
  lemma RightHeights(m: Memory, w: Memory, z: Item, t: Tree, p: Item?)
    requires t.Node? && t.left.Node? && Shape(m, z, t, p) && (p != null ==> p in m && p !in Foot(m, z, t))
    requires z in m && m[z].left != null && m[z].left in m
    requires var y := m[z].left; var b := m[y].right; (b != null ==> b in m) && w == RightLinked(m, z, y, b, p)
    ensures z in w && Known(w, w[z].right) && Known(w, w[z].left)
    ensures Max(HeightAt(w, w[z].right), HeightAt(w, w[z].left)) + 1 == Max(H(t.right), H(t.left.right)) + 1
  {
    RightNodes(m, z, t, p);
    var y := m[z].left;
    HeightIs(m, m[z].right, t.right, z);
    HeightIs(m, m[y].right, t.left.right, y);
    FootKnown(m, m[z].right, t.right, z);
    FootKnown(m, m[y].right, t.left.right, y);
    FootKnown(m, z, t, p);
  }

  lemma RightTopHeight(m: Memory, w: Memory, z: Item, t: Tree, p: Item?)
    requires t.Node? && t.left.Node? && Shape(m, z, t, p) && (p != null ==> p in m && p !in Foot(m, z, t))
    requires z in m && m[z].left != null && m[z].left in m
    requires var y := m[z].left; var b := m[y].right;
      && (b != null ==> b in m)
      && var v := RightLinked(m, z, y, b, p); w == v[z := v[z].(height := Max(H(t.right), H(t.left.right)) + 1)]
    ensures var y := m[z].left;
      && y in w && Known(w, w[y].right) && Known(w, w[y].left)
      && Max(HeightAt(w, w[y].right), HeightAt(w, w[y].left)) + 1 == RotateRight(t).height
  {
    RightNodes(m, z, t, p);
    var y := m[z].left;
    HeightIs(m, m[y].left, t.left.left, y);
    FootKnown(m, m[y].left, t.left.left, y);
    FootKnown(m, z, t, p);
  }

  // ------------------------------------------------------------------ composing changes

  /** The subtree at `n` changed from `t` to `u` with its top in place. */
  ghost predicate Kept(mem: Memory, w: Memory, n: Item?, t: Tree, u: Tree, p: Item?, f: set<Item>) {
    && mem.Keys <= w.Keys && w.Keys <= mem.Keys + f && f !! mem.Keys
    && Shape(w, n, u, p) && Foot(w, n, u) <= Foot(mem, n, t) + f
    && (forall x :: x in mem && x !in Foot(mem, n, t) ==> w[x] == mem[x])
  }

  lemma KeptUnder(mem: Memory, root: Item?, w: Memory, n: Item?, t: Tree, u: Tree, p: Item?, f: set<Item>)
    requires Kept(mem, w, n, t, u, p, f) && Under(mem, root, n, Foot(mem, n, t), p)
    ensures Under(w, root, n, Foot(w, n, u), p)
  {
  }

  lemma KeptThenReplaced(mem: Memory, root: Item?, w: Memory, v: Memory, top: Item?, z: Item?, t: Tree, u: Tree,
                         y: Item?, x: Tree,
                         p: Item?, f: set<Item>)
    requires Shape(mem, z, t, p) && Kept(mem, w, z, t, u, p, f) && Under(mem, root, z, Foot(mem, z, t), p)
    requires Replaced(w, root, v, top, z, u, y, x, p, {})
    ensures Replaced(mem, root, v, top, z, t, y, x, p, f)
  {
  }

  lemma ReplacedThenKept(mem: Memory, root: Item?, w: Memory, v: Memory, top: Item?, z: Item?, t: Tree, y: Item?,
                         u: Tree, x: Tree,
                         p: Item?, f: set<Item>)
    requires Shape(mem, z, t, p) && Under(mem, root, z, Foot(mem, z, t), p) && f !! mem.Keys
    requires Replaced(mem, root, w, top, z, t, y, u, p, f) && Kept(w, v, y, u, x, p, {})
    ensures Replaced(mem, root, v, top, z, t, y, x, p, f)
  {
  }

  lemma KeptTwice(mem: Memory, w: Memory, v: Memory, n: Item?, t: Tree, u: Tree, x: Tree, p: Item?, f: set<Item>)
    requires Kept(mem, w, n, t, u, p, f) && Kept(w, v, n, u, x, p, {})
    ensures Kept(mem, v, n, t, x, p, f)
  {
  }

  lemma KeptReplaced(mem: Memory, root: Item?, w: Memory, z: Item?, t: Tree, u: Tree, p: Item?, f: set<Item>)
    requires Shape(mem, z, t, p) && Kept(mem, w, z, t, u, p, f) && Under(mem, root, z, Foot(mem, z, t), p)
    ensures Replaced(mem, root, w, root, z, t, z, u, p, f)
  {
  }

  /** A node whose left child was replaced. */
  lemma LeftReplaced(mem: Memory, w: Memory, n: Item, t: Tree, p: Item?, c: Item?, u: Tree, f: set<Item>)
    requires t.Node? && Shape(mem, n, t, p) && n in w && w[n] == mem[n].(left := c)
    requires Shape(w, c, u, n) && Foot(w, c, u) <= Foot(mem, mem[n].left, t.left) + f && f !! mem.Keys
    requires SameOn(mem, w, Foot(mem, mem[n].right, t.right))
    ensures Shape(w, n, t.(left := u), p) && Foot(w, n, t.(left := u)) <= Foot(mem, n, t) + f
  {
    FootKnown(mem, n, t, p);
    FootKnown(mem, mem[n].right, t.right, n);
    Framed(mem, w, mem[n].right, t.right, n);
    Assembled(w, n, t.(left := u), p);
  }

  /** A node whose right child was replaced. */
  lemma RightReplaced(mem: Memory, w: Memory, n: Item, t: Tree, p: Item?, c: Item?, u: Tree, f: set<Item>)
    requires t.Node? && Shape(mem, n, t, p) && n in w && w[n] == mem[n].(right := c)
    requires Shape(w, c, u, n) && Foot(w, c, u) <= Foot(mem, mem[n].right, t.right) + f && f !! mem.Keys
    requires SameOn(mem, w, Foot(mem, mem[n].left, t.left))
    ensures Shape(w, n, t.(right := u), p) && Foot(w, n, t.(right := u)) <= Foot(mem, n, t) + f
  {
    FootKnown(mem, n, t, p);
    FootKnown(mem, mem[n].left, t.left, n);
    Framed(mem, w, mem[n].left, t.left, n);
    Assembled(w, n, t.(right := u), p);
  }

  /** Replacing what hangs below `n` on the left keeps `n` itself in place. */
  lemma LeftKept(mem: Memory, root: Item?, w: Memory, n: Item, t: Tree, p: Item?, y: Item?, u: Tree, f: set<Item>)
    requires t.Node? && Shape(mem, n, t, p) && f !! mem.Keys && t.left.Node?
    requires Replaced(mem, root, w, root, mem[n].left, t.left, y, u, n, f)
    ensures Kept(mem, w, n, t, t.(left := u), p, f)
  {
    FootKnown(mem, n, t, p);
    FootKnown(mem, mem[n].left, t.left, n);
    FootKnown(mem, mem[n].right, t.right, n);
    LeftReplaced(mem, w, n, t, p, y, u, f);
  }

  lemma RightKept(mem: Memory, root: Item?, w: Memory, n: Item, t: Tree, p: Item?, y: Item?, u: Tree, f: set<Item>)
    requires t.Node? && Shape(mem, n, t, p) && f !! mem.Keys && t.right.Node?
    requires Replaced(mem, root, w, root, mem[n].right, t.right, y, u, n, f)
    ensures Kept(mem, w, n, t, t.(right := u), p, f)
  {
    FootKnown(mem, n, t, p);
    FootKnown(mem, mem[n].left, t.left, n);
    FootKnown(mem, mem[n].right, t.right, n);
    RightReplaced(mem, w, n, t, p, y, u, f);
  }

  lemma KeptShape(mem: Memory, w: Memory, n: Item?, t: Tree, u: Tree, p: Item?)
    requires Kept(mem, w, n, t, u, p, {})
    ensures Shape(w, n, u, p)
  {
  }

  lemma KeptSelf(mem: Memory, n: Item?, t: Tree, p: Item?)
    requires Shape(mem, n, t, p)
    ensures Kept(mem, mem, n, t, t, p, {})
  {
  }

  lemma ReplacedShape(mem: Memory, root: Item?, w: Memory, top: Item?, z: Item?, t: Tree, y: Item?, u: Tree, p: Item?,
                      f: set<Item>)
    requires Replaced(mem, root, w, top, z, t, y, u, p, f)
    ensures Shape(w, y, u, p)
  {
  }

  lemma RootStays(mem: Memory, root: Item?, w: Memory, top: Item?, z: Item?, t: Tree, y: Item?, u: Tree, p: Item,
                  f: set<Item>)
    requires Replaced(mem, root, w, top, z, t, y, u, p, f)
    ensures top == root
  {
  }

  /** The children of a node are known, with the heights of their trees. */
  lemma ChildKnown(mem: Memory, n: Item, t: Tree, p: Item?)
    requires t.Node? && Shape(mem, n, t, p)
    ensures n in mem && Known(mem, mem[n].left) && Known(mem, mem[n].right)
    ensures Shape(mem, mem[n].left, t.left, n) && Shape(mem, mem[n].right, t.right, n)
    ensures HeightAt(mem, mem[n].left) == H(t.left) && HeightAt(mem, mem[n].right) == H(t.right)
    ensures (mem[n].left == null <==> t.left.Empty?) && (mem[n].right == null <==> t.right.Empty?)
  {
    HeightIs(mem, mem[n].left, t.left, n);
    HeightIs(mem, mem[n].right, t.right, n);
  }

  lemma KeptGives(mem: Memory, w: Memory, n: Item?, t: Tree, u: Tree, p: Item?, f: set<Item>)
    requires Kept(mem, w, n, t, u, p, f)
    ensures Shape(w, n, u, p) && w.Keys <= mem.Keys + f && mem.Keys <= w.Keys && f !! mem.Keys
  {
  }

  /** What `Inserted` does at a node. */
  lemma InsertIs(t: Tree, r: Record)
    requires Sound(t) && t.Node? && Fresh(t, r.low) && r.low <= r.high
    ensures Sound(Side(t, r.low)) && Fresh(Side(t, r.low), r.low)
    ensures var w := Raised(WithSide(t, r.low, Inserted(Side(t, r.low), r)), r.high);
      Rotatable(w) && Inserted(t, r) == Rebalance(w)
  {
    hide Rotatable, Rebalance, Placed, Sound, Raised, Records;
    SoundChildren(t);
    var u := if r.low < t.key then t.(left := Inserted(t.left, r)) else t.(right := Inserted(t.right, r));
    InsertReady(t, u, r);
  }

  /** A new leaf below `n`. */
  lemma LeafKept(mem: Memory, w: Memory, n: Item, t: Tree, p: Item?, c: Item, r: Record)
    requires t.Node? && Shape(mem, n, t, p) && n in mem && c !in mem && Side(t, r.low).Empty? && r.low <= r.high
    requires var m := mem[c := Cell(r.low, [r], 0, r.high, null, null, n)];
      w == if r.low < t.key then m[n := m[n].(left := c)] else m[n := m[n].(right := c)]
    ensures Sound(Side(t, r.low)) && Fresh(Side(t, r.low), r.low)
    ensures Kept(mem, w, n, t, WithSide(t, r.low, Inserted(Side(t, r.low), r)), p, {c})
  {
    FootKnown(mem, n, t, p);
    FootKnown(mem, mem[n].left, t.left, n);
    FootKnown(mem, mem[n].right, t.right, n);
    LeafShape(w, c, r, n);
    if r.low < t.key {
      LeftReplaced(mem, w, n, t, p, c, NewNode(r), {c});
    } else {
      RightReplaced(mem, w, n, t, p, c, NewNode(r), {c});
    }
  }

  lemma LeafShape(w: Memory, c: Item, r: Record, n: Item)
    requires c in w && w[c] == Cell(r.low, [r], 0, r.high, null, null, n) && r.low <= r.high
    ensures Shape(w, c, NewNode(r), n) && Foot(w, c, NewNode(r)) == {c}
  {
  }

  lemma RaisedHeight(mem: Memory, w: Memory, n: Item, t: Tree, high: int, p: Item?)
    requires t.Node? && Shape(mem, n, t, p) && n in mem
    requires w == if t.max < high then mem[n := mem[n].(max := high)] else mem
    ensures Known(w, w[n].left) && Known(w, w[n].right)
    ensures Max(HeightAt(w, w[n].left), HeightAt(w, w[n].right)) + 1 == Raised(t, high).height
  {
    FootKnown(mem, mem[n].left, t.left, n);
    FootKnown(mem, mem[n].right, t.right, n);
    ChildKnown(mem, n, t, p);
  }

  /** Rewriting the numbers and records of one node. */
  lemma NumbersKept(mem: Memory, w: Memory, n: Item, t: Tree, u: Tree, p: Item?)
    requires t.Node? && u.Node? && Shape(mem, n, t, p)
      && u == t.(records := u.records, height := u.height, max := u.max)
    requires w == mem[n := mem[n].(records := u.records, height := u.height, max := u.max)]
    ensures Kept(mem, w, n, t, u, p, {})
  {
    FootKnown(mem, n, t, p);
    FootKnown(mem, mem[n].left, t.left, n);
    FootKnown(mem, mem[n].right, t.right, n);
    Framed(mem, w, mem[n].left, t.left, n);
    Framed(mem, w, mem[n].right, t.right, n);
  }

  /** The children of a node hang below it. */
  lemma ChildrenUnder(mem: Memory, root: Item?, n: Item, t: Tree, p: Item?)
    requires t.Node? && Shape(mem, n, t, p)
    ensures n in mem
    ensures t.left.Node? ==> Under(mem, root, mem[n].left, Foot(mem, mem[n].left, t.left), n)
    ensures t.right.Node? ==> Under(mem, root, mem[n].right, Foot(mem, mem[n].right, t.right), n)
  {
    if t.left.Node? {
      FootKnown(mem, mem[n].left, t.left, n);
    }
    if t.right.Node? {
      FootKnown(mem, mem[n].right, t.right, n);
    }
  }

  // ------------------------------------------------------------------ the path to a key

  /** The subtree in which the search for `low` goes on. */
  function Side(t: Tree, low: int): Tree
    requires t.Node?
  {
    if low < t.key then t.left else t.right
  }

  function WithSide(t: Tree, low: int, u: Tree): Tree
    requires t.Node?
  {
    if low < t.key then t.(left := u) else t.(right := u)
  }

  ghost function SideItem(c: Cell, low: int): Item? { if low < c.key then c.left else c.right }

  /** The search for `low` passes `d` nodes with other keys. */
  ghost predicate OnPath(t: Tree, low: int, d: nat)
    decreases d
  {
    t.Node? && (d > 0 ==> low != t.key && OnPath(Side(t, low), low, d - 1))
  }

  ghost function Along(t: Tree, low: int, d: nat): (r: Tree)
    requires OnPath(t, low, d)
    ensures r.Node?
    decreases d
  {
    if d == 0 then t else Along(Side(t, low), low, d - 1)
  }

  ghost function ItemAt(mem: Memory, n: Item?, t: Tree, low: int, d: nat, p: Item?): Item?
    requires OnPath(t, low, d) && Shape(mem, n, t, p)
    decreases d
  {
    if d == 0 then n else ItemAt(mem, SideItem(mem[n], low), Side(t, low), low, d - 1, n)
  }

  ghost function Swap(t: Tree, low: int, d: nat, u: Tree): Tree
    requires OnPath(t, low, d)
    decreases d
  {
    if d == 0 then u else WithSide(t, low, Swap(Side(t, low), low, d - 1, u))
  }

  /** The tree after the maxima of the subtree at depth `d` and of all nodes above it were
      computed again. */
  ghost function Up(t: Tree, low: int, d: nat): Tree
    requires OnPath(t, low, d) && Filled(t, low, d)
    decreases d
  {
    if d == 0 then WithMax(t) else WithMax(WithSide(t, low, Up(Side(t, low), low, d - 1)))
  }

  ghost predicate Filled(t: Tree, low: int, d: nat)
    requires OnPath(t, low, d)
    decreases d
  {
    t.records != [] && (d > 0 ==> Filled(Side(t, low), low, d - 1))
  }

  lemma {:induction false} SwapOnPath(t: Tree, low: int, d: nat, u: Tree)
    requires OnPath(t, low, d) && u.Node?
    ensures OnPath(Swap(t, low, d, u), low, d) && Along(Swap(t, low, d, u), low, d) == u
    ensures d > 0 ==> OnPath(Swap(t, low, d, u), low, d - 1) && Swap(t, low, d, u).records == t.records
    ensures Filled(t, low, d) && u.records != [] ==> Filled(Swap(t, low, d, u), low, d)
    ensures d > 0 && Filled(t, low, d) ==> Filled(Swap(t, low, d, u), low, d - 1)
    decreases d
  {
    if d > 0 {
      SwapOnPath(Side(t, low), low, d - 1, u);
    }
  }

  /** Going up is one node at a time. */
  lemma {:induction false} UpStep(t: Tree, low: int, d: nat)
    requires OnPath(t, low, d) && Filled(t, low, d) && d > 0
    ensures Along(t, low, d).Node? && Along(t, low, d).records != []
    ensures var s := Swap(t, low, d, WithMax(Along(t, low, d)));
      OnPath(s, low, d - 1) && Filled(s, low, d - 1) && Up(t, low, d) == Up(s, low, d - 1)
    decreases d
  {
    AlongFilled(t, low, d);
    SwapOnPath(t, low, d, WithMax(Along(t, low, d)));
    if d > 1 {
      UpStep(Side(t, low), low, d - 1);
    }
  }

  lemma {:induction false} AlongFilled(t: Tree, low: int, d: nat)
    requires OnPath(t, low, d) && Filled(t, low, d)
    ensures Along(t, low, d).Node? && Along(t, low, d).records != []
    decreases d
  {
    if d > 0 {
      AlongFilled(Side(t, low), low, d - 1);
    }
  }

  lemma SideShape(mem: Memory, n: Item?, t: Tree, low: int, p: Item?)
    requires t.Node? && Shape(mem, n, t, p)
    ensures n != null && n in mem && Shape(mem, SideItem(mem[n], low), Side(t, low), n)
    ensures Foot(mem, SideItem(mem[n], low), Side(t, low)) <= Foot(mem, n, t)
  {
  }

  /** The item on the path is in the tree, and the subtree hangs from the item before it. */
  lemma {:induction false} ItemThere(mem: Memory, n: Item?, t: Tree, low: int, d: nat, p: Item?)
    requires OnPath(t, low, d) && Shape(mem, n, t, p)
    ensures var x := ItemAt(mem, n, t, low, d, p);
      && x != null && x in mem && Along(t, low, d).Node?
      && Shape(mem, x, Along(t, low, d), mem[x].parent)
      && Foot(mem, x, Along(t, low, d)) <= Foot(mem, n, t)
      && (d == 0 ==> mem[x].parent == p) && (d > 0 ==> mem[x].parent == ItemBefore(mem, n, t, low, d, p) != null)
    decreases d
  {
    if d > 0 {
      SideShape(mem, n, t, low, p);
      ItemThere(mem, SideItem(mem[n], low), Side(t, low), low, d - 1, n);
    }
  }

  lemma {:induction false} ShorterPath(t: Tree, low: int, d: nat)
    requires OnPath(t, low, d) && d > 0
    ensures OnPath(t, low, d - 1)
    decreases d
  {
    if d > 1 {
      ShorterPath(Side(t, low), low, d - 1);
    }
  }

  ghost function ItemBefore(mem: Memory, n: Item?, t: Tree, low: int, d: nat, p: Item?): Item?
    requires OnPath(t, low, d) && Shape(mem, n, t, p) && d > 0
    decreases d
  {
    if d == 1 then n else ItemBefore(mem, SideItem(mem[n], low), Side(t, low), low, d - 1, n)
  }

  lemma {:induction false} BeforeIs(mem: Memory, n: Item?, t: Tree, low: int, d: nat, p: Item?)
    requires OnPath(t, low, d) && Shape(mem, n, t, p) && d > 0
    ensures OnPath(t, low, d - 1) && ItemBefore(mem, n, t, low, d, p) == ItemAt(mem, n, t, low, d - 1, p)
    decreases d
  {
    ShorterPath(t, low, d);
    if d > 1 {
      BeforeIs(mem, SideItem(mem[n], low), Side(t, low), low, d - 1, n);
    }
  }

  lemma SideKept(mem: Memory, root: Item?, w: Memory, n: Item, t: Tree, p: Item?, low: int, u: Tree)
    requires t.Node? && Shape(mem, n, t, p) && n in mem && Side(t, low).Node? && u.Node?
    requires Kept(mem, w, SideItem(mem[n], low), Side(t, low), u, n, {})
    ensures Kept(mem, w, n, t, WithSide(t, low, u), p, {}) && n in w && SideItem(w[n], low) == SideItem(mem[n], low)
  {
    ChildrenUnder(mem, root, n, t, p);
    var c := SideItem(mem[n], low);
    KeptReplaced(mem, root, w, c, Side(t, low), u, n, {});
    if low < t.key {
      LeftKept(mem, root, w, n, t, p, c, u, {});
    } else {
      RightKept(mem, root, w, n, t, p, c, u, {});
    }
  }

  /** A change at depth `d` is a change of the whole tree. */
  lemma {:induction false} PathKept(mem: Memory, w: Memory, n: Item?, t: Tree, low: int, d: nat, p: Item?, u: Tree)
    requires OnPath(t, low, d) && Shape(mem, n, t, p) && u.Node?
    requires var x := ItemAt(mem, n, t, low, d, p);
      && x != null && x in mem
      && Kept(mem, w, x, Along(t, low, d), u, mem[x].parent, {})
    ensures Kept(mem, w, n, t, Swap(t, low, d, u), p, {}) && OnPath(Swap(t, low, d, u), low, d)
    ensures Shape(w, n, Swap(t, low, d, u), p)
      && ItemAt(w, n, Swap(t, low, d, u), low, d, p) == ItemAt(mem, n, t, low, d, p)
    decreases d
  {
    SwapOnPath(t, low, d, u);
    if d > 0 {
      SideShape(mem, n, t, low, p);
      PathKept(mem, w, SideItem(mem[n], low), Side(t, low), low, d - 1, n, u);
      SideKept(mem, null, w, n, t, p, low, Swap(Side(t, low), low, d - 1, u));
    }
  }

  // ------------------------------------------------------------------ one more record for a key

  /** The node of a key with one more record. */
  function WithRecord(t: Tree, r: Record): Tree
    requires t.Node?
  {
    t.(records := t.records + [r], max := Max(t.max, r.high))
  }

  lemma {:induction false} PushedIs(t: Tree, r: Record, d: nat)
    requires Sound(t) && !Fresh(t, r.low) && r.low <= r.high && OnPath(t, r.low, d) && Along(t, r.low, d).key == r.low
    ensures Along(t, r.low, d).Node?
    ensures var s := Swap(t, r.low, d, WithRecord(Along(t, r.low, d), r));
      && (d == 0 ==> Pushed(t, r) == s)
      && (d > 0 ==> OnPath(s, r.low, d - 1) && Filled(s, r.low, d - 1) && Pushed(t, r) == Up(s, r.low, d - 1))
      && (r.high <= Along(t, r.low, d).max ==> Pushed(t, r) == s && s.max == t.max)
    decreases d
  {
    PathFilled(t, r.low, d);
    AlongFilled(t, r.low, d);
    SwapOnPath(t, r.low, d, WithRecord(Along(t, r.low, d), r));
    if d > 0 {
      OtherSides(t, r.low);
      SoundChildren(t);
      PushedIs(Side(t, r.low), r, d - 1);
      MaxOfIs(t);
    }
  }

  lemma {:induction false} PathFilled(t: Tree, low: int, d: nat)
    requires Sound(t) && OnPath(t, low, d)
    ensures Filled(t, low, d)
    decreases d
  {
    if d > 0 {
      PathFilled(Side(t, low), low, d - 1);
    }
  }

  lemma SidesOrdered(t: Tree)
    requires Ordered(t) && t.Node?
    ensures Ordered(t.left) && Ordered(t.right) && t.records != []
  {
  }

  lemma SidesSound(t: Tree)
    requires Sound(t) && t.Node?
    ensures Sound(t.left) && Sound(t.right) && t.records != []
  {
  }

  lemma SoundOrdered(t: Tree)
    requires Sound(t)
    ensures Ordered(t)
  {
  }

  lemma EmptyFresh(t: Tree, low: int)
    requires t.Empty?
    ensures Fresh(t, low)
  {
  }

  lemma UpTop(t: Tree, low: int, d: nat)
    requires OnPath(t, low, d) && Filled(t, low, d)
    ensures d == 0 ==> Up(t, low, d) == Swap(t, low, d, WithMax(t)) && Along(t, low, d) == t
  {
  }

  lemma {:induction false} PlacedLength(s: seq<Record>, r: Record)
    ensures |Placed(s, r)| == |s| + 1
    decreases |s|
  {
    if s != [] {
      PlacedLength(s[1..], r);
    }
  }

  lemma EmptyRoot(mem: Memory, t: Tree)
    ensures forall n: Item? :: Shape(mem, n, t, null) ==> (n == null <==> t.Empty?)
    ensures t.Empty? ==> Records(t) == []
  {
  }

  lemma NewShape(mem: Memory, c: Item, r: Record)
    requires c in mem && mem[c] == Cell(r.low, [r], 0, r.high, null, null, null)
    ensures Shape(mem, c, NewNode(r), null)
  {
  }

  lemma RootUnder(mem: Memory, root: Item?, t: Tree)
    ensures Under(mem, root, root, Foot(mem, root, t), null)
  {
  }

  lemma ReplacedRoot(mem: Memory, root: Item?, w: Memory, top: Item?, z: Item?, t: Tree, y: Item?, u: Tree,
                     f: set<Item>)
    requires Replaced(mem, root, w, top, z, t, y, u, null, f)
    ensures Shape(w, top, u, null)
  {
  }

  lemma FreshNot(t: Tree, r: Record)
    requires Fresh(t, r.low)
    ensures r !in Records(t)
  {
  }

  /** A record can only be in the node of its key. */
  lemma {:induction false} ItemRecords(mem: Memory, n: Item?, t: Tree, low: int, d: nat, r: Record)
    requires Sound(t) && OnPath(t, low, d) && Along(t, low, d).key == low && r.low == low
    ensures r in Records(t) <==> r in Along(t, low, d).records
    decreases d
  {
    SoundChildren(t);
    var a, b, c := Records(t.left), t.records, Records(t.right);
    assert Records(t) == a + b + c;
    if d > 0 {
      ItemRecords(mem, n, Side(t, low), low, d - 1, r);
    }
  }

  function Height(n: Item?): int
    reads n
  {
    if n == null then -1 else n.height
  }

  class IntervalTree {
    var root: Item?
    var count: nat
    ghost var mem: Memory
    ghost var tree: Tree

    /** The mirror says what the fields hold. */
    lemma Reads(n: Item)
      requires Shown(mem) && n in mem
      ensures n.Fields() == mem[n]
    {
    }

    lemma ReadsHeight(n: Item?)
      requires Shown(mem) && Known(mem, n)
      ensures Height(n) == HeightAt(mem, n)
    {
    }

    method SetParent(n: Item, q: Item?)
      requires Shown(mem) && n in mem
      modifies n`parent, this`mem
      ensures Shown(mem) && mem == old(mem)[n := old(mem)[n].(parent := q)]
    {
      n.parent := q;
      mem := mem[n := mem[n].(parent := q)];
    }

    method SetLeft(n: Item, c: Item?)
      requires Shown(mem) && n in mem
      modifies n`left, this`mem
      ensures Shown(mem) && mem == old(mem)[n := old(mem)[n].(left := c)]
    {
      n.left := c;
      mem := mem[n := mem[n].(left := c)];
    }

    method SetRight(n: Item, c: Item?)
      requires Shown(mem) && n in mem
      modifies n`right, this`mem
      ensures Shown(mem) && mem == old(mem)[n := old(mem)[n].(right := c)]
    {
      n.right := c;
      mem := mem[n := mem[n].(right := c)];
    }

    /** `updateHeight` */
    method UpdateHeight(n: Item, ghost h: int)
      requires Shown(mem) && n in mem && Known(mem, mem[n].left) && Known(mem, mem[n].right)
      requires Max(HeightAt(mem, mem[n].left), HeightAt(mem, mem[n].right)) + 1 == h
      modifies n`height, this`mem
      ensures Shown(mem) && mem == old(mem)[n := old(mem)[n].(height := h)]
    {
      n.height := Max(Height(n.left), Height(n.right)) + 1;
      mem := mem[n := mem[n].(height := h)];
    }

    /** The link from above, or the root, now leads to `y`. */
    method Relink(p: Item?, z: Item, y: Item)
      requires Shown(mem) && (p != null ==> p in mem && ((mem[p].left == z) != (mem[p].right == z)))
      modifies this`root, this`mem, p
      ensures Shown(mem) && root == (if p == null then y else old(root))
      ensures mem == if p == null then old(mem) else old(mem)[p := Relinked(old(mem)[p], z, y)]
    {
      if p == null {
        root := y;
      } else {
        Reads(p);
        if p.left == z {
          SetLeft(p, y);
        } else if p.right == z {
          SetRight(p, y);
        }
      }
    }

    /** The link writes of `_leftRotate`. */
    method LeftLink(z: Item, y: Item, b: Item?, ghost p: Item?)
      requires Shown(mem) && z in mem && y in mem && (b != null ==> b in mem) && mem[z].parent == p && z != y
        && p != y && p != z
      requires p != null ==> p in mem && ((mem[p].left == z) != (mem[p].right == z))
      modifies this`root, this`mem, mem.Keys
      ensures Shown(mem) && mem == LeftLinked(old(mem), z, y, b, p) && root == (if p == null then y else old(root))
    {
      hide Shown, Relinked;
      Reads(z);
      SetParent(y, z.parent);
      Reads(y);
      Relink(y.parent, z, y);
      SetRight(z, b);
      if b != null {
        SetParent(b, z);
      }
      SetLeft(y, z);
      SetParent(z, y);
    }

    /** `_leftRotate` */
    method LeftRotate(z: Item, ghost t: Tree, ghost p: Item?) returns (y: Item)
      requires Shown(mem) && t.Node? && t.right.Node? && Shape(mem, z, t, p) && Under(mem, root, z, Foot(mem, z, t), p)
      modifies this`root, this`mem, mem.Keys
      ensures Shown(mem) && Replaced(old(mem), old(root), mem, root, z, t, y, RotateLeft(t), p, {})
      ensures mem.Keys == old(mem).Keys && Foot(mem, y, RotateLeft(t)) == Foot(old(mem), z, t)
    {
      hide Shown, Shape, Foot, Replaced, Under, LeftLinked;
      LeftRotates(mem, root, z, t, p);
      LeftNodes(mem, z, t, p);
      UnderParent(mem, root, z, Foot(mem, z, t), p);
      ghost var m := mem;
      Reads(z);
      y := z.right;
      Reads(y);
      LeftLink(z, y, y.left, p);
      LeftHeights(m, mem, z, t, p);
      UpdateHeight(z, Max(H(t.left), H(t.right.left)) + 1);
      LeftTopHeight(m, mem, z, t, p);
      UpdateHeight(y, RotateLeft(t).height);
    }

    /** The link writes of `_rightRotate`. */
    method RightLink(z: Item, y: Item, b: Item?, ghost p: Item?)
      requires Shown(mem) && z in mem && y in mem && (b != null ==> b in mem) && mem[z].parent == p && z != y
        && p != y && p != z
      requires p != null ==> p in mem && ((mem[p].right == z) != (mem[p].left == z))
      modifies this`root, this`mem, mem.Keys
      ensures Shown(mem) && mem == RightLinked(old(mem), z, y, b, p) && root == (if p == null then y else old(root))
    {
      hide Shown, Relinked;
      Reads(z);
      SetParent(y, z.parent);
      Reads(y);
      Relink(y.parent, z, y);
      SetLeft(z, b);
      if b != null {
        SetParent(b, z);
      }
      SetRight(y, z);
      SetParent(z, y);
    }

    /** `_rightRotate` */
    method RightRotate(z: Item, ghost t: Tree, ghost p: Item?) returns (y: Item)
      requires Shown(mem) && t.Node? && t.left.Node? && Shape(mem, z, t, p) && Under(mem, root, z, Foot(mem, z, t), p)
      modifies this`root, this`mem, mem.Keys
      ensures Shown(mem) && Replaced(old(mem), old(root), mem, root, z, t, y, RotateRight(t), p, {})
      ensures mem.Keys == old(mem).Keys && Foot(mem, y, RotateRight(t)) == Foot(old(mem), z, t)
    {
      hide Shown, Shape, Foot, Replaced, Under, RightLinked;
      RightRotates(mem, root, z, t, p);
      RightNodes(mem, z, t, p);
      UnderParent(mem, root, z, Foot(mem, z, t), p);
      ghost var m := mem;
      Reads(z);
      y := z.left;
      Reads(y);
      RightLink(z, y, y.right, p);
      RightHeights(m, mem, z, t, p);
      UpdateHeight(z, Max(H(t.right), H(t.left.right)) + 1);
      RightTopHeight(m, mem, z, t, p);
      UpdateHeight(y, RotateRight(t).height);
    }

    // ---------------------------------------------------------------- maxima

    /** `getNodeHigh` */
    method NodeHigh(n: Item) returns (high: int)
      requires n.records != []
      ensures high == High(n.records)
    {
      var s := n.records;
      high := s[0].high;
      var i := 1;
      assert s[..1] == [s[0]];
      while i < |s|
        invariant 1 <= i <= |s| && high == High(s[..i])
      {
        assert s[..i + 1][..i] == s[..i];
        if s[i].high > high {
          high := s[i].high;
        }
        i := i + 1;
      }
      assert s[..i] == s;
    }

    /** The maximum of a node from those of its children, in the four cases of the source. */
    method MaxFrom(n: Item, ghost t: Tree, ghost p: Item?) returns (max: int)
      requires Shown(mem) && t.Node? && t.records != [] && Shape(mem, n, t, p)
      ensures max == MaxOf(t)
    {
      hide Shape, Foot, High;
      HeightIs(mem, n, t, p);
      HeightIs(mem, mem[n].left, t.left, n);
      HeightIs(mem, mem[n].right, t.right, n);
      Reads(n);
      var high := NodeHigh(n);
      if n.left == null && n.right != null {
        max := Max(high, n.right.max);
      } else if n.left != null && n.right == null {
        max := Max(high, n.left.max);
      } else if n.left == null && n.right == null {
        max := high;
      } else {
        max := Max(Max(n.left.max, n.right.max), high);
      }
    }

    method MaxAt(n: Item, ghost t: Tree, ghost p: Item?)
      requires Shown(mem) && t.Node? && t.records != [] && Shape(mem, n, t, p)
      modifies n`max, this`mem
      ensures Shown(mem) && Kept(old(mem), mem, n, t, WithMax(t), p, {}) && mem.Keys == old(mem).Keys
    {
      hide Shape, Foot, Kept, MaxOf;
      HeightIs(mem, n, t, p);
      ghost var m := mem;
      var max := MaxFrom(n, t, p);
      n.max := max;
      mem := m[n := m[n].(max := max)];
      NumbersKept(m, mem, n, t, WithMax(t), p);
    }

    /** `_updateMaxAfterLeftRotate` and its mirror image: both children of `y`, then `y`. */
    method RemarkAt(y: Item, ghost t: Tree, ghost p: Item?)
      requires Shown(mem) && t.Node? && t.left.Node? && t.right.Node? && Shape(mem, y, t, p)
      requires t.records != [] && t.left.records != [] && t.right.records != []
      modifies this`mem, mem.Keys
      ensures Shown(mem) && Kept(old(mem), mem, y, t, Remarked(t), p, {}) && mem.Keys == old(mem).Keys
    {
      hide Shown, Shape, Foot, Kept, Replaced, Under, MaxOf;
      ghost var m := mem;
      HeightIs(m, y, t, p);
      ChildrenUnder(m, null, y, t, p);
      Reads(y);
      ChildKnown(m, y, t, p);
      MaxAt(y.left, t.left, y);
      ghost var m1, t1 := mem, t.(left := WithMax(t.left));
      KeptReplaced(m, null, m1, m[y].left, t.left, WithMax(t.left), y, {});
      LeftKept(m, null, m1, y, t, p, m[y].left, WithMax(t.left), {});
      KeptShape(m, m1, y, t, t1, p);
      HeightIs(m1, y, t1, p);
      ChildrenUnder(m1, null, y, t1, p);
      Reads(y);
      ChildKnown(m1, y, t1, p);
      MaxAt(y.right, t.right, y);
      ghost var m2, t2 := mem, t1.(right := WithMax(t.right));
      KeptReplaced(m1, null, m2, m1[y].right, t.right, WithMax(t.right), y, {});
      RightKept(m1, null, m2, y, t1, p, m1[y].right, WithMax(t.right), {});
      KeptShape(m1, m2, y, t1, t2, p);
      HeightIs(m2, y, t2, p);
      MaxAt(y, t2, p);
      KeptTwice(m, m1, m2, y, t, t1, t2, p, {});
      KeptTwice(m, m2, mem, y, t, t2, WithMax(t2), p, {});
    }

    /** `_rebalance`, with both double rotations. */
    method RebalanceAt(z: Item, ghost t: Tree, ghost p: Item?) returns (ghost y: Item)
      requires Shown(mem) && Rotatable(t) && Shape(mem, z, t, p) && Under(mem, root, z, Foot(mem, z, t), p)
      modifies this`root, this`mem, mem.Keys
      ensures Shown(mem) && mem.Keys == old(mem).Keys
      ensures Replaced(old(mem), old(root), mem, root, z, t, y, Rebalance(t), p, {})
    {
      hide Shown, Shape, Foot, Replaced, Under, Kept, RotateLeft, RotateRight, Remarked;
      ghost var m, r := mem, root;
      HeightIs(m, z, t, p);
      Reads(z);
      ChildKnown(m, z, t, p);
      ReadsHeight(z.left);
      ReadsHeight(z.right);
      y := z;
      if Height(z.left) >= 2 + Height(z.right) {
        var left := z.left;
        ChildKnown(m, left, t.left, z);
        Reads(left);
        ReadsHeight(left.left);
        ReadsHeight(left.right);
        RotatesToNode(t.left);
        RightShape(t, if H(t.left.left) >= H(t.left.right) then t else t.(left := RotateLeft(t.left)));
        if Height(left.left) >= Height(left.right) {
          y := TurnRight(z, t, p);
        } else {
          ghost var x := LeftBelow(left, z, t, p);
          ghost var m1, u := mem, t.(left := RotateLeft(t.left));
          y := TurnRight(z, u, p);
          KeptThenReplaced(m, r, m1, mem, root, z, t, u, y, Remarked(RotateRight(u)), p, {});
        }
      } else if Height(z.right) >= 2 + Height(z.left) {
        var right := z.right;
        ChildKnown(m, right, t.right, z);
        Reads(right);
        ReadsHeight(right.left);
        ReadsHeight(right.right);
        RotatesToNode(t.right);
        LeftShape(t, if H(t.right.right) >= H(t.right.left) then t else t.(right := RotateRight(t.right)));
        if Height(right.right) >= Height(right.left) {
          y := TurnLeft(z, t, p);
        } else {
          ghost var x := RightBelow(right, z, t, p);
          ghost var m1, u := mem, t.(right := RotateRight(t.right));
          y := TurnLeft(z, u, p);
          KeptThenReplaced(m, r, m1, mem, root, z, t, u, y, Remarked(RotateLeft(u)), p, {});
        }
      } else {
        KeptSelf(m, z, t, p);
        KeptReplaced(m, r, m, z, t, t, p, {});
      }
    }

    /** One rotation and the new maxima. */
    method TurnRight(z: Item, ghost t: Tree, ghost p: Item?) returns (y: Item)
      requires Shown(mem) && t.Node? && t.left.Node? && Shape(mem, z, t, p) && Under(mem, root, z, Foot(mem, z, t), p)
      requires var r := RotateRight(t);
        && r.Node? && r.left.Node? && r.right.Node? && r.records != []
        && r.left.records != [] && r.right.records != []
      modifies this`root, this`mem, mem.Keys
      ensures Shown(mem) && mem.Keys == old(mem).Keys
      ensures Replaced(old(mem), old(root), mem, root, z, t, y, Remarked(RotateRight(t)), p, {})
    {
      hide Shown, Shape, Foot, Under, Kept, Replaced, RotateRight, Remarked;
      ghost var m, r := mem, root;
      y := RightRotate(z, t, p);
      ghost var m1, r1 := mem, root;
      ReplacedShape(m, r, m1, r1, z, t, y, RotateRight(t), p, {});
      RemarkAt(y, RotateRight(t), p);
      ReplacedThenKept(m, r, m1, mem, r1, z, t, y, RotateRight(t), Remarked(RotateRight(t)), p, {});
    }

    method TurnLeft(z: Item, ghost t: Tree, ghost p: Item?) returns (y: Item)
      requires Shown(mem) && t.Node? && t.right.Node? && Shape(mem, z, t, p) && Under(mem, root, z, Foot(mem, z, t), p)
      requires var r := RotateLeft(t);
        && r.Node? && r.left.Node? && r.right.Node? && r.records != []
        && r.left.records != [] && r.right.records != []
      modifies this`root, this`mem, mem.Keys
      ensures Shown(mem) && mem.Keys == old(mem).Keys
      ensures Replaced(old(mem), old(root), mem, root, z, t, y, Remarked(RotateLeft(t)), p, {})
    {
      hide Shown, Shape, Foot, Under, Kept, Replaced, RotateLeft, Remarked;
      ghost var m, r := mem, root;
      y := LeftRotate(z, t, p);
      ghost var m1, r1 := mem, root;
      ReplacedShape(m, r, m1, r1, z, t, y, RotateLeft(t), p, {});
      RemarkAt(y, RotateLeft(t), p);
      ReplacedThenKept(m, r, m1, mem, r1, z, t, y, RotateLeft(t), Remarked(RotateLeft(t)), p, {});
    }

    /** The first half of a double rotation, below `z`. */
    method LeftBelow(left: Item, z: Item, ghost t: Tree, ghost p: Item?) returns (x: Item)
      requires Shown(mem) && t.Node? && t.left.Node? && t.left.right.Node? && Shape(mem, z, t, p) && z in mem
        && left == mem[z].left
      requires Under(mem, root, z, Foot(mem, z, t), p)
      modifies this`root, this`mem, mem.Keys
      ensures Shown(mem) && mem.Keys == old(mem).Keys && root == old(root)
      ensures Kept(old(mem), mem, z, t, t.(left := RotateLeft(t.left)), p, {})
      ensures Shape(mem, z, t.(left := RotateLeft(t.left)), p)
      ensures Under(mem, root, z, Foot(mem, z, t.(left := RotateLeft(t.left))), p)
    {
      hide Shown, Shape, Foot, Under, Kept, Replaced, RotateLeft;
      ghost var m, r := mem, root;
      ChildrenUnder(m, r, z, t, p);
      HeightIs(m, z, t, p);
      x := LeftRotate(left, t.left, z);
      RootStays(m, r, mem, root, left, t.left, x, RotateLeft(t.left), z, {});
      LeftKept(m, r, mem, z, t, p, x, RotateLeft(t.left), {});
      KeptUnder(m, r, mem, z, t, t.(left := RotateLeft(t.left)), p, {});
      KeptShape(m, mem, z, t, t.(left := RotateLeft(t.left)), p);
    }

    method RightBelow(right: Item, z: Item, ghost t: Tree, ghost p: Item?) returns (x: Item)
      requires Shown(mem) && t.Node? && t.right.Node? && t.right.left.Node? && Shape(mem, z, t, p) && z in mem
        && right == mem[z].right
      requires Under(mem, root, z, Foot(mem, z, t), p)
      modifies this`root, this`mem, mem.Keys
      ensures Shown(mem) && mem.Keys == old(mem).Keys && root == old(root)
      ensures Kept(old(mem), mem, z, t, t.(right := RotateRight(t.right)), p, {})
      ensures Shape(mem, z, t.(right := RotateRight(t.right)), p)
      ensures Under(mem, root, z, Foot(mem, z, t.(right := RotateRight(t.right))), p)
    {
      hide Shown, Shape, Foot, Under, Kept, Replaced, RotateRight;
      ghost var m, r := mem, root;
      ChildrenUnder(m, r, z, t, p);
      HeightIs(m, z, t, p);
      x := RightRotate(right, t.right, z);
      RootStays(m, r, mem, root, right, t.right, x, RotateRight(t.right), z, {});
      RightKept(m, r, mem, z, t, p, x, RotateRight(t.right), {});
      KeptUnder(m, r, mem, z, t, t.(right := RotateRight(t.right)), p, {});
      KeptShape(m, mem, z, t, t.(right := RotateRight(t.right)), p);
    }

    // ---------------------------------------------------------------- insertion

    /** `Node.insert` of a record with a new key. */
    method InsertBelow(n: Item, record: Record, ghost t: Tree, ghost p: Item?)
      returns (ghost y: Item?, ghost f: set<Item>)
      requires Shown(mem) && Sound(t) && t.Node? && Fresh(t, record.low) && record.low <= record.high
      requires Shape(mem, n, t, p) && Under(mem, root, n, Foot(mem, n, t), p)
      modifies this`root, this`mem, mem.Keys
      ensures Shown(mem) && fresh(f) && f !! old(mem).Keys && mem.Keys <= old(mem).Keys + f
      ensures Replaced(old(mem), old(root), mem, root, n, t, y, Inserted(t, record), p, f)
      decreases t
    {
      hide Shown, Shape, Foot, Under, Kept, Replaced, Sound, Inserted, Raised, Rebalance;
      ghost var m, r := mem, root;
      InsertIs(t, record);
      f := InsertChild(n, record, t, p);
      ghost var m1, u := mem, WithSide(t, record.low, Inserted(Side(t, record.low), record));
      KeptUnder(m, r, m1, n, t, u, p, f);
      KeptGives(m, m1, n, t, u, p, f);
      RaiseAt(n, record.high, u, p);
      ghost var m2, w := mem, Raised(u, record.high);
      KeptUnder(m1, root, m2, n, u, w, p, {});
      KeptGives(m1, m2, n, u, w, p, {});
      KeptTwice(m, m1, m2, n, t, u, w, p, f);
      y := RebalanceAt(n, w, p);
      KeptThenReplaced(m, r, m2, mem, root, n, t, w, y, Rebalance(w), p, f);
    }

    /** The new record goes below `n`, into the child or as one. */
    method InsertChild(n: Item, record: Record, ghost t: Tree, ghost p: Item?) returns (ghost f: set<Item>)
      requires Shown(mem) && Sound(t) && t.Node? && Sound(Side(t, record.low)) && Fresh(Side(t, record.low), record.low)
      requires record.low <= record.high && Shape(mem, n, t, p) && Under(mem, root, n, Foot(mem, n, t), p)
      modifies this`root, this`mem, mem.Keys
      ensures Shown(mem) && fresh(f) && root == old(root)
      ensures Kept(old(mem), mem, n, t, WithSide(t, record.low, Inserted(Side(t, record.low), record)), p, f)
      decreases t, 0
    {
      hide Shown, Shape, Foot, Under, Kept, Replaced, Sound, Inserted;
      ghost var m, r := mem, root;
      HeightIs(m, n, t, p);
      ChildKnown(m, n, t, p);
      ChildrenUnder(m, r, n, t, p);
      Reads(n);
      ghost var y;
      if record.low < n.key {
        if n.left == null {
          var c := NewItem(record, n);
          SetLeft(n, c);
          f := {c};
          LeafKept(m, mem, n, t, p, c, record);
        } else {
          y, f := InsertBelow(n.left, record, t.left, n);
          RootStays(m, r, mem, root, m[n].left, t.left, y, Inserted(t.left, record), n, f);
          LeftKept(m, r, mem, n, t, p, y, Inserted(t.left, record), f);
        }
      } else {
        if n.right == null {
          var c := NewItem(record, n);
          SetRight(n, c);
          f := {c};
          LeafKept(m, mem, n, t, p, c, record);
        } else {
          y, f := InsertBelow(n.right, record, t.right, n);
          RootStays(m, r, mem, root, m[n].right, t.right, y, Inserted(t.right, record), n, f);
          RightKept(m, r, mem, n, t, p, y, Inserted(t.right, record), f);
        }
      }
    }

    method NewItem(record: Record, parent: Item?) returns (c: Item)
      requires Shown(mem)
      modifies this`mem
      ensures Shown(mem) && fresh(c) && c !in old(mem)
      ensures mem == old(mem)[c := Cell(record.low, [record], 0, record.high, null, null, parent)]
    {
      c := new Item(record, parent);
      mem := mem[c := Cell(record.low, [record], 0, record.high, null, null, parent)];
    }

    method RaiseMax(n: Item, high: int)
      requires Shown(mem) && n in mem
      modifies this`mem, n`max
      ensures Shown(mem) && mem == if old(mem)[n].max < high then old(mem)[n := old(mem)[n].(max := high)] else old(mem)
    {
      Reads(n);
      if n.max < high {
        n.max := high;
        mem := mem[n := mem[n].(max := high)];
      }
    }

    /** The maximum of an ancestor, raised if needed, and its height. */
    method RaiseAt(n: Item, high: int, ghost t: Tree, ghost p: Item?)
      requires Shown(mem) && t.Node? && Shape(mem, n, t, p)
      modifies this`mem, n`max, n`height
      ensures Shown(mem) && Kept(old(mem), mem, n, t, Raised(t, high), p, {}) && mem.Keys == old(mem).Keys
    {
      hide Shape, Foot, Kept, HeightAt, Shown;
      ghost var m := mem;
      HeightIs(m, n, t, p);
      RaiseMax(n, high);
      RaisedHeight(m, mem, n, t, high, p);
      UpdateHeight(n, Raised(t, high).height);
      NumbersKept(m, mem, n, t, Raised(t, high), p);
    }

    /** `searchExisting`: the node with the key, and how deep it is. */
    method SearchExisting(n: Item, low: int, ghost t: Tree, ghost p: Item?) returns (r: Item?, ghost d: nat)
      requires Shown(mem) && t.Node? && Ordered(t) && Shape(mem, n, t, p)
      ensures r == null <==> Fresh(t, low)
      ensures r != null ==> OnPath(t, low, d) && r == ItemAt(mem, n, t, low, d, p) && Along(t, low, d).key == low
      decreases t
    {
      hide Shown, Foot, Ordered, Fresh;
      HeightIs(mem, n, t, p);
      ChildKnown(mem, n, t, p);
      Reads(n);
      OtherSides(t, low);
      SidesOrdered(t);
      r, d := null, 0;
      if n.key == low {
        r := n;
      } else if low < n.key {
        if n.left != null {
          r, d := SearchExisting(n.left, low, t.left, n);
          d := d + 1;
        } else {
          EmptyFresh(t.left, low);
        }
      } else {
        if n.right != null {
          r, d := SearchExisting(n.right, low, t.right, n);
          d := d + 1;
        } else {
          EmptyFresh(t.right, low);
        }
      }
    }

    /** `updateMaxOfParents`: from the node at depth `d` up to the root. */
    method UpdateMaxOfParents(n: Item, ghost t: Tree, ghost low: int, ghost d: nat)
      requires Shown(mem) && OnPath(t, low, d) && Filled(t, low, d) && Shape(mem, root, t, null)
        && n == ItemAt(mem, root, t, low, d, null)
      modifies this`mem, mem.Keys
      ensures Shown(mem) && mem.Keys == old(mem).Keys && Shape(mem, root, Up(t, low, d), null)
      decreases d
    {
      hide Shown, Shape, Foot, Kept, Along, ItemAt, Swap, Up, OnPath, Filled;
      ghost var m := mem;
      ItemThere(m, root, t, low, d, null);
      AlongFilled(t, low, d);
      ghost var u := Along(t, low, d);
      ghost var p := m[n].parent;
      Reads(n);
      MaxAt(n, u, p);
      PathKept(m, mem, root, t, low, d, null, WithMax(u));
      ghost var s := Swap(t, low, d, WithMax(u));
      UpTop(t, low, d);
      ItemThere(mem, root, s, low, d, null);
      Reads(n);
      if n.parent != null {
        UpStep(t, low, d);
        BeforeIs(mem, root, s, low, d, null);
        UpdateMaxOfParents(n.parent, s, low, d - 1);
      }
    }

    ghost predicate Valid()
      reads this, mem.Keys
    {
      Shown(mem) && Sound(tree) && Shape(mem, root, tree, null) && count == |Records(tree)|
    }

    ghost function Footprint(): set<object>
      reads this
    {
      {this} + mem.Keys
    }

    /** The stored records in key order. */
    ghost function Contents(): seq<Record>
      reads this
    {
      Records(tree)
    }

    constructor ()
      ensures Valid() && fresh(Footprint()) && Contents() == []
    {
      root, count := null, 0;
      mem, tree := map[], Empty;
    }

    /** `IntervalTree.insert`.  `ok` is false for an interval that ends before it starts, which the
        source throws for; `added` is false for a record that is there already. */
    method Insert(record: Record) returns (ok: bool, added: bool)
      requires Valid()
      modifies Footprint()
      ensures Valid() && fresh(Footprint() - old(Footprint()))
      ensures ok == (record.low <= record.high)
      ensures added == (ok && record !in old(Contents()))
      ensures Contents() == if added then Placed(old(Contents()), record) else old(Contents())
    {
      hide Shown, Shape, Foot, Sound, Replaced, Under, Fresh, Inserted, Pushed, OnPath, ItemAt, Along, Records, Placed;
      if record.low > record.high {
        return false, false;
      }
      ok, added := true, true;
      PlacedLength(Records(tree), record);
      if root == null {
        EmptyRoot(mem, tree);
        NewSound(record);
        var c := NewItem(record, null);
        root, count, tree := c, 1, NewNode(record);
        NewShape(mem, c, record);
        return;
      }
      EmptyRoot(mem, tree);
      SoundOrdered(tree);
      var node;
      ghost var d;
      node, d := SearchExisting(root, record.low, tree, null);
      if node != null {
        ItemRecords(mem, root, tree, record.low, d, record);
        ItemThere(mem, root, tree, record.low, d, null);
        Reads(node);
        if record in node.records {
          return true, false;
        }
        Push(node, record, d);
      } else {
        RootUnder(mem, root, tree);
        FreshNot(tree, record);
        ghost var m, r, t := mem, root, Inserted(tree, record);
        ghost var y, f := InsertBelow(root, record, tree, null);
        ReplacedRoot(m, r, mem, root, r, tree, y, t, f);
        count, tree := count + 1, t;
      }
    }

    /** One more record for the node of its key; the maxima above follow only when they must. */
    method Push(node: Item, record: Record, ghost d: nat)
      requires Valid() && OnPath(tree, record.low, d) && node == ItemAt(mem, root, tree, record.low, d, null)
      requires Along(tree, record.low, d).key == record.low && !Fresh(tree, record.low) && record.low <= record.high
      modifies Footprint()
      ensures Valid() && mem.Keys == old(mem).Keys && tree == Pushed(old(tree), record)
    {
      hide Shown, Shape, Foot, Sound, Kept, Pushed, OnPath, ItemAt, Along, Swap, Up, Filled, Records, Fresh, Placed;
      ghost var m, t, low := mem, tree, record.low;
      ItemThere(m, root, t, low, d, null);
      PathFilled(t, low, d);
      ghost var u := Along(t, low, d);
      PushedIs(t, record, d);
      PlacedLength(Records(t), record);
      HeightIs(m, node, u, m[node].parent);
      Reads(node);
      var raise := record.high > node.max;
      AddRecord(node, record, u);
      PathKept(m, mem, root, t, low, d, null, WithRecord(u, record));
      ghost var s := Swap(t, low, d, WithRecord(u, record));
      ItemThere(mem, root, s, low, d, null);
      Reads(node);
      if raise && node.parent != null {
        BeforeIs(mem, root, s, low, d, null);
        UpdateMaxOfParents(node.parent, s, low, d - 1);
      }
      count, tree := count + 1, Pushed(t, record);
    }

    method AddRecord(node: Item, record: Record, ghost u: Tree)
      requires Shown(mem) && node in mem && u.Node? && Shape(mem, node, u, mem[node].parent)
      modifies node`records, node`max, this`mem
      ensures Shown(mem) && mem.Keys == old(mem).Keys
        && Kept(old(mem), mem, node, u, WithRecord(u, record), old(mem[node].parent), {})
    {
      hide Shape, Foot, Kept;
      HeightIs(mem, node, u, mem[node].parent);
      Reads(node);
      node.records := node.records + [record];
      if record.high > node.max {
        node.max := record.high;
      }
      ghost var m := mem;
      mem := mem[node := mem[node].(records := u.records + [record], max := Max(u.max, record.high))];
      NumbersKept(m, mem, node, u, WithRecord(u, record), m[node].parent);
    }

    // ---------------------------------------------------------------- search

    /** `_getOverlappingRecords` */
    method OwnRecords(n: Item, low: int, high: int) returns (found: seq<Record>)
      requires n.records != []
      ensures found == if n.key <= high && low <= High(n.records) then Reaching(n.records, low) else []
    {
      found := [];
      var top := NodeHigh(n);
      if n.key <= high && low <= top {
        var s := n.records;
        var i := 0;
        while i < |s|
          invariant 0 <= i <= |s| && found == Reaching(s[..i], low)
        {
          assert s[..i + 1][..i] == s[..i];
          if s[i].high >= low {
            found := found + [s[i]];
          }
          i := i + 1;
        }
        assert s[..i] == s;
      }
    }

    /** `Node.search` */
    method SearchBelow(n: Item, low: int, high: int, ghost t: Tree, ghost p: Item?) returns (found: seq<Record>)
      requires Shown(mem) && t.Node? && Sound(t) && Shape(mem, n, t, p)
      ensures found == Search(t, low, high)
      decreases t
    {
      hide Shown, Foot, Sound, Reaching;
      SoundOrdered(t);
      SidesSound(t);
      HeightIs(mem, n, t, p);
      ChildKnown(mem, n, t, p);
      HeightIs(mem, mem[n].left, t.left, n);
      Reads(n);
      if n.left != null {
        Reads(n.left);
      }
      if low > n.max {
        return [];
      }
      var left, right := [], [];
      if n.left != null && n.left.max >= low {
        left := SearchBelow(n.left, low, high, t.left, n);
      }
      var own := OwnRecords(n, low, high);
      if high < n.key {
        return left + own;
      }
      if n.right != null {
        right := SearchBelow(n.right, low, high, t.right, n);
      }
      found := left + own + right;
    }

    /** `IntervalTree.search`: what a scan over all records would find, in the same order. */
    method Find(low: int, high: int) returns (found: seq<Record>)
      requires Valid()
      ensures found == Filter(Contents(), low, high)
    {
      if root == null {
        return [];
      }
      SearchIsFilter(tree, low, high);
      found := SearchBelow(root, low, high, tree, null);
    }
  }
}
