/** `src/util/map.c` in memory: slots and nodes that the operations rewrite in place. */
module RadixMap {
  import opened Bits
  import opened CritBit

  /** The union in `struct Map`; `v` next to it tells a string from a node. */
  datatype Union = Null | ToNode(node: Node) | ToString(key: Key)

  /** `struct Map` */
  class Slot {
    var u: Union
    var v: Pointer

    constructor (u: Union, v: Pointer)
      ensures this.u == u && this.v == v
    {
      this.u, this.v := u, v;
    }
  }

  /** `struct Node`, with its two embedded slots. */
  class Node {
    const zero: Slot
    const one: Slot
    const byteNum: nat
    const bitNum: nat

    constructor (zero: Slot, one: Slot, byteNum: nat, bitNum: nat)
      ensures this.zero == zero && this.one == one && this.byteNum == byteNum && this.bitNum == bitNum
    {
      this.zero, this.one, this.byteNum, this.bitNum := zero, one, byteNum, bitNum;
    }
  }

  datatype Cell = Cell(u: Union, v: Pointer)

  type Memory = map<Slot, Cell>

  ghost predicate Shown(mem: Memory)
    reads mem.Keys
  {
    forall s {:trigger mem[s]} :: s in mem ==> s.u == mem[s].u && s.v == mem[s].v
  }

  // ------------------------------------------------------------------ trees in memory

  /** The slots of the tree `t` that starts at `s`. */
  ghost function Foot(mem: Memory, s: Slot, t: Tree): set<Slot>
    decreases t
  {
    if t.Node? && s in mem && mem[s].u.ToNode? then
      var n := mem[s].u.node;
      {s} + Foot(mem, n.zero, t.zero) + Foot(mem, n.one, t.one)
    else {s}
  }

  /** The memory holds the tree `t` from slot `s` on. */
  ghost predicate Shape(mem: Memory, s: Slot, t: Tree)
    decreases t
  {
    s in mem &&
    match t
    case Leaf(k, v) => mem[s] == Cell(ToString(k), v) && v != 0
    case Node(b, i, l, r) =>
      mem[s].v == 0 && mem[s].u.ToNode? &&
      var n := mem[s].u.node;
      && n.byteNum == b && n.bitNum == i && Shape(mem, n.zero, l) && Shape(mem, n.one, r)
      && s !in Foot(mem, n.zero, l) && s !in Foot(mem, n.one, r)
      && Foot(mem, n.zero, l) !! Foot(mem, n.one, r)
  }

  /** `w` is `mem` on the slots `f`. */
  ghost predicate SameOn(mem: Memory, w: Memory, f: set<Slot>) {
    forall x :: x in f && x in mem ==> x in w && w[x] == mem[x]
  }

  lemma {:induction false} FootKnown(mem: Memory, s: Slot, t: Tree)
    requires Shape(mem, s, t)
    ensures s in Foot(mem, s, t) && Foot(mem, s, t) <= mem.Keys
    decreases t
  {
    if t.Node? {
      FootKnown(mem, mem[s].u.node.zero, t.zero);
      FootKnown(mem, mem[s].u.node.one, t.one);
    }
  }

  /** A tree does not notice what happens outside its slots. */
  lemma {:induction false} Framed(mem: Memory, w: Memory, s: Slot, t: Tree)
    requires Shape(mem, s, t) && SameOn(mem, w, Foot(mem, s, t))
    ensures Shape(w, s, t) && Foot(w, s, t) == Foot(mem, s, t)
    decreases t
  {
    FootKnown(mem, s, t);
    if t.Node? {
      Framed(mem, w, mem[s].u.node.zero, t.zero);
      Framed(mem, w, mem[s].u.node.one, t.one);
    }
  }

  /** `*b = *s`: the tree can be moved by copying its first slot. */
  lemma Moved(mem: Memory, w: Memory, s: Slot, b: Slot, t: Tree)
    requires Shape(mem, s, t) && b in w && w[b] == mem[s] && (b == s || b !in Foot(mem, s, t))
    requires SameOn(mem, w, Foot(mem, s, t) - {s})
    ensures Shape(w, b, t) && Foot(w, b, t) == Foot(mem, s, t) - {s} + {b}
  {
    if t.Node? {
      var n := mem[s].u.node;
      Framed(mem, w, n.zero, t.zero);
      Framed(mem, w, n.one, t.one);
    }
  }

  // ------------------------------------------------------------------ paths

  /** The subtree `d` steps along the path that `k` chooses. */
  ghost function Sub(t: Tree, k: Key, d: nat): Tree
    requires WF(t)
    decreases t
  {
    if d == 0 || t.Leaf? then t else Sub(Child(t, k), k, d - 1)
  }

  ghost function ChildSlot(mem: Memory, s: Slot, t: Tree, k: Key): Slot
    requires WF(t) && t.Node? && Shape(mem, s, t)
  {
    if At(k, Pos(t)) then mem[s].u.node.one else mem[s].u.node.zero
  }

  /** And the slot where it starts. */
  ghost function SubSlot(mem: Memory, s: Slot, t: Tree, k: Key, d: nat): Slot
    requires WF(t) && Shape(mem, s, t)
    decreases t
  {
    if d == 0 || t.Leaf? then s else SubSlot(mem, ChildSlot(mem, s, t, k), Child(t, k), k, d - 1)
  }

  /** `t` with `h` in place of that subtree. */
  ghost function Graft(t: Tree, k: Key, d: nat, h: Tree): Tree
    requires WF(t)
    decreases t
  {
    if d == 0 || t.Leaf? then h else WithChild(t, k, Graft(Child(t, k), k, d - 1, h))
  }

  lemma {:induction false} SubThere(mem: Memory, s: Slot, t: Tree, k: Key, d: nat)
    requires WF(t) && Shape(mem, s, t)
    ensures WF(Sub(t, k, d)) && Shape(mem, SubSlot(mem, s, t, k, d), Sub(t, k, d))
    ensures Foot(mem, SubSlot(mem, s, t, k, d), Sub(t, k, d)) <= Foot(mem, s, t)
    decreases t
  {
    if d > 0 && t.Node? {
      SubThere(mem, ChildSlot(mem, s, t, k), Child(t, k), k, d - 1);
    }
  }

  /** One more step. */
  lemma {:induction false} SubDeeper(mem: Memory, s: Slot, t: Tree, k: Key, d: nat, h: Tree)
    requires WF(t) && Shape(mem, s, t) && Sub(t, k, d).Node?
    ensures var u := Sub(t, k, d);
      && WF(u) && Shape(mem, SubSlot(mem, s, t, k, d), u)
      && Sub(t, k, d + 1) == Child(u, k)
      && SubSlot(mem, s, t, k, d + 1) == ChildSlot(mem, SubSlot(mem, s, t, k, d), u, k)
      && Graft(t, k, d + 1, h) == Graft(t, k, d, WithChild(u, k, h))
    decreases t
  {
    if d > 0 && t.Node? {
      SubDeeper(mem, ChildSlot(mem, s, t, k), Child(t, k), k, d - 1, h);
    }
  }

  ghost function OtherSlot(mem: Memory, s: Slot, t: Tree, k: Key): Slot
    requires WF(t) && t.Node? && Shape(mem, s, t)
  {
    if At(k, Pos(t)) then mem[s].u.node.zero else mem[s].u.node.one
  }

  /** The two halves of a tree in memory. */
  lemma Halves(mem: Memory, s: Slot, t: Tree, k: Key)
    requires WF(t) && t.Node? && Shape(mem, s, t)
    ensures t.bitNum < 8 && WF(Child(t, k)) && WF(Other(t, k)) && s in mem && Child(t, k) < t
    ensures var c, o := ChildSlot(mem, s, t, k), OtherSlot(mem, s, t, k);
      && Shape(mem, c, Child(t, k)) && Shape(mem, o, Other(t, k))
      && Foot(mem, s, t) == {s} + Foot(mem, c, Child(t, k)) + Foot(mem, o, Other(t, k))
      && s !in Foot(mem, c, Child(t, k)) && s !in Foot(mem, o, Other(t, k))
      && Foot(mem, c, Child(t, k)) !! Foot(mem, o, Other(t, k))
      && Foot(mem, o, Other(t, k)) <= mem.Keys && Foot(mem, c, Child(t, k)) <= mem.Keys
  {
    FootKnown(mem, mem[s].u.node.zero, t.zero);
    FootKnown(mem, mem[s].u.node.one, t.one);
  }

  /** And a tree put together from them, one of them new. */
  lemma Rejoined(mem: Memory, w: Memory, s: Slot, t: Tree, k: Key, h: Tree)
    requires WF(t) && t.Node? && Shape(mem, s, t) && s in w && w[s] == mem[s]
    requires var c, o := ChildSlot(mem, s, t, k), OtherSlot(mem, s, t, k);
      && Shape(w, c, h) && Shape(w, o, Other(t, k))
      && s !in Foot(w, c, h) && s !in Foot(w, o, Other(t, k)) && Foot(w, c, h) !! Foot(w, o, Other(t, k))
    ensures var c, o := ChildSlot(mem, s, t, k), OtherSlot(mem, s, t, k);
      Shape(w, s, WithChild(t, k, h)) && Foot(w, s, WithChild(t, k, h)) == {s} + Foot(w, c, h) + Foot(w, o, Other(t, k))
  {
  }

  /** Rewriting the memory of the subtree only, to hold `h` with the help of the new slots `f`,
      makes the whole memory hold the grafted tree. */
  lemma {:induction false} Grafted(mem: Memory, w: Memory, s: Slot, t: Tree, k: Key, d: nat, h: Tree, f: set<Slot>)
    requires WF(t) && Shape(mem, s, t) && f !! mem.Keys
    requires var n, u := SubSlot(mem, s, t, k, d), Sub(t, k, d);
      && Shape(w, n, h) && Foot(w, n, h) <= Foot(mem, n, u) + f
      && SameOn(mem, w, mem.Keys - Foot(mem, n, u))
    ensures Shape(w, s, Graft(t, k, d, h)) && Foot(w, s, Graft(t, k, d, h)) <= Foot(mem, s, t) + f
    decreases t
  {
    hide WF, Shape, Foot, ChildSlot, OtherSlot, Child, Other, WithChild;
    if d > 0 && t.Node? {
      Halves(mem, s, t, k);
      var c, o := ChildSlot(mem, s, t, k), OtherSlot(mem, s, t, k);
      SubThere(mem, c, Child(t, k), k, d - 1);
      Grafted(mem, w, c, Child(t, k), k, d - 1, h, f);
      Framed(mem, w, o, Other(t, k));
      Rejoined(mem, w, s, t, k, Graft(Child(t, k), k, d - 1, h));
    }
  }

  // ------------------------------------------------------------------ the operations

  /** The bit of the key that a node asks for; 0 behind its end. */
  predicate Direction(n: Node, k: Key)
    requires n.bitNum < 8
  {
    if n.byteNum < |k| then BitOf(k[n.byteNum], n.bitNum) else false
  }

  lemma DirectionAt(n: Node, k: Key)
    requires n.bitNum < 8
    ensures Direction(n, k) == At(k, Position(n.byteNum, n.bitNum))
  {
    AtPosition(k, n.byteNum, n.bitNum);
  }

  /** What the memory shows of a node, and of a leaf. */
  lemma NodeThere(mem: Memory, n: Slot, u: Tree)
    requires n in mem && WF(u) && Shape(mem, n, u) && mem[n].v == 0
    ensures u.Node? && u.bitNum < 8 && mem[n].u.ToNode?
    ensures var x := mem[n].u.node;
      && x.byteNum == u.byteNum && x.bitNum == u.bitNum && ChildSlot(mem, n, u, []) in mem
      && x.zero in mem && x.one in mem && Shape(mem, x.zero, u.zero) && Shape(mem, x.one, u.one) && WF(u.zero)
      && WF(u.one)
  {
  }

  lemma LeafThere(mem: Memory, n: Slot, u: Tree)
    requires n in mem && Shape(mem, n, u) && mem[n].v != 0
    ensures u.Leaf? && mem[n] == Cell(ToString(u.key), u.value)
  {
  }

  lemma CriticalIs(a: Key, b: Key, n: nat, bitNum: nat)
    requires n <= |a| && n <= |b| && a[..n] == b[..n] && bitNum < 8 && a != b
    requires BitOf(ByteAt(a, n), bitNum) != BitOf(ByteAt(b, n), bitNum)
    requires forall j: nat :: bitNum < j < 8 ==> BitOf(ByteAt(a, n), j) == BitOf(ByteAt(b, n), j)
    ensures Differ(a, b, Position(n, bitNum))
    ensures Critical(a, b, 0) / 8 == n && 7 - Critical(a, b, 0) % 8 == bitNum
  {
    DifferAt(a, b, n, bitNum);
    DifferOnce(a, b, Position(n, bitNum), Critical(a, b, 0));
  }

  lemma PathStart(mem: Memory, s: Slot, t: Tree, k: Key)
    requires WF(t) && Shape(mem, s, t)
    ensures s in mem && Sub(t, k, 0) == t && SubSlot(mem, s, t, k, 0) == s
    ensures forall h :: Graft(t, k, 0, h) == h
  {
  }

  /** Where the code compares byte and bit numbers, it compares positions. */
  lemma PositionOrder(n: Node, u: Tree, byteNum: nat, bitNum: nat)
    requires u.Node? && u.bitNum < 8 && bitNum < 8 && n.byteNum == u.byteNum && n.bitNum == u.bitNum
    ensures Stops(u, Position(byteNum, bitNum)) <==>
      n.byteNum > byteNum || (n.byteNum == byteNum && n.bitNum < bitNum)
    ensures Position(n.byteNum, n.bitNum) == Pos(u)
  {
  }

  lemma PutStops(u: Tree, k: Key, v: Pointer, byteNum: nat, bitNum: nat)
    requires WF(u) && bitNum < 8 && Stops(u, Position(byteNum, bitNum))
    ensures PutAt(u, k, v, byteNum, bitNum) == Joined(u, k, v, byteNum, bitNum)
  {
  }

  lemma PutDeeper(mem: Memory, s: Slot, t: Tree, k: Key, v: Pointer, byteNum: nat, bitNum: nat, d: nat)
    requires WF(t) && Shape(mem, s, t) && bitNum < 8 && Sub(t, k, d).Node? && WF(Sub(t, k, d))
    requires !Stops(Sub(t, k, d), Position(byteNum, bitNum))
    ensures var u := Sub(t, k, d);
      && Shape(mem, SubSlot(mem, s, t, k, d), u) && WF(Child(u, k))
      && Sub(t, k, d + 1) == Child(u, k)
      && SubSlot(mem, s, t, k, d + 1) == ChildSlot(mem, SubSlot(mem, s, t, k, d), u, k)
      && Graft(t, k, d, PutAt(u, k, v, byteNum, bitNum))
        == Graft(t, k, d + 1, PutAt(Child(u, k), k, v, byteNum, bitNum))
  {
    SubDeeper(mem, s, t, k, d, PutAt(Child(Sub(t, k, d), k), k, v, byteNum, bitNum));
  }

  lemma SlotKnown(mem: Memory, s: Slot, t: Tree)
    requires Shape(mem, s, t)
    ensures s in mem
  {
  }

  lemma NeverNull(mem: Memory, s: Slot, t: Tree)
    requires Shape(mem, s, t)
    ensures s in mem && mem[s].u != Null
  {
  }

  lemma NotLeaf(t: Tree, k: Key, d: nat)
    requires WF(t) && Sub(t, k, d).Node?
    ensures t.Node?
  {
  }

  lemma DeleteDeeper(mem: Memory, s: Slot, t: Tree, k: Key, d: nat)
    requires WF(t) && Shape(mem, s, t) && Sub(t, k, d).Node? && WF(Sub(t, k, d))
    ensures var u := Sub(t, k, d);
      && Shape(mem, SubSlot(mem, s, t, k, d), u) && WF(Child(u, k)) && Closest(u, k) == Closest(Child(u, k), k)
      && Sub(t, k, d + 1) == Child(u, k)
      && SubSlot(mem, s, t, k, d + 1) == ChildSlot(mem, SubSlot(mem, s, t, k, d), u, k)
      && (Child(u, k).Node? ==> Graft(t, k, d, DeleteAt(u, k)) == Graft(t, k, d + 1, DeleteAt(Child(u, k), k)))
  {
    var u := Sub(t, k, d);
    SubDeeper(mem, s, t, k, d, if Child(u, k).Node? then DeleteAt(Child(u, k), k) else u);
  }

  datatype KeyValue = KeyValue(key: Key, value: Pointer)

  /** The handler of `map_first`. */
  function TakeFirst(kv: KeyValue, k: Key, v: Pointer): (KeyValue, bool) { (KeyValue(k, v), false) }

  /** What a handler makes of a list of bindings: it goes on until the handler answers false. */
  ghost function Visit<S>(items: seq<(Key, Pointer)>, handle: (S, Key, Pointer) -> (S, bool), s: S): (S, bool)
    decreases |items|
  {
    if items == [] then (s, true)
    else
      var (r, more) := handle(s, items[0].0, items[0].1);
      if more then Visit(items[1..], handle, r) else (r, false)
  }

  lemma {:induction false} VisitBoth<S>(a: seq<(Key, Pointer)>, b: seq<(Key, Pointer)>,
                                        handle: (S, Key, Pointer) -> (S, bool), s: S)
    ensures var (r, more) := Visit(a, handle, s);
      Visit(a + b, handle, s) == if more then Visit(b, handle, r) else (r, false)
    decreases |a|
  {
    if a == [] {
      assert a + b == b;
    } else {
      assert (a + b)[1..] == a[1..] + b;
      VisitBoth(a[1..], b, handle, handle(s, a[0].0, a[0].1).0);
    }
  }

  /** A handler that collects and always goes on sees every binding once and in order. */
  function Collect(s: seq<(Key, Pointer)>, k: Key, v: Pointer): (seq<(Key, Pointer)>, bool) { (s + [(k, v)], true) }

  lemma {:induction false} VisitAll(items: seq<(Key, Pointer)>, s: seq<(Key, Pointer)>)
    ensures Visit(items, Collect, s) == (s + items, true)
    decreases |items|
  {
    if items == [] {
      assert s + items == s;
    } else {
      VisitAll(items[1..], s + [items[0]]);
      assert s + [items[0]] + items[1..] == s + items;
    }
  }

  /** What a handler declines is the last that it sees. */
  lemma VisitStops<S>(a: seq<(Key, Pointer)>, k: Key, v: Pointer, b: seq<(Key, Pointer)>,
                      handle: (S, Key, Pointer) -> (S, bool), s: S)
    requires Visit(a, handle, s).1 && !handle(Visit(a, handle, s).0, k, v).1
    ensures Visit(a + [(k, v)] + b, handle, s) == handle(Visit(a, handle, s).0, k, v)
  {
    assert a + [(k, v)] + b == a + ([(k, v)] + b);
    VisitBoth(a, [(k, v)] + b, handle, s);
  }

  class Map {
    const root: Slot
    ghost var mem: Memory
    ghost var tree: Root

    ghost predicate Valid()
      reads this, mem.Keys
    {
      Shown(mem) && root in mem && Sound(tree)
      && if tree.None? then mem[root].u == Null else Shape(mem, root, tree.value)
    }

    ghost function Footprint(): set<object>
      reads this
    {
      {this} + mem.Keys
    }

    /** The finite map this object stands for. */
    ghost function Contents(): map<Key, Pointer>
      reads this
    {
      Bindings(tree)
    }

    /** `map_new` */
    constructor ()
      ensures Valid() && fresh(Footprint()) && Contents() == map[]
    {
      var s := new Slot(Null, 0);
      root := s;
      mem, tree := map[s := Cell(Null, 0)], None;
    }

    /** `map_empty` */
    method Empty() returns (r: bool)
      requires Valid()
      ensures r == (Contents() == map[])
    {
      r := root.u == Null;
      if tree.Some? {
        var k := KeysExist(tree.value);
      }
    }

    /** `closest`, on a map that is not empty. */
    method FindClosest(k: Key) returns (n: Slot)
      requires Valid() && tree.Some?
      ensures n in mem && Shape(mem, n, Closest(tree.value, k))
    {
      hide WF, At, Position;
      n := root;
      ghost var u := tree.value;
      while n.v == 0
        invariant n in mem && WF(u) && Shape(mem, n, u) && Closest(u, k) == Closest(tree.value, k)
        decreases u
      {
        NodeThere(mem, n, u);
        DirectionAt(n.u.node, k);
        n := if Direction(n.u.node, k) then n.u.node.one else n.u.node.zero;
        u := Child(u, k);
      }
      LeafThere(mem, n, u);
    }

    /** `map_get`: NULL for an absent key. */
    method Get(k: Key) returns (v: Pointer)
      requires Valid()
      ensures v == if k in Contents() then Contents()[k] else 0
    {
      if root.u != Null {
        GetIsLookup(tree.value, k);
        var n := FindClosest(k);
        if n.u.key == k {
          return n.v;
        }
      }
      v := 0;
    }

    /** `map_put`: stores the value under a new key; NULL values and known keys are refused. */
    method Put(k: Key, v: Pointer) returns (ok: bool)
      requires Valid()
      modifies Footprint()
      ensures Valid() && fresh(Footprint() - old(Footprint()))
      ensures tree == CritBit.Put(old(tree), k, v).0
      ensures ok == (v != 0 && k !in old(Contents()))
      ensures Contents() == if ok then old(Contents())[k := v] else old(Contents())
    {
      hide WF, Critical, PutAt;
      PutRefines(tree, k, v);
      if v == 0 {
        return false;
      }
      if root.u == Null {
        PutFirst(k, v);
        return true;
      }
      ok := PutSecond(k, v);
    }

    /** In an empty map. */
    method PutFirst(k: Key, v: Pointer)
      requires Valid() && tree.None? && v != 0
      modifies root
      modifies `mem, `tree
      ensures Valid() && Footprint() == old(Footprint()) && tree == Some(Leaf(k, v))
    {
      root.u, root.v := ToString(k), v;
      mem, tree := mem[root := Cell(ToString(k), v)], Some(Leaf(k, v));
    }

    /** In a map with keys: the closest of them tells the place. */
    method PutSecond(k: Key, v: Pointer) returns (ok: bool)
      requires Valid() && v != 0 && tree.Some?
      modifies Footprint()
      ensures Valid() && fresh(Footprint() - old(Footprint()))
      ensures tree == CritBit.Put(old(tree), k, v).0 && ok == CritBit.Put(old(tree), k, v).1
    {
      hide WF, Critical, PutAt;
      var n := FindClosest(k);
      var near := n.u.key;
      var byteNum, differ := FirstDifference(near, k);
      if !differ {
        return false;
      }
      var bitNum := HighestDifference(ByteAt(near, byteNum), ByteAt(k, byteNum));
      CriticalIs(near, k, byteNum, bitNum);
      Split(k, v, byteNum, bitNum);
      ok := true;
    }

    /** The second half of `map_put`: the walk to the place of the new node, and its insertion. */
    method Split(k: Key, v: Pointer, byteNum: nat, bitNum: nat)
      requires Valid() && tree.Some? && v != 0 && bitNum < 8
      requires Differ(Closest(tree.value, k).key, k, Position(byteNum, bitNum))
      modifies Footprint()
      ensures Valid() && fresh(Footprint() - old(Footprint()))
      ensures tree == Some(PutAt(old(tree.value), k, v, byteNum, bitNum))
    {
      hide WF, At, Position, PutAt, Graft, Differ, Joined;
      PutAdds(tree.value, k, v, byteNum, bitNum);
      ghost var d;
      var n;
      n, d := FindPlace(k, v, byteNum, bitNum);
      Link(n, k, v, byteNum, bitNum, d);
    }

    /** The walk of `map_put`: not to the closest key, but to the first place behind the new
        position. */
    method FindPlace(k: Key, v: Pointer, byteNum: nat, bitNum: nat) returns (n: Slot, ghost d: nat)
      requires Valid() && tree.Some? && bitNum < 8
      ensures n in mem && n == SubSlot(mem, root, tree.value, k, d)
      ensures WF(Sub(tree.value, k, d)) && Shape(mem, n, Sub(tree.value, k, d))
      ensures PutAt(tree.value, k, v, byteNum, bitNum)
        == Graft(tree.value, k, d, Joined(Sub(tree.value, k, d), k, v, byteNum, bitNum))
    {
      hide WF, At, Position, PutAt, Sub, SubSlot, Graft, Foot, Joined;
      n, d := root, 0;
      ghost var t := tree.value;
      ghost var u := t;
      PathStart(mem, root, t, k);
      while n.v == 0
        invariant n in mem && WF(t) && Shape(mem, root, t) && u == Sub(t, k, d) && n == SubSlot(mem, root, t, k, d)
        invariant WF(u) && Shape(mem, n, u)
        invariant PutAt(t, k, v, byteNum, bitNum) == Graft(t, k, d, PutAt(u, k, v, byteNum, bitNum))
        decreases u
      {
        NodeThere(mem, n, u);
        PositionOrder(n.u.node, u, byteNum, bitNum);
        if n.u.node.byteNum > byteNum || (n.u.node.byteNum == byteNum && n.u.node.bitNum < bitNum) {
          PutStops(u, k, v, byteNum, bitNum);
          return;
        }
        DirectionAt(n.u.node, k);
        PutDeeper(mem, root, t, k, v, byteNum, bitNum, d);
        n := if Direction(n.u.node, k) then n.u.node.one else n.u.node.zero;
        u := Child(u, k);
        d := d + 1;
      }
      LeafThere(mem, n, u);
      PutStops(u, k, v, byteNum, bitNum);
    }

    /** `map_delete`: the value of the key, or NULL when it is not there. */
    method Delete(k: Key) returns (v: Pointer)
      requires Valid()
      modifies Footprint()
      ensures Valid() && Footprint() == old(Footprint())
      ensures tree == CritBit.Delete(old(tree), k).0
      ensures v == if k in old(Contents()) then old(Contents())[k] else 0
      ensures Contents() == old(Contents()) - {k}
    {
      hide WF, At, Position, DeleteAt;
      DeleteRefines(tree, k);
      if root.u == Null {
        return 0;
      }
      ghost var d;
      var parent, n;
      parent, n, d := FindParent(k);
      if n.u.key != k {
        return 0;
      }
      v := n.v;
      if parent == null {
        root.u := Null;
        mem, tree := mem[root := Cell(Null, root.v)], None;
      } else {
        Raise(parent, k, d);
      }
    }

    /** The walk of `map_delete`: to the closest key, remembering the slot before it. */
    method FindParent(k: Key) returns (parent: Slot?, n: Slot, ghost d: nat)
      requires Valid() && tree.Some?
      ensures n in mem && Shape(mem, n, Closest(tree.value, k))
      ensures parent == null <==> tree.value.Leaf?
      ensures parent != null ==>
        && WF(Sub(tree.value, k, d)) && parent == SubSlot(mem, root, tree.value, k, d)
        && parent in mem && Shape(mem, parent, Sub(tree.value, k, d))
        && Sub(tree.value, k, d).Node? && Child(Sub(tree.value, k, d), k) == Closest(tree.value, k)
        && DeleteAt(tree.value, k) == Graft(tree.value, k, d, DeleteAt(Sub(tree.value, k, d), k))
    {
      hide WF, At, Position, DeleteAt, Sub, SubSlot, Graft, Foot;
      parent, n, d := null, root, 0;
      ghost var t := tree.value;
      ghost var u, steps := t, 0;
      PathStart(mem, root, t, k);
      while n.v == 0
        invariant n in mem && WF(t) && Shape(mem, root, t) && u == Sub(t, k, steps)
          && n == SubSlot(mem, root, t, k, steps)
        invariant WF(u) && Shape(mem, n, u) && Closest(u, k) == Closest(t, k)
        invariant parent == null ==> steps == 0
        invariant parent != null ==> steps == d + 1
        invariant t.Node? && u.Node? ==> DeleteAt(t, k) == Graft(t, k, steps, DeleteAt(u, k))
        invariant parent != null ==>
          && WF(Sub(t, k, d)) && parent == SubSlot(mem, root, t, k, d) && Sub(t, k, d).Node?
          && Sub(t, k, d).bitNum < 8 && t.Node?
          && Child(Sub(t, k, d), k) == u && DeleteAt(t, k) == Graft(t, k, d, DeleteAt(Sub(t, k, d), k))
        decreases u
      {
        NodeThere(mem, n, u);
        DirectionAt(n.u.node, k);
        NotLeaf(t, k, steps);
        DeleteDeeper(mem, root, t, k, steps);
        parent := n;
        d := steps;
        n := if Direction(n.u.node, k) then n.u.node.one else n.u.node.zero;
        u := Child(u, k);
        steps := steps + 1;
      }
      LeafThere(mem, n, u);
      SubThere(mem, root, t, k, d);
      SlotKnown(mem, SubSlot(mem, root, t, k, d), Sub(t, k, d));
    }

    /** `map_prefix`: the slot of the subtree with exactly the keys that start with `x`; null
        stands for the shared empty map. */
    method Prefix(x: Key) returns (top: Slot?)
      requires Valid()
      ensures tree.None? ==> top == root
      ensures tree.Some? ==>
        match WithPrefix(tree.value, x)
        case None => top == null
        case Some(u) => top != null && top in mem && WF(u) && Shape(mem, top, u)
    {
      hide WF, At, Position;
      if root.u == Null {
        return root;
      }
      var n := root;
      top := root;
      ghost var t := tree.value;
      ghost var u, v := t, t;
      while n.v == 0
        invariant n in mem && WF(u) && Shape(mem, n, u) && top in mem && WF(v) && Shape(mem, top, v)
        invariant Walk(u, v, x) == Walk(t, t, x) && Closest(u, x) == Closest(t, x)
        decreases u
      {
        NodeThere(mem, n, u);
        DirectionAt(n.u.node, x);
        var inside := n.u.node.byteNum < |x|;
        n := if Direction(n.u.node, x) then n.u.node.one else n.u.node.zero;
        u := Child(u, x);
        if inside {
          top, v := n, u;
        }
      }
      LeafThere(mem, n, u);
      WalkEnds(t, t, x);
      if !(x <= n.u.key) {
        top := null;
      }
    }

    /** `iterate`: the handler sees the keys and values from left to right until it answers false.
        The state it works on is passed along. */
    method Iterate<S>(n: Slot, handle: (S, Key, Pointer) -> (S, bool), s: S, ghost t: Tree) returns (r: S, more: bool)
      requires Valid() && n in mem && WF(t) && Shape(mem, n, t)
      ensures (r, more) == Visit(Items(t), handle, s)
      decreases t
    {
      if n.v != 0 {
        assert Items(t)[1..] == [];
        var (a, b) := handle(s, n.u.key, n.v);
        return a, b;
      }
      r, more := Iterate(n.u.node.zero, handle, s, t.zero);
      VisitBoth(Items(t.zero), Items(t.one), handle, s);
      if more {
        r, more := Iterate(n.u.node.one, handle, r, t.one);
      }
    }

    /** `map_first`: the least key and its value. */
    method First(n: Slot, ghost t: Tree) returns (k: Key, v: Pointer)
      requires Valid() && n in mem && WF(t) && Shape(mem, n, t)
      ensures Items(t) != [] && (k, v) == Items(t)[0]
    {
      ItemsAre(t);
      var r, more := Iterate(n, TakeFirst, KeyValue([], 0), t);
      k, v := r.key, r.value;
    }

    /** `*parent = old->child[!direction];` */
    method Raise(parent: Slot, k: Key, ghost d: nat)
      requires Valid() && tree.Some? && tree.value.Node? && Shape(mem, root, tree.value) && k in Keys(tree.value)
      requires var u := Sub(tree.value, k, d);
        && WF(u) && u.Node? && parent == SubSlot(mem, root, tree.value, k, d) && parent in mem && Shape(mem, parent, u)
        && Child(u, k).Leaf? && Child(u, k).key == k
        && DeleteAt(tree.value, k) == Graft(tree.value, k, d, DeleteAt(u, k))
      modifies this, parent
      ensures Valid() && Footprint() == old(Footprint())
      ensures tree == Some(DeleteAt(old(tree.value), k))
    {
      hide WF, Sub, SubSlot, Graft, Shape, Foot, At, Position, DeleteAt;
      ghost var t, m := tree.value, mem;
      ghost var u := Sub(t, k, d);
      RaiseParts(m, parent, u, k);
      var node := parent.u.node;
      DirectionAt(node, k);
      var sibling := if Direction(node, k) then node.zero else node.one;
      parent.u, parent.v := sibling.u, sibling.v;
      mem := m[parent := m[sibling]];
      RaiseShape(m, mem, parent, sibling, u, k);
      Grafted(m, mem, root, t, k, d, Other(u, k), {});
      DeleteRemoves(t, k);
      tree := Some(DeleteAt(t, k));
    }

    /** The new node takes the place of what slot `n` holds, and has it for its other child. */
    method Link(n: Slot, k: Key, v: Pointer, byteNum: nat, bitNum: nat, ghost d: nat)
      requires Valid() && tree.Some? && v != 0 && bitNum < 8 && WF(tree.value) && Shape(mem, root, tree.value)
      requires n == SubSlot(mem, root, tree.value, k, d) && WF(Sub(tree.value, k, d))
        && Shape(mem, n, Sub(tree.value, k, d))
      requires var r := Graft(tree.value, k, d, Joined(Sub(tree.value, k, d), k, v, byteNum, bitNum)); WF(r)
      modifies this, n
      ensures Valid() && fresh(Footprint() - old(Footprint())) && old(mem).Keys <= mem.Keys
      ensures tree == Some(Graft(old(tree.value), k, d, Joined(Sub(old(tree.value), k, d), k, v, byteNum, bitNum)))
    {
      hide WF, Sub, SubSlot, Graft, Shape, Foot, Joined, At, Position, SameOn, Shown;
      ghost var t, m := tree.value, mem;
      ghost var u := Sub(t, k, d);
      FootKnown(m, n, u);
      FootKnown(m, root, t);
      ghost var leaf, other, node := Plant(n, k, v, byteNum, bitNum);
      LinkShape(m, mem, n, u, k, v, byteNum, bitNum, leaf, other, node);
      Grafted(m, mem, root, t, k, d, Joined(u, k, v, byteNum, bitNum), {leaf, other});
      tree := Some(Graft(t, k, d, Joined(u, k, v, byteNum, bitNum)));
    }

    /** The new node, its leaf, and a copy of what slot `n` held. */
    method Plant(n: Slot, k: Key, v: Pointer, byteNum: nat, bitNum: nat)
      returns (ghost leaf: Slot, ghost other: Slot, ghost node: Node)
      requires Shown(mem) && n in mem && bitNum < 8
      modifies this`mem, n
      ensures Shown(mem) && fresh(leaf) && fresh(other) && leaf != other && leaf !in old(mem) && other !in old(mem)
      ensures mem == old(mem)[leaf := Cell(ToString(k), v)][other := old(mem)[n]][n := Cell(ToNode(node), 0)]
      ensures node.byteNum == byteNum && node.bitNum == bitNum
      ensures if At(k, Position(byteNum, bitNum)) then node.one == leaf && node.zero == other
        else node.zero == leaf && node.one == other
    {
      hide At, Position, BitOf;
      JoinedBit(k, byteNum, bitNum);
      var s := new Slot(ToString(k), v);
      var o := new Slot(n.u, n.v);
      var dir := ByteBit(k, byteNum, bitNum);
      var x := new Node(if dir then o else s, if dir then s else o, byteNum, bitNum);
      n.u := ToNode(x);
      n.v := 0;
      mem := mem[s := Cell(ToString(k), v)][o := mem[n]][n := Cell(ToNode(x), 0)];
      leaf, other, node := s, o, x;
    }
  }

  lemma RaiseParts(m: Memory, parent: Slot, u: Tree, k: Key)
    requires WF(u) && u.Node? && Shape(m, parent, u) && Child(u, k).Leaf? && Child(u, k).key == k
    ensures u.bitNum < 8 && m[parent].u.ToNode? && OtherSlot(m, parent, u, k) in m
    ensures m[parent].u.node.bitNum < 8 && Position(m[parent].u.node.byteNum, m[parent].u.node.bitNum) == Pos(u)
    ensures OtherSlot(m, parent, u, k) == (if At(k, Pos(u)) then m[parent].u.node.zero else m[parent].u.node.one)
    ensures DeleteAt(u, k) == Other(u, k)
  {
    Halves(m, parent, u, k);
    FootKnown(m, OtherSlot(m, parent, u, k), Other(u, k));
  }

  lemma RaiseShape(m: Memory, w: Memory, parent: Slot, sibling: Slot, u: Tree, k: Key)
    requires WF(u) && u.Node? && Shape(m, parent, u) && sibling == OtherSlot(m, parent, u, k) && sibling in m
    requires w == m[parent := m[sibling]]
    ensures Shape(w, parent, Other(u, k)) && Foot(w, parent, Other(u, k)) <= Foot(m, parent, u)
    ensures SameOn(m, w, m.Keys - Foot(m, parent, u))
  {
    Halves(m, parent, u, k);
    FootKnown(m, parent, u);
    Moved(m, w, sibling, parent, Other(u, k));
  }

  /** The new node, its leaf and the moved subtree make up the joined tree. */
  lemma LinkShape(m: Memory, w: Memory, n: Slot, u: Tree, k: Key, v: Pointer, byteNum: nat, bitNum: nat,
                  leaf: Slot, other: Slot, node: Node)
    requires Shape(m, n, u) && WF(u) && bitNum < 8 && v != 0 && leaf !in m && other !in m && leaf != other
    requires w == m[leaf := Cell(ToString(k), v)][other := m[n]][n := Cell(ToNode(node), 0)]
    requires node.byteNum == byteNum && node.bitNum == bitNum
    requires if At(k, Position(byteNum, bitNum)) then node.one == leaf && node.zero == other
      else node.zero == leaf && node.one == other
    ensures var h := Joined(u, k, v, byteNum, bitNum);
      Shape(w, n, h) && Foot(w, n, h) <= Foot(m, n, u) + {leaf, other} && SameOn(m, w, m.Keys - Foot(m, n, u))
  {
    FootKnown(m, n, u);
    Moved(m, w, n, other, u);
  }

  lemma JoinedBit(k: Key, byteNum: nat, bitNum: nat)
    requires bitNum < 8
    ensures ByteBit(k, byteNum, bitNum) == At(k, Position(byteNum, bitNum))
  {
    AtPosition(k, byteNum, bitNum);
    ZeroByte(bitNum);
  }

  /** `(bytes[byte_num] >> bit_num) & 1` */
  predicate ByteBit(k: Key, byteNum: nat, bitNum: nat)
    requires bitNum < 8
  {
    BitOf(ByteAt(k, byteNum), bitNum)
  }
}
