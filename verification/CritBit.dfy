/** The crit-bit tree of `src/util/map.c` as a value, and the finite map it stands for. */
module CritBit {
  import opened Bits

  /** `void *`; 0 is NULL, which no stored value is. */
  type Pointer = nat

  datatype Option<T> = None | Some(value: T)

  /** A leaf holds a string and its value; a node holds where its two halves differ. */
  datatype Tree =
    | Leaf(key: Key, value: Pointer)
    | Node(byteNum: nat, bitNum: nat, zero: Tree, one: Tree)

  ghost function Keys(t: Tree): set<Key> {
    match t
    case Leaf(k, v) => {k}
    case Node(b, i, l, r) => Keys(l) + Keys(r)
  }

  ghost function Mapping(t: Tree): map<Key, Pointer> {
    match t
    case Leaf(k, v) => map[k := v]
    case Node(b, i, l, r) => Mapping(l) + Mapping(r)
  }

  /** The critical position of a node. */
  function Pos(t: Tree): nat
    requires t.Node? && t.bitNum < 8
  {
    Position(t.byteNum, t.bitNum)
  }

  /** All keys agree with each other before position `p`. */
  ghost predicate Uniform(t: Tree, p: nat) {
    forall a, b :: a in Keys(t) && b in Keys(t) ==> AgreeTo(a, b, p)
  }

  /** All keys agree with `k` before position `p`. */
  ghost predicate AllAgree(t: Tree, k: Key, p: nat) {
    forall a :: a in Keys(t) ==> AgreeTo(a, k, p)
  }

  ghost predicate AllAt(t: Tree, p: nat, bit: bool) {
    forall a :: a in Keys(t) ==> At(a, p) == bit
  }

  /** The keys below a node agree before its position, where its two halves differ. */
  ghost predicate WF(t: Tree) {
    match t
    case Leaf(k, v) => v != 0
    case Node(b, i, l, r) =>
      && i < 8 && WF(l) && WF(r)
      && AllAt(l, Pos(t), false) && AllAt(r, Pos(t), true)
      && Uniform(t, Pos(t))
  }

  lemma {:induction false} KeysExist(t: Tree) returns (k: Key)
    ensures k in Keys(t) && Mapping(t).Keys == Keys(t)
  {
    match t
    case Leaf(a, v) => k := a;
    case Node(b, i, l, r) =>
      k := KeysExist(l);
      var c := KeysExist(r);
  }

  /** Critical positions strictly increase downwards: byte up, then bit down. */
  lemma Progress(t: Tree, child: Tree)
    requires WF(t) && t.Node? && child.Node? && (child == t.zero || child == t.one)
    ensures child.bitNum < 8 && Pos(t) < Pos(child)
    ensures t.byteNum < child.byteNum || (t.byteNum == child.byteNum && child.bitNum < t.bitNum)
  {
    var a := KeysExist(child.zero);
    var b := KeysExist(child.one);
    assert a in Keys(child) && b in Keys(child) && a in Keys(t) && b in Keys(t);
    assert AgreeTo(b, a, Pos(t)) && At(a, Pos(t)) == At(b, Pos(t));
    assert At(a, Pos(child)) != At(b, Pos(child));
  }

  // ------------------------------------------------------------------ lookup

  /** The half of a node in which the search for `k` goes on. */
  function Child(t: Tree, k: seq<bv8>): Tree
    requires t.Node? && t.bitNum < 8
  {
    if At(k, Pos(t)) then t.one else t.zero
  }

  function Other(t: Tree, k: seq<bv8>): Tree
    requires t.Node? && t.bitNum < 8
  {
    if At(k, Pos(t)) then t.zero else t.one
  }

  /** `closest`: the leaf at the end of the path that the bits of `k` choose. */
  ghost function Closest(t: Tree, k: seq<bv8>): (r: Tree)
    requires WF(t)
    ensures r.Leaf? && r.key in Keys(t) && r.key in Mapping(t) && Mapping(t)[r.key] == r.value != 0
  {
    match t
    case Leaf(a, v) => t
    case Node(b, i, l, r) =>
      var c := Child(t, k);
      HalvesApart(t);
      Closest(c, k)
  }

  /** No key is in both halves. */
  lemma HalvesApart(t: Tree)
    requires WF(t) && t.Node?
    ensures Keys(t.zero) !! Keys(t.one)
    ensures Mapping(t.zero).Keys == Keys(t.zero) && Mapping(t.one).Keys == Keys(t.one)
    ensures forall a :: a in Keys(t.zero) ==> Mapping(t)[a] == Mapping(t.zero)[a]
    ensures forall a :: a in Keys(t.one) ==> Mapping(t)[a] == Mapping(t.one)[a]
  {
    var a := KeysExist(t.zero);
    var b := KeysExist(t.one);
  }

  /** A stored key is its own closest key. */
  lemma {:induction false} ClosestFinds(t: Tree, k: Key)
    requires WF(t) && k in Keys(t)
    ensures Closest(t, k).key == k
  {
    if t.Node? {
      ClosestFinds(Child(t, k), k);
    }
  }

  /** `map_get`, NULL for an absent key. */
  ghost function Get(t: Tree, k: Key): Pointer
    requires WF(t)
  {
    var c := Closest(t, k);
    if c.key == k then c.value else 0
  }

  lemma GetIsLookup(t: Tree, k: Key)
    requires WF(t)
    ensures Mapping(t).Keys == Keys(t)
    ensures Get(t, k) == if k in Mapping(t) then Mapping(t)[k] else 0
  {
    var a := KeysExist(t);
    if k in Keys(t) {
      ClosestFinds(t, k);
    }
  }

  // ------------------------------------------------------------------ insertion

  /** The new leaf and the subtree it splits off from, under a new node. */
  function Joined(t: Tree, k: Key, v: Pointer, byteNum: nat, bitNum: nat): Tree
    requires bitNum < 8
  {
    if At(k, Position(byteNum, bitNum)) then Node(byteNum, bitNum, t, Leaf(k, v))
      else Node(byteNum, bitNum, Leaf(k, v), t)
  }

  /** The walk of `map_put` stops at a leaf or below the new position. */
  predicate Stops(t: Tree, p: nat)
    requires t.Node? ==> t.bitNum < 8
  {
    t.Leaf? || p < Pos(t)
  }

  /** `t` with another tree in place of the half that `k` leads to. */
  function WithChild(t: Tree, k: Key, h: Tree): Tree
    requires t.Node? && t.bitNum < 8
  {
    if At(k, Pos(t)) then t.(one := h) else t.(zero := h)
  }

  ghost function PutAt(t: Tree, k: Key, v: Pointer, byteNum: nat, bitNum: nat): Tree
    requires WF(t) && bitNum < 8
  {
    if Stops(t, Position(byteNum, bitNum)) then Joined(t, k, v, byteNum, bitNum)
    else WithChild(t, k, PutAt(Child(t, k), k, v, byteNum, bitNum))
  }

  /** The closest key is in the half where the search goes on, so above the position at which
      it differs from `k` all keys of that half agree with `k`. */
  lemma ClosestHalf(t: Tree, k: Key, p: nat)
    requires WF(t) && t.Node? && Differ(Closest(t, k).key, k, p) && Pos(t) <= p
    ensures Pos(t) < p && Closest(Child(t, k), k) == Closest(t, k)
    ensures AllAgree(t, k, Pos(t))
  {
    var c := Closest(t, k).key;
    assert c in Keys(Child(t, k));
    assert At(c, Pos(t)) == At(k, Pos(t));
    AgreeLess(c, k, Pos(t), p);
    AgreeAll(t, c, k, Pos(t));
  }

  /** Agreeing with one key of a uniform tree is agreeing with all. */
  lemma AgreeAll(t: Tree, c: Key, k: Key, p: nat)
    requires Uniform(t, p) && c in Keys(t) && AgreeTo(c, k, p)
    ensures AllAgree(t, k, p)
  {
    forall a | a in Keys(t) ensures AgreeTo(a, k, p) {
      AgreeSame(a, c, k, p);
    }
  }

  /** A tree with one more key is uniform where that key agrees. */
  lemma UniformWith(t: Tree, r: Tree, k: Key, p: nat)
    requires Uniform(t, p) && AllAgree(t, k, p) && Keys(r) == Keys(t) + {k}
    ensures Uniform(r, p)
  {
    forall a, b | a in Keys(r) && b in Keys(r) ensures AgreeTo(a, b, p) {
      if a == k || b == k {
        AgreeBoth(t, k, a, b, p);
      }
    }
  }

  lemma AgreeBoth(t: Tree, k: Key, a: Key, b: Key, p: nat)
    requires AllAgree(t, k, p) && (a == k || b == k) && (a == k || a in Keys(t)) && (b == k || b in Keys(t))
    ensures AgreeTo(a, b, p)
  {
    if a == k && b != k {
      assert AgreeTo(b, k, p);
    }
  }

  lemma UniformLess(t: Tree, p: nat, q: nat)
    requires WF(t) && (t.Node? ==> q <= Pos(t))
    ensures Uniform(t, q)
  {
    forall a, b | a in Keys(t) && b in Keys(t) ensures AgreeTo(a, b, q) {
      if t.Node? {
        AgreeLess(a, b, q, Pos(t));
      }
    }
  }

  lemma JoinedWF(t: Tree, k: Key, v: Pointer, byteNum: nat, bitNum: nat)
    requires WF(t) && bitNum < 8 && v != 0 && Stops(t, Position(byteNum, bitNum))
    requires Differ(Closest(t, k).key, k, Position(byteNum, bitNum))
    ensures WF(Joined(t, k, v, byteNum, bitNum))
    ensures k !in Keys(t)
  {
    hide AgreeTo, At, Position, Uniform, AllAgree, AllAt, Mapping, WF, Differ, Joined;
    var c, p := Closest(t, k).key, Position(byteNum, bitNum);
    var j := Joined(t, k, v, byteNum, bitNum);
    Differing(c, k, p);
    UniformLess(t, p, p);
    AgreeAll(t, c, k, p);
    JoinedKeys(t, k, v, byteNum, bitNum);
    UniformWith(t, j, k, p);
    AllSame(t, c, p);
    JoinedHalves(t, c, k, v, byteNum, bitNum);
    OtherSide(t, c, k, p);
  }

  lemma Differing(a: Key, b: Key, p: nat)
    requires Differ(a, b, p)
    ensures AgreeTo(a, b, p) && At(a, p) != At(b, p)
  {
  }

  lemma JoinedKeys(t: Tree, k: Key, v: Pointer, byteNum: nat, bitNum: nat)
    requires bitNum < 8
    ensures Keys(Joined(t, k, v, byteNum, bitNum)) == Keys(t) + {k}
  {
    hide At;
  }

  lemma JoinedHalves(t: Tree, c: Key, k: Key, v: Pointer, byteNum: nat, bitNum: nat)
    requires WF(t) && bitNum < 8 && v != 0
    requires var p := Position(byteNum, bitNum);
      AllAt(t, p, At(c, p)) && At(c, p) != At(k, p) && Uniform(Joined(t, k, v, byteNum, bitNum), p)
    ensures WF(Joined(t, k, v, byteNum, bitNum))
  {
    hide At, Uniform, AgreeTo;
  }

  lemma OtherSide(t: Tree, c: Key, k: Key, p: nat)
    requires AllAt(t, p, At(c, p)) && At(c, p) != At(k, p)
    ensures k !in Keys(t)
  {
    hide At;
  }

  /** Where the tree does not differ yet, its keys have the same bit. */
  lemma AllSame(t: Tree, c: Key, p: nat)
    requires WF(t) && c in Keys(t) && (t.Node? ==> p < Pos(t))
    ensures AllAt(t, p, At(c, p))
  {
    if t.Node? {
      forall a | a in Keys(t) ensures At(a, p) == At(c, p) {
        assert AgreeTo(a, c, Pos(t));
      }
    }
  }

  lemma PutHalf(t: Tree, k: Key, v: Pointer, h: Tree)
    requires WF(t) && t.Node? && AllAgree(t, k, Pos(t)) && WF(h) && k !in Keys(t)
    requires Keys(h) == Keys(Child(t, k)) + {k} && Mapping(h) == Mapping(Child(t, k))[k := v]
    ensures var r := WithChild(t, k, h);
      WF(r) && Keys(r) == Keys(t) + {k} && Mapping(r) == Mapping(t)[k := v]
  {
    hide AgreeTo, At, Position, Uniform, AllAgree;
    var r := WithChild(t, k, h);
    HalvesApart(t);
    MapHalf(Mapping(t.zero), Mapping(t.one), k, v);
    assert Keys(r) == Keys(t) + {k};
    UniformWith(t, r, k, Pos(t));
    assert AllAt(Child(t, k), Pos(t), At(k, Pos(t))) ==> AllAt(h, Pos(t), At(k, Pos(t)));
  }

  lemma MapHalf(l: map<Key, Pointer>, r: map<Key, Pointer>, k: Key, v: Pointer)
    ensures l + r[k := v] == (l + r)[k := v]
    ensures k !in r ==> l[k := v] + r == (l + r)[k := v]
  {
  }

  /** `map_put` of a new key: the tree stays well-formed and gains exactly that binding. */
  lemma {:induction false} PutAdds(t: Tree, k: Key, v: Pointer, byteNum: nat, bitNum: nat)
    requires WF(t) && bitNum < 8 && v != 0 && Differ(Closest(t, k).key, k, Position(byteNum, bitNum))
    ensures var r := PutAt(t, k, v, byteNum, bitNum);
      WF(r) && Keys(r) == Keys(t) + {k} && k !in Keys(t) && Mapping(r) == Mapping(t)[k := v]
  {
    hide AgreeTo, At, Position, Uniform, AllAgree, WithChild;
    var p := Position(byteNum, bitNum);
    var w := KeysExist(t);
    NotStored(t, k, p);
    if Stops(t, p) {
      JoinedWF(t, k, v, byteNum, bitNum);
    } else {
      ClosestHalf(t, k, p);
      PutAdds(Child(t, k), k, v, byteNum, bitNum);
      PutHalf(t, k, v, PutAt(Child(t, k), k, v, byteNum, bitNum));
    }
  }

  lemma NotStored(t: Tree, k: Key, p: nat)
    requires WF(t) && Differ(Closest(t, k).key, k, p)
    ensures k !in Keys(t)
  {
    if k in Keys(t) {
      ClosestFinds(t, k);
    }
  }

  // ------------------------------------------------------------------ deletion

  /** The walk of `map_delete`: the sibling of the leaf is raised to its parent. */
  ghost function DeleteAt(t: Tree, k: Key): Tree
    requires WF(t) && t.Node?
  {
    var c := Child(t, k);
    if c.Node? then WithChild(t, k, DeleteAt(c, k))
    else if c.key == k then Other(t, k)
    else t
  }

  lemma DeleteHalf(t: Tree, k: Key, h: Tree)
    requires WF(t) && t.Node? && k in Keys(t) && WF(h)
    requires Keys(h) == Keys(Child(t, k)) - {k} && Mapping(h) == Mapping(Child(t, k)) - {k}
    ensures var r := WithChild(t, k, h);
      WF(r) && Keys(r) == Keys(t) - {k} && Mapping(r) == Mapping(t) - {k}
  {
    hide AgreeTo, At, Position;
    var r := WithChild(t, k, h);
    HalvesApart(t);
    assert k in Keys(Child(t, k)) && k !in Keys(Other(t, k));
    assert Keys(r) == Keys(t) - {k};
    MapLess(Mapping(t.zero), Mapping(t.one), k);
    assert AllAt(h, Pos(t), At(k, Pos(t)));
  }

  lemma MapLess(l: map<Key, Pointer>, r: map<Key, Pointer>, k: Key)
    ensures k !in l ==> l + (r - {k}) == (l + r) - {k}
    ensures k !in r ==> (l - {k}) + r == (l + r) - {k}
  {
  }

  /** `map_delete` of a stored key removes exactly that binding. */
  lemma {:induction false} DeleteRemoves(t: Tree, k: Key)
    requires WF(t) && t.Node? && k in Keys(t)
    ensures var r := DeleteAt(t, k);
      WF(r) && Keys(r) == Keys(t) - {k} && Mapping(r) == Mapping(t) - {k}
  {
    HalvesApart(t);
    var c := Child(t, k);
    assert k in Keys(c) && k !in Keys(Other(t, k));
    if c.Node? {
      DeleteRemoves(c, k);
      DeleteHalf(t, k, DeleteAt(c, k));
    } else {
      assert Mapping(Other(t, k)) == Mapping(t) - {k};
    }
  }

  /** Deleting an absent key changes nothing. */
  lemma {:induction false} DeleteAbsent(t: Tree, k: Key)
    requires WF(t) && t.Node? && k !in Keys(t)
    ensures DeleteAt(t, k) == t
  {
    if Child(t, k).Node? {
      DeleteAbsent(Child(t, k), k);
    }
  }

  // ------------------------------------------------------------------ one shape for each map

  /** Trees of the same keys split at the same position. */
  lemma SameSplit(t: Tree, u: Tree)
    requires WF(t) && WF(u) && t.Node? && u.Node? && Keys(t) == Keys(u)
    ensures t.byteNum == u.byteNum && t.bitNum == u.bitNum
    ensures Keys(t.zero) == Keys(u.zero) && Keys(t.one) == Keys(u.one)
  {
    SplitNoLater(t, u);
    SplitNoLater(u, t);
    assert Pos(t) == Pos(u);
    hide AgreeTo, Uniform;
    assert forall a :: a in Keys(t.zero) <==> a in Keys(t) && !At(a, Pos(t));
    assert forall a :: a in Keys(u.zero) <==> a in Keys(u) && !At(a, Pos(u));
    assert forall a :: a in Keys(t.one) <==> a in Keys(t) && At(a, Pos(t));
    assert forall a :: a in Keys(u.one) <==> a in Keys(u) && At(a, Pos(u));
  }

  lemma SplitNoLater(t: Tree, u: Tree)
    requires WF(t) && WF(u) && t.Node? && u.Node? && Keys(t) == Keys(u)
    ensures Pos(u) <= Pos(t)
  {
    var a := KeysExist(t.zero);
    var b := KeysExist(t.one);
    assert a in Keys(u) && b in Keys(u);
    assert At(a, Pos(t)) != At(b, Pos(t));
    assert AgreeTo(a, b, Pos(u));
  }

  /** The tree is determined by the map it stands for. */
  lemma {:induction false} Canonical(t: Tree, u: Tree)
    requires WF(t) && WF(u) && Mapping(t) == Mapping(u)
    ensures t == u
  {
    var a := KeysExist(t);
    var b := KeysExist(u);
    hide AgreeTo, At, Uniform, AllAt;
    match t
    case Leaf(k, v) =>
      assert Mapping(t)[k] == v;
      if u.Node? {
        OneKeyOnly(u, k);
      }
    case Node(_, _, l, r) =>
      if u.Leaf? {
        OneKeyOnly(t, u.key);
      } else {
        SameSplit(t, u);
        SameHalves(t, u);
        Canonical(t.zero, u.zero);
        Canonical(t.one, u.one);
      }
  }

  lemma OneKeyOnly(t: Tree, k: Key)
    requires WF(t) && t.Node?
    ensures Keys(t) != {k}
  {
    var a := KeysExist(t.zero);
    var b := KeysExist(t.one);
    assert At(a, Pos(t)) != At(b, Pos(t)) && a in Keys(t) && b in Keys(t);
  }

  lemma SameHalves(t: Tree, u: Tree)
    requires WF(t) && WF(u) && t.Node? && u.Node? && Mapping(t) == Mapping(u)
    requires Keys(t.zero) == Keys(u.zero) && Keys(t.one) == Keys(u.one)
    ensures Mapping(t.zero) == Mapping(u.zero) && Mapping(t.one) == Mapping(u.one)
  {
    HalvesApart(t);
    HalvesApart(u);
  }

  // ------------------------------------------------------------------ order

  /** What `iterate` visits, in its order. */
  ghost function Items(t: Tree): seq<(Key, Pointer)> {
    match t
    case Leaf(k, v) => [(k, v)]
    case Node(b, i, l, r) => Items(l) + Items(r)
  }

  ghost predicate Ascending(s: seq<(Key, Pointer)>) {
    forall i, j :: 0 <= i < j < |s| ==> Less(s[i].0, s[j].0)
  }

  ghost predicate Lists(s: seq<(Key, Pointer)>, m: map<Key, Pointer>) {
    && (forall i :: 0 <= i < |s| ==> s[i].0 in m && m[s[i].0] == s[i].1)
    && (forall k :: k in m ==> exists i :: 0 <= i < |s| && s[i].0 == k)
  }

  lemma ListsBoth(s: seq<(Key, Pointer)>, l: map<Key, Pointer>, u: seq<(Key, Pointer)>, r: map<Key, Pointer>)
    requires Lists(s, l) && Lists(u, r) && l.Keys !! r.Keys
    ensures Lists(s + u, l + r)
  {
    var both := s + u;
    forall k | k in l + r ensures exists i :: 0 <= i < |both| && both[i].0 == k {
      if k in l {
        var i :| 0 <= i < |s| && s[i].0 == k;
        assert both[i].0 == k;
      } else {
        var i :| 0 <= i < |u| && u[i].0 == k;
        assert both[|s| + i].0 == k;
      }
    }
  }

  /** Iteration visits every binding, and nothing else. */
  lemma {:induction false} ItemsAre(t: Tree)
    requires WF(t)
    ensures Items(t) != [] && Lists(Items(t), Mapping(t)) && Mapping(t).Keys == Keys(t)
  {
    var w := KeysExist(t);
    if t.Node? {
      ItemsAre(t.zero);
      ItemsAre(t.one);
      HalvesApart(t);
      ListsBoth(Items(t.zero), Mapping(t.zero), Items(t.one), Mapping(t.one));
    } else {
      assert Items(t)[0].0 == t.key;
    }
  }

  /** Iteration goes through the keys in strictly increasing byte order. */
  lemma {:induction false} ItemsAscend(t: Tree)
    requires WF(t)
    ensures Ascending(Items(t))
  {
    if t.Node? {
      ItemsAscend(t.zero);
      ItemsAscend(t.one);
      ItemsAre(t.zero);
      ItemsAre(t.one);
      AscendJoin(t, Items(t.zero), Items(t.one));
    }
  }

  /** All keys of the left half are less than those of the right one. */
  lemma AscendJoin(t: Tree, xs: seq<(Key, Pointer)>, ys: seq<(Key, Pointer)>)
    requires WF(t) && t.Node? && Ascending(xs) && Ascending(ys)
    requires (forall x :: x in xs ==> x.0 in Keys(t.zero)) && (forall y :: y in ys ==> y.0 in Keys(t.one))
    ensures Ascending(xs + ys)
  {
    hide Less, AgreeTo, At;
    var n, all := |xs|, xs + ys;
    forall i, j | 0 <= i < j < |all| ensures Less(all[i].0, all[j].0) {
      if i < n <= j {
        assert xs[i] in xs && ys[j - n] in ys;
        HalvesOrdered(t, xs[i].0, ys[j - n].0);
      }
    }
  }

  lemma HalvesOrdered(t: Tree, a: Key, b: Key)
    requires WF(t) && t.Node? && a in Keys(t.zero) && b in Keys(t.one)
    ensures Less(a, b)
  {
    assert AgreeTo(a, b, Pos(t)) && !At(a, Pos(t)) && At(b, Pos(t));
    BitOrder(a, b, Pos(t));
  }

  // ------------------------------------------------------------------ prefixes

  /** The walk of `map_prefix`: down to a leaf, remembering where the bytes of the prefix ended. */
  ghost function Walk(t: Tree, top: Tree, x: Key): (Tree, Tree)
    requires WF(t)
    decreases t
  {
    if t.Leaf? then (t, top)
    else
      var c := Child(t, x);
      Walk(c, if t.byteNum < |x| then c else top, x)
  }

  /** `map_prefix` of a non-empty map. */
  ghost function WithPrefix(t: Tree, x: Key): Option<Tree>
    requires WF(t)
  {
    var (leaf, top) := Walk(t, t, x);
    if leaf.Leaf? && x <= leaf.key then Some(top) else None
  }

  lemma {:induction false} WalkEnds(t: Tree, top: Tree, x: Key)
    requires WF(t)
    ensures Walk(t, top, x).0 == Closest(t, x)
  {
    if t.Node? {
      var c := Child(t, x);
      WalkEnds(c, if t.byteNum < |x| then c else top, x);
    }
  }

  /** Below the end of the prefix all keys have it or none has. */
  lemma TopUniform(t: Tree, x: Key, c: Key)
    requires WF(t) && c in Keys(t) && (t.Node? ==> |x| <= t.byteNum)
    ensures forall a :: a in Keys(t) ==> (x <= a <==> x <= c)
  {
    UniformLess(t, 8 * |x|, 8 * |x|);
    forall a | a in Keys(t) ensures x <= a <==> x <= c {
      PrefixAgrees(a, x);
      PrefixAgrees(c, x);
      assert AgreeTo(a, c, 8 * |x|);
      if AgreeTo(a, x, 8 * |x|) {
        AgreeSame(c, a, x, 8 * |x|);
      }
      if AgreeTo(c, x, 8 * |x|) {
        AgreeSame(a, c, x, 8 * |x|);
      }
    }
  }

  /** Once past the prefix, `top` stays. */
  lemma {:induction false} TopStays(t: Tree, top: Tree, x: Key)
    requires WF(t) && (t.Node? ==> |x| <= t.byteNum)
    ensures Walk(t, top, x).1 == top
  {
    if t.Node? {
      var c := Child(t, x);
      if c.Node? {
        Progress(t, c);
      }
      TopStays(c, top, x);
    }
  }

  /** The other half of a node inside the prefix holds no key with the prefix. */
  lemma OtherHalf(t: Tree, x: Key)
    requires WF(t) && t.Node? && t.byteNum < |x|
    ensures forall a :: a in Keys(Other(t, x)) ==> !(x <= a)
  {
    forall a | a in Keys(Other(t, x)) ensures !(x <= a) {
      PrefixAgrees(a, x);
      var p := Pos(t);
      assert p < 8 * |x| && At(a, p) != At(x, p);
    }
  }

  lemma {:induction false} WalkSplits(t: Tree, x: Key)
    requires WF(t)
    ensures var top := Walk(t, t, x).1;
      && WF(top) && Closest(t, x).key in Keys(top)
      && Keys(top) <= Keys(t) && Mapping(top).Keys == Keys(top)
      && (forall a :: a in Keys(top) ==> a in Mapping(t) && Mapping(t)[a] == Mapping(top)[a])
      && (forall a :: a in Keys(t) && x <= a ==> a in Keys(top))
      && (top.Node? ==> |x| <= top.byteNum)
  {
    var w := KeysExist(t);
    if t.Node? {
      if t.byteNum < |x| {
        HalvesApart(t);
        WalkSplits(Child(t, x), x);
        OtherHalf(t, x);
      } else {
        TopStays(t, t, x);
      }
    }
  }

  /** `map_prefix` gives the subtree of exactly the keys with the prefix, or nothing when there
      are none. */
  lemma PrefixExact(t: Tree, x: Key)
    requires WF(t)
    ensures Mapping(t).Keys == Keys(t)
    ensures match WithPrefix(t, x)
      case None => forall a :: a in Keys(t) ==> !(x <= a)
      case Some(top) =>
        WF(top) && Mapping(top) == map a | a in Mapping(t) && x <= a :: Mapping(t)[a]
  {
    hide AgreeTo, At, Walk, Closest;
    var w := KeysExist(t);
    WalkEnds(t, t, x);
    WalkSplits(t, x);
    var top := Walk(t, t, x).1;
    TopUniform(top, x, Closest(t, x).key);
  }

  // ------------------------------------------------------------------ whole maps

  /** A map: empty, or a tree. */
  type Root = Option<Tree>

  ghost predicate Sound(m: Root) {
    m.Some? ==> WF(m.value)
  }

  ghost function Bindings(m: Root): map<Key, Pointer> {
    if m.None? then map[] else Mapping(m.value)
  }

  /** `map_put` with its answer. */
  ghost function Put(m: Root, k: Key, v: Pointer): (r: (Root, bool))
    requires Sound(m)
  {
    if v == 0 then (m, false)
    else if m.None? then (Some(Leaf(k, v)), true)
    else
      var c := Closest(m.value, k).key;
      if c == k then (m, false)
      else
        var p := Critical(c, k, 0);
        (Some(PutAt(m.value, k, v, p / 8, 7 - p % 8)), true)
  }

  /** `map_delete` with the value it answers. */
  ghost function Delete(m: Root, k: Key): (r: (Root, Pointer))
    requires Sound(m)
  {
    if m.None? || Closest(m.value, k).key != k then (m, 0)
    else (if m.value.Leaf? then None else Some(DeleteAt(m.value, k)), Closest(m.value, k).value)
  }

  lemma PutRefines(m: Root, k: Key, v: Pointer)
    requires Sound(m)
    ensures var (r, ok) := Put(m, k, v);
      Sound(r) && ok == (v != 0 && k !in Bindings(m)) && Bindings(r) == if ok then Bindings(m)[k := v] else Bindings(m)
  {
    hide PutAt, Closest, Keys;
    if v != 0 && m.Some? {
      GetIsLookup(m.value, k);
      var c := Closest(m.value, k).key;
      if c == k {
      } else {
        var p := Critical(c, k, 0);
        assert Position(p / 8, 7 - p % 8) == p;
        PutAdds(m.value, k, v, p / 8, 7 - p % 8);
      }
    }
  }

  lemma DeleteRefines(m: Root, k: Key)
    requires Sound(m)
    ensures var (r, v) := Delete(m, k);
      Sound(r) && Bindings(r) == Bindings(m) - {k} && v == if k in Bindings(m) then Bindings(m)[k] else 0
  {
    if m.Some? {
      GetIsLookup(m.value, k);
      if k in Keys(m.value) {
        ClosestFinds(m.value, k);
        if m.value.Node? {
          DeleteRemoves(m.value, k);
        }
      } else {
        assert Mapping(m.value) == Mapping(m.value) - {k};
      }
    }
  }

  datatype Op = Putting(key: Key, value: Pointer) | Deleting(key: Key)

  /** The tree after a sequence of puts and deletes. */
  ghost function Run(m: Root, ops: seq<Op>): (r: Root)
    requires Sound(m)
    ensures Sound(r) && Bindings(r) == RunMap(Bindings(m), ops)
    decreases |ops|
  {
    if ops == [] then m
    else match ops[0]
      case Putting(k, v) => PutRefines(m, k, v); Run(Put(m, k, v).0, ops[1..])
      case Deleting(k) => DeleteRefines(m, k); Run(Delete(m, k).0, ops[1..])
  }

  /** The map after them: a put of a key that is there, or of NULL, does nothing. */
  ghost function RunMap(m: map<Key, Pointer>, ops: seq<Op>): map<Key, Pointer>
    decreases |ops|
  {
    if ops == [] then m
    else match ops[0]
      case Putting(k, v) => RunMap(if v != 0 && k !in m then m[k := v] else m, ops[1..])
      case Deleting(k) => RunMap(m - {k}, ops[1..])
  }

  /** Two histories that lead to the same bindings lead to the same tree. */
  lemma SameRuns(m: Root, n: Root, ops: seq<Op>, qs: seq<Op>)
    requires Sound(m) && Sound(n) && RunMap(Bindings(m), ops) == RunMap(Bindings(n), qs)
    ensures Run(m, ops) == Run(n, qs)
  {
    SameMap(Run(m, ops), Run(n, qs));
  }

  lemma SameMap(m: Root, n: Root)
    requires Sound(m) && Sound(n) && Bindings(m) == Bindings(n)
    ensures m == n
  {
    if m.Some? && n.Some? {
      Canonical(m.value, n.value);
    } else {
      if m.Some? {
        var k := KeysExist(m.value);
      }
      if n.Some? {
        var k := KeysExist(n.value);
      }
    }
  }

  /** Deleting a fresh key undoes its put exactly. */
  lemma DeleteUndoesPut(m: Root, k: Key, v: Pointer)
    requires Sound(m) && k !in Bindings(m)
    ensures Sound(Put(m, k, v).0) && Delete(Put(m, k, v).0, k).0 == m
  {
    hide Put, Delete, Bindings, Sound;
    PutRefines(m, k, v);
    DeleteRefines(Put(m, k, v).0, k);
    assert Bindings(m)[k := v] - {k} == Bindings(m) && Bindings(m) - {k} == Bindings(m);
    SameMap(Delete(Put(m, k, v).0, k).0, m);
  }
}
