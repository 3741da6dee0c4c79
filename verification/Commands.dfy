/** Which command a typed name stands for (`src/commands.c`). */
module Commands {
  import opened Bits
  import opened CritBit
  import opened RadixMap

  /** The parameters of `check_unique`; `names` is the used part of its 256 bytes. */
  datatype Params = Params(count: nat, names: seq<bv8>)

  const SEPARATOR: seq<bv8> := [44, 32]    // ", "

  /** `check_unique` */
  function CheckUnique(p: Params, key: Key, value: Pointer): (r: (Params, bool)) {
    if |p.names| + |key| + 3 > 256 then (Params(p.count + 1, p.names), false)
    else (Params(p.count + 1, p.names + SEPARATOR + key), true)
  }

  datatype Outcome = NotRegistered | Ambiguous | Runs(command: Pointer)

  /** The commands whose name starts with `x`. */
  ghost function Candidates(m: map<Key, Pointer>, x: Key): map<Key, Pointer> {
    map a | a in m && x <= a :: m[a]
  }

  ghost predicate Least(m: map<Key, Pointer>, k: Key) {
    k in m && forall a :: a in m && a != k ==> Less(k, a)
  }

  /** What the lookup in `hedit_command_exec` should answer, and what it does answer when the
      first candidate is too long for the buffer of names. */
  ghost predicate Answers(m: map<Key, Pointer>, x: Key, r: Outcome) {
    var c := Candidates(m, x);
    if c == map[] then r == NotRegistered
    else if x in m then r == Runs(m[x])
    else exists k :: Least(c, k) && (r == if |c.Keys| > 1 && |k| <= 253 then Ambiguous else Runs(c[k]))
  }

  // ------------------------------------------------------------------ facts about the visit

  lemma FirstIsLeast(t: Tree)
    requires WF(t)
    ensures Items(t) != [] && Least(Mapping(t), Items(t)[0].0) && Mapping(t)[Items(t)[0].0] == Items(t)[0].1
  {
    ItemsAre(t);
    ItemsAscend(t);
    var s := Items(t);
    forall a | a in Mapping(t) && a != s[0].0 ensures Less(s[0].0, a) {
      var i :| 0 <= i < |s| && s[i].0 == a;
      assert Ascending(s) && 0 < i;
    }
  }

  /** There are two candidates exactly when the tree has a second item. */
  lemma {:induction false} ManyItems(t: Tree)
    requires WF(t)
    ensures |Items(t)| == |Mapping(t).Keys|
  {
    var w := KeysExist(t);
    if t.Node? {
      ManyItems(t.zero);
      ManyItems(t.one);
      HalvesApart(t);
      assert Mapping(t).Keys == Mapping(t.zero).Keys + Mapping(t.one).Keys;
    } else {
      assert Mapping(t).Keys == {t.key};
    }
  }

  /** The visit counts a second name unless the first does not fit the buffer. */
  lemma CountsTwo(s: seq<(Key, Pointer)>)
    requires s != []
    ensures Visit(s, CheckUnique, Params(0, [])).0.count > 1 <==> |s| > 1 && |s[0].0| <= 253
  {
    var first := CheckUnique(Params(0, []), s[0].0, s[0].1);
    if first.1 && |s| > 1 {
      CountGrows(s[2..], CheckUnique(first.0, s[1].0, s[1].1).0);
      assert s[1..][0] == s[1] && s[1..][1..] == s[2..];
    } else if first.1 {
      assert s[1..] == [];
    }
  }

  lemma {:induction false} CountGrows(s: seq<(Key, Pointer)>, p: Params)
    ensures Visit(s, CheckUnique, p).0.count >= p.count
    decreases |s|
  {
    if s != [] {
      CountGrows(s[1..], CheckUnique(p, s[0].0, s[0].1).0);
    }
  }

  /** A name is the least of its own extensions. */
  lemma ExactIsLeast(m: map<Key, Pointer>, x: Key, k: Key)
    requires x in m && Least(Candidates(m, x), k)
    ensures k == x
  {
    if k != x {
      assert x in Candidates(m, x) && x <= k && x == k[..|x|];
      assert Below(x, k, |x|);
      LessIrreflexive(x, k);
    }
  }

  lemma NoCandidates(m: Root, x: Key)
    requires Sound(m) && (m.Some? ==> WithPrefix(m.value, x).None?)
    ensures Candidates(Bindings(m), x) == map[]
  {
    if m.Some? {
      PrefixExact(m.value, x);
    }
  }

  // ------------------------------------------------------------------ the lookup

  /** What the two visits of the candidates establish. */
  lemma Decided(m: Root, x: Key, t: Tree)
    requires Sound(m) && m.Some? && WithPrefix(m.value, x) == Some(t)
    ensures WF(t) && Items(t) != [] && Mapping(t) == Candidates(Bindings(m), x) != map[]
    ensures var (k, v) := Items(t)[0];
      && Least(Candidates(Bindings(m), x), k) && Candidates(Bindings(m), x)[k] == v
      && (x in Bindings(m) ==> k == x)
      && (k == x ==> x in Bindings(m) && Bindings(m)[x] == v)
      && (Visit(Items(t), CheckUnique, Params(0, [])).0.count > 1
        <==> |Candidates(Bindings(m), x).Keys| > 1 && |k| <= 253)
  {
    PrefixExact(m.value, x);
    FirstIsLeast(t);
    ManyItems(t);
    CountsTwo(Items(t));
    if x in Bindings(m) {
      ExactIsLeast(Bindings(m), x, Items(t)[0].0);
    }
  }

  /** The name resolution of `hedit_command_exec`. */
  method Resolve(commands: Map, name: Key) returns (r: Outcome)
    requires commands.Valid()
    ensures Answers(commands.Contents(), name, r)
  {
    hide WF, Shape, Mapping, Items, Visit, Candidates, Least, WithPrefix, Less;
    var top := commands.Prefix(name);
    if top == null {
      NoCandidates(commands.tree, name);
      return NotRegistered;
    }
    if commands.tree.None? {
      NoCandidates(commands.tree, name);
    } else {
      NeverNull(commands.mem, top, WithPrefix(commands.tree.value, name).value);
    }
    if top.u == Null {
      return NotRegistered;
    }
    ghost var t := WithPrefix(commands.tree.value, name).value;
    Decided(commands.tree, name, t);
    var first, command := commands.First(top, t);
    if first != name {
      var params, more := commands.Iterate(top, CheckUnique, Params(0, []), t);
      if params.count > 1 {
        return Ambiguous;
      }
    }
    r := Runs(command);
  }
}
