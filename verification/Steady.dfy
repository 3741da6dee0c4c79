/** Runs that come to their end, told from the operations alone. */
module Steady {
  import opened Bytes
  import opened Links
  import opened Chain
  import opened History
  import opened Trace
  import opened Ledger
  import opened State
  import opened Effect
  import opened Outcome
  import opened Moving
  import opened File
  import opened Runs
  import E = Editor

  // ------------------------------------------------------------------ which runs

  /** What is known of the cached piece: that there is none, or that the last change brought it and
      that it holds the bytes from `low` up to `high`, if there are any behind `low`. */
  datatype Reach = Free | Own(low: nat, high: nat)

  /** Any insertion, commit, undo and redo.  Where nothing is cached also any deletion or replacement;
      otherwise only inside the bytes known to be in the cached piece, and no deletion of all of them. */
  predicate Allowed(m: Reach, op: E.Op) {
    match op
    case Deletion(at, len) => len == 0 || m.Free? || (m.low <= at && at + len <= m.high && len < m.high - m.low)
    case Replacement(at, data) => data == [] || m.Free? || (m.low <= at && at + |data| <= m.high)
    case _ => true
  }

  function Next(m: Reach, op: E.Op): Reach {
    match op
    case Insertion(at, data) => if data == [] then m else Own(at, at + |data|)
    case Deletion(at, len) => if m.Free? || m.high < m.low + len then m else Own(m.low, m.high - len)
    case Replacement(at, data) => if data == [] || m.Own? then m else Own(at, at + |data|)
    case _ => Free
  }

  predicate Steady(m: Reach, ops: seq<E.Op>)
    decreases |ops|
  {
    ops == [] || (Allowed(m, ops[0]) && Steady(Next(m, ops[0]), ops[1..]))
  }

  /** What is known in the end. */
  function Last(m: Reach, ops: seq<E.Op>): Reach
    decreases |ops|
  {
    if ops == [] then m else Last(Next(m, ops[0]), ops[1..])
  }

  /** Runs of insertions, commits, undos and redos. */
  lemma {:induction false} AddingSteady(m: Reach, ops: seq<E.Op>)
    requires forall i :: 0 <= i < |ops| ==> !ops[i].Deletion? && !ops[i].Replacement?
    ensures Steady(m, ops)
    decreases |ops|
  {
    if ops != [] {
      AddingSteady(Next(m, ops[0]), ops[1..]);
    }
  }

  /** Bytes are inserted; any number of times some of them are overtyped; and that is undone. */
  ghost predicate Overtypes(at: nat, n: nat, ops: seq<E.Op>) {
    forall i :: 0 <= i < |ops| ==>
      ops[i].Replacement? && ops[i].data != [] && at <= ops[i].at && ops[i].at + |ops[i].data| <= at + n
  }

  lemma {:induction false} OvertypesSteady(at: nat, n: nat, ops: seq<E.Op>, rest: seq<E.Op>)
    requires Overtypes(at, n, ops) && Steady(Own(at, at + n), rest)
    ensures Steady(Own(at, at + n), ops + rest) && Last(Own(at, at + n), ops + rest) == Last(Own(at, at + n), rest)
    decreases |ops|
  {
    if ops == [] {
      assert ops + rest == rest;
    } else {
      assert (ops + rest)[1..] == ops[1..] + rest;
      OvertypesSteady(at, n, ops[1..], rest);
    }
  }

  // ------------------------------------------------------------------ what they keep

  /** The cached piece has index `k` and holds the bytes from `low` up to `high`. */
  ghost predicate HoldsAt(s: State, low: nat, high: nat, k: nat) {
    && s.cache != null && k < |s.g.chain| && s.g.chain[k] == s.cache && Known(s.g.text, s.g.chain)
    && Offset(s.g.text, s.g.chain, k) <= low && high <= Offset(s.g.text, s.g.chain, k + 1)
  }

  ghost predicate Holds(s: State, low: nat, high: nat) { exists k: nat :: HoldsAt(s, low, high, k) }

  ghost predicate Fitting(s: State, m: Reach) {
    match m
    case Free => s.cache == null
    case Own(low, high) => low <= high && (low >= |s.Contents()| || Holds(s, low, high))
  }

  /** The books are in order, every piece has bytes, and the cached piece is what is known of it. */
  ghost predicate Ready(s: State, m: Reach) { Clear(s) && !s.Stray() && Filled(s) && Fitting(s, m) }

  // ------------------------------------------------------------------ one edit

  /** A piece is at the place that the bytes in front of it make up. */
  lemma PlaceOf(t: Texts, a: seq<Piece>, p: Piece, b: seq<Piece>)
    requires Known(t, a) && p in t && Known(t, b)
    ensures var c := a + [p] + b;
      && Known(t, c) && c[|a|] == p && Offset(t, c, |a|) == |Text(t, a)|
      && Offset(t, c, |a| + 1) == |Text(t, a)| + |t[p]|
  {
    var c := a + [p] + b;
    assert c[..|a|] == a;
    OffsetNext(t, c, |a|);
  }

  lemma PlacedHolds(s: State, t: State, at: nat, data: seq<Byte>)
    requires Placed(s, t, at, data) && data != []
    ensures Holds(t, at, at + |data|) && (Filled(s) ==> Filled(t))
  {
    hide Text, Offset;
    var e, u := LastEdit(t), t.g.text;
    PlacedFront(s, t, at, data);
    var a := if e.gone == [] then e.before else e.before + [e.came[0]];
    var b := if e.gone == [] then e.after else [e.came[2]] + e.after;
    assert a + [t.cache] + b == t.g.chain by {
      assert e.gone == [] ==> e.came == [t.cache];
      assert e.gone != [] ==> e.came == [e.came[0]] + [t.cache] + [e.came[2]];
    }
    PlaceOf(u, a, t.cache, b);
    assert HoldsAt(t, at, at + |data|, |a|);
    if Filled(s) {
      PlacedFilled(s, t, at, data);
    }
  }

  lemma PlacedFront(s: State, t: State, at: nat, data: seq<Byte>)
    requires Placed(s, t, at, data)
    ensures var e := LastEdit(t); var a := if e.gone == [] then e.before else e.before + [e.came[0]];
      && Known(t.g.text, a) && |Text(t.g.text, a)| == at
      && Known(t.g.text, if e.gone == [] then e.after else [e.came[2]] + e.after)
  {
    var e := LastEdit(t);
    assert s.g.chain[..|e.before|] == e.before;
    TextKept(s.g.text, t.g.text, e.before);
    if e.gone != [] {
      TextConcat(t.g.text, e.before, [e.came[0]]);
      TextOne(t.g.text, e.came[0]);
    }
  }

  /** Where the cached piece is after it has grown or shrunk. */
  lemma RecutPlace(s: State, t: State, grow: int, k: nat)
    requires Recut(s, t, grow) && Known(s.g.text, s.g.chain) && Distinct(s.g.chain)
    requires k < |s.g.chain| && s.g.chain[k] == s.cache
    ensures Known(t.g.text, t.g.chain) && t.g.chain[k] == t.cache
    ensures Offset(t.g.text, t.g.chain, k) == Offset(s.g.text, s.g.chain, k)
    ensures Offset(t.g.text, t.g.chain, k + 1) == Offset(s.g.text, s.g.chain, k + 1) + grow
  {
    hide Text;
    FrontKept(s.g.text, t.g.text, s.g.chain, k);
    OffsetNext(s.g.text, s.g.chain, k);
    OffsetNext(t.g.text, s.g.chain, k);
  }

  lemma RecutFilled(s: State, t: State, grow: int)
    requires Recut(s, t, grow) && Filled(s) && (grow > 0 || |s.g.text[s.cache]| + grow > 0)
    ensures Filled(t)
  {
  }

  lemma InsertReady(s: State, t: State, m: Reach, at: nat, data: seq<Byte>, h: How)
    requires s.Tidy() && Ready(s, m) && DoesInsert(s, t, at, data, h) && data != [] && Clear(t)
    ensures Ready(t, Own(at, at + |data|))
  {
    hide State.Tidy, Clear, State.Stray, E.Told, E.Editor.Insert, Booked, Roomed, Offset, Text, Lands, State.Abs,
         Growing, Recut, Placed, Filled, Holds, Fits, State.Contents;
    NotStray(s, t, at, data, h);
    InsertHolds(s, t, at, data, h);
  }

  lemma NotStray(s: State, t: State, at: nat, data: seq<Byte>, h: How)
    requires DoesInsert(s, t, at, data, h) && !s.Stray()
    ensures !t.Stray()
  {
    hide State.Tidy, E.Told, E.Editor.Insert, Booked, Roomed, Recut, Placed;
  }

  lemma GrowthHolds(s: State, t: State, at: nat, data: seq<Byte>, j: nat)
    requires Recut(s, t, |data|) && Growing(s, at, j) && Known(s.g.text, s.g.chain) && Distinct(s.g.chain)
    requires Filled(s) && data != []
    ensures Holds(t, at, at + |data|) && Filled(t)
  {
    hide Recut, Filled, Offset, Text;
    var k := GrowingPlace(s, at, j);
    RecutPlace(s, t, |data|, k);
    RecutSame(s, t, |data|);
    assert HoldsAt(t, at, at + |data|, k);
    RecutFilled(s, t, |data|);
  }

  lemma RecutSame(s: State, t: State, grow: int)
    requires Recut(s, t, grow)
    ensures t.cache == s.cache != null && t.g.chain == s.g.chain && s.cache in s.g.text
  {
  }

  lemma GrowingPlace(s: State, at: nat, j: nat) returns (k: nat)
    requires Growing(s, at, j) && Known(s.g.text, s.g.chain)
    ensures k < |s.g.chain| && s.g.chain[k] == s.cache
    ensures Offset(s.g.text, s.g.chain, k) <= at <= Offset(s.g.text, s.g.chain, k + 1)
  {
    k := if s.g.chain[j] == s.cache then j else j - 1;
    OffsetMonotone(s.g.text, s.g.chain, k, k + 1);
  }

  /** Bytes inside the cached piece or at its ends go into it, if there is room. */
  lemma InsideGrows(s: State, low: nat, high: nat, at: nat) returns (j: nat)
    requires Holds(s, low, high) && Filled(s) && low <= at <= high
    ensures Growing(s, at, j)
  {
    var k: nat :| HoldsAt(s, low, high, k);
    hide Text, Offset;
    var t, c := s.g.text, s.g.chain;
    j := k;
    OffsetNext(t, c, k);
    if at == Offset(t, c, k + 1) && k + 1 < |c| {
      OffsetNext(t, c, k + 1);
      assert t[c[k + 1]] != [];
      j := k + 1;
    }
  }

  /** After an insertion the cached piece holds what was inserted. */
  lemma InsertHolds(s: State, t: State, at: nat, data: seq<Byte>, h: How)
    requires s.Tidy() && Filled(s) && DoesInsert(s, t, at, data, h) && data != []
    ensures Holds(t, at, at + |data|) && Filled(t)
  {
    hide State.Tidy, Clear, State.Stray, E.Told, E.Editor.Insert, Booked, Roomed, Offset, Text, Lands, State.Abs,
         Growing, Recut, Placed, Filled, Holds, Fits, State.Contents;
    Basics(s);
    if h.grown {
      GrowthHolds(s, t, at, data, h.k);
    } else {
      PlacedHolds(s, t, at, data);
    }
  }

  /** A range inside the cached piece is cut out in place. */
  lemma InsideShrinks(s: State, low: nat, high: nat, k: nat, at: nat, len: nat)
    requires HoldsAt(s, low, high, k) && low <= at && at + len <= high && 0 < len
    ensures Shrinking(s, at, len, k) && |s.g.text[s.cache]| >= high - low
  {
    OffsetNext(s.g.text, s.g.chain, k);
  }

  /** The last change brought the cached piece, so its length is at least that of the piece. */
  lemma LastLong(s: State)
    requires s.Tidy() && s.Honest() && Linked(s) && !s.Stray()
    ensures s.cache in s.g.text && LastLength(s) >= |s.g.text[s.cache]|
  {
    hide State.Tidy, State.Honest, State.CacheOk, Text, LastLength;
    TidyRest(s);
    LastKnown(s);
    PendingTruth(s);
    PieceLength(s.g.text, LastEdit(s).came, s.cache);
  }

  lemma LastKnown(s: State)
    requires s.Tidy() && s.g.draft != []
    ensures EditKnown(s.g.text, LastEdit(s)) && LastBytes(s.g) == Text(s.g.text, LastEdit(s).came)
  {
    hide State.Tidy, Closed, Text;
    TidyCovered(s);
    assert LastEdit(s) in s.g.draft;
  }

  lemma PieceLength(t: Texts, ps: seq<Piece>, p: Piece)
    requires Known(t, ps) && p in ps
    ensures |Text(t, ps)| >= |t[p]|
  {
    var i :| 0 <= i < |ps| && ps[i] == p;
    OffsetNext(t, ps, i);
  }

  lemma DeleteReady(s: State, t: State, m: Reach, at: nat, len: nat, h: How)
    requires s.Tidy() && Ready(s, m) && Allowed(m, E.Deletion(at, len)) && len != 0 && at < |s.Contents()|
    requires DoesDelete(s, t, at, len, h, false)
    ensures Careful(s, E.Deletion(at, len))
    ensures Clear(t) ==> Ready(t, Next(m, E.Deletion(at, len)))
  {
    hide State.Tidy, State.Honest, State.Firm, E.Told, E.Editor.Delete, Booked, Offset, Text, Lands, State.Abs;
    Basics(s);
    if m.Free? {
      RemovedFilled(s, t, at, len);
    } else {
      var k: nat :| HoldsAt(s, m.low, m.high, k);
      InsideShrinks(s, m.low, m.high, k, at, len);
      ShrinkingOnce(s, at, len, h.i, k);
      LastLong(s);
      RecutPlace(s, t, -(len as int), k);
      assert HoldsAt(t, m.low, m.high - len, k);
      RecutFilled(s, t, -(len as int));
    }
  }

  // ------------------------------------------------------------------ the other operations

  lemma ReplaceReady(s: State, t: State, m: Reach, at: nat, data: seq<Byte>, h: How)
    requires s.Tidy() && Roomy(s) && Ready(s, m) && Allowed(m, E.Replacement(at, data)) && data != []
    requires at < |s.Contents()| && DoesDelete(s, h.mid, at, |data|, h, false) && DoesInsert(h.mid, t, at, data, h)
    ensures Careful(s, E.Replacement(at, data))
    ensures Clear(t) ==> Ready(t, Next(m, E.Replacement(at, data)))
  {
    hide State.Tidy, Clear, E.Told, E.Editor.Delete, E.Editor.Insert, Booked, Roomed, Offset, Text, Lands, State.Abs,
         Growing, Recut, Placed, Removed, Filled, Holds, Fits, Roomy, Leaves, Shrinking, Backed, DoesInsert;
    Basics(s);
    if m.Free? {
      NoneShrinks(s, at, |data|, h.i);
      ReplaceStray(s, h.mid, t, at, data, h);
      FreshReplaced(s, t, at, data, h);
    } else {
      OwnHeld(s, m);
      var k: nat :| HoldsAt(s, m.low, m.high, k);
      InsideShrinks(s, m.low, m.high, k, at, |data|);
      FilledBacked(s, k);
      ShrinkingOnce(s, at, |data|, h.i, k);
      ReplaceStray(s, h.mid, t, at, data, h);
      OvertypedHolds(s, t, m.low, m.high, k, at, data, h);
    }
  }

  lemma ReplaceStray(s: State, mid: State, t: State, at: nat, data: seq<Byte>, h: How)
    requires DoesDelete(s, mid, at, |data|, h, false) && DoesInsert(mid, t, at, data, h) && !s.Stray()
    requires s.cache == null || h.cut
    ensures !mid.Stray() && !t.Stray()
  {
    hide State.Tidy, E.Told, E.Editor.Insert, E.Editor.Delete, Booked, Roomed, Recut, Placed, Removed;
  }

  lemma NoneShrinks(s: State, at: nat, len: nat, k: nat)
    requires s.cache == null
    ensures !Shrinking(s, at, len, k) && !Linked(s)
  {
  }

  lemma OwnHeld(s: State, m: Reach)
    requires Fitting(s, m) && m.Own? && m.low < |s.Contents()|
    ensures exists k: nat :: HoldsAt(s, m.low, m.high, k)
  {
  }

  lemma FilledBacked(s: State, k: nat)
    requires Filled(s) && Known(s.g.text, s.g.chain)
    ensures Backed(s, k)
  {
  }

  /** Where nothing is cached a replacement takes out pieces and brings a new one. */
  lemma FreshReplaced(s: State, t: State, at: nat, data: seq<Byte>, h: How)
    requires s.cache == null && Filled(s) && data != [] && !h.cut
    requires DoesDelete(s, h.mid, at, |data|, h, false) && DoesInsert(h.mid, t, at, data, h)
    ensures Holds(t, at, at + |data|) && Filled(t)
  {
    hide State.Tidy, E.Told, E.Editor.Insert, E.Editor.Delete, Booked, Roomed, Recut, Placed, Removed, Filled, Holds;
    RemovedFilled(s, h.mid, at, |data|);
    PlacedHolds(h.mid, t, at, data);
  }

  /** Bytes overtyped in the cached piece: it shrinks and grows again. */
  lemma OvertypedHolds(s: State, t: State, low: nat, high: nat, k: nat, at: nat, data: seq<Byte>, h: How)
    requires s.Tidy() && Roomy(s) && Filled(s) && HoldsAt(s, low, high, k) && Backed(s, k) && data != []
    requires Shrinking(s, at, |data|, k) && h.cut
    requires DoesDelete(s, h.mid, at, |data|, h, false) && DoesInsert(h.mid, t, at, data, h)
    ensures Holds(t, low, high) && Filled(t)
  {
    hide State.Tidy, E.Told, E.Editor.Insert, E.Editor.Delete, Booked, Roomed, Recut, Placed, Removed, Filled,
         Growing, Fits, Roomy, Lands, Offset, Text, Backed, Shrinking, State.Abs;
    Basics(s);
    var j := Regrows(s, h.mid, at, |data|, k, false);
    RegrownHere(h.mid, at, data, j, h.k, h.grown);
    RecutTwice(s, h.mid, t, |data|, k);
    assert HoldsAt(t, low, high, k);
  }

  lemma RecutTwice(s: State, mid: State, t: State, n: nat, k: nat)
    requires Recut(s, mid, -(n as int)) && Recut(mid, t, n) && Filled(s)
    requires Known(s.g.text, s.g.chain) && Distinct(s.g.chain) && k < |s.g.chain| && s.g.chain[k] == s.cache
    ensures Known(t.g.text, t.g.chain) && t.g.chain == s.g.chain && t.cache == s.cache && Filled(t)
    ensures Offset(t.g.text, t.g.chain, k) == Offset(s.g.text, s.g.chain, k)
    ensures Offset(t.g.text, t.g.chain, k + 1) == Offset(s.g.text, s.g.chain, k + 1)
  {
    RecutPlace(s, mid, -(n as int), k);
    RecutPlace(mid, t, n, k);
    hide Offset;
  }

  /** Commit, undo and redo forget the cached piece and leave all bytes. */
  lemma MoveReady(s: State, op: E.Op, t: State, h: How)
    requires Does(s, op, t, h, false) && (op.Committing? || op.Undoing? || op.Redoing?) && Filled(s)
    ensures Filled(t) && t.cache == null && !t.Stray()
  {
    hide State.Tidy, UndoneTo, RedoneTo, Commit;
    var r := Commit(s);
    CommitKeeps(s);
    if UndoneTo(r, t) || RedoneTo(r, t) {
      MovedKeeps(r, t);
    }
  }

  lemma CommitKeeps(s: State)
    ensures Commit(s).g.text == s.g.text && Commit(s).cache == null
  {
  }

  lemma MovedKeeps(s: State, t: State)
    requires UndoneTo(s, t) || RedoneTo(s, t)
    ensures t.g.text == s.g.text && t.cache == s.cache
  {
    hide Swapped, Unswapped, Growth, CanSwapAll;
  }

  lemma NothingDone(s: State, m: Reach, op: E.Op)
    requires s.Tidy() && Ready(s, m) && Allowed(m, op)
    requires match op
      case Insertion(at, data) => data == [] || at > |s.Contents()|
      case Deletion(at, len) => len == 0 || at >= |s.Contents()|
      case Replacement(at, data) => data == [] || at >= |s.Contents()|
      case _ => false
    ensures Ready(s, Next(m, op)) && Careful(s, op)
  {
    hide State.Tidy, Clear, Offset, Text, Filled, Lands, State.Contents;
    Basics(s);
    if op.Deletion? && op.len != 0 {
      forall k: nat | Shrinking(s, op.at, op.len, k) ensures false {
        LandsAt(s, op.at, k);
        OffsetNext(s.g.text, s.g.chain, k);
      }
      if m.Own? && m.low < |s.Contents()| {
        var k: nat :| HoldsAt(s, m.low, m.high, k);
        OffsetNext(s.g.text, s.g.chain, k);
      }
    }
  }

  lemma LandsAt(s: State, at: nat, k: nat)
    requires Lands(s, at, k)
    ensures k < |s.g.chain| && Known(s.g.text, s.g.chain)
  {
  }

  /** An allowed operation is careful, and what is known after it holds. */
  lemma StepReady(s: State, m: Reach, op: E.Op, t: State, h: How)
    requires Ready(s, m) && Allowed(m, op) && Passed(s, op, t, h, false)
    ensures Careful(s, op) && Ready(t, Next(m, op))
  {
    hide State.Tidy, Clear, Careful, Allowed, Next, DoesInsert, DoesDelete, Roomy, Ready, State.Contents, State.Stray,
         Filled, UndoneTo, RedoneTo, Commit;
    ReadyParts(s, m);
    match op {
      case Insertion(at, data) =>
        if data == [] || at > |s.Contents()| {
          NothingDone(s, m, op);
        } else {
          NeverStray(s, op);
          InsertReady(s, t, m, at, data, h);
          NextOwn(m, at, data);
        }
      case Deletion(at, len) =>
        if len == 0 || at >= |s.Contents()| {
          NothingDone(s, m, op);
        } else {
          DeleteReady(s, t, m, at, len, h);
        }
      case Replacement(at, data) =>
        if data == [] || at >= |s.Contents()| {
          NothingDone(s, m, op);
        } else {
          ReplaceReady(s, t, m, at, data, h);
        }
      case _ =>
        NeverStray(s, op);
        MoveReady(s, op, t, h);
        FreeReady(t, m, op);
    }
  }

  lemma ReadyParts(s: State, m: Reach)
    requires Ready(s, m)
    ensures Clear(s) && !s.Stray() && Filled(s)
  {
    hide Clear, State.Stray, Filled, Fitting;
  }

  lemma NeverStray(s: State, op: E.Op)
    requires !s.Stray() && !op.Deletion? && !op.Replacement?
    ensures Careful(s, op)
  {
  }

  lemma NextOwn(m: Reach, at: nat, data: seq<Byte>)
    requires data != []
    ensures Next(m, E.Insertion(at, data)) == Own(at, at + |data|)
  {
  }

  lemma FreeReady(t: State, m: Reach, op: E.Op)
    requires Clear(t) && Filled(t) && !t.Stray() && t.cache == null && (op.Committing? || op.Undoing? || op.Redoing?)
    ensures Ready(t, Next(m, op))
  {
    hide Clear, Filled, State.Stray;
  }

  // ------------------------------------------------------------------ whole runs

  /** Every operation of a steady run is careful in the state it comes to. */
  lemma {:induction false} SteadyCareful(trail: seq<State>, ops: seq<E.Op>, how: seq<How>, m: Reach)
    requires Passes(trail, ops, how, false) && Ready(trail[0], m) && Steady(m, ops)
    ensures AllCareful(trail, ops, |how|) && Ready(trail[|how|], Last(m, ops[..|how|]))
    decreases |how|
  {
    hide Passed, Ready, Careful, Allowed, Next;
    if how != [] {
      assert Passed(trail[0], ops[0], trail[1], how[0], false);
      StepReady(trail[0], m, ops[0], trail[1], how[0]);
      PassesRest(trail, ops, how, false);
      SteadyCareful(trail[1..], ops[1..], how[1..], Next(m, ops[0]));
      assert ops[..|how|][1..] == ops[1..][..|how| - 1];
      forall i | 0 <= i < |how| ensures Careful(trail[i], ops[i]) {
        if i > 0 {
          assert Careful(trail[1..][i - 1], ops[1..][i - 1]);
        }
      }
    }
  }

  /** A steady run comes to its end. */
  method PerformSteady(f: File, ops: seq<E.Op>, ghost m: Reach)
    requires f.Valid() && !f.mended && Ready(f.View(), m) && Steady(m, ops)
    modifies f.Footprint()
    ensures f.Valid() && fresh(f.Footprint() - old(f.Footprint()))
    ensures old(f.Abs()).Coherent() && f.Abs() == E.Run(old(f.Abs()), ops) && Ready(f.View(), Last(m, ops))
  {
    hide State.Tidy, File.Shown, State.Abs, Ready, Clear, Passes, AllCareful, E.Run, E.Editor.Coherent, Neat, Safe;
    ghost var s := f.View();
    ReadyClear(s, m);
    var n;
    ghost var trail, how;
    n, trail, how := Perform(f, ops);
    PassesLength(trail, ops, how, false);
    SteadyCareful(trail, ops, how, m);
    assert ops[..n] == ops;
  }

  lemma ReadyClear(s: State, m: Reach)
    requires Ready(s, m)
    ensures Clear(s)
  {
  }

  /** A new or just opened file is ready for a steady run. */
  lemma StartsReady(f: File)
    requires Clear(f.View()) && Filled(f.View()) && f.cache == null
    ensures Ready(f.View(), Free)
  {
    hide Clear, Filled;
  }

  /** What was typed, and then overtyped any number of times, is gone after an undo. */
  method TypeAndUndo(f: File, at: nat, data: seq<Byte>, over: seq<E.Op>, ghost m: Reach)
    requires f.Valid() && !f.mended && Ready(f.View(), m) && !f.Abs().pending
    requires data != [] && at <= |f.Abs().text| && Overtypes(at, |data|, over)
    modifies f.Footprint()
    ensures f.Valid() && f.Abs().text == old(f.Abs()).text && f.Abs().cur == old(f.Abs()).cur
    ensures fresh(f.Footprint() - old(f.Footprint())) && Ready(f.View(), Free)
  {
    hide State.Tidy, File.Shown, State.Abs, Ready, Clear, E.Run, Overtypes;
    ghost var e := f.Abs();
    Coherence(f.View());
    TypedSteady(m, at, data, over);
    TypedUndone(e, at, data, over);
    PerformSteady(f, [E.Insertion(at, data)] + over + [E.Undoing], m);
  }

  lemma TypedSteady(m: Reach, at: nat, data: seq<Byte>, over: seq<E.Op>)
    requires data != [] && Overtypes(at, |data|, over)
    ensures var ops := [E.Insertion(at, data)] + over + [E.Undoing]; Steady(m, ops) && Last(m, ops) == Free
  {
    var rest := [E.Undoing];
    assert rest[1..] == [] && Steady(Own(at, at + |data|), rest);
    OvertypesSteady(at, |data|, over, rest);
    var ops := [E.Insertion(at, data)] + over + rest;
    assert ops[1..] == over + rest;
  }

  lemma TypedUndone(e: E.Editor, at: nat, data: seq<Byte>, over: seq<E.Op>)
    requires e.Coherent() && !e.pending && data != [] && at <= |e.text| && Overtypes(at, |data|, over)
    ensures var r := E.Run(e, [E.Insertion(at, data)] + over + [E.Undoing]); r.text == e.text && r.cur == e.cur
  {
    var ops := [E.Insertion(at, data)] + over + [E.Undoing];
    assert ops[1..] == over + [E.Undoing];
    EditsUndone(e, e.Insert(at, data), over);
  }

  /** An undo takes all edits back that were made since the last commit. */
  lemma {:induction false} EditsUndone(e: E.Editor, r: E.Editor, over: seq<E.Op>)
    requires e.Coherent() && !e.pending && r.Coherent() && r.pending
    requires r.cur == e.cur && r.snaps == e.snaps[..e.cur + 1]
    requires forall i :: 0 <= i < |over| ==> over[i].Replacement?
    ensures var z := E.Run(r, over + [E.Undoing]); z.text == e.text && z.cur == e.cur
    decreases |over|
  {
    var ops := over + [E.Undoing];
    if over == [] {
      assert ops == [E.Undoing] && ops[1..] == [];
    } else {
      assert ops[1..] == over[1..] + [E.Undoing];
      EditsUndone(e, E.Step(r, over[0]), over[1..]);
    }
  }
}
