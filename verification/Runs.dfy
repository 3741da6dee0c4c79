/** Whole runs: a file driven by any sequence of operations shows the editor driven by the same
    sequence, up to the first undo or redo that goes by a wrong length. */
module Runs {
  import opened Bytes
  import opened Links
  import opened Chain
  import opened History
  import opened Ledger
  import opened Booking
  import opened State
  import opened Effect
  import opened Outcome
  import opened Moving
  import opened File
  import E = Editor

  // ------------------------------------------------------------------ what keeps the books true

  /** The length recorded for what the last pending change brought. */
  ghost function LastLength(s: State): int {
    if s.pending == [] then 0 else s.pending[|s.pending| - 1].replacement.len
  }

  /** The cached piece is in use and linked. */
  ghost predicate Linked(s: State) { s.cache != null && s.cache in s.g.chain }

  /** Piece `k` is the last one, or the one behind it has bytes. */
  ghost predicate Backed(s: State, k: nat) {
    k + 1 < |s.g.chain| ==> s.g.chain[k + 1] in s.g.text && s.g.text[s.g.chain[k + 1]] != []
  }

  /** What a caller has to mind, as long as lengths are true: nothing goes into a cached piece that
      the last change did not bring, and no cut in place leaves that change without bytes, unless
      the bytes that replace them go into the same piece. */
  ghost predicate Careful(s: State, op: E.Op) {
    match op
    case Insertion(at, data) =>
      data != [] && s.Stray() ==> forall k: nat :: !Growing(s, at, k) || !Fits(s, |data|)
    case Deletion(at, len) =>
      len != 0 ==> forall k: nat :: Shrinking(s, at, len, k) ==> !s.Stray() && LastLength(s) != len
    case Replacement(at, data) =>
      data != [] && at < |s.Contents()| && Linked(s) ==>
        !s.Stray() && exists k: nat :: Shrinking(s, at, |data|, k) && (LastLength(s) != |data| || Backed(s, k))
    case _ => true
  }

  /** The books are in order: true lengths, and no emptied span. */
  ghost predicate Clear(s: State) { s.Honest() && s.Firm() }

  /** A mended file has also forgotten any cached piece that the last change did not bring. */
  ghost predicate Neat(f: File)
    reads f
  {
    f.mended && Clear(f.View()) && !f.View().Stray()
  }

  /** A cut in place that leaves a length leaves bytes. */
  lemma CutFirm(s: State, t: State, at: nat, len: nat, drop: bool)
    requires DeletePaid(s, t, at, len, true, drop) && Clear(s) && !s.Stray() && LastLength(s) != len
    ensures Clear(t)
  {
    hide State.Tidy, Recut, E.Told;
    Basics(t);
    PendingTruth(t);
  }

  lemma PendingTruth(t: State)
    requires t.Honest() && t.pending != []
    ensures |t.pending| == |t.g.draft| && LastLength(t) == |LastBytes(t.g)|
  {
    var n := |t.pending| - 1;
    assert Truth(t.pending[n], t.g.draft[n], t.g.text);
  }

  /** What is inserted where the cached piece was cut goes into it again, unless that is its end and
      the next piece has no bytes. */
  lemma Regrows(s: State, t: State, at: nat, len: nat, k: nat, drop: bool) returns (j: nat)
    requires s.Tidy() && DeletePaid(s, t, at, len, true, drop) && len != 0
    requires Shrinking(s, at, len, k) && Backed(s, k) && Roomy(s)
    ensures Fits(t, len) && Growing(t, at, j)
  {
    hide State.Tidy, E.Told, Booked, E.Editor.Delete, Text, State.Abs;
    Basics(s);
    Basics(t);
    var u, c := t.g.text, s.g.chain;
    OffsetNext(s.g.text, c, k);
    OffsetNext(u, c, k);
    FrontKept(s.g.text, u, c, k);
    if k == |c| - 1 || at < Offset(u, c, k + 1) {
      j := k;
    } else {
      OffsetNext(u, c, k + 1);
      j := k + 1;
    }
  }

  /** No block holds more than it has room for. */
  ghost predicate Roomy(s: State) { s.blocks != [] ==> Fits(s, 0) }

  lemma FrontKept(t: Texts, u: Texts, c: seq<Piece>, k: nat)
    requires Known(t, c) && Distinct(c) && k < |c| && c[k] in u && u == t[c[k] := u[c[k]]]
    ensures Known(u, c) && Offset(u, c, k) == Offset(t, c, k)
  {
    TextKept(t, u, c[..k]);
  }

  // ------------------------------------------------------------------ one operation

  lemma ReplaceClear(s: State, mid: State, t: State, at: nat, data: seq<Byte>, cut: bool, i: nat, grown: bool, k: nat)
    requires s.Tidy() && Clear(s) && Careful(s, E.Replacement(at, data)) && data != [] && at < |s.Contents()|
    requires DeletePaid(s, mid, at, |data|, cut, false) && cut == Shrinking(s, at, |data|, i) && Lands(s, at, i)
    requires InsertPaid(mid, t, at, data, grown) && grown == (Growing(mid, at, k) && Fits(mid, |data|))
    requires (mid.g.chain != [] ==> Lands(mid, at, k)) && Roomy(s)
    ensures Clear(t)
  {
    hide State.Tidy, State.Honest, State.Firm, Recut, E.Told, Fits, Growing, Shrinking, Leaves, Backed, Booked, Roomy,
         Removed, Placed, Roomed, E.Editor.Insert, E.Editor.Delete, State.Abs, State.Stray, Solid, OneMore, Charged;
    if cut {
      ShrinkingLinked(s, at, |data|, i);
    }
    if Linked(s) {
      var j: nat :| Shrinking(s, at, |data|, j) && (LastLength(s) != |data| || Backed(s, j));
      ShrinkingOnce(s, at, |data|, i, j);
      MidPays(s, mid, t, at, data, true, grown);
      if LastLength(s) != |data| {
        CutFirm(s, mid, at, |data|, false);
      } else if !Leaves(s, |data|) {
        var l := Regrows(s, mid, at, |data|, i, false);
        RegrownHere(mid, at, data, l, k, grown);
      }
    } else {
      MidPays(s, mid, t, at, data, false, grown);
    }
  }

  lemma ShrinkingLinked(s: State, at: nat, len: nat, k: nat)
    requires Shrinking(s, at, len, k)
    ensures Linked(s)
  {
  }

  lemma ShrinkingOnce(s: State, at: nat, len: nat, i: nat, k: nat)
    requires Lands(s, at, i) && Shrinking(s, at, len, k)
    ensures i == k
  {
    LandsOnce(s, at, i, k);
  }

  /** How the books come through the two parts of a replacement. */
  lemma MidPays(s: State, mid: State, t: State, at: nat, data: seq<Byte>, cut: bool, grown: bool)
    requires Clear(s) && DeletePaid(s, mid, at, |data|, cut, false) && InsertPaid(mid, t, at, data, grown)
    requires if cut then !s.Stray() else !Linked(s)
    ensures mid.Honest() && !mid.Stray() && (mid.Firm() || grown ==> Clear(t))
    ensures cut && Leaves(s, |data|) ==> mid.Firm()
    ensures !cut ==> mid.Firm()
    ensures Solid(mid.g)
  {
    hide State.Tidy, Recut, E.Told, Leaves, Truthful, Solid, LastFull, LastBytes, OneMore, Charged, E.Editor.Delete,
         E.Editor.Insert, State.Abs;
  }

  lemma RegrownHere(mid: State, at: nat, data: seq<Byte>, j: nat, k: nat, grown: bool)
    requires Fits(mid, |data|) && Growing(mid, at, j) && grown == (Growing(mid, at, k) && Fits(mid, |data|))
    requires mid.g.chain != [] ==> Lands(mid, at, k)
    ensures grown
  {
    LandsOnce(mid, at, j, k);
  }

  /** What has to be checked ahead of an undo or a redo: the lengths of the revision are those the
      swaps go by. */
  predicate Safe(f: File, op: E.Op)
    reads f
  {
    && (op.Undoing? ==> UndoesAll(ToUndo(f.revisions, f.current, f.pending)))
    && (op.Redoing? ==> RedoesAll(ToRedo(f.revisions, f.current, f.pending)))
  }

  lemma ClearSolid(s: State)
    requires Clear(s)
    ensures Solid(s.g)
  {
  }

  lemma Uncached(s: State)
    requires s.cache == null
    ensures !s.Stray()
  {
  }

  /** How an operation went: whether and where its deletion and its insertion went in place, and the
      state between the two; and what undo or redo told. */
  datatype How = How(cut: bool, i: nat, mid: State, grown: bool, k: nat, pos: nat := 0, event: E.Event := E.Silent)

  /** What an insertion does, and which way it goes. */
  ghost predicate DoesInsert(s: State, t: State, at: nat, data: seq<Byte>, h: How) {
    && InsertPaid(s, t, at, data, h.grown) && (s.g.chain != [] ==> Lands(s, at, h.k))
    && h.grown == (Growing(s, at, h.k) && Fits(s, |data|))
  }

  ghost predicate DoesDelete(s: State, t: State, at: nat, len: nat, h: How, mended: bool) {
    && DeletePaid(s, t, at, len, h.cut, mended) && Lands(s, at, h.i)
    && h.cut == (Shrinking(s, at, len, h.i) && (mended ==> Leaves(s, len)))
  }

  /** One operation leads from `s` to `t`. */
  ghost predicate Does(s: State, op: E.Op, t: State, h: How, mended: bool) {
    match op
    case Insertion(at, data) =>
      if data == [] || at > |s.Contents()| then t == s else DoesInsert(s, t, at, data, h)
    case Deletion(at, len) =>
      if len == 0 || at >= |s.Contents()| then t == s else DoesDelete(s, t, at, len, h, mended)
    case Replacement(at, data) =>
      if data == [] || at >= |s.Contents()| then t == s
      else DoesDelete(s, h.mid, at, |data|, h, mended) && DoesInsert(h.mid, t, at, data, h)
    case Committing => t == Commit(s)
    case Undoing =>
      var c := Commit(s);
      if 0 < c.cur < |c.revs| then UndoneTo(c, t) && UndoReport(c.revs[c.cur], c.size, h.pos, h.event)
      else t == c && h.event == E.Silent
    case Redoing =>
      var c := Commit(s);
      if c.cur + 1 < |c.revs| then RedoneTo(c, t) && RedoReport(c.revs[c.cur + 1], c.size, h.pos, h.event)
      else t == c && h.event == E.Silent
  }

  /** The three edits. */
  method PerformInsert(f: File, at: nat, data: seq<Byte>) returns (event: E.Event, ghost h: How)
    requires f.Valid()
    modifies f.Footprint()
    ensures f.Valid() && fresh(f.Footprint() - old(f.Footprint())) && f.Abs() == old(f.Abs()).Insert(at, data)
    ensures E.Fair(event, old(f.Abs()).text, f.Abs().text)
    ensures old(Clear(f.View())) && Careful(old(f.View()), E.Insertion(at, data)) ==> Clear(f.View())
    ensures old(Neat(f)) ==> Neat(f)
    ensures Does(old(f.View()), E.Insertion(at, data), f.View(), h, f.mended)
    ensures E.Published(old(f.Abs()).text, E.Insertion(at, data), E.Silent, event)
  {
    hide State.Tidy, File.Shown, State.Abs, State.Honest, State.Firm, State.Stray, Solid, Lands, Fits, Growing,
         InsertPaid, E.Told, E.Editor.Insert, State.Contents, E.Published;
    ghost var s := f.View();
    SizeTrue(s);
    if Clear(s) {
      ClearSolid(s);
    }
    var ok;
    ghost var hit, k;
    ok, event, hit, k := f.Insert(at, data);
    h := How(false, 0, s, hit, k);
    E.InsertPublishes(s.Abs(), at, data, event);
  }

  method PerformDelete(f: File, at: nat, len: nat) returns (event: E.Event, ghost h: How)
    requires f.Valid()
    modifies f.Footprint()
    ensures f.Valid() && fresh(f.Footprint() - old(f.Footprint())) && f.Abs() == old(f.Abs()).Delete(at, len)
    ensures E.Fair(event, old(f.Abs()).text, f.Abs().text)
    ensures old(Clear(f.View())) && Careful(old(f.View()), E.Deletion(at, len)) ==> Clear(f.View())
    ensures old(Neat(f)) ==> Neat(f)
    ensures Does(old(f.View()), E.Deletion(at, len), f.View(), h, f.mended)
    ensures E.Published(old(f.Abs()).text, E.Deletion(at, len), E.Silent, event)
  {
    hide State.Tidy, File.Shown, State.Abs, State.Honest, State.Firm, State.Stray, Solid, Lands, Shrinking, Leaves,
         LastBytes, DeletePaid, E.Told, E.Editor.Delete, State.Contents, E.Published;
    ghost var s := f.View();
    Coherence(s);
    SizeTrue(s);
    if Clear(s) {
      ClearSolid(s);
    }
    var ok;
    ghost var hit, k;
    ok, event, hit, k := f.Delete(at, len);
    h := How(hit, k, s, false, 0);
    E.DeletePublishes(s.Abs(), at, len, event);
    if hit && Clear(s) && Careful(s, E.Deletion(at, len)) {
      CutFirm(s, f.View(), at, len, f.mended);
    }
    DeleteNeat(s, f.View(), at, len, hit, f.mended, ok && len != 0);
  }

  lemma DeleteNeat(s: State, t: State, at: nat, len: nat, hit: bool, drop: bool, done: bool)
    requires if done then DeletePaid(s, t, at, len, hit, drop) else t == s
    ensures !s.Stray() && drop ==> !t.Stray()
  {
    hide State.Tidy, E.Told, Booked, Recut, InLast;
  }

  /** A replacement publishes twice, in between with `mid` as the contents, which has `was` bytes. */
  method PerformReplace(f: File, at: nat, data: seq<Byte>)
    returns (first: E.Event, second: E.Event, ghost mid: seq<Byte>, was: int, ghost h: How)
    requires f.Valid()
    modifies f.Footprint()
    ensures f.Valid() && fresh(f.Footprint() - old(f.Footprint())) && f.Abs() == old(f.Abs()).Replace(at, data)
    ensures E.Fair(first, old(f.Abs()).text, mid) && E.Fair(second, mid, f.Abs().text)
    ensures was == |mid| && mid == E.Halfway(old(f.Abs()).text, E.Replacement(at, data))
    ensures Does(old(f.View()), E.Replacement(at, data), f.View(), h, f.mended)
    ensures E.Published(old(f.Abs()).text, E.Replacement(at, data), first, second)
    ensures !f.mended && old(Clear(f.View())) && Careful(old(f.View()), E.Replacement(at, data)) ==> Clear(f.View())
    ensures old(Neat(f)) ==> Neat(f)
  {
    hide State.Tidy, File.Shown, State.Abs, State.Honest, State.Firm, State.Stray, Solid, Lands, Fits, Leaves,
         Growing, Shrinking,
         DeletePaid, InsertPaid, E.Told, E.Editor.Replace, LastBytes, State.Contents;
    ghost var s := f.View();
    Room(f);
    SizeTrue(s);
    mid, was := f.Abs().text, f.size;
    ghost var t := mid;
    var ok;
    ghost var cut, i, between, grown, k;
    ok, first, second, cut, i, between, grown, k := f.Replace(at, data);
    h := How(cut, i, between, grown, k);
    if ok && data != [] {
      mid, was := Deleted(t, at, |data|), was - (Min(at + |data|, was) - at);
      DeletedLength(t, at, |data|);
      if Clear(s) && Careful(s, E.Replacement(at, data)) && !f.mended {
        Effective(s, at);
        ReplaceClear(s, between, f.View(), at, data, cut, i, grown, k);
      }
      if f.mended && Clear(s) && !s.Stray() {
        ReplaceNeat(s, between, f.View(), at, data, cut, grown);
      }
    }
  }

  lemma Effective(s: State, at: nat)
    ensures at < |s.Abs().text| ==> at < |s.Contents()|
  {
  }

  lemma ReplaceNeat(s: State, mid: State, t: State, at: nat, data: seq<Byte>, cut: bool, grown: bool)
    requires Clear(s) && !s.Stray() && DeletePaid(s, mid, at, |data|, cut, true) && InsertPaid(mid, t, at, data, grown)
    requires cut ==> Leaves(s, |data|)
    ensures Clear(t) && !t.Stray()
  {
    hide State.Tidy, Recut, E.Told, Leaves, Truthful, Solid, LastFull, LastBytes, OneMore, Charged, E.Editor.Delete,
         E.Editor.Insert, State.Abs;
  }

  /** One operation and what it publishes, with `mid` as the contents that the second event is about
      a change of, and `was` bytes in them. */
  method PerformOne(f: File, op: E.Op)
    returns (first: E.Event, second: E.Event, ghost mid: seq<Byte>, was: int, ghost h: How)
    requires f.Valid() && Safe(f, op)
    modifies f.Footprint()
    ensures f.Valid() && fresh(f.Footprint() - old(f.Footprint()))
    ensures old(f.Abs()).Coherent() && f.Abs() == E.Step(old(f.Abs()), op)
    ensures E.Fair(first, old(f.Abs()).text, mid) && E.Fair(second, mid, f.Abs().text)
    ensures was == |mid| && mid == E.Halfway(old(f.Abs()).text, op)
    ensures Does(old(f.View()), op, f.View(), h, f.mended) && Roomy(old(f.View()))
    ensures op.Undoing? || op.Redoing? ==> h.event == second
    ensures E.Published(old(f.Abs()).text, op, first, second)
    ensures !f.mended && old(Clear(f.View())) && Careful(old(f.View()), op) ==> Clear(f.View())
    ensures old(Neat(f)) ==> Neat(f)
  {
    hide State.Tidy, File.Shown, State.Abs, State.Honest, State.Firm, State.Stray, Careful, Commit, UndoneTo,
         RedoneTo, E.Told, DoesInsert, DoesDelete, State.Contents, Fits,
         E.Editor.Insert, E.Editor.Delete, E.Editor.Replace, E.Editor.Undo, E.Editor.Redo, E.Editor.Commit,
           E.Editor.Coherent, UndoReport, RedoReport;
    Coherence(f.View());
    SizeTrue(f.View());
    CommitSilent(f.View());
    Room(f);
    first, second, mid, was := E.Silent, E.Silent, f.Abs().text, f.size;
    h := How(false, 0, f.View(), false, 0);
    match op {
      case Insertion(at, data) =>
        second, h := PerformInsert(f, at, data);
      case Deletion(at, len) =>
        second, h := PerformDelete(f, at, len);
      case Replacement(at, data) =>
        first, second, mid, was, h := PerformReplace(f, at, data);
      case Committing =>
        var ok := f.CommitRevision();
        Uncached(f.View());
      case Undoing =>
        var ok, pos, wild;
        ok, pos, second, wild := f.Undo();
        h := h.(pos := pos, event := second);
        Uncached(f.View());
      case Redoing =>
        var ok, pos, wild;
        ok, pos, second, wild := f.Redo();
        h := h.(pos := pos, event := second);
        Uncached(f.View());
    }
  }

  lemma CommitSilent(s: State)
    requires s.Tidy()
    ensures Commit(s).Abs() == s.Abs().Commit() && s.Abs().Commit().text == s.Abs().text
    ensures Commit(s).cur == s.Abs().Commit().cur && |Commit(s).revs| == |s.Abs().Commit().snaps|
  {
    CommitShows(s);
    CommitTidy(s);
    Basics(Commit(s));
  }

  lemma Room(f: File)
    requires f.Valid()
    ensures Roomy(f.View())
  {
    hide State.Tidy, File.Shown, Fits;
    if f.blocks != [] {
      f.BlocksHold();
    }
  }

  // ------------------------------------------------------------------ all of them

  /** Each of the first `n` operations is careful in the state it comes to. */
  ghost predicate AllCareful(trail: seq<State>, ops: seq<E.Op>, n: nat)
    requires n <= |ops| && n <= |trail|
  {
    forall i :: 0 <= i < n ==> Careful(trail[i], ops[i])
  }

  /** The states a run comes through: each operation leads from one to the next. */
  ghost predicate Passes(trail: seq<State>, ops: seq<E.Op>, how: seq<How>, mended: bool) {
    && |trail| == |how| + 1 && |how| <= |ops|
    && forall i, j :: 0 <= i < |how| && j == i + 1 ==> Passed(trail[i], ops[i], trail[j], how[i], mended)
  }

  /** One step of a run; a careful one keeps the books in order. */
  ghost predicate Passed(s: State, op: E.Op, t: State, h: How, mended: bool) {
    && Does(s, op, t, h, mended) && s.Tidy() && Roomy(s) && s.Abs().Coherent() && t.Abs() == E.Step(s.Abs(), op)
    && (!mended && Clear(s) && Careful(s, op) ==> Clear(t))
  }

  lemma OnePasses(s: State, op: E.Op, t: State, h: How, mended: bool)
    requires Does(s, op, t, h, mended) && s.Tidy() && Roomy(s) && s.Abs().Coherent() && t.Abs() == E.Step(s.Abs(), op)
    requires !mended && Clear(s) && Careful(s, op) ==> Clear(t)
    ensures Passed(s, op, t, h, mended)
  {
  }

  lemma PassesStep(s: State, rest: seq<State>, ops: seq<E.Op>, h: How, hs: seq<How>, mended: bool)
    requires ops != [] && Passes(rest, ops[1..], hs, mended)
    requires Passed(s, ops[0], rest[0], h, mended)
    ensures Passes([s] + rest, ops, [h] + hs, mended)
  {
    hide Passed;
    var trail, how := [s] + rest, [h] + hs;
    forall i, j | 0 <= i < |how| && j == i + 1 ensures Passed(trail[i], ops[i], trail[j], how[i], mended) {
      if i > 0 {
        assert Passed(rest[i - 1], ops[1..][i - 1], rest[j - 1], hs[i - 1], mended);
      }
    }
  }

  lemma PassesRest(trail: seq<State>, ops: seq<E.Op>, how: seq<How>, mended: bool)
    requires Passes(trail, ops, how, mended) && how != []
    ensures Passes(trail[1..], ops[1..], how[1..], mended)
  {
    hide Passed;
    forall i, j | 0 <= i < |how[1..]| && j == i + 1
      ensures Passed(trail[1..][i], ops[1..][i], trail[1..][j], how[1..][i], mended)
    {
      assert Passed(trail[i + 1], ops[i + 1], trail[j + 1], how[i + 1], mended);
    }
  }

  lemma PassesLength(trail: seq<State>, ops: seq<E.Op>, how: seq<How>, mended: bool)
    requires Passes(trail, ops, how, mended)
    ensures |trail| == |how| + 1
  {
  }

  lemma CarefulStep(s: State, rest: seq<State>, ops: seq<E.Op>, n: nat)
    requires n < |ops| && n <= |rest|
    ensures AllCareful([s] + rest, ops, n + 1) ==> Careful(s, ops[0]) && AllCareful(rest, ops[1..], n)
  {
    var trail := [s] + rest;
    if AllCareful(trail, ops, n + 1) {
      assert trail[0] == s;
      forall i | 0 <= i < n ensures Careful(rest[i], ops[1..][i]) {
        assert Careful(trail[i + 1], ops[i + 1]);
      }
    }
  }

  /** Where a run starts. */
  lemma Begins(f: File, ops: seq<E.Op>)
    requires f.Valid()
    ensures f.View().Tidy() && f.Abs().Coherent() && f.Abs() == f.View().Abs()
    ensures Passes([f.View()], ops, [], f.mended)
    ensures Clear(f.View()) ==> forall op :: Safe(f, op)
    ensures Neat(f) ==> Clear(f.View())
  {
    hide State.Tidy, File.Shown, Safe, Clear, Neat;
    Coherence(f.View());
    ClearSafe(f);
  }

  lemma RunNothing(e: E.Editor, ops: seq<E.Op>)
    requires e.Coherent()
    ensures E.Run(e, ops[..0]) == e
  {
  }

  lemma RunStep(e: E.Editor, ops: seq<E.Op>, n: nat)
    requires e.Coherent() && 0 < n <= |ops|
    ensures E.Run(e, ops[..n]) == E.Run(E.Step(e, ops[0]), ops[1..][..n - 1])
  {
    assert ops[..n][1..] == ops[1..][..n - 1];
  }

  /** Runs the operations up to the first undo or redo that is not safe.  So far the text, the
      history and the current revision are those of the editor, and `trail` are the states it came
      through.  A run in which every operation is careful comes to its end, and so does every run of
      a mended file. */
  method Perform(f: File, ops: seq<E.Op>) returns (n: nat, ghost trail: seq<State>, ghost how: seq<How>)
    requires f.Valid()
    modifies f.Footprint()
    ensures f.Valid() && fresh(f.Footprint() - old(f.Footprint()))
    ensures n <= |ops| && (n < |ops| ==> !Safe(f, ops[n]))
    ensures old(f.Abs()).Coherent() && f.Abs() == E.Run(old(f.Abs()), ops[..n])
    ensures |trail| == n + 1 && trail[0] == old(f.View()) && trail[n] == f.View()
    ensures Passes(trail, ops, how, f.mended) && |how| == n
    ensures !f.mended && old(Clear(f.View())) && AllCareful(trail, ops, n) ==> n == |ops|
    ensures old(Neat(f)) ==> n == |ops|
    decreases |ops|
  {
    hide E.Step, E.Run, E.Fair, File.View, State.Tidy, File.Shown, State.Abs, Neat, Clear, Careful, AllCareful, Safe,
         E.Editor.Coherent, Does, Roomy, Passed, Passes, E.Published, E.Halfway, File.Valid;
    Begins(f, ops);
    n, trail, how := 0, [f.View()], [];
    RunNothing(f.View().Abs(), ops);
    if ops != [] && Safe(f, ops[0]) {
      ghost var s := f.View();
      var first, second, was;
      ghost var mid, h, hs, rest;
      first, second, mid, was, h := PerformOne(f, ops[0]);
      OnePasses(s, ops[0], f.View(), h, f.mended);
      n, rest, hs := Perform(f, ops[1..]);
      RunStep(old(f.Abs()), ops, n + 1);
      CarefulStep(s, rest, ops, n);
      PassesStep(s, rest, ops, h, hs, f.mended);
      n, trail, how := n + 1, [s] + rest, [h] + hs;
    }
  }

  /** True lengths make every undo and redo safe. */
  lemma ClearSafe(f: File)
    requires f.Valid()
    ensures Clear(f.View()) ==> forall op :: Safe(f, op)
    ensures Neat(f) ==> Clear(f.View())
  {
    hide State.Tidy, File.Shown, State.Honest, State.Firm, UndoesAll, RedoesAll, State.Sure;
    if Clear(f.View()) {
      HonestSure(f.View());
      SureMoves(f.View());
    }
  }
}
