/** Undo and redo of a file: what the two loops over the changes of a revision do to its state. */
module Moving {
  import opened Bytes
  import opened Links
  import opened Heap
  import opened History
  import opened Trace
  import opened Ledger
  import opened State
  import opened Outcome
  import E = Editor

  // ------------------------------------------------------------------ one swap in the loops

  /** A swap leaves every pointer leading to a known piece. */
  lemma SwapClosed(m: Links, o: Span, r: Span)
    requires Closed(m) && CanSwap(m, o, r)
    ensures Closed(SwapLinks(m, o, r)) && SwapLinks(m, o, r).next.Keys == m.next.Keys
  {
    var n := SwapLinks(m, o, r);
    if o.len != 0 {
      assert Leashed(m, o.start) && Leashed(m, o.end);
    }
    if r.len != 0 {
      assert Leashed(m, r.start) && Leashed(m, r.end);
    }
    assert n.next.Keys == m.next.Keys && n.prev.Keys == m.prev.Keys;
    forall p | p in n.next.Keys ensures Leashed(n, p) {
      assert Leashed(m, p);
    }
  }

  lemma UnswapStep(m: Links, cs: Revision, i: nat)
    requires i < |cs| && CanSwapAll(m, cs[..i + 1])
    ensures CanSwap(m, cs[i].replacement, cs[i].original)
    ensures var n := SwapLinks(m, cs[i].replacement, cs[i].original);
      CanSwapAll(n, cs[..i]) && Unswapped(m, cs[..i + 1]) == Unswapped(n, cs[..i])
    ensures Growth(cs[..i + 1]) == Growth(cs[..i]) + cs[i].replacement.len - cs[i].original.len
  {
    var ds := cs[..i + 1];
    assert ds == cs[..i] + [cs[i]] && ds[..i] == cs[..i] && ds[i] in ds;
    StillSwaps(m, cs[i].replacement, cs[i].original, ds, cs[..i]);
    GrowthSnoc(cs[..i], cs[i]);
  }

  /** The least position so far, when undo comes to change `i`. */
  lemma LeastBack(cs: Revision, i: nat, least: int)
    requires i < |cs|
    ensures Min(least, Low(cs[..i + 1])) == if i == 0 then Min(least, cs[i].pos)
      else Min(Min(least, cs[i].pos), Low(cs[..i]))
  {
    assert cs[..i + 1] == cs[..i] + [cs[i]];
    LowSnoc(cs[..i], cs[i]);
  }

  /** The least position so far, when redo comes to change `i`. */
  ghost function LeastTo(size: int, cs: Revision, i: nat): int
    requires i <= |cs|
  {
    if i == 0 then size else Min(size, Low(cs[..i]))
  }

  lemma LeastAll(size: int, cs: Revision)
    ensures LeastTo(size, cs, 0) == size && (cs != [] ==> LeastTo(size, cs, |cs|) == Min(size, Low(cs)))
  {
    assert cs[..|cs|] == cs;
  }

  lemma LeastStep(size: int, cs: Revision, i: nat)
    requires i < |cs|
    ensures Min(LeastTo(size, cs, i), cs[i].pos) == LeastTo(size, cs, i + 1)
  {
    assert cs[..i + 1] == cs[..i] + [cs[i]];
    LowSnoc(cs[..i], cs[i]);
  }

  /** The changes that redo has still to apply. */
  ghost function ToDo(cs: Revision, i: nat): Revision
    requires i <= |cs|
  {
    cs[i..]
  }

  lemma AllToDo(cs: Revision)
    ensures ToDo(cs, 0) == cs && ToDo(cs, |cs|) == []
  {
  }

  lemma SwapStep(m: Links, cs: Revision, i: nat)
    requires i < |cs| && CanSwapAll(m, ToDo(cs, i))
    ensures CanSwap(m, cs[i].original, cs[i].replacement)
    ensures var n := SwapLinks(m, cs[i].original, cs[i].replacement);
      CanSwapAll(n, ToDo(cs, i + 1)) && Swapped(m, ToDo(cs, i)) == Swapped(n, ToDo(cs, i + 1))
    ensures Growth(ToDo(cs, i)) == Growth(ToDo(cs, i + 1)) + cs[i].replacement.len - cs[i].original.len
  {
    var ds := cs[i..];
    assert ds[1..] == cs[i + 1..] && ds[0] == cs[i] && ds[0] in ds;
    StillSwaps(m, cs[i].original, cs[i].replacement, ds, cs[i + 1..]);
  }

  // ------------------------------------------------------------------ the revision between two

  /** The swaps of revision `i` follow no null pointer. */
  lemma RevisionSwaps(s: State, i: nat)
    requires s.Tidy() && 1 <= i < |s.revs| && NullSafe(s.revs[i])
    ensures CanSwapAll(s.g.links, s.revs[i]) && Closed(s.g.links)
  {
    Basics(s);
    TidyCovered(s);
    RevisionBooks(s, i);
    hide State.Tidy;
    NullSafeCanSwap(s.g.links, s.revs[i], s.g.edits[i], s.g.text, s.head);
  }

  /** What the books say about revision `i`. */
  lemma RevisionBooks(s: State, i: nat)
    requires s.Tidy() && 1 <= i < |s.revs|
    ensures |s.revs| == |s.g.marks| == |s.g.edits| && s.revs[i] != []
    ensures TracesAll(s.revs[i], s.g.edits[i]) && (UndoesAll(s.revs[i]) ==> NullSafe(s.revs[i]))
    ensures RedoesAll(s.revs[i]) ==> UndoesAll(s.revs[i])
  {
    hide State.CacheOk, Spelled, Trace.Sound, TracesAll, RedoesAll, UndoesAll;
    if UndoesAll(s.revs[i]) {
      UndoesNullSafe(s.revs[i], s.g.edits[i]);
    }
    RedoesRecordsAll(s.revs[i], s.g.edits[i]);
  }

  lemma PendingBooks(s: State)
    requires s.Tidy()
    ensures TracesAll(s.pending, s.g.draft) && (UndoesAll(s.pending) ==> NullSafe(s.pending))
    ensures RedoesAll(s.pending) ==> UndoesAll(s.pending)
  {
    hide State.CacheOk, Spelled, Trace.Sound, TracesAll, RedoesAll, UndoesAll;
    if UndoesAll(s.pending) {
      UndoesNullSafe(s.pending, s.g.draft);
    }
    RedoesRecordsAll(s.pending, s.g.draft);
  }

  // ------------------------------------------------------------------ undo

  /** The changes that undo takes back: the pending ones, or those of the current revision. */
  function ToUndo(revs: seq<Revision>, cur: nat, pending: Revision): Revision {
    if pending != [] then pending else if 0 < cur < |revs| then revs[cur] else []
  }

  /** The changes that redo applies; with pending ones there are none. */
  function ToRedo(revs: seq<Revision>, cur: nat, pending: Revision): Revision {
    if pending == [] && cur + 1 < |revs| then revs[cur + 1] else []
  }

  ghost function UndoOf(s: State): Revision { ToUndo(s.revs, s.cur, s.pending) }

  ghost function RedoOf(s: State): Revision { ToRedo(s.revs, s.cur, s.pending) }

  /** Undo does, swap by swap, what taking back each edit of the revision asks for, if and only if
      the recorded lengths are those it goes by. */
  lemma UndoFollows(s: State)
    requires s.Tidy() && s.pending == [] && 0 < s.cur < |s.revs|
    ensures |s.g.edits| == |s.revs|
    ensures TakesBack(s.g.links, s.head, s.g.edits[s.cur], s.revs[s.cur]) <==> UndoesAll(s.revs[s.cur])
  {
    hide State.Tidy, Past, Future, Trace.Sound, TracesAll, UndoesAll;
    RevisionBooks(s, s.cur);
    var es := s.g.edits[s.cur];
    SoundPast(s);
    AppliedSplits(s.g, s.cur);
    TakesBackIff(s.g.links, s.head, Flat(s.g.edits[..s.cur]), es, s.g.chain, s.revs[s.cur]);
  }

  lemma RevertedLinks(s: State)
    requires s.Tidy() && s.pending == [] && 0 < s.cur < |s.revs| && UndoesAll(s.revs[s.cur])
    ensures CanSwapAll(s.g.links, s.revs[s.cur]) && s.g.Shaped(s.cur)
    ensures Unswapped(s.g.links, s.revs[s.cur]) == Reverted(s.g, s.head, s.cur).links
  {
    hide State.Tidy, Trace.Sound, UndoesAll, TakesBack, Past, Future;
    UndoFollows(s);
    RevisionBooks(s, s.cur);
    RevisionSwaps(s, s.cur);
    SoundPast(s);
    UnswappedIsBackAll(s.g.links, s.head, s.g.edits[s.cur], s.revs[s.cur]);
  }

  lemma SoundPast(s: State)
    requires s.Tidy()
    ensures s.g.Shaped(s.cur) && Past(s.g.links, s.head, s.g.Applied(s.cur), s.g.chain)
    ensures Future(s.g.links, s.head, s.g.Undone(s.cur), s.g.chain)
    ensures s.g.Sound(s.head, s.cur) && (s.pending == [] ==> s.g.draft == [])
  {
    Basics(s);
  }

  /** Undo lands on the text of the revision before, whatever the edits in between were, and
      whether or not each length was charged to the change that made it. */
  lemma UndoLands(s: State)
    requires s.Tidy() && s.pending == [] && s.cache == null && 0 < s.cur < |s.revs| && UndoesAll(s.revs[s.cur])
    ensures CanSwapAll(s.g.links, s.revs[s.cur]) && |s.revs| == |s.g.marks|
    ensures var t := MoveTo(s, s.cur - 1, Unswapped(s.g.links, s.revs[s.cur]));
      && t.Tidy() && t.Abs() == s.Abs().Undo() && (s.Honest() ==> t.Honest()) && (s.Firm() ==> t.Firm())
      && t.size == s.size - Growth(s.revs[s.cur])
      && Agree(s.Contents(), t.Contents(), Low(s.revs[s.cur])) && Low(s.revs[s.cur]) <= s.size
  {
    hide State.Tidy, Truthful, Solid, Trace.Sound, BackAll, UndoesAll, State.Honest, State.Firm;
    Basics(s);
    SoundPast(s);
    RevertedLinks(s);
    RevertSound(s.g, s.head, s.cur);
    MoveLands(s, s.cur, s.cur - 1, Unswapped(s.g.links, s.revs[s.cur]));
  }

  /** Arriving at the revision `to`, on one side of revision `i`. */
  lemma MoveLands(s: State, i: nat, to: nat, m: Links)
    requires s.Tidy() && s.pending == [] && 1 <= i < |s.revs|
    requires (s.cur == i && to == i - 1) || (s.cur == i - 1 && to == i)
    requires s.g.(chain := s.g.marks[to], links := m).Sound(s.head, to)
    ensures to < |s.g.marks|
    ensures var t := MoveTo(s, to, m);
      && t.Tidy() && t.Abs() == s.Abs().(text := s.Abs().snaps[to], cur := to)
      && (s.Honest() ==> t.Honest()) && (s.Firm() ==> t.Firm())
      && t.size == (if to < i then s.size - Growth(s.revs[i]) else s.size + Growth(s.revs[i]))
      && Agree(s.Contents(), t.Contents(), Low(s.revs[i])) && Low(s.revs[i]) <= s.size
  {
    hide State.Tidy, State.Honest, State.Firm, State.Snaps, State.Abs, Trace.Sound, Growth, Agree, Low;
    Basics(s);
    MoveTidy(s, to, m);
    MoveArrives(s, i, to, m);
  }

  lemma MoveArrives(s: State, i: nat, to: nat, m: Links)
    requires s.Tidy() && 1 <= i < |s.revs| == |s.g.marks| && s.size == |s.Contents()|
    requires s.g.chain == s.g.marks[s.cur] && s.g.draft == []
    requires (s.cur == i && to == i - 1) || (s.cur == i - 1 && to == i)
    ensures var t := MoveTo(s, to, m);
      && t.Abs() == s.Abs().(text := s.Abs().snaps[to], cur := to)
      && (s.Honest() ==> t.Honest()) && (s.Firm() ==> t.Firm())
      && t.size == (if to < i then s.size - Growth(s.revs[i]) else s.size + Growth(s.revs[i]))
      && Agree(s.Contents(), t.Contents(), Low(s.revs[i])) && Low(s.revs[i]) <= s.size
  {
    hide State.Tidy, Truthful, Solid, Growth, Low;
    MoveAbs(s, to, m);
    MoveCarries(s, i - 1);
    assert s.Snaps()[s.cur] == s.Contents() && s.Snaps()[to] == MoveTo(s, to, m).Contents();
  }

  // ------------------------------------------------------------------ redo

  /** Redo does, swap by swap, what each edit of the revision asks for, if and only if every
      length is 0 exactly for a run without pieces. */
  lemma RedoFollows(s: State)
    requires s.Tidy() && s.pending == [] && s.cur + 1 < |s.revs|
    ensures |s.g.edits| == |s.revs|
    ensures AppliesAll(s.g.links, s.head, s.g.edits[s.cur + 1], s.revs[s.cur + 1]) <==> RedoesAll(s.revs[s.cur + 1])
  {
    hide State.Tidy, Past, Future, Trace.Sound, TracesAll, RedoesAll;
    Basics(s);
    RevisionBooks(s, s.cur + 1);
    SoundPast(s);
    ReplaySplits(s.g, s.head, s.cur);
    var fs := Flat(s.g.edits[s.cur + 2..]);
    AppliesAllIff(s.g.links, s.head, s.g.edits[s.cur + 1], fs, s.g.chain, s.revs[s.cur + 1]);
  }

  lemma ReplayedLinks(s: State)
    requires s.Tidy() && s.pending == [] && s.cur + 1 < |s.revs| && RedoesAll(s.revs[s.cur + 1])
    ensures CanSwapAll(s.g.links, s.revs[s.cur + 1]) && s.g.Shaped(s.cur) && s.cur + 1 < |s.g.marks|
    ensures Swapped(s.g.links, s.revs[s.cur + 1]) == Replayed(s.g, s.head, s.cur).links
  {
    hide State.Tidy, Trace.Sound, RedoesAll, AppliesAll, Past, Future;
    RedoFollows(s);
    RevisionBooks(s, s.cur + 1);
    RevisionSwaps(s, s.cur + 1);
    SoundPast(s);
    SwappedIsForthAll(s.g.links, s.head, s.g.edits[s.cur + 1], s.revs[s.cur + 1]);
  }

  /** Redo lands on the text of the revision after. */
  lemma RedoLands(s: State)
    requires s.Tidy() && s.pending == [] && s.cache == null && s.cur + 1 < |s.revs| && RedoesAll(s.revs[s.cur + 1])
    ensures CanSwapAll(s.g.links, s.revs[s.cur + 1]) && |s.revs| == |s.g.marks|
    ensures var t := MoveTo(s, s.cur + 1, Swapped(s.g.links, s.revs[s.cur + 1]));
      && t.Tidy() && t.Abs() == s.Abs().Redo() && (s.Honest() ==> t.Honest()) && (s.Firm() ==> t.Firm())
      && t.size == s.size + Growth(s.revs[s.cur + 1])
      && Agree(s.Contents(), t.Contents(), Low(s.revs[s.cur + 1])) && Low(s.revs[s.cur + 1]) <= s.size
  {
    hide State.Tidy, Truthful, Solid, Trace.Sound, ForthAll, RedoesAll, State.Honest, State.Firm;
    Basics(s);
    SoundPast(s);
    ReplayedLinks(s);
    ReplaySound(s.g, s.head, s.cur);
    MoveLands(s, s.cur + 1, s.cur + 1, Swapped(s.g.links, s.revs[s.cur + 1]));
  }

  // ------------------------------------------------------------------ the two operations

  /** `t` is `s` after the loop of undo: one revision back. */
  ghost predicate UndoneTo(s: State, t: State) {
    && s.pending == [] && 0 < s.cur < |s.revs| && |s.revs| == |s.g.marks| && CanSwapAll(s.g.links, s.revs[s.cur])
    && t == s.(cur := s.cur - 1, size := s.size - Growth(s.revs[s.cur]),
               g := s.g.(chain := s.g.marks[s.cur - 1], links := Unswapped(s.g.links, s.revs[s.cur])))
  }

  ghost predicate RedoneTo(s: State, t: State) {
    && s.pending == [] && s.cur + 1 < |s.revs| && |s.revs| == |s.g.marks| && CanSwapAll(s.g.links, s.revs[s.cur + 1])
    && t == s.(cur := s.cur + 1, size := s.size + Growth(s.revs[s.cur + 1]),
               g := s.g.(chain := s.g.marks[s.cur + 1], links := Swapped(s.g.links, s.revs[s.cur + 1])))
  }

  /** What undo of a revision tells its caller and the subscribers, in a text of `size` bytes: the
      position of the first change, and all from the least position on. */
  ghost predicate UndoReport(rev: Revision, size: int, pos: nat, event: E.Event) {
    rev != [] && pos == rev[0].pos && StartsLeast(rev, size, event)
  }

  /** Redo tells the position of the last change. */
  ghost predicate RedoReport(rev: Revision, size: int, pos: nat, event: E.Event) {
    rev != [] && pos == rev[|rev| - 1].pos && StartsLeast(rev, size, event)
  }

  ghost predicate StartsLeast(rev: Revision, size: int, event: E.Event) {
    event.Changed? && event.offset == Min(size, Low(rev)) && event.len == size - event.offset
  }

  lemma UndoArrives(s: State, t: State, event: E.Event)
    requires s.Tidy() && s.cache == null && UndoneTo(s, t) && UndoesAll(s.revs[s.cur])
    requires event.Changed? && event.offset == Min(s.size, Low(s.revs[s.cur])) && event.len == s.size - event.offset
    ensures t.Tidy() && t.Abs() == s.Abs().Undo() && E.Told(event, s.Abs().text, t.Abs().text)
    ensures (s.Honest() ==> t.Honest()) && (s.Firm() ==> t.Firm())
  {
    hide State.Tidy, State.Honest, State.Firm, CanSwapAll, Unswapped, Growth, Low, E.Editor.Undo;
    UndoLands(s);
    SizeTrue(s);
    SizeTrue(t);
  }

  lemma RedoArrives(s: State, t: State, event: E.Event)
    requires s.Tidy() && s.cache == null && RedoneTo(s, t) && RedoesAll(s.revs[s.cur + 1])
    requires event.Changed? && event.offset == Min(s.size, Low(s.revs[s.cur + 1])) && event.len == s.size - event.offset
    ensures t.Tidy() && t.Abs() == s.Abs().Redo() && E.Told(event, s.Abs().text, t.Abs().text)
    ensures (s.Honest() ==> t.Honest()) && (s.Firm() ==> t.Firm())
  {
    hide State.Tidy, State.Honest, State.Firm, CanSwapAll, Swapped, Growth, Low, E.Editor.Redo;
    RedoLands(s);
    SizeTrue(s);
    SizeTrue(t);
  }

  lemma NothingLeft(m: Links, cs: Revision)
    requires cs == []
    ensures CanSwapAll(m, cs) && Unswapped(m, cs) == m && Swapped(m, cs) == m && Growth(cs) == 0
  {
  }

  /** A committed state: nothing pending, no cached piece, one chain per revision. */
  lemma Committedly(s: State)
    requires s.Tidy()
    ensures var t := Commit(s);
      && t.Tidy() && t.pending == [] && t.cache == null && |t.revs| == |t.g.marks| && t.cur < |t.revs|
      && 0 <= t.size && (forall i :: 1 <= i < |t.revs| ==> t.revs[i] != [])
      && t.Abs().cur == t.cur && |t.Abs().snaps| == |t.revs|
      && t.Abs() == s.Abs().Commit() && t.Abs().text == s.Abs().text
      && (t.cur == 0 ==> t.Abs().Undo() == t.Abs()) && (t.cur + 1 == |t.revs| ==> t.Abs().Redo() == t.Abs())
      && s.Abs().Undo() == t.Abs().Undo() && s.Abs().Redo() == t.Abs().Redo()
  {
    hide State.Tidy;
    CommitTidy(s);
    CommitShows(s);
    Basics(Commit(s));
    CommittedRevs(Commit(s));
  }

  lemma CommittedRevs(s: State)
    requires s.Tidy()
    ensures forall i :: 1 <= i < |s.revs| ==> s.revs[i] != []
  {
  }

  /** After the commit undo turns to the revision with those changes, and redo to the one after. */
  lemma CommitTurns(s: State)
    requires s.Tidy()
    ensures var t := Commit(s);
      && UndoOf(s) == (if 0 < t.cur < |t.revs| then t.revs[t.cur] else [])
      && RedoOf(s) == (if t.cur + 1 < |t.revs| then t.revs[t.cur + 1] else [])
  {
    hide State.Tidy;
    Basics(s);
  }

  /** True lengths of runs with bytes are sure. */
  lemma HonestSure(s: State)
    requires s.Tidy() && s.Honest() && s.Firm()
    ensures s.Sure()
  {
    hide Trace.Sound, Spelled, State.CacheOk, TracesAll, TruthAll, RedoesAll, UndoesAll, FullAll;
    SolidDraft(s.g);
    PendingBooks(s);
    TruthRecords(s.pending, s.g.draft, s.g.text);
    forall i | 1 <= i < |s.revs| ensures RedoesAll(s.revs[i]) {
      RevisionBooks(s, i);
      TruthRecords(s.revs[i], s.g.edits[i], s.g.text);
    }
  }

  /** In a sure state undo and redo both follow. */
  lemma SureMoves(s: State)
    requires s.Tidy() && s.Sure()
    ensures UndoesAll(UndoOf(s)) && RedoesAll(RedoOf(s))
  {
    hide State.Tidy;
    Basics(s);
    PendingBooks(s);
    if s.pending == [] && 0 < s.cur {
      RevisionBooks(s, s.cur);
    }
  }

  /** What undo and redo know before they commit. */
  lemma BeforeMove(s: State)
    requires s.Tidy()
    ensures var t := Commit(s);
      && t.Tidy() && t.pending == [] && t.cache == null && |t.revs| == |t.g.marks| && t.cur < |t.revs|
      && 0 <= t.size && (forall i :: 1 <= i < |t.revs| ==> t.revs[i] != [])
      && t.Abs().cur == t.cur && |t.Abs().snaps| == |t.revs|
      && t.Abs() == s.Abs().Commit() && t.Abs().text == s.Abs().text
      && (t.cur == 0 ==> t.Abs().Undo() == t.Abs()) && (t.cur + 1 == |t.revs| ==> t.Abs().Redo() == t.Abs())
      && s.Abs().Undo() == t.Abs().Undo() && s.Abs().Redo() == t.Abs().Redo()
      && UndoOf(s) == (if 0 < t.cur then t.revs[t.cur] else [])
      && RedoOf(s) == (if t.cur + 1 < |t.revs| then t.revs[t.cur + 1] else [])
    ensures UndoesAll(UndoOf(s)) ==> NullSafe(UndoOf(s))
    ensures RedoesAll(RedoOf(s)) ==> NullSafe(RedoOf(s))
    ensures NullSafe([])
    ensures s.Honest() && s.Firm() ==>
      UndoesAll(UndoOf(s)) && RedoesAll(RedoOf(s)) && Commit(s).Honest() && Commit(s).Firm()
  {
    hide State.Tidy, State.Honest, State.Firm, Commit, State.Abs, UndoesAll, RedoesAll;
    Committedly(s);
    CommitTurns(s);
    CommitShows(s);
    MovesSafe(s);
    if s.Honest() && s.Firm() {
      HonestSure(s);
      SureMoves(s);
    }
  }

  lemma MovesSafe(s: State)
    requires s.Tidy()
    ensures UndoesAll(UndoOf(s)) ==> NullSafe(UndoOf(s))
    ensures RedoesAll(RedoOf(s)) ==> NullSafe(RedoOf(s))
  {
    hide State.Tidy, UndoesAll, RedoesAll;
    Basics(s);
    PendingBooks(s);
    if s.pending == [] && 0 < s.cur {
      RevisionBooks(s, s.cur);
    }
    if s.pending == [] && s.cur + 1 < |s.revs| {
      RevisionBooks(s, s.cur + 1);
    }
  }

  lemma Revisions(s: State)
    requires s.Tidy()
    ensures |s.revs| == |s.g.marks| && forall i :: 1 <= i < |s.revs| ==> s.revs[i] != []
  {
    Basics(s);
    CommittedRevs(s);
  }

  /** What goes wrong after a deletion that left the cached piece in use: when the last change
      left no piece and the cached piece grows or shrinks in place, a length is recorded for a
      run without pieces, and undo would follow a null pointer. */
  lemma StrayBreaksUndo(s: State, t: State, k: nat, x: seq<Byte>)
    requires s.Tidy() && Touched(s, t, k, x) && |x| != |s.g.text[s.cache]|
    requires var c := s.pending[|s.pending| - 1]; c.replacement.start == null && c.replacement.len == 0
    ensures !NullSafe(UndoOf(t)) && !UndoesAll(UndoOf(t))
  {
    var c := t.pending[|s.pending| - 1];
    assert c in t.pending && c.replacement.len != 0 && c.replacement.start == null;
  }

  // ------------------------------------------------------------------ when they land

  /** When all changes but the first are in order, undo lands on the recorded chain if and only if
      the first one is in order too. */
  lemma UndoLandsIff(s: State, t: State)
    requires s.Tidy() && s.cache == null && UndoneTo(s, t) && s.revs[s.cur] != [] && UndoesAll(s.revs[s.cur][1..])
    ensures Ring(t.g.links, t.head, t.g.chain) <==> Undoes(s.revs[s.cur][0])
    ensures t.Tidy() <==> Undoes(s.revs[s.cur][0])
  {
    hide State.Tidy, Past, Future, Trace.Sound, TracesAll, UndoesAll, Ring, Undoes, CanSwapAll, Unswapped, Growth,
         State.Abs, Low;
    UndoneRing(s, t);
    AllUndo(s.revs[s.cur]);
    if UndoesAll(s.revs[s.cur]) {
      UndoLands(s);
    }
    if t.Tidy() {
      Basics(t);
    }
  }

  lemma UndoneRing(s: State, t: State)
    requires s.Tidy() && UndoneTo(s, t) && s.revs[s.cur] != [] && UndoesAll(s.revs[s.cur][1..])
    ensures Ring(t.g.links, t.head, t.g.chain) <==> Undoes(s.revs[s.cur][0])
  {
    hide State.Tidy, Past, Future, Trace.Sound, TracesAll, UndoesAll, Ring, Undoes, CanSwapAll, Unswapped, Growth;
    RevisionBooks(s, s.cur);
    var cs, es := s.revs[s.cur], s.g.edits[s.cur];
    SoundPast(s);
    EditsOf(s, s.cur);
    AppliedSplits(s.g, s.cur);
    UnswappedRing(s.g.links, s.head, Flat(s.g.edits[..s.cur]), es, s.g.chain, cs);
  }

  /** The edits of the current revision are the last ones applied. */
  lemma AppliedSplits(g: Trace, cur: nat)
    requires g.Shaped(cur) && 0 < cur && g.draft == []
    ensures g.Applied(cur) == Flat(g.edits[..cur]) + g.edits[cur]
  {
    assert g.edits[..cur + 1] == g.edits[..cur] + [g.edits[cur]];
    FlatSnoc(g.edits[..cur], g.edits[cur]);
  }

  lemma AllUndo(cs: Revision)
    requires cs != []
    ensures UndoesAll(cs) <==> Undoes(cs[0]) && UndoesAll(cs[1..])
    ensures RedoesAll(cs) <==> RedoesAll(cs[..|cs| - 1]) && Redoes(cs[|cs| - 1])
  {
    hide Undoes, Redoes;
    var n := |cs| - 1;
    assert cs == [cs[0]] + cs[1..] && cs == cs[..n] + [cs[n]];
  }

  lemma EditsOf(s: State, i: nat)
    requires s.Tidy() && 1 <= i < |s.revs|
    ensures |s.g.edits| == |s.revs| == |s.g.marks| && s.g.edits[i] != []
    ensures s.g.marks[i - 1] == s.g.edits[i][0].From() && s.g.marks[i] == s.g.edits[i][|s.g.edits[i]| - 1].To()
  {
    Basics(s);
    RevisionBooks(s, i);
    hide Kept, State.CacheOk, Spelled;
    assert s.g.Threaded(s.cur);
    LeadsStop(s.g.marks[i - 1], s.g.edits[i], s.g.marks[i]);
  }

  /** When all changes but the last are in order, redo lands if and only if the last one is too. */
  lemma RedoLandsIff(s: State, t: State)
    requires s.Tidy() && s.cache == null && RedoneTo(s, t) && s.revs[s.cur + 1] != []
    requires RedoesAll(s.revs[s.cur + 1][..|s.revs[s.cur + 1]| - 1])
    ensures var c := s.revs[s.cur + 1][|s.revs[s.cur + 1]| - 1];
      (Ring(t.g.links, t.head, t.g.chain) <==> Redoes(c)) && (t.Tidy() <==> Redoes(c))
  {
    hide State.Tidy, Past, Future, Trace.Sound, TracesAll, RedoesAll, Ring, Redoes, CanSwapAll, Swapped, Growth,
         State.Abs, Low;
    RedoneRing(s, t);
    AllUndo(s.revs[s.cur + 1]);
    if RedoesAll(s.revs[s.cur + 1]) {
      RedoLands(s);
    }
    if t.Tidy() {
      Basics(t);
    }
  }

  lemma RedoneRing(s: State, t: State)
    requires s.Tidy() && RedoneTo(s, t) && s.revs[s.cur + 1] != []
    requires RedoesAll(s.revs[s.cur + 1][..|s.revs[s.cur + 1]| - 1])
    ensures var c := s.revs[s.cur + 1][|s.revs[s.cur + 1]| - 1]; Ring(t.g.links, t.head, t.g.chain) <==> Redoes(c)
  {
    hide State.Tidy, Past, Future, Trace.Sound, TracesAll, RedoesAll, UndoesAll, NullSafe, Ring, Redoes, CanSwapAll,
         Swapped, Growth,
         Trace.Undone, Trace.Applied, Flat;
    RevisionBooks(s, s.cur + 1);
    var cs, es := s.revs[s.cur + 1], s.g.edits[s.cur + 1];
    SoundPast(s);
    ReplaySplits(s.g, s.head, s.cur);
    EditsOf(s, s.cur + 1);
    SwappedRing(s.g.links, s.head, es, Flat(s.g.edits[s.cur + 2..]), s.g.chain, cs);
  }
}
