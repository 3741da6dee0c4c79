/** The positions in the history: which offsets the changes of a revision carry over whole runs, and
    so where undo and redo move the cursor and from where they publish a change. */
module Places {
  import opened Bytes
  import opened History
  import opened Ledger
  import opened Booking
  import opened State
  import opened Effect
  import opened Outcome
  import opened Moving
  import opened File
  import opened Runs
  import opened Steady
  import E = Editor

  /** The offsets of the recorded edits: those of each revision, and those since the last commit.
      An edit in place is charged to the last recorded one and has no offset of its own. */
  datatype Log = Log(done: seq<seq<nat>>, cur: nat, open: seq<nat>)
  {
    function Edited(at: nat, inPlace: bool): (l: Log)
      requires cur < |done|
      ensures l.cur < |l.done|
    {
      Log(done[..cur + 1], cur, if inPlace then open else open + [at])
    }

    function Commit(): Log {
      if open == [] then this else Log(done + [open], |done|, [])
    }

    function Undo(): Log {
      var l := Commit();
      if l.cur > 0 then l.(cur := l.cur - 1) else l
    }

    function Redo(): Log {
      var l := Commit();
      if l.cur + 1 < |l.done| then l.(cur := l.cur + 1) else l
    }
  }

  /** What an operation adds to the log of an editor. */
  ghost function Noting(l: Log, e: E.Editor, op: E.Op, h: How): (r: Log)
    requires l.cur < |l.done|
    ensures r.cur < |r.done|
  {
    match op
    case Insertion(at, data) => if data == [] || at > |e.text| then l else l.Edited(at, h.grown)
    case Deletion(at, len) => if len == 0 || at >= |e.text| then l else l.Edited(at, h.cut)
    case Replacement(at, data) =>
      if data == [] || at >= |e.text| then l else l.Edited(at, h.cut).Edited(at, h.grown)
    case Committing => l.Commit()
    case Undoing => l.Undo()
    case Redoing => l.Redo()
  }

  /** The log after a run. */
  ghost function Logged(l: Log, e: E.Editor, ops: seq<E.Op>, how: seq<How>): (r: Log)
    requires l.cur < |l.done| && e.Coherent() && |how| <= |ops|
    ensures r.cur < |r.done|
    decreases |how|
  {
    if how == [] then l else Logged(Noting(l, e, ops[0], how[0]), E.Step(e, ops[0]), ops[1..], how[1..])
  }

  /** What undo and redo tell of a revision with these offsets, in a text of `size` bytes: the first of
      them, or the last; and that all from the least of them on has changed. */
  ghost predicate Tells(offsets: seq<nat>, back: bool, size: nat, pos: nat, event: E.Event) {
    && offsets != [] && pos == (if back then offsets[0] else offsets[|offsets| - 1])
    && event.Changed? && event.offset + event.len == size && event.offset <= size
    && (forall i :: 0 <= i < |offsets| ==> event.offset <= offsets[i])
    && (event.offset == size || event.offset in offsets)
  }

  /** What an operation that moves through the history tells. */
  ghost predicate Moves(l: Log, op: E.Op, size: nat, h: How) {
    var c := l.Commit();
    && (op.Undoing? && c.cur < |c.done| ==>
          if c.cur > 0 then Tells(c.done[c.cur], true, size, h.pos, h.event) else h.event == E.Silent)
    && (op.Redoing? ==>
          if c.cur + 1 < |c.done| then Tells(c.done[c.cur + 1], false, size, h.pos, h.event) else h.event == E.Silent)
  }

  // ------------------------------------------------------------------ the log of a file

  ghost function Positions(cs: Revision): seq<nat> {
    seq(|cs|, i requires 0 <= i < |cs| => cs[i].pos)
  }

  ghost function Offsets(s: State): Log {
    Log(seq(|s.revs|, i requires 0 <= i < |s.revs| => Positions(s.revs[i])), s.cur, Positions(s.pending))
  }

  /** An edit adds its offset, unless it is in place. */
  lemma EditNotes(s: State, t: State, at: nat, hit: bool, grow: int)
    requires Booked(s, t, hit, grow) && (hit || Noted(t, at)) && t.cur == s.cur
    ensures s.cur < |s.revs| && Offsets(t) == Offsets(s).Edited(at, hit)
  {
    hide State.Honest, State.Firm, State.Stray;
    if hit {
      ChargedKeeps(s.pending, grow);
      assert Positions(t.pending) == Positions(s.pending);
    } else {
      assert t.pending == t.pending[..|s.pending|] + [t.pending[|s.pending|]];
      assert Positions(t.pending) == Positions(s.pending) + [at];
    }
    assert Offsets(t).done == Offsets(s).done[..s.cur + 1];
  }

  lemma InsertNotes(s: State, t: State, at: nat, data: seq<Byte>, h: How)
    requires DoesInsert(s, t, at, data, h)
    ensures s.cur < |s.revs| && Offsets(t) == Offsets(s).Edited(at, h.grown)
  {
    hide State.Tidy, Booked, Noted, E.Told, Offsets, Solid, State.Firm, State.Stray, Recut, Placed, Roomed, Lands,
         Growing, Fits, E.Editor.Insert, Log.Edited;
    InsertParts(s, t, at, data, h.grown);
    EditNotes(s, t, at, h.grown, |data|);
  }

  lemma DeleteNotes(s: State, t: State, at: nat, len: nat, h: How, mended: bool)
    requires DoesDelete(s, t, at, len, h, mended)
    ensures s.cur < |s.revs| && Offsets(t) == Offsets(s).Edited(at, h.cut)
  {
    hide State.Tidy, Booked, Noted, E.Told, Offsets, Solid, State.Firm, State.Stray, Recut, Removed, Leaves, Lands,
         Shrinking, LastBytes, E.Editor.Delete, Log.Edited;
    DeleteParts(s, t, at, len, h.cut, mended);
    EditNotes(s, t, at, h.cut, -(len as int));
  }

  /** A commit moves the offsets to a revision. */
  lemma CommitNotes(s: State)
    ensures Offsets(Commit(s)) == Offsets(s).Commit() && Commit(s).size == s.size
  {
    if s.pending != [] {
      assert Offsets(Commit(s)).done == Offsets(s).done + [Positions(s.pending)];
    }
  }

  /** Undo and redo move between the revisions and leave all offsets. */
  lemma MoveNotes(s: State, t: State)
    requires UndoneTo(s, t) || RedoneTo(s, t)
    ensures UndoneTo(s, t) ==> s.cur > 0 && Offsets(t) == Offsets(s).(cur := s.cur - 1)
    ensures RedoneTo(s, t) ==> Offsets(t) == Offsets(s).(cur := s.cur + 1)
  {
    hide Swapped, Unswapped, Growth, CanSwapAll;
  }

  /** An operation adds to the log of the file what it adds to the log of the editor. */
  lemma StepNotes(s: State, op: E.Op, t: State, h: How, mended: bool)
    requires Passed(s, op, t, h, mended)
    ensures s.cur < |s.revs| && Offsets(t) == Noting(Offsets(s), s.Abs(), op, h)
  {
    hide State.Tidy, Clear, Careful, DoesInsert, DoesDelete, Roomy, UndoneTo, RedoneTo, Commit, State.Contents, Offsets,
         UndoReport, RedoReport, Log.Edited, E.Step, E.Editor.Coherent;
    SizeTrue(s);
    Revised(s);
    Committedly(s);
    CommitNotes(s);
    OffsetsParts(s);
    OffsetsParts(Commit(s));
    match op {
      case Insertion(at, data) =>
        if data != [] && at <= |s.Contents()| {
          InsertNotes(s, t, at, data, h);
        }
      case Deletion(at, len) =>
        if len != 0 && at < |s.Contents()| {
          DeleteNotes(s, t, at, len, h, mended);
        }
      case Replacement(at, data) =>
        if data != [] && at < |s.Contents()| {
          DeleteNotes(s, h.mid, at, |data|, h, mended);
          InsertNotes(h.mid, t, at, data, h);
        }
      case Committing =>
      case Undoing =>
        if Commit(s).cur > 0 {
          MoveNotes(Commit(s), t);
        }
      case Redoing =>
        if Commit(s).cur + 1 < |Commit(s).revs| {
          MoveNotes(Commit(s), t);
        }
    }
  }

  lemma Revised(s: State)
    requires s.Tidy()
    ensures s.cur < |s.revs|
  {
    Basics(s);
    hide State.Tidy;
  }

  lemma OffsetsParts(s: State)
    ensures Offsets(s).cur == s.cur && |Offsets(s).done| == |s.revs|
    ensures forall i :: 0 <= i < |s.revs| ==> Offsets(s).done[i] == Positions(s.revs[i])
  {
  }

  /** The least position is that of one of the changes. */
  lemma LeastTells(rev: Revision, size: nat, back: bool, pos: nat, event: E.Event)
    requires if back then UndoReport(rev, size, pos, event) else RedoReport(rev, size, pos, event)
    ensures Tells(Positions(rev), back, size, pos, event)
  {
    hide Low;
    LowLeast(rev);
    var i :| 0 <= i < |rev| && Low(rev) == rev[i].pos;
    assert Positions(rev)[i] == Low(rev);
  }

  lemma StepTells(s: State, op: E.Op, t: State, h: How, mended: bool)
    requires Passed(s, op, t, h, mended)
    ensures Moves(Offsets(s), op, |s.Abs().text|, h)
  {
    hide State.Tidy, Clear, Careful, DoesInsert, DoesDelete, Roomy, UndoneTo, RedoneTo, Commit, State.Contents, Offsets,
         UndoReport, RedoReport, Log.Commit, E.Step, E.Editor.Coherent, Tells, State.Abs, Positions;
    SizeTrue(s);
    Committedly(s);
    CommitNotes(s);
    var c := Commit(s);
    OffsetsParts(c);
    if op.Undoing? && c.cur > 0 {
      LeastTells(c.revs[c.cur], s.size, true, h.pos, h.event);
    } else if op.Redoing? && c.cur + 1 < |c.revs| {
      LeastTells(c.revs[c.cur + 1], s.size, false, h.pos, h.event);
    }
  }

  // ------------------------------------------------------------------ whole runs

  /** After each operation of a run, the file has the offsets of the log, and the text of the editor. */
  lemma {:induction false} RunNotes(trail: seq<State>, ops: seq<E.Op>, how: seq<How>, mended: bool, n: nat)
    requires Passes(trail, ops, how, mended) && n <= |how|
    requires trail[0].cur < |trail[0].revs| && trail[0].Abs().Coherent()
    ensures Offsets(trail[n]) == Logged(Offsets(trail[0]), trail[0].Abs(), ops, how[..n])
    ensures trail[n].Abs() == E.Run(trail[0].Abs(), ops[..n])
    decreases n
  {
    hide Passed, Offsets, State.Abs, E.Step, E.Editor.Coherent, Noting, Log.Commit, Log.Undo, Log.Redo, Log.Edited;
    OffsetsParts(trail[0]);
    if n > 0 {
      assert Passed(trail[0], ops[0], trail[1], how[0], mended);
      PassesOne(trail[0], ops[0], trail[1], how[0], mended);
      PassesRest(trail, ops, how, mended);
      OffsetsParts(trail[1]);
      RunNotes(trail[1..], ops[1..], how[1..], mended, n - 1);
      assert how[..n][1..] == how[1..][..n - 1] && ops[..n][1..] == ops[1..][..n - 1];
    }
  }

  lemma PassesOne(s: State, op: E.Op, t: State, h: How, mended: bool)
    requires Passed(s, op, t, h, mended)
    ensures s.cur < |s.revs| && Offsets(t) == Noting(Offsets(s), s.Abs(), op, h) && t.cur < |t.revs|
    ensures s.Abs().Coherent() && t.Abs() == E.Step(s.Abs(), op)
  {
    StepNotes(s, op, t, h, mended);
    hide Does, Noting, Clear, Careful, Roomy, State.Abs, E.Step;
    OffsetsParts(t);
  }

  /** In every run, undo tells the offset of the first recorded edit of the revision it takes back and
      redo that of the last one it applies again; and what they publish starts at the least offset of
      the revision, or behind the last byte. */
  lemma RunTells(trail: seq<State>, ops: seq<E.Op>, how: seq<How>, mended: bool, n: nat)
    requires Passes(trail, ops, how, mended) && n < |how|
    requires trail[0].cur < |trail[0].revs| && trail[0].Abs().Coherent()
    ensures var l, e := Logged(Offsets(trail[0]), trail[0].Abs(), ops, how[..n]), E.Run(trail[0].Abs(), ops[..n]);
      Moves(l, ops[n], |e.text|, how[n])
  {
    hide Does, Offsets, Moves, State.Abs, Logged, E.Run, State.Tidy, Clear, Careful, Roomy, E.Step;
    RunNotes(trail, ops, how, mended, n);
    assert Passed(trail[n], ops[n], trail[n + 1], how[n], mended);
    StepTells(trail[n], ops[n], trail[n + 1], how[n], mended);
  }

  // ------------------------------------------------------------------ typing

  /** What is typed into bytes just inserted, or at either end of them, is not recorded on its own as
      long as the last block has room: undo takes all of it back at once. */
  lemma TypesOn(s: State, t: State, at: nat, data: seq<Byte>, h: How, u: State, on: nat, more: seq<Byte>, g: How)
    requires s.Tidy() && Filled(s) && DoesInsert(s, t, at, data, h) && data != []
    requires at <= on <= at + |data| && DoesInsert(t, u, on, more, g) && Fits(t, |more|)
    ensures g.grown && Offsets(u).open == Offsets(t).open
  {
    hide State.Tidy, Filled, Holds, InsertPaid, Fits, Offsets, State.Contents;
    InsertHolds(s, t, at, data, h);
    var j := InsideGrows(t, at, at + |data|, on);
    InsertNotes(t, u, on, more, g);
    LandsOnce(t, on, j, g.k);
  }

  // ------------------------------------------------------------------ one insertion

  /** A revision of one change at `at`, which can be taken back and applied. */
  ghost predicate Alone(rev: Revision, at: nat) {
    |rev| == 1 && rev[0].pos == at && Low(rev) == at && UndoesAll(rev) && RedoesAll(rev)
  }

  lemma OneInsertion(s: State, t: State, at: nat, data: seq<Byte>)
    requires s.pending == [] && InsertPaid(s, t, at, data, false)
    ensures Alone(t.pending, at) && t.pending != []
  {
    hide State.Tidy, E.Told, Placed, Roomed, State.Honest, State.Firm, State.Stray, Solid, Undoes, Redoes;
    InsertParts(s, t, at, data, false);
  }

  lemma OneUndone(t: State, u: State)
    requires t.pending != [] && UndoneTo(Commit(t), u)
    ensures UndoOf(t) == t.pending && Commit(t).size == t.size && Commit(t).revs[Commit(t).cur] == t.pending
    ensures RedoOf(u) == t.pending && u.pending == []
  {
    hide CanSwapAll, Unswapped, Growth;
  }

  lemma OneToRedo(u: State)
    requires u.pending == [] && RedoOf(u) != []
    ensures var c := Commit(u); c.size == u.size && c.cur + 1 < |c.revs| && c.revs[c.cur + 1] == RedoOf(u)
  {
  }

  lemma AloneTells(rev: Revision, at: nat, size: int, pos: nat, event: E.Event, back: bool)
    requires Alone(rev, at) && at <= size
    requires if back then UndoReport(rev, size, pos, event) else RedoReport(rev, size, pos, event)
    ensures pos == at && event == E.Changed(at, size - at)
  {
  }

  /** An insertion right after a commit. */
  method CommitAndInsert(f: File, at: nat, data: seq<Byte>)
    requires f.Valid() && data != [] && at <= |f.Abs().text|
    modifies f.Footprint()
    ensures f.Valid() && fresh(f.Footprint() - old(f.Footprint()))
    ensures Alone(f.pending, at) && f.pending != []
    ensures old(f.Abs()).Commit().Coherent() && f.Abs() == old(f.Abs()).Commit().Insert(at, data)
  {
    hide State.Tidy, File.Shown, State.Abs, State.Honest, State.Firm, State.Stray, Solid, E.Told, Commit, InsertPaid,
         Lands, Fits, OneMore, Noted, Alone;
    Coherence(f.View());
    Committedly(f.View());
    var ok := f.CommitRevision();
    ghost var s := f.View();
    var event;
    ghost var hit, k;
    ok, event, hit, k := f.Insert(at, data);
    OneInsertion(s, f.View(), at, data);
  }

  /** The undo of a single pending change. */
  method UndoOne(f: File, ghost at: nat) returns (pos: nat, event: E.Event)
    requires f.Valid() && Alone(f.pending, at) && f.pending != [] && at <= f.size
    modifies f.Footprint()
    ensures f.Valid() && f.Footprint() == old(f.Footprint()) && f.Abs() == old(f.Abs()).Undo()
    ensures pos == at && event == E.Changed(at, old(f.size) - at)
    ensures f.pending == [] && RedoOf(f.View()) == old(f.pending)
  {
    hide State.Tidy, File.Shown, State.Abs, State.Honest, State.Firm, E.Told, Commit, UndoneTo, NullSafe, Low,
         UndoReport, UndoesAll, RedoesAll, E.Editor.Undo;
    ghost var t := f.View();
    CommitSilent(t);
    Coherence(t);
    UndoFirst(t);
    var ok, wild;
    ok, pos, event, wild := f.Undo();
    OneUndone(t, f.View());
    AloneTells(t.pending, at, t.size, pos, event, true);
  }

  lemma UndoFirst(t: State)
    requires t.pending != [] && t.Abs().Coherent()
    ensures UndoOf(t) == t.pending && t.Abs().Commit().cur > 0
  {
  }

  /** The redo of a single change. */
  method RedoOne(f: File, ghost at: nat) returns (pos: nat, event: E.Event)
    requires f.Valid() && f.pending == [] && Alone(RedoOf(f.View()), at) && at <= f.size
    modifies f.Footprint()
    ensures f.Valid() && f.Abs() == old(f.Abs()).Redo()
    ensures pos == at && event == E.Changed(at, old(f.size) - at)
  {
    hide State.Tidy, File.Shown, State.Abs, State.Honest, State.Firm, E.Told, Commit, RedoneTo, NullSafe, Low,
         RedoReport, UndoesAll, RedoesAll, RedoOf, E.Editor.Redo;
    ghost var u := f.View();
    CommitSilent(u);
    OneToRedo(u);
    var ok, wild;
    ok, pos, event, wild := f.Redo();
    AloneTells(RedoOf(u), at, u.size, pos, event, false);
  }

  lemma Sized(f: File)
    requires f.Valid()
    ensures f.size == |f.Abs().text| && f.Abs().Coherent()
  {
    hide State.Tidy, File.Shown;
    SizeTrue(f.View());
    Coherence(f.View());
  }

  lemma ThereAndBack(e: E.Editor, at: nat, data: seq<Byte>)
    requires e.Coherent() && data != [] && at <= |e.text|
    ensures e.Commit().Coherent()
    ensures var r := e.Commit().Insert(at, data);
      && r.text == Inserted(e.text, at, data) && |r.text| == |e.text| + |data|
      && r.Undo().text == e.text && r.Undo().Redo().text == r.text
  {
  }

  /** An insertion right after a commit, its undo and its redo: both move to where the bytes went, and
      all from there on has changed. */
  method InsertUndoRedo(f: File, at: nat, data: seq<Byte>)
    returns (back: nat, first: E.Event, forth: nat, second: E.Event)
    requires f.Valid() && data != [] && at <= |f.Abs().text|
    modifies f.Footprint()
    ensures f.Valid() && f.Abs().text == Inserted(old(f.Abs()).text, at, data)
    ensures back == at && first == E.Changed(at, |old(f.Abs()).text| + |data| - at)
    ensures forth == at && second == E.Changed(at, |old(f.Abs()).text| - at)
  {
    hide State.Tidy, File.Shown, State.Abs, Alone, RedoOf, E.Told, File.Valid, File.View, E.Editor.Coherent,
         E.Editor.Insert, E.Editor.Commit, E.Editor.Undo, E.Editor.Redo, Inserted, File.Footprint;
    Sized(f);
    ThereAndBack(f.Abs(), at, data);
    CommitAndInsert(f, at, data);
    Sized(f);
    back, first := UndoOne(f, at);
    Sized(f);
    forth, second := RedoOne(f, at);
  }
}
