/** Short sessions in which editing the cached piece in place takes undo off its tracks. */
module Hazards {
  import opened Bytes
  import opened Links
  import opened Chain
  import opened Heap
  import opened History
  import opened Trace
  import opened Ledger
  import opened State
  import opened Recording
  import opened Cases
  import opened Effect
  import opened Outcome
  import opened Booking
  import opened Moving
  import opened File
  import E = Editor

  // ------------------------------------------------------------------ what the calls make of the chain

  /** Bytes inserted in front of everything are one more piece in front. */
  lemma FrontPlaced(s: State, t: State, data: seq<Byte>)
    requires s.Tidy() && Filled(s) && Placed(s, t, 0, data) && data != []
    ensures t.g.chain == [t.cache] + s.g.chain && t.cache in t.g.text && t.g.text[t.cache] == data
    ensures Filled(t) && LastEdit(t).gone == [] && LastEdit(t).came == [t.cache] && t.cache !in s.g.text
  {
    hide State.Tidy, Offset, Text;
    Basics(s);
    var e := LastEdit(t);
    PlacedFilled(s, t, 0, data);
    NothingBefore(s.g.text, s.g.chain, |e.before|);
  }

  /** Where all pieces have bytes, only the first one starts at 0. */
  lemma NothingBefore(t: Texts, c: seq<Piece>, k: nat)
    requires Known(t, c) && (forall p :: p in c ==> t[p] != []) && k <= |c| && Offset(t, c, k) == 0
    ensures k == 0
  {
    if k > 0 {
      OffsetNext(t, c, k - 1);
    }
  }

  lemma NothingBehind(t: Texts, c: seq<Piece>, k: nat)
    requires Known(t, c) && (forall p :: p in c ==> t[p] != []) && k <= |c| && Offset(t, c, k) == |Text(t, c)|
    ensures k == |c|
  {
    if k < |c| {
      OffsetNext(t, c, k);
    }
  }

  /** A range behind the first piece does not lie in it. */
  lemma BehindFirst(s: State, at: nat, k: nat)
    requires Lands(s, at, k) && s.g.chain[0] in s.g.text && |s.g.text[s.g.chain[0]]| <= at < |Text(s.g.text, s.g.chain)|
    requires Distinct(s.g.chain)
    ensures k > 0 && s.g.chain[k] != s.g.chain[0]
  {
    OffsetNext(s.g.text, s.g.chain, 0);
    OffsetEnd(s.g.text, s.g.chain);
  }

  /** Everything behind the first piece is deleted: that piece is left, and no other came. */
  lemma RestRemoved(s: State, t: State, at: nat, len: nat)
    requires s.Tidy() && Filled(s) && s.g.chain != [] && Removed(s, t, at, len)
    requires s.g.chain[0] in s.g.text && at == |s.g.text[s.g.chain[0]]| && at + len == |s.Contents()|
    ensures t.g.chain == [s.g.chain[0]] && LastEdit(t).came == []
  {
    hide State.Tidy, Text, Offset, Grows, Members;
    Basics(s);
    RestCut(s.g.text, s.g.chain, t.g.text, LastEdit(t), at, len);
  }

  lemma RestCut(t: Texts, c: seq<Piece>, u: Texts, e: Edit, at: nat, len: nat)
    requires Known(t, c) && c != [] && (forall p :: p in c ==> t[p] != []) && e.From() == c && e.gone != []
    requires Known(u, e.came) && Narrows(t, c, u, e, at, len) && at == |t[c[0]]| && at + len == |Text(t, c)|
    ensures e.To() == [c[0]] && e.came == []
  {
    hide Text, Offset;
    var b, n := |e.before|, |e.before| + |e.gone|;
    assert c[b] == e.gone[0] && e.before == c[..b];
    SecondStarts(t, c, b, at);
    OffsetEnd(t, c);
    OffsetMonotone(t, c, n, |c|);
    NothingBehind(t, c, n);
  }

  /** The piece with the byte behind the first piece is the second one. */
  lemma SecondStarts(t: Texts, c: seq<Piece>, b: nat, at: nat)
    requires Known(t, c) && b < |c| && (forall p :: p in c ==> t[p] != []) && at == |t[c[0]]|
    requires Offset(t, c, b) <= at < Offset(t, c, b) + |t[c[b]]|
    ensures b == 1 && Offset(t, c, 1) == at
  {
    hide Text, Offset;
    OffsetEnd(t, c);
    OffsetNext(t, c, 0);
    if b > 1 {
      OffsetNext(t, c, 1);
      OffsetMonotone(t, c, 2, b);
    }
  }

  // ------------------------------------------------------------------ a length charged to the wrong change

  /** Open a file with two bytes, insert one in front of them, delete the two, insert another in
      front: the deletion is the last change but the length goes to its empty replacement.  The
      text is right; the lengths are not, and undo follows a null pointer. */
  method StraySession() returns (f: File, wild: bool, ghost text: seq<Byte>)
    ensures wild && text == [4, 3]
  {
    hide State.Tidy, File.Shown, State.Abs, State.Honest, State.Firm, State.Stray, E.Told, InsertPaid, DeletePaid,
         Growing, Shrinking, Lands, Fits, Filled, InFront, Behind, OneMore, Charged, Leaves, Solid, LastBytes, NullSafe,
         UndoOf, UndoesAll, Commit, UndoneTo, E.Editor.Insert, E.Editor.Delete, E.Editor.Undo, E.Editor.Commit,
         State.Contents;
    f := new File.Open([1, 2], false);
    ghost var s0 := f.View();
    ghost var hit, k;
    var ok, event, pos;
    ok, event, hit, k := f.Insert(0, [3]);
    ghost var s1 := f.View();
    FirstInserted(s0, s1, hit, k);
    ok, event, hit, k := f.Delete(1, 2);
    ghost var s2 := f.View();
    OthersDeleted(s1, s2, hit, k);
    ok, event, hit, k := f.Insert(0, [4]);
    ghost var s3 := f.View();
    WronglyCharged(s2, s3, hit, k);
    text := f.Abs().text;
    ok, pos, event, wild := f.Undo();
  }

  /** Byte 3 in front: a piece of its own, cached, in a new block. */
  ghost predicate InFront(s: State) {
    && s.Tidy() && Filled(s) && s.cache != null && s.g.chain != [] && s.g.chain[0] == s.cache
    && s.cache in s.g.text && s.g.text[s.cache] == [3] && s.Contents() == [3, 1, 2] && Fits(s, 1)
  }

  lemma FirstInserted(s: State, t: State, hit: bool, k: nat)
    requires s.Tidy() && Filled(s) && s.cache == null && !Fits(s, 1) && s.Abs().text == [1, 2]
    requires InsertPaid(s, t, 0, [3], hit) && hit == (Growing(s, 0, k) && Fits(s, 1))
    ensures InFront(t) && |t.Abs().text| == 3
  {
    hide State.Tidy, E.Told, Booked, Placed, Recut, Text, Offset;
    SizeTrue(s);
    FrontPlaced(s, t, [3]);
    SizeTrue(t);
  }

  /** The others are deleted: only that piece is left, and the last change brought none. */
  ghost predicate Behind(s: State) {
    && s.Tidy() && s.cache != null && s.g.chain == [s.cache] && s.cache in s.g.text && s.g.text[s.cache] == [3]
    && Fits(s, 1) && s.pending != [] && s.pending[|s.pending| - 1].replacement == Span(null, null, 0)
    && s.Contents() == [3]
  }

  lemma OthersDeleted(s: State, t: State, hit: bool, k: nat)
    requires InFront(s) && DeletePaid(s, t, 1, 2, hit, false) && Lands(s, 1, k) && hit == Shrinking(s, 1, 2, k)
    ensures Behind(t) && t.g.chain != []
  {
    hide State.Tidy, E.Told, Booked, Removed, Recut, Text, Offset;
    Basics(s);
    BehindFirst(s, 1, k);
    RemovedKeeps(s, t, 1, 2);
    RestRemoved(s, t, 1, 2);
    SizeTrue(s);
    SizeTrue(t);
    LastNull(s, t, 1, 2);
  }

  lemma RemovedKeeps(s: State, t: State, at: nat, len: nat)
    requires Removed(s, t, at, len)
    ensures t.blocks == s.blocks && t.store == s.store && t.g.draft != []
    ensures forall p :: p in s.g.text ==> p in t.g.text && t.g.text[p] == s.g.text[p]
  {
    hide Narrows;
  }
  /** The last change brought no piece, and says so. */
  lemma LastNull(s: State, t: State, at: nat, len: nat)
    requires DeletePaid(s, t, at, len, false, false) && LastEdit(t).came == []
    ensures t.pending != [] && t.pending[|t.pending| - 1].replacement == Span(null, null, 0)
  {
    hide State.Tidy, E.Told, Narrows, State.Abs;
    LastTraces(t);
  }

  lemma LastTraces(t: State)
    requires t.Tidy() && t.g.draft != []
    ensures |t.pending| == |t.g.draft| && Traces(t.pending[|t.pending| - 1], LastEdit(t))
  {
    hide Trace.Sound, State.CacheOk, Traces;
    Basics(t);
  }

  /** Byte 4 goes into the cached piece, and its length to the deletion. */
  lemma WronglyCharged(s: State, t: State, hit: bool, k: nat)
    requires Behind(s) && InsertPaid(s, t, 0, [4], hit) && Lands(s, 0, k) && hit == (Growing(s, 0, k) && Fits(s, 1))
    ensures !NullSafe(UndoOf(t)) && t.Abs().text == [4, 3]
  {
    hide State.Tidy, E.Told, Recut, Placed, Roomed, Text, Offset, Lands;
    LandsFirst(s, 0, k);
    SizeTrue(s);
    SizeTrue(t);
    var c := t.pending[|t.pending| - 1];
    assert c in t.pending && c.replacement.len == 1 && c.replacement.start == null;
  }

  lemma LandsFirst(s: State, at: nat, k: nat)
    requires Lands(s, at, k) && |s.g.chain| == 1
    ensures k == 0
  {
  }

  // ------------------------------------------------------------------ a change that is left empty

  /** Nothing is cached or pending, at the last revision, `n`, and the bytes are `x`. */
  ghost predicate Rests(s: State, n: nat, x: seq<Byte>) {
    && s.Tidy() && s.cache == null && s.pending == [] && s.cur == n && |s.revs| == n + 1 && s.Contents() == x
    && |s.g.marks| == n + 1 && s.g.chain == s.g.marks[n]
  }

  lemma FirstRests(s: State)
    requires s.Tidy() && s.cache == null && s.Abs() == E.Editor([1, 2], [[1, 2]], 0, false)
    ensures Rests(s, 0, [1, 2])
  {
    hide State.Tidy;
    Basics(s);
    assert |s.Snaps()| == |s.g.marks|;
  }

  /** What a deletion without a cached piece leaves, and the commit after it. */
  lemma DeletedRests(s: State, t: State, n: nat, x: seq<Byte>)
    requires Rests(s, n, x) && x != [] && DeletePaid(s, t, 0, 1, false, false)
    ensures Rests(Commit(t), n + 1, x[1..]) && Commit(t).g.marks[..n + 1] == s.g.marks
    ensures t.pending != [] && UndoesAll(t.pending) && Commit(t).revs == s.revs + [t.pending]
    ensures (Filled(s) ==> Filled(Commit(t))) && (s.Honest() && s.Firm() ==> Commit(t).Honest() && Commit(t).Firm())
  {
    hide State.Tidy, E.Told, Removed, State.Honest, State.Firm, Undoes, Redoes, Filled, State.Contents;
    SizeTrue(s);
    SizeTrue(t);
    if Filled(s) {
      RemovedFilled(s, t, 0, 1);
      FilledCommits(t);
    }
    assert s.revs[..n + 1] == s.revs && s.g.marks[..n + 1] == s.g.marks;
    assert Deleted(x, 0, 1) == x[1..];
    CommitRests(t, n, x[1..]);
    OneUndoes(s.pending, t.pending);
  }

  lemma OneUndoes(ps: Revision, qs: Revision)
    requires ps == [] && OneMore(ps, qs)
    ensures |qs| == 1 && UndoesAll(qs)
  {
  }

  lemma FilledCommits(s: State)
    requires Filled(s)
    ensures Filled(Commit(s))
  {
  }

  lemma CommitRests(s: State, n: nat, x: seq<Byte>)
    requires s.Tidy() && s.pending != [] && s.cur == n && |s.revs| == n + 1 && s.Contents() == x
    ensures Rests(Commit(s), n + 1, x) && Commit(s).revs == s.revs + [s.pending]
    ensures |s.g.marks| == n + 1 && Commit(s).g.marks == s.g.marks + [s.g.chain]
    ensures s.Honest() && s.Firm() ==> Commit(s).Honest() && Commit(s).Firm()
  {
    Basics(s);
    CommitTidy(s);
    CommitShows(s);
    hide State.Tidy, State.Honest, State.Firm;
  }

  /** A byte of its own piece `x` in front: the only pending change brought it. */
  ghost predicate Brought(s: State, x: Piece, bytes: seq<Byte>) {
    && s.Tidy() && s.cache == x && x in s.g.text && s.g.text[x] == bytes
    && |s.g.marks| == 2 && s.cur == 1 && |s.revs| == 2 && s.g.chain == [x] + s.g.marks[1] && x !in s.g.marks[1]
    && s.Contents() == bytes + [2]
    && |s.pending| == 1 && s.pending[0].original == Span(null, null, 0)
    && s.pending[0].replacement == Span(x, x, |bytes|)
  }

  lemma OneInserted(s: State, t: State)
    requires Rests(s, 1, [2]) && Filled(s) && s.Honest() && s.Firm() && InsertPaid(s, t, 0, [3], false)
    ensures t.cache != null && Brought(t, t.cache, [3])
  {
    hide State.Tidy, E.Told, Placed, State.Honest, State.Firm, Filled, State.Contents, Roomed;
    FrontPlaced(s, t, [3]);
    SizeTrue(s);
    SizeTrue(t);
    LastTraces(t);
    LastLength(t);
    Basics(s);
    assert s.g.marks[..2] == s.g.marks;
  }

  /** With true lengths the last recorded one is that of the bytes brought. */
  lemma LastLength(t: State)
    requires t.Tidy() && t.Honest() && t.g.draft != []
    ensures |t.pending| == |t.g.draft| && EditKnown(t.g.text, LastEdit(t))
    ensures t.pending[|t.pending| - 1].replacement.len == |Text(t.g.text, LastEdit(t).came)|
    ensures LastEdit(t).came != [] && LastEdit(t).came[1..] == [] ==>
      t.pending[|t.pending| - 1].replacement.len == |t.g.text[LastEdit(t).came[0]]|
  {
    hide State.Tidy;
    Basics(t);
    assert Truth(t.pending[|t.pending| - 1], LastEdit(t), t.g.text);
    var e := LastEdit(t);
    if e.came != [] && e.came[1..] == [] {
      assert e.came == [e.came[0]];
      TextOne(t.g.text, e.came[0]);
    }
  }

  /** The byte is deleted in place: a piece without bytes, and both lengths 0. */
  lemma MadeHollow(s: State, t: State, x: Piece, hit: bool, k: nat)
    requires Brought(s, x, [3]) && DeletePaid(s, t, 0, 1, hit, false) && Lands(s, 0, k) && hit == Shrinking(s, 0, 1, k)
    ensures Brought(t, x, [])
  {
    hide State.Tidy, E.Told, Text, Offset, State.Contents;
    Basics(s);
    SizeTrue(s);
    SizeTrue(t);
    OffsetEnd(s.g.text, s.g.chain);
    OffsetNext(s.g.text, s.g.chain, 0);
    LandsOnce(s, 0, 0, k);
    assert hit && s.g.marks[..2] == s.g.marks;
    assert t.g.text[x] == [];
  }

  /** A hollow change is the last revision but one, as far as undo is concerned. */
  ghost predicate Hollowed(s: State, x: Piece) {
    && |s.revs| > 2 && |s.g.marks| > 2 && s.revs[2] == [HollowChange(s.revs[2], x)]
    && s.g.marks[2] == [x] + s.g.marks[1] && x !in s.g.marks[1]
  }

  ghost function HollowChange(rev: Revision, x: Piece): Change {
    Change(Span(null, null, 0), Span(x, x, 0), if rev == [] then 0 else rev[0].pos)
  }

  lemma HollowCommits(s: State, x: Piece)
    requires Brought(s, x, [])
    ensures Rests(Commit(s), 2, [2]) && Hollowed(Commit(s), x)
  {
    hide State.Tidy;
    CommitRests(s, 1, [2]);
    var r := Commit(s);
    assert r.revs[2] == s.pending && r.g.marks[2] == s.g.chain && r.g.marks[1] == s.g.marks[1];
    assert s.pending == [HollowChange(s.pending, x)];
  }

  lemma LastDeleted(s: State, t: State, x: Piece)
    requires Rests(s, 2, [2]) && Hollowed(s, x) && DeletePaid(s, t, 0, 1, false, false)
    ensures Rests(Commit(t), 3, []) && Hollowed(Commit(t), x) && UndoesAll(UndoOf(t)) && t.Abs().Commit().cur == 3
  {
    hide State.Tidy, E.Told, Removed, Filled, Undoes;
    DeletedRests(s, t, 2, [2]);
    var r := Commit(t);
    assert r.g.marks[..3][2] == r.g.marks[2] && r.g.marks[..3][1] == r.g.marks[1];
    CommitShows(t);
  }

  /** The first undo lands; then the piece without bytes is in front. */
  lemma FirstLands(s: State, t: State, x: Piece)
    requires Rests(s, 3, []) && Hollowed(s, x) && UndoneTo(s, t) && t.Tidy()
    ensures t.pending == [] && t.cur == 2 && Hollowed(t, x) && t.g.chain == t.g.marks[2] && NullSafe(UndoOf(t))
    ensures t.Abs().Commit().cur == 2
  {
    hide State.Tidy, Unswapped, Growth, CanSwapAll;
  }

  /** The second one writes nothing. */
  lemma SecondSkips(s: State, t: State, x: Piece)
    requires s.Tidy() && s.pending == [] && s.cur == 2 && Hollowed(s, x) && s.g.chain == s.g.marks[2]
    requires UndoneTo(Commit(s), t)
    ensures t.cur == 1 < |t.g.marks| && t.g.chain == t.g.marks[1] && x !in t.g.chain
    ensures t.head in t.g.links.next && t.g.links.next[t.head] == x && !Ring(t.g.links, t.head, t.g.chain)
  {
    hide State.Tidy, Ring;
    Basics(s);
    OneChange(s.g.links, s.revs[2][0]);
    RingStep(s.g.links, s.head, s.g.chain, 0);
    if Ring(t.g.links, t.head, t.g.chain) {
      RingStep(t.g.links, t.head, t.g.chain, 0);
    }
  }

  /** Without a cached piece nothing goes in place. */
  lemma NoHit(s: State, at: nat, len: nat, k: nat)
    requires s.cache == null
    ensures !Growing(s, at, k) && !Shrinking(s, at, len, k)
  {
  }

  lemma RestsShown(s: State, n: nat, x: seq<Byte>)
    requires Rests(s, n, x)
    ensures s.Abs().text == x && s.cache == null
  {
  }

  lemma BroughtShown(s: State, x: Piece, bytes: seq<Byte>)
    requires Brought(s, x, bytes)
    ensures s.Abs().text == bytes + [2]
  {
  }

  /** Open a file with two bytes, delete the first one, and commit. */
  method OpenAndDelete() returns (f: File)
    ensures f.Valid() && !f.mended && Rests(f.View(), 1, [2]) && Filled(f.View()) && fresh(f.Footprint())
    ensures f.View().Honest() && f.View().Firm()
  {
    hide State.Tidy, File.Shown, State.Abs, State.Honest, State.Firm, State.Stray, E.Told, Commit, InsertPaid,
         DeletePaid, Growing, Shrinking, Lands, Fits, UndoneTo, UndoesAll, NullSafe, UndoOf, State.Contents, Filled,
         Rests, Hollowed, Brought, Ring, OneMore, Charged, Leaves, Solid, LastBytes, E.Editor.Insert, E.Editor.Delete,
         E.Editor.Undo, E.Editor.Commit;
    f := new File.Open([1, 2], false);
    ghost var s := f.View();
    FirstRests(s);
    var ok, event;
    ghost var hit, k;
    ok, event, hit, k := f.Delete(0, 1);
    NoHit(s, 0, 1, k);
    DeletedRests(s, f.View(), 0, [1, 2]);
    ok := f.CommitRevision();
  }

  /** Insert a byte in front and delete it again. */
  method InsertAndDelete(f: File) returns (ghost hollow: Piece)
    requires f.Valid() && !f.mended && Rests(f.View(), 1, [2]) && Filled(f.View())
    requires f.View().Honest() && f.View().Firm()
    modifies f.Footprint()
    ensures f.Valid() && Brought(f.View(), hollow, []) && fresh(f.Footprint() - old(f.Footprint()))
  {
    hide State.Tidy, File.Shown, State.Abs, State.Honest, State.Firm, State.Stray, E.Told, Commit, InsertPaid,
         DeletePaid, Growing, Shrinking, Lands, Fits, UndoneTo, UndoesAll, NullSafe, UndoOf, State.Contents, Filled,
         Rests, Hollowed, Brought, Ring, OneMore, Charged, Leaves, Solid, LastBytes, E.Editor.Insert, E.Editor.Delete,
         E.Editor.Undo, E.Editor.Commit;
    ghost var s := f.View();
    var ok, event;
    ghost var hit, k;
    RestsShown(s, 1, [2]);
    ok, event, hit, k := f.Insert(0, [3]);
    NoHit(s, 0, 1, k);
    OneInserted(s, f.View());
    s, hollow := f.View(), f.cache;
    BroughtShown(s, hollow, [3]);
    ok, event, hit, k := f.Delete(0, 1);
    MadeHollow(s, f.View(), hollow, hit, k);
  }

  /** Open a file with two bytes and delete the first one; insert a byte and delete it again; delete
      the other one; with a commit after each.  The second of two undos skips the change whose lengths
      are both 0: the piece that it brought, empty by then, stays in the list, which is not the list
      of the revision that the file is at. */
  method HollowUndo() returns (f: File, ghost hollow: Piece)
    ensures f.current == 1 < |f.marks| && f.chain == f.marks[1] && hollow !in f.chain
    ensures f.head in f.links.next && f.links.next[f.head] == hollow && !Ring(f.links, f.head, f.chain)
  {
    hide State.Tidy, File.Shown, State.Abs, State.Honest, State.Firm, State.Stray, E.Told, Commit, InsertPaid,
         DeletePaid, Growing, Shrinking, Lands, Fits, UndoneTo, UndoesAll, NullSafe, UndoOf, State.Contents, Filled,
         Rests, Hollowed, Brought, Ring, OneMore, Charged, Leaves, Solid, LastBytes, E.Editor.Insert, E.Editor.Delete,
         E.Editor.Undo, E.Editor.Commit;
    f := OpenAndDelete();
    hollow := InsertAndDelete(f);
    var ok, event, pos, wild;
    ghost var hit, k;
    HollowCommits(f.View(), hollow);
    ok := f.CommitRevision();
    ghost var s := f.View();
    RestsShown(s, 2, [2]);
    ok, event, hit, k := f.Delete(0, 1);
    NoHit(s, 0, 1, k);
    LastDeleted(s, f.View(), hollow);
    s := Commit(f.View());
    ok, pos, event, wild := f.Undo();
    FirstLands(s, f.View(), hollow);
    s := f.View();
    ok, pos, event, wild := f.Undo();
    SecondSkips(s, f.View(), hollow);
  }

  // ------------------------------------------------------------------ and what comes of it

  /** The list head, the piece of the opened file, what is left of it, and the inserted piece. */
  datatype Troupe = Troupe(head: Piece, o: Piece, q: Piece, x: Piece, b: Block, c: Block)
  {
    ghost predicate Apart() {
      head != o && head != q && head != x && o != q && o != x && q != x && b != c
    }

    ghost function First(): Change { Change(Span(o, o, 2), Span(q, q, 1), 0) }
    ghost function Second(): Change { Change(Span(null, null, 0), Span(x, x, 0), 0) }
    ghost function Third(): Change { Change(Span(q, q, 1), Span(null, null, 0), 0) }

    /** Where the pointers lead while `o` and `q`, but not yet `x`, are known. */
    ghost function Pair(): Links {
      Links(map[head := q, o := head, q := head], map[head := q, o := head, q := head])
    }

    /** The first byte has been deleted. */
    ghost predicate Fronted(t: State) {
      && t.head == head && t.cache == null && t.blocks == [b] && t.size == 1 && t.store == map[b := [1, 2]]
      && |t.revs| == 1 && t.cur == 0 && t.pending == [First()]
      && t.at == map[o := Slice(b, 0, 2), q := Slice(b, 1, 1)] && t.g.text == map[o := [1, 2], q := [2]]
      && t.g.chain == [q] && t.g.marks == [[o]] && |t.g.edits| == 1 && |t.g.draft| == 1 && t.g.links == Pair()
    }

    /** Where the pointers lead that change later. */
    ghost function Wired(nh: Piece, nx: Piece, ph: Piece, pq: Piece): Links {
      Links(map[head := nh, o := head, q := head, x := nx], map[head := ph, o := head, q := pq, x := head])
    }

    /** A byte has been inserted in front of the other one; `y` are the bytes left of it. */
    ghost predicate Filled(t: State, y: seq<Byte>) {
      && t.head == head && t.cache == x && t.blocks == [b, c] && t.size == 1 + |y|
      && t.store == map[b := [1, 2], c := y]
      && |t.revs| == 2 && t.revs[1] == [First()] && t.cur == 1
      && t.pending == [Change(Span(null, null, 0), Span(x, x, |y|), 0)]
      && t.at == map[o := Slice(b, 0, 2), q := Slice(b, 1, 1), x := Slice(c, 0, |y|)]
      && t.g.text == map[o := [1, 2], q := [2], x := y] && t.g.chain == [x, q]
      && t.g.marks == [[o], [q]] && |t.g.edits| == 2 && |t.g.draft| == 1 && t.g.links == Wired(x, q, q, x)
    }

    /** The byte behind the hollow piece has been deleted. */
    ghost predicate Emptied(t: State) {
      && t.head == head && t.cache == null && t.size == 0 && |t.revs| == 3 && t.revs[1] == [First()]
      && t.revs[2] == [Second()]
      && t.cur == 2 && t.pending == [Third()] && t.g.text == map[o := [1, 2], q := [2], x := []] && t.g.chain == [x]
      && t.g.marks == [[o], [q], [x, q]] && |t.g.edits| == 3 && |t.g.draft| == 1 && t.g.links == Wired(x, head, x, x)
    }
  }

  /** The first of two bytes is deleted. */
  lemma FrontGoes(s: State, a: Troupe) returns (t: State)
    requires a.Apart() && Opened(s, a.b, a.o, [1, 2]) && s.head == a.head && s.Tidy()
    ensures Shortened(s, t, 0, 1) && t.Tidy() && a.Fronted(t)
  {
    hide State.Tidy, Shortened, Relink, Text;
    Basics(s);
    TidyAnchored(s);
    TidyRest(s);
    var m := WithPiece(s.g.links, a.q, a.head, a.head);
    var u := WithBytes(Body(s.g.text, s.at), a.q, [2], Slice(a.b, 1, 1));
    var ps := Only(false, a.q) + Only(true, a.q);
    assert ps == [a.q];
    FrontMade(s, a, m, u);
    CutReady(s, 0, 0, 0, 1, false, a.q, true, a.q, m, u.text, u.at, 0);
    OnePiece(s.g.text, a.o);
    CutPays(s, 0, 0, 0, 1, false, a.q, true, a.q, m, u.text, u.at, 0, 1);
    t := Spliced(s, s.blocks, s.store, u.at, m, u.text, Splice(s, 0, 1, ps), 0, null);
    FrontShows(s, t, a, m, u);
  }

  lemma FrontMade(s: State, a: Troupe, m: Links, u: Body)
    requires a.Apart() && Opened(s, a.b, a.o, [1, 2]) && s.head == a.head
    requires m == WithPiece(s.g.links, a.q, a.head, a.head)
    requires u == WithBytes(Body(s.g.text, s.at), a.q, [2], Slice(a.b, 1, 1))
    ensures CutMade(s, 0, 0, 0, 1, false, a.q, true, a.q, m, u.text, u.at)
  {
    SingleHung(s.g.links, m, a.head, a.q, a.head);
    assert [1, 2][1..2] == [2] && Only(false, a.q) + Only(true, a.q) == [a.q];
  }

  lemma FrontShows(s: State, t: State, a: Troupe, m: Links, u: Body)
    requires a.Apart() && Opened(s, a.b, a.o, [1, 2]) && s.head == a.head
    requires m == WithPiece(s.g.links, a.q, a.head, a.head)
    requires u == WithBytes(Body(s.g.text, s.at), a.q, [2], Slice(a.b, 1, 1))
      && EditKnown(u.text, Splice(s, 0, 1, [a.q]))
    requires t == Spliced(s, s.blocks, s.store, u.at, m, u.text, Splice(s, 0, 1, [a.q]), 0, null)
    ensures a.Fronted(t)
  {
    hide Text, Relink;
    OnePiece(u.text, a.q);
    OnePiece(u.text, a.o);
    FrontLinks(s, a, m);
  }

  lemma FrontLinks(s: State, a: Troupe, m: Links)
    requires a.Apart() && s.head == a.head && s.g.chain == [a.o]
    requires s.g.links == Links(map[a.head := a.o, a.o := a.head], map[a.head := a.o, a.o := a.head])
    requires m == WithPiece(s.g.links, a.q, a.head, a.head)
    ensures Splice(s, 0, 1, [a.q]) == Edit([], [a.o], [a.q], [])
    ensures Relink(m, a.head, Edit([], [a.o], [a.q], []))
      == a.Pair()
  {
    var e := Edit([], [a.o], [a.q], []);
    assert e.Flip().Entry(a.head) == a.q && e.Flip().Exit(a.head) == a.q by {
      assert [a.q] + [] + [a.head] == [a.q, a.head] && [a.head] + [] + [a.q] == [a.head, a.q];
    }
    assert e.Left(a.head) == a.head && e.Right(a.head) == a.head;
  }

  lemma OnePiece(t: Texts, p: Piece)
    requires p in t
    ensures Known(t, [p]) && Text(t, [p]) == t[p] && Offset(t, [p], 0) == 0
  {
    TextOne(t, p);
    OffsetEnd(t, [p]);
  }

  /** A byte is inserted in front, after a commit. */
  lemma FrontFills(s: State, a: Troupe) returns (t: State)
    requires a.Apart() && a.Fronted(s) && s.Tidy()
    ensures Lengthened(Commit(s), t, 0, [3]) && t.Tidy() && a.Filled(t, [3])
  {
    hide State.Tidy, Lengthened, Relink, Text, Troupe.Pair, Troupe.Filled, Troupe.Fronted, Commit, Fresh, Reserved,
         OneMade, Spliced,
         EditKnown, Ring, Closed, Distinct, State.Contents;
    var r := Commit(s);
    CommitTidy(s);
    FrontCommits(s, a);
    FreshParts(r, a);
    Basics(r);
    TidyAnchored(r);
    TidyRest(r);
    var m := WithPiece(r.g.links, a.x, a.head, a.q);
    var u := WithBytes(Body(r.g.text, r.at), a.x, [3], Slice(a.c, 0, 1));
    var bs, st := [a.b, a.c], map[a.b := [1, 2], a.c := [3]];
    FillsMade(r, a, m, u, bs, st);
    OneReady(r, bs, st, a.c, 0, 0, a.x, [3], m, u.text, u.at, 0);
    OnePays(r, bs, st, a.c, 0, 0, a.x, [3], m, u.text, u.at, 0);
    t := Spliced(r, bs, st, u.at, m, u.text, Splice(r, 0, 0, [a.x]), 0, a.x);
    FillsShows(r, t, a, m, u);
  }

  /** Ready for the insertion. */
  ghost predicate Fresh(r: State, a: Troupe) {
    && a.Apart() && r.head == a.head && r.blocks == [a.b] && r.size == 1 && r.store == map[a.b := [1, 2]]
    && |r.revs| == 2 && r.revs[1] == [a.First()] && r.cur == 1 && r.pending == []
    && r.at == map[a.o := Slice(a.b, 0, 2), a.q := Slice(a.b, 1, 1)] && r.g.text == map[a.o := [1, 2], a.q := [2]]
    && r.g.chain == [a.q] && r.g.marks == [[a.o], [a.q]] && |r.g.edits| == 2 && r.g.draft == [] && r.g.links == a.Pair()
  }

  lemma FrontCommits(s: State, a: Troupe)
    requires a.Apart() && a.Fronted(s)
    ensures Fresh(Commit(s), a)
  {
  }

  lemma FreshParts(r: State, a: Troupe)
    requires Fresh(r, a)
    ensures r.cur == |r.g.marks| - 1 && r.head == a.head && Before(r, 0) == a.head && After(r, 0) == a.q
  {
  }

  lemma FillsMade(r: State, a: Troupe, m: Links, u: Body, bs: seq<Block>, st: Store)
    requires Fresh(r, a) && Known(r.g.text, r.g.chain) && Spelled(r.g.text, r.at, r.store)
    requires m == WithPiece(r.g.links, a.x, a.head, a.q)
    requires u == WithBytes(Body(r.g.text, r.at), a.x, [3], Slice(a.c, 0, 1))
    requires bs == [a.b, a.c] && st == map[a.b := [1, 2], a.c := [3]]
    ensures OneMade(r, 0, a.x, Slice(a.c, 0, 1), [3], m, u.text, u.at) && Reserved(r, bs, st, a.c, 0, [3])
    ensures Offset(r.g.text, r.g.chain, 0) == 0
  {
    OffsetEnd(r.g.text, r.g.chain);
    assert Cuts(r.at[a.o], st, [1, 2]) && Cuts(r.at[a.q], st, [2]) && Cuts(Slice(a.c, 0, 1), st, [3]);
  }

  lemma FillsShows(r: State, t: State, a: Troupe, m: Links, u: Body)
    requires Fresh(r, a) && m == WithPiece(r.g.links, a.x, a.head, a.q)
    requires u == WithBytes(Body(r.g.text, r.at), a.x, [3], Slice(a.c, 0, 1))
      && EditKnown(u.text, Splice(r, 0, 0, [a.x]))
    requires t
      == Spliced(r, [a.b, a.c], map[a.b := [1, 2], a.c := [3]], u.at, m, u.text, Splice(r, 0, 0, [a.x]), 0, a.x)
    ensures a.Filled(t, [3])
  {
    hide Text, Relink, Troupe.Pair, Troupe.Wired;
    OnePiece(u.text, a.x);
    FillsLinks(r, a, m);
  }

  lemma FillsLinks(r: State, a: Troupe, m: Links)
    requires Fresh(r, a) && m == WithPiece(r.g.links, a.x, a.head, a.q)
    ensures Splice(r, 0, 0, [a.x]) == Edit([], [], [a.x], [a.q])
    ensures Relink(m, a.head, Edit([], [], [a.x], [a.q])) == a.Wired(a.x, a.q, a.q, a.x)
  {
    var e := Edit([], [], [a.x], [a.q]);
    assert e.Left(a.head) == a.head && e.Right(a.head) == a.q;
    assert e.Flip().Entry(a.head) == a.x && e.Flip().Exit(a.head) == a.x by {
      assert [a.x] + [a.q] + [a.head] == [a.x, a.q, a.head] && [a.head] + [] + [a.x] == [a.head, a.x];
    }
  }

  /** It is deleted again, in place. */
  lemma FillGoes(s: State, a: Troupe) returns (t: State)
    requires a.Apart() && a.Filled(s, [3]) && s.Tidy()
    ensures ShrunkInto(s, t, 0, 1) && t.Tidy() && a.Filled(t, [])
  {
    hide State.Tidy, ShrunkInto, Text;
    Basics(s);
    OnePieces(s.g.text, a.x, a.q);
    ShrunkPays(s, a.x, 0, 0, 1, 0);
    ShrunkTidy(s, a.x, 0, 0, 1);
    t := Shrunk(s, a.x, 0, 1);
    assert Deleted([3], 0, 1) == [];
  }

  lemma OnePieces(t: Texts, p: Piece, q: Piece)
    requires p in t && q in t
    ensures Known(t, [p, q]) && Offset(t, [p, q], 0) == 0 && Offset(t, [p, q], 1) == |t[p]|
    ensures |Text(t, [p, q])| == |t[p]| + |t[q]|
  {
    OffsetNext(t, [p, q], 0);
    OffsetNext(t, [p, q], 1);
    OffsetEnd(t, [p, q]);
  }

  /** After a commit the byte behind the hollow piece is deleted. */
  lemma BackGoes(s: State, a: Troupe) returns (t: State)
    requires a.Apart() && a.Filled(s, []) && s.Tidy()
    ensures Shortened(Commit(s), t, 0, 1) && t.Tidy() && a.Emptied(t)
  {
    hide State.Tidy, Shortened, Relink, Text, Troupe.Emptied, Troupe.Filled, Commit, Hollow, CutMade, Spliced,
         EditKnown, Ring, Closed,
         Distinct, State.Contents, Spelled, Full, Added, Hung, Ready, Cut, Splice, Only, Anchored;
    var r := Commit(s);
    CommitTidy(s);
    FillCommits(s, a);
    Basics(r);
    TidyAnchored(r);
    TidyRest(r);
    HollowCut(r, a);
    CutReady(r, 1, 0, 1, 1, false, a.x, false, a.x, r.g.links, r.g.text, r.at, 0);
    CutPays(r, 1, 0, 1, 1, false, a.x, false, a.x, r.g.links, r.g.text, r.at, 0, 1);
    t := Spliced(r, r.blocks, r.store, r.at, r.g.links, r.g.text,
      Splice(r, 1, 2, Only(false, a.x) + Only(false, a.x)), 0, null);
    EmptiedShows(r, t, a);
  }

  ghost predicate Hollow(r: State, a: Troupe) {
    && a.Apart() && r.head == a.head && r.cache == null && r.size == 1 && r.blocks == [a.b, a.c]
    && r.store == map[a.b := [1, 2], a.c := []]
    && |r.revs| == 3 && r.revs[1] == [a.First()] && r.revs[2] == [a.Second()] && r.cur == 2 && r.pending == []
    && r.at == map[a.o := Slice(a.b, 0, 2), a.q := Slice(a.b, 1, 1), a.x := Slice(a.c, 0, 0)]
    && r.g.text == map[a.o := [1, 2], a.q := [2], a.x := []] && r.g.chain == [a.x, a.q]
    && r.g.marks == [[a.o], [a.q], [a.x, a.q]] && |r.g.edits| == 3 && r.g.draft == []
    && r.g.links == a.Wired(a.x, a.q, a.q, a.x)
  }

  lemma FillCommits(s: State, a: Troupe)
    requires a.Apart() && a.Filled(s, [])
    ensures Hollow(Commit(s), a)
  {
  }

  lemma HollowCut(r: State, a: Troupe)
    requires Hollow(r, a)
    ensures CutMade(r, 1, 0, 1, 1, false, a.x, false, a.x, r.g.links, r.g.text, r.at) && |r.g.chain| == 2
      && r.cur == |r.g.marks| - 1
    ensures Known(r.g.text, r.g.chain) && Offset(r.g.text, r.g.chain, 1) == 0 && |Text(r.g.text, r.g.chain)| == 1
    ensures r.cache == null
  {
    hide Text;
    OnePieces(r.g.text, a.x, a.q);
    NoneHung(r.g.links, Before(r, 1), After(r, 2));
    assert Only(false, a.x) + Only(false, a.x) == [];
  }

  lemma EmptiedShows(r: State, t: State, a: Troupe)
    requires Hollow(r, a)
    requires var e := Splice(r, 1, 2, Only(false, a.x) + Only(false, a.x));
      EditKnown(r.g.text, e) && t == Spliced(r, r.blocks, r.store, r.at, r.g.links, r.g.text, e, 0, null)
    ensures a.Emptied(t)
  {
    hide Text, Relink, Troupe.Wired;
    OnePiece(r.g.text, a.q);
    assert Only(false, a.x) + Only(false, a.x) == [];
    EmptiedLinks(r, a);
  }

  lemma EmptiedLinks(r: State, a: Troupe)
    requires Hollow(r, a)
    ensures Splice(r, 1, 2, []) == Edit([a.x], [a.q], [], [])
    ensures Relink(r.g.links, a.head, Edit([a.x], [a.q], [], [])) == a.Wired(a.x, a.head, a.x, a.x)
  {
    var e := Edit([a.x], [a.q], [], []);
    assert e.Left(a.head) == a.x && e.Right(a.head) == a.head;
    assert e.Flip().Entry(a.head) == a.head && e.Flip().Exit(a.head) == a.x by {
      assert [] + [] + [a.head] == [a.head] && [a.head] + [a.x] + [] == [a.head, a.x];
    }
  }

  // ------------------------------------------------------------------ three undos and three redos

  lemma OneChange(m: Links, c: Change)
    ensures CanSwapAll(m, [c]) <==> CanSwap(m, c.original, c.replacement)
    ensures CanSwap(m, c.original, c.replacement) ==>
      && Unswapped(m, [c]) == SwapLinks(m, c.replacement, c.original)
      && Swapped(m, [c]) == SwapLinks(m, c.original, c.replacement)
  {
    hide SwapLinks, CanSwap;
    assert c in [c] && [c][..0] == [] && [c][1..] == [];
    if CanSwap(m, c.original, c.replacement) {
      assert CanSwapAll(m, [c]);
    }
  }

  /** The pointers after each swap.  The first undo is right; the second skips the hollow piece, and
      from then on that piece stands in for the list head as the neighbour of what is swapped. */
  lemma FirstUndo(a: Troupe)
    requires a.Apart()
    ensures var m := a.Wired(a.x, a.head, a.x, a.x);
      CanSwapAll(m, [a.Third()]) && Unswapped(m, [a.Third()]) == a.Wired(a.x, a.q, a.q, a.x)
  {
    OneChange(a.Wired(a.x, a.head, a.x, a.x), a.Third());
  }

  lemma OtherUndos(a: Troupe)
    requires a.Apart()
    ensures var m := a.Wired(a.x, a.q, a.q, a.x);
      && CanSwapAll(m, [a.Second()]) && Unswapped(m, [a.Second()]) == m
      && CanSwapAll(m, [a.First()]) && Unswapped(m, [a.First()]) == a.Wired(a.x, a.o, a.o, a.x)
  {
    OneChange(a.Wired(a.x, a.q, a.q, a.x), a.Second());
    OneChange(a.Wired(a.x, a.q, a.q, a.x), a.First());
  }

  lemma FirstRedo(a: Troupe)
    requires a.Apart()
    ensures var m := a.Wired(a.x, a.o, a.o, a.x);
      CanSwapAll(m, [a.First()]) && Swapped(m, [a.First()]) == a.Wired(a.q, a.o, a.q, a.x)
  {
    OneChange(a.Wired(a.x, a.o, a.o, a.x), a.First());
  }

  lemma OtherRedos(a: Troupe)
    requires a.Apart()
    ensures var m := a.Wired(a.q, a.o, a.q, a.x);
      && CanSwapAll(m, [a.Second()]) && Swapped(m, [a.Second()]) == m
      && CanSwapAll(m, [a.Third()]) && Swapped(m, [a.Third()]) == a.Wired(a.q, a.head, a.x, a.x)
  {
    OneChange(a.Wired(a.q, a.o, a.q, a.x), a.Second());
    OneChange(a.Wired(a.q, a.o, a.q, a.x), a.Third());
  }

  /** What the loops of undo and redo make of a committed state. */
  ghost function WindBack(s: State): State
    requires 0 < s.cur < |s.revs| && s.cur <= |s.g.marks| && CanSwapAll(s.g.links, s.revs[s.cur])
  {
    s.(cur := s.cur - 1, size := s.size - Growth(s.revs[s.cur]),
       g := s.g.(chain := s.g.marks[s.cur - 1], links := Unswapped(s.g.links, s.revs[s.cur])))
  }

  ghost function WindForth(s: State): State
    requires s.cur + 1 < |s.revs| == |s.g.marks| && CanSwapAll(s.g.links, s.revs[s.cur + 1])
  {
    s.(cur := s.cur + 1, size := s.size + Growth(s.revs[s.cur + 1]),
       g := s.g.(chain := s.g.marks[s.cur + 1], links := Swapped(s.g.links, s.revs[s.cur + 1])))
  }

  /** After the three deletions and the insertion, and wherever undo and redo lead from there. */
  ghost predicate Toured(s: State, a: Troupe, cur: nat, size: int, m: Links) {
    && s.head == a.head && s.cache == null && s.pending == [] && s.cur == cur && s.size == size
    && |s.revs| == |s.g.marks| == 4 && s.revs[1] == [a.First()] && s.revs[2] == [a.Second()] && s.revs[3] == [a.Third()]
    && s.g.text == map[a.o := [1, 2], a.q := [2], a.x := []] && s.g.marks == [[a.o], [a.q], [a.x, a.q], [a.x]]
    && s.g.links == m
  }

  lemma GrowthsOf(a: Troupe)
    ensures Growth([a.First()]) == -1 && Growth([a.Second()]) == 0 && Growth([a.Third()]) == -1
  {
    assert forall c: Change :: [c][1..] == [];
  }

  lemma EmptiedCommits(s: State, a: Troupe)
    requires a.Apart() && a.Emptied(s)
    ensures Toured(Commit(s), a, 3, 0, a.Wired(a.x, a.head, a.x, a.x))
  {
  }

  lemma WoundBack(a: Troupe, w: State) returns (r: State, s: State, t: State)
    requires a.Apart() && Toured(w, a, 3, 0, a.Wired(a.x, a.head, a.x, a.x))
    ensures UndoneTo(w, r) && UndoneTo(r, s) && UndoneTo(s, t)
    ensures Toured(s, a, 1, 1, a.Wired(a.x, a.q, a.q, a.x)) && s.g.chain == [a.q]
    ensures Toured(t, a, 0, 2, a.Wired(a.x, a.o, a.o, a.x))
  {
    FirstUndo(a);
    OtherUndos(a);
    GrowthsOf(a);
    hide Growth, Unswapped, Swapped, CanSwapAll, Troupe.Wired;
    r := WindBack(w);
    s := WindBack(r);
    t := WindBack(s);
  }

  lemma WoundForth(a: Troupe, w: State) returns (r: State, s: State, t: State)
    requires a.Apart() && Toured(w, a, 0, 2, a.Wired(a.x, a.o, a.o, a.x))
    ensures RedoneTo(w, r) && RedoneTo(r, s) && RedoneTo(s, t)
    ensures Toured(t, a, 3, 0, a.Wired(a.q, a.head, a.x, a.x))
  {
    FirstRedo(a);
    OtherRedos(a);
    GrowthsOf(a);
    hide Growth, Unswapped, Swapped, CanSwapAll, Troupe.Wired;
    r := WindForth(w);
    s := WindForth(r);
    t := WindForth(s);
  }

  lemma Starts(a: Troupe) returns (s: State)
    requires a.Apart()
    ensures Opened(s, a.b, a.o, [1, 2]) && s.head == a.head && s.Tidy() && s.Honest() && s.Firm() && s.cache == null
    ensures s.Abs().text == [1, 2]
  {
    s := State(a.head, 2, [a.b], null, [[Change(Span(null, null, 0), Span(a.o, a.o, 2), 0)]], 0, [],
               map[a.o := Slice(a.b, 0, 2)], map[a.b := [1, 2]],
               Trace([a.o], Links(map[a.head := a.o, a.o := a.head], map[a.head := a.o, a.o := a.head]),
                 map[a.o := [1, 2]],
                     [[a.o]], [[]], []));
    OpenTidy(s, a.b, a.o, [1, 2]);
  }

  lemma Apparent(a: Troupe, v: State, w: State, r: State, z: State)
    requires a.Apart() && a.Filled(v, []) && a.Emptied(w)
    requires Toured(r, a, 1, 1, a.Wired(a.x, a.q, a.q, a.x)) && r.g.chain == [a.q]
    requires Toured(z, a, 3, 0, a.Wired(a.q, a.head, a.x, a.x))
    ensures Commit(w).Abs().text == [] && UndoesAll(UndoOf(w)) && !UndoesAll(UndoOf(v))
    ensures !Ring(r.g.links, r.head, r.g.chain)
    ensures Astray(z, a)
  {
    OnePiece(w.g.text, a.x);
    assert a.Second() in v.pending;
    if Ring(r.g.links, r.head, r.g.chain) {
      RingStep(r.g.links, r.head, r.g.chain, 0);
    }
  }

  /** The list holds the second byte of the opened file, though the size is 0. */
  ghost predicate Astray(z: State, a: Troupe) {
    && z.size == 0 && z.head in z.g.links.next && z.g.links.next[z.head] == a.q
    && a.q in z.g.links.next && z.g.links.next[a.q] == z.head && a.q in z.g.text && z.g.text[a.q] == [2]
  }

  /** Open a file with two bytes and delete the first one; insert a byte and delete it again; delete
      the byte behind it; with a commit after each.  Undo three times (the second one leaves the
      hollow piece in the list) and redo three times: the text should be empty, and the size says
      so, but the list holds a piece with a byte. */
  lemma HollowSession(a: Troupe)
    returns (s: State, t: State, u: State, v: State, w: State, b1: State, b2: State, b3: State, f1: State, f2: State,
      f3: State)
    requires a.Apart()
    ensures s.Abs().text == [1, 2] && s.cache == null && s.Honest() && s.Firm()
    ensures Shortened(s, t, 0, 1) && Lengthened(Commit(t), u, 0, [3]) && ShrunkInto(u, v, 0, 1)
      && Shortened(Commit(v), w, 0, 1)
    ensures Commit(w).Abs().text == [] && UndoesAll(UndoOf(w)) && !UndoesAll(UndoOf(v))
    ensures UndoneTo(Commit(w), b1) && UndoneTo(b1, b2) && UndoneTo(b2, b3) && !Ring(b2.g.links, b2.head, b2.g.chain)
    ensures RedoneTo(b3, f1) && RedoneTo(f1, f2) && RedoneTo(f2, f3) && Astray(f3, a)
    ensures s.Tidy() && w.Tidy()
  {
    hide State.Tidy, State.Honest, State.Firm, Lengthened, Shortened, ShrunkInto, Commit, UndoneTo, RedoneTo, Toured,
         Ring, Astray,
         Opened, State.Abs, UndoOf, UndoesAll, Troupe.Wired, Troupe.Fronted, Troupe.Filled, Troupe.Emptied;
    s := Starts(a);
    t := FrontGoes(s, a);
    u := FrontFills(t, a);
    v := FillGoes(u, a);
    w := BackGoes(v, a);
    EmptiedCommits(w, a);
    b1, b2, b3 := WoundBack(a, Commit(w));
    f1, f2, f3 := WoundForth(a, b3);
    Apparent(a, v, w, b2, f3);
  }
}
