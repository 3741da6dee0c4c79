/** A file that is edited while the cache of its format listens and an iterator asks for spans. */
module Session {
  import opened Bytes
  import opened State
  import opened Outcome
  import opened File
  import opened Runs
  import I = Intervals
  import L = Layout
  import N = Linear
  import C = FormatCache
  import R = Reading
  import E = Editor

  /** What the cache holds is right for the contents `text`. */
  ghost predicate Tuned(c: C.FormatCache, text: seq<Byte>)
    reads c, c.accessed, c.accessed.mem.Keys, c.cachedTree, c.cachedTree.mem.Keys
  {
    c.Valid() && c.Current(text)
  }

  /** The ranges on record as read. */
  ghost function Reads(c: C.FormatCache): seq<I.Record>
    reads c, c.accessed
  {
    c.accessed.Contents()
  }

  /** Some range that was read and found nothing when the text had `was` bytes lies inside it now. */
  ghost predicate Appeared(s: seq<I.Record>, was: nat, now: nat) {
    exists x :: x in s && was <= x.high < now && x.low < now
  }

  /** No such range means that all reads are settled. */
  lemma NoneAppeared(c: C.FormatCache, text: seq<Byte>, was: nat, now: nat)
    requires Tuned(c, text) && !Appeared(Reads(c), was, now)
    ensures C.AllSettled(c.read, was, now)
  {
    C.ReadsOrdered(c.format, text, c.steps);
    forall r | r in c.read ensures C.Settled(r, was, now) {
      var x := I.Record(r.low, r.high, I.Nothing);
      assert x in c.accessed.Contents();
    }
  }

  /** The same for what was read before a change that left the record of reads alone. */
  lemma Shrunken(c: C.FormatCache, was: nat, now: nat)
    requires now <= was
    ensures C.AllSettled(c.read, was, now)
  {
  }

  /** Is there such a range?  The program does not ask. */
  method HasAppeared(c: C.FormatCache, was: nat, now: nat) returns (r: bool)
    requires c.Valid()
    ensures r <==> Appeared(Reads(c), was, now)
  {
    hide C.T.IntervalTree.Valid;
    var found := c.accessed.Find(was, now - 1);
    I.FilterFinds(c.accessed.Contents(), was, now - 1);
    r := exists x :: x in found && was <= x.high < now;
    if Appeared(Reads(c), was, now) {
      var x :| x in c.accessed.Contents() && was <= x.high < now && x.low < now;
      assert I.Overlaps(x, was, now - 1);
      assert x in found;
    }
    if r {
      var x :| x in found && was <= x.high < now;
      assert I.Overlaps(x, was, now - 1);
    }
  }

  // ------------------------------------------------------------------ one operation

  /** The `file/change` event reaches the cache. */
  method Hear(c: C.FormatCache, event: E.Event, ghost before: seq<Byte>, ghost after: seq<Byte>)
    requires Tuned(c, before) && E.Fair(event, before, after)
    modifies c.Footprint()
    ensures Tuned(c, before) && c.Valid() && fresh(c.Footprint() - old(c.Footprint()))
    ensures C.AllSettled(c.read, |before|, |after|) ==> Tuned(c, after)
    ensures Reads(c) == C.Surviving(old(Reads(c)), event)
  {
    hide C.FormatCache.Current, C.AllSettled, C.AllSame, Agree, L.SameRead;
    match event
    case Silent =>
    case Changed(offset, len) =>
      var invalidated := c.OnChange(offset, len, before, after);
  }

  /** And the file stays what it is. */
  method HearAbout(f: File, c: C.FormatCache, event: E.Event, ghost before: seq<Byte>, ghost after: seq<Byte>)
    requires f.Valid() && f.Footprint() !! c.Footprint() && Tuned(c, before) && E.Fair(event, before, after)
    modifies c.Footprint()
    ensures f.Valid() && f.View() == old(f.View()) && f.Footprint() == old(f.Footprint())
      && f.Footprint() !! c.Footprint()
    ensures Tuned(c, before) && c.Valid() && fresh(c.Footprint() - old(c.Footprint()))
    ensures C.AllSettled(c.read, |before|, |after|) ==> Tuned(c, after)
    ensures Reads(c) == C.Surviving(old(Reads(c)), event)
  {
    hide State.Tidy, E.Told, Tuned, C.Surviving, Reads, File.Valid, C.AllSettled, C.FormatCache.Valid;
    Hear(c, event, before, after);
  }

  /** The reads on record after both events of an operation. */
  ghost function Survivors(s: seq<I.Record>, first: E.Event, second: E.Event): seq<I.Record> {
    C.Surviving(C.Surviving(s, first), second)
  }

  /** Reads of bytes that were there are never late. */
  lemma NeverLate(s: seq<I.Record>, text: seq<Byte>, mid: seq<Byte>, after: seq<Byte>, first: E.Event, second: E.Event)
    requires C.AllBefore(s, |text|) && E.Fair(first, text, mid) && E.Fair(second, mid, after)
    ensures C.AllBefore(Survivors(s, first, second), |after|) && !Appeared(Survivors(s, first, second), |mid|, |after|)
  {
    hide C.Surviving, E.Fair;
    var r := C.Surviving(s, first);
    C.SurvivorsBefore(s, first, text, mid);
    C.SurvivorsBefore(r, second, mid, after);
    SurvivorsIn(r, second);
  }

  lemma SurvivorsIn(s: seq<I.Record>, event: E.Event)
    ensures forall x :: x in C.Surviving(s, event) ==> x in s
  {
  }

  /** One operation on the file, and the cache hears of it.  What it holds then is the beginning of
      the linearization of the new text, unless a range whose read survived, and had found nothing,
      lies inside the file now: that is `late`.  It never happens when all reads lay inside the file,
      nor when the operation makes the text no longer; then the reads that are left lie inside it. */
  method Edit(f: File, c: C.FormatCache, op: E.Op)
    returns (late: bool, was: int, ghost first: E.Event, ghost second: E.Event)
    requires f.Valid() && Safe(f, op) && Tuned(c, f.Abs().text) && f.Footprint() !! c.Footprint()
    modifies f.Footprint(), c.Footprint()
    ensures f.Valid() && c.Valid() && f.Footprint() !! c.Footprint()
    ensures fresh(f.Footprint() - old(f.Footprint())) && fresh(c.Footprint() - old(c.Footprint()))
    ensures old(f.Abs()).Coherent() && f.Abs() == E.Step(old(f.Abs()), op) && (old(Neat(f)) ==> Neat(f))
    ensures was == |E.Halfway(old(f.Abs()).text, op)|
    ensures E.Published(old(f.Abs()).text, op, first, second)
    ensures E.Fair(first, old(f.Abs()).text, E.Halfway(old(f.Abs()).text, op))
    ensures E.Fair(second, E.Halfway(old(f.Abs()).text, op), f.Abs().text)
    ensures Reads(c) == Survivors(old(Reads(c)), first, second)
    ensures late <==> Appeared(Reads(c), was, |f.Abs().text|)
    ensures !late ==> Tuned(c, f.Abs().text)
    ensures |f.Abs().text| <= was ==> !late
    ensures C.AllBefore(old(Reads(c)), |old(f.Abs()).text|) ==> !late && C.AllBefore(Reads(c), |f.Abs().text|)
  {
    hide State.Tidy, File.Shown, File.Valid, File.View, File.Abs, State.Abs, E.Fair, E.Editor.Coherent, Tuned, E.Step,
         E.Halfway, E.Published, Safe, Neat, C.AllSettled, C.AllBefore, Appeared, C.FormatCache.Valid, Cells, Reads,
         Survivors;
    ghost var t, mid, s := f.Abs().text, [], Reads(c);
    var one, two;
    one, two, mid, was := Change(f, c, op);
    first, second := one, two;
    HearBoth(f, c, one, two, t, mid);
    late := Late(f, c, mid, was);
    NothingAppears(Reads(c), was, |f.Abs().text|);
    if C.AllBefore(s, |t|) {
      NeverLate(s, t, mid, f.Abs().text, first, second);
    }
  }

  lemma NothingAppears(s: seq<I.Record>, was: nat, now: nat)
    ensures now <= was ==> !Appeared(s, was, now)
  {
  }

  /** Both events, the first of which makes the text no longer. */
  method HearBoth(f: File, c: C.FormatCache, first: E.Event, second: E.Event, ghost t: seq<Byte>, ghost mid: seq<Byte>)
    requires f.Valid() && f.Footprint() !! c.Footprint() && Tuned(c, t) && |mid| <= |t|
    requires E.Fair(first, t, mid) && E.Fair(second, mid, f.Abs().text)
    modifies c.Footprint()
    ensures f.Valid() && f.View() == old(f.View()) && f.Footprint() !! c.Footprint()
    ensures Tuned(c, mid) && c.Valid() && fresh(c.Footprint() - old(c.Footprint()))
    ensures C.AllSettled(c.read, |mid|, |f.Abs().text|) ==> Tuned(c, f.Abs().text)
    ensures Reads(c) == Survivors(old(Reads(c)), first, second)
  {
    hide C.Surviving, Reads, State.Tidy, File.Valid, File.View, File.Abs, E.Fair, Tuned, C.AllSettled,
         C.FormatCache.Valid, Cells;
    HearAbout(f, c, first, t, mid);
    Shrunken(c, |t|, |mid|);
    HearAbout(f, c, second, mid, f.Abs().text);
  }

  /** The file changes; the cache has yet to hear of it. */
  method Change(f: File, c: C.FormatCache, op: E.Op)
    returns (first: E.Event, second: E.Event, ghost mid: seq<Byte>, was: int)
    requires f.Valid() && Safe(f, op) && Tuned(c, f.Abs().text) && f.Footprint() !! c.Footprint()
    modifies f.Footprint()
    ensures f.Valid() && Tuned(c, old(f.Abs()).text) && fresh(f.Footprint() - old(f.Footprint()))
    ensures c.Footprint() == old(c.Footprint()) && f.Footprint() !! c.Footprint() && Reads(c) == old(Reads(c))
    ensures old(f.Abs()).Coherent() && f.Abs() == E.Step(old(f.Abs()), op) && (old(Neat(f)) ==> Neat(f))
    ensures E.Fair(first, old(f.Abs()).text, mid) && E.Fair(second, mid, f.Abs().text)
    ensures was == |mid| && mid == E.Halfway(old(f.Abs()).text, op)
    ensures E.Published(old(f.Abs()).text, op, first, second)
  {
    hide State.Tidy, File.Shown, State.Abs, E.Fair, E.Editor.Coherent, E.Step, E.Halfway, E.Published, Safe, Clear,
         Careful, Does, Roomy, C.FormatCache.Current, C.FormatCache.Valid;
    ghost var h;
    first, second, mid, was, h := PerformOne(f, op);
  }

  /** Has something appeared behind the old end? */
  method Late(f: File, c: C.FormatCache, ghost mid: seq<Byte>, was: int) returns (late: bool)
    requires f.Valid() && Tuned(c, mid) && was == |mid|
    requires C.AllSettled(c.read, |mid|, |f.Abs().text|) ==> Tuned(c, f.Abs().text)
    ensures late <==> Appeared(Reads(c), was, |f.Abs().text|)
    ensures !late ==> Tuned(c, f.Abs().text)
  {
    hide State.Tidy, File.Shown, Appeared, Reads, C.AllSettled, C.FormatCache.Current, C.FormatCache.Valid;
    SizeTrue(f.View());
    late := HasAppeared(c, was, f.size);
    if !late {
      NoneAppeared(c, mid, was, f.size);
    }
  }

  // ------------------------------------------------------------------ whole sessions

  /** The user edits, or a view asks for the span at a position. */
  datatype Act = Editing(op: E.Op) | Seeking(pos: nat)

  function Edits(acts: seq<Act>): seq<E.Op>
    decreases |acts|
  {
    if acts == [] then [] else (if acts[0].Editing? then [acts[0].op] else []) + Edits(acts[1..])
  }

  /** Whatever the file holds and however far it was linearized, the format answers. */
  ghost predicate NeverHangs(f: L.Format) {
    forall text: seq<Byte>, pos: nat :: L.AnswersUpTo(f, text, pos)
  }

  method WholeText(f: File) returns (text: seq<Byte>)
    requires f.Valid()
    ensures text == f.Abs().text
  {
    hide State.Tidy, File.Shown;
    SizeTrue(f.View());
    text := R.ReadAll(f, 0, f.size);
  }

  /** The answer is a span of the linearization of `text` that covers `pos`; or, if none ever does,
      that there is none. */
  ghost predicate Answered(c: C.FormatCache, text: seq<Byte>, r: C.Found, pos: nat)
    reads c
  {
    if r.At? then N.Lies(c.format, text, r.span) && r.span.from <= pos <= r.span.to
    else C.NeverCovered(c.format, text, pos)
  }

  /** A view asks for the span at `pos` of the text as it is. */
  method Ask(f: File, c: C.FormatCache, pos: nat) returns (r: C.Found)
    requires f.Valid() && Tuned(c, f.Abs().text) && f.Footprint() !! c.Footprint() && NeverHangs(c.format)
    modifies c.Footprint()
    ensures f.Valid() && f.View() == old(f.View()) && f.Footprint() == old(f.Footprint())
      && f.Footprint() !! c.Footprint()
    ensures Tuned(c, f.Abs().text) && fresh(c.Footprint() - old(c.Footprint()))
    ensures Answered(c, f.Abs().text, r, pos)
  {
    hide State.Tidy, File.Valid, File.View, File.Abs, Tuned, NeverHangs, Answered;
    var text := WholeText(f);
    r := AskAbout(f, c, pos, text);
  }

  method AskAbout(f: File, c: C.FormatCache, pos: nat, text: seq<Byte>) returns (r: C.Found)
    requires f.Valid() && Tuned(c, text) && f.Footprint() !! c.Footprint() && NeverHangs(c.format)
    modifies c.Footprint()
    ensures f.Valid() && f.View() == old(f.View()) && f.Footprint() == old(f.Footprint())
    ensures Tuned(c, text) && fresh(c.Footprint() - old(c.Footprint()))
    ensures Answered(c, text, r, pos)
  {
    hide State.Tidy, File.Valid, Tuned, NeverHangs, Answered;
    r := AskCache(c, pos, text);
  }

  method AskCache(c: C.FormatCache, pos: nat, text: seq<Byte>) returns (r: C.Found)
    requires Tuned(c, text) && NeverHangs(c.format)
    modifies c.Footprint()
    ensures Tuned(c, text) && fresh(c.Footprint() - old(c.Footprint()))
    ensures Answered(c, text, r, pos)
  {
    hide C.FormatCache.Valid, C.FormatCache.Current, L.AnswersUpTo;
    var it := new C.FormatIterator(c);
    r := it.Seek(pos, text);
  }

  /** The session stopped behind a change that let a range appear which a read had not found. */
  ghost predicate Overtaken(e: E.Editor, acts: seq<Act>, n: nat, s: seq<I.Record>, now: nat)
    requires e.Coherent() && n <= |acts|
  {
    && 0 < n && acts[n - 1].Editing?
    && Appeared(s, |E.Halfway(E.Run(e, Edits(acts[..n - 1])).text, acts[n - 1].op)|, now)
  }

  /** A session up to its end, or to the first undo or redo that is not safe, or to the first change
      that lets a range appear which a read had not found.  The text is that of the editor, and
      unless such a range appeared, all that is cached is right for it.  Without a view that asks
      none appears if all reads lay inside the file at first. */
  method Perform(f: File, c: C.FormatCache, acts: seq<Act>) returns (n: nat, late: bool)
    requires f.Valid() && Tuned(c, f.Abs().text) && f.Footprint() !! c.Footprint() && NeverHangs(c.format)
    modifies f.Footprint(), c.Footprint()
    ensures f.Valid() && c.Valid() && n <= |acts|
    ensures old(f.Abs()).Coherent() && f.Abs() == E.Run(old(f.Abs()), Edits(acts[..n]))
    ensures !late ==> Tuned(c, f.Abs().text)
    ensures n < |acts| && !late ==> acts[n].Editing? && !Safe(f, acts[n].op)
    ensures late ==> Overtaken(old(f.Abs()), acts, n, Reads(c), |f.Abs().text|)
    ensures C.AllBefore(old(Reads(c)), |old(f.Abs()).text|) && OnlyEdits(acts) ==> !late
    ensures old(Neat(f)) && !late ==> n == |acts|
    decreases |acts|
  {
    hide State.Tidy, File.Valid, File.View, State.Abs, Tuned, NeverHangs, Cells, Safe, Neat, Clear, E.Step, E.Run,
         E.Editor.Coherent, Edits, Appeared, C.FormatCache.Valid, Reads, C.AllBefore, E.Halfway, E.Published, E.Fair,
         Overtaken, OnlyEdits, Answered, Survivors;
    Begin(f, c);
    EditsNone(f.View().Abs(), acts);
    n, late := 0, false;
    if acts != [] {
      ghost var e := f.Abs();
      OnlyRest(acts);
      if acts[0].Seeking? {
        var r := Ask(f, c, acts[0].pos);
        n, late := Perform(f, c, acts[1..]);
        SeekStep(e, acts, n, late, Reads(c), |f.Abs().text|);
        n := n + 1;
      } else if Safe(f, acts[0].op) {
        var was;
        ghost var first, second;
        late, was, first, second := Edit(f, c, acts[0].op);
        if late {
          EditsNone(f.View().Abs(), acts[1..]);
          LateNow(e, acts, Reads(c), |f.Abs().text|);
        } else {
          n, late := Perform(f, c, acts[1..]);
        }
        EditStep(e, acts, n, late, Reads(c), |f.Abs().text|);
        n := n + 1;
      }
    }
  }

  predicate OnlyEdits(acts: seq<Act>) { forall i :: 0 <= i < |acts| ==> acts[i].Editing? }

  lemma OnlyRest(acts: seq<Act>)
    requires acts != []
    ensures OnlyEdits(acts) ==> acts[0].Editing? && OnlyEdits(acts[1..])
  {
  }

  lemma Begin(f: File, c: C.FormatCache)
    requires f.Valid() && Tuned(c, f.Abs().text)
    ensures f.Abs().Coherent() && c.Valid() && (Neat(f) ==> forall op :: Safe(f, op))
  {
    hide State.Tidy, Safe;
    Coherence(f.View());
    ClearSafe(f);
  }

  lemma EditsNone(e: E.Editor, acts: seq<Act>)
    ensures Edits(acts[..0]) == [] && (e.Coherent() ==> E.Run(e, Edits(acts[..0])) == e)
  {
  }

  lemma SeekStep(e: E.Editor, acts: seq<Act>, n: nat, late: bool, s: seq<I.Record>, now: nat)
    requires acts != [] && acts[0].Seeking? && n < |acts| && e.Coherent()
    requires late ==> Overtaken(e, acts[1..], n, s, now)
    ensures Edits(acts[..n + 1]) == Edits(acts[1..][..n])
    ensures late ==> Overtaken(e, acts, n + 1, s, now)
  {
    hide E.Run, Appeared, E.Halfway;
    assert acts[..n + 1][1..] == acts[1..][..n];
    if late {
      assert acts[..n][1..] == acts[1..][..n - 1];
      assert Edits(acts[..n]) == Edits(acts[1..][..n - 1]) && acts[1..][n - 1] == acts[n];
    }
  }

  lemma LateNow(e: E.Editor, acts: seq<Act>, s: seq<I.Record>, now: nat)
    requires acts != [] && acts[0].Editing? && e.Coherent() && Appeared(s, |E.Halfway(e.text, acts[0].op)|, now)
    ensures Overtaken(e, acts, 1, s, now)
  {
    EditsNone(e, acts);
  }

  lemma EditStep(e: E.Editor, acts: seq<Act>, n: nat, late: bool, s: seq<I.Record>, now: nat)
    requires acts != [] && acts[0].Editing? && n < |acts| && e.Coherent()
    requires late ==>
      (n == 0 && Overtaken(e, acts, 1, s, now)) || Overtaken(E.Step(e, acts[0].op), acts[1..], n, s, now)
    ensures E.Run(e, Edits(acts[..n + 1])) == E.Run(E.Step(e, acts[0].op), Edits(acts[1..][..n]))
    ensures late ==> Overtaken(e, acts, n + 1, s, now)
  {
    hide E.Step, Appeared, E.Halfway;
    EditsCons(e, acts, n + 1);
    if late && n > 0 {
      EditsCons(e, acts, n);
    }
  }

  lemma EditsCons(e: E.Editor, acts: seq<Act>, n: nat)
    requires acts != [] && acts[0].Editing? && 0 < n <= |acts| && e.Coherent()
    ensures E.Run(e, Edits(acts[..n])) == E.Run(E.Step(e, acts[0].op), Edits(acts[1..][..n - 1]))
  {
    hide E.Step;
    assert acts[..n][1..] == acts[1..][..n - 1];
    var ops := Edits(acts[..n]);
    assert ops == [acts[0].op] + Edits(acts[1..][..n - 1]);
    assert ops[1..] == Edits(acts[1..][..n - 1]);
  }
}
