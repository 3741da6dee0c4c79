/** Undo and redo over the piece list: what the stale outer pointers of removed runs allow. */
module History {
  import opened Links

  /** `pos` is the offset recorded when the change was made. */
  datatype Change = Change(original: Span, replacement: Span, pos: nat)

  ghost predicate Records(c: Change, e: Edit) {
    Names(c.original, e.gone) && Names(c.replacement, e.came)
  }

  ghost predicate RecordsAll(cs: seq<Change>, es: seq<Edit>) {
    |cs| == |es| && forall i :: 0 <= i < |cs| ==> Records(cs[i], es[i])
  }

  ghost predicate Ends(s: Span, p: seq<Piece>) {
    if p == [] then s.start == null && s.end == null
    else s.start == p[0] && s.end == p[|p| - 1]
  }

  /** What always holds of a change: it stores the ends of both runs, and the length of the run
      that went is 0 exactly for none.  The length of the run that came may be charged later. */
  ghost predicate Traces(c: Change, e: Edit) {
    Names(c.original, e.gone) && Ends(c.replacement, e.came) && (e.gone != [] || e.came != [])
  }

  ghost predicate TracesAll(cs: seq<Change>, es: seq<Edit>) {
    |cs| == |es| && forall i :: 0 <= i < |cs| ==> Traces(cs[i], es[i])
  }

  /** The lengths `span_swap` goes by, when it takes the change back: a run that came alone has a
      length, and none has none. */
  predicate Undoes(c: Change) {
    && (c.original.start == null ==> c.replacement.len != 0)
    && (c.replacement.start == null ==> c.replacement.len == 0)
  }

  /** When it applies the change: the length of the run that came is 0 exactly for none. */
  predicate Redoes(c: Change) {
    c.replacement.len == 0 <==> c.replacement.start == null
  }

  predicate UndoesAll(cs: seq<Change>) { forall c :: c in cs ==> Undoes(c) }

  predicate RedoesAll(cs: seq<Change>) { forall c :: c in cs ==> Redoes(c) }

  lemma RedoesRecords(c: Change, e: Edit)
    requires Traces(c, e)
    ensures Redoes(c) <==> Records(c, e)
    ensures Redoes(c) ==> Undoes(c)
  {
  }

  lemma RedoesRecordsAll(cs: seq<Change>, es: seq<Edit>)
    requires TracesAll(cs, es)
    ensures RedoesAll(cs) <==> RecordsAll(cs, es)
    ensures RedoesAll(cs) ==> UndoesAll(cs)
  {
    hide Traces, Redoes, Undoes, Records;
    forall i | 0 <= i < |cs|
      ensures (Redoes(cs[i]) <==> Records(cs[i], es[i])) && (Redoes(cs[i]) ==> Undoes(cs[i]))
    {
      assert Traces(cs[i], es[i]);
      RedoesRecords(cs[i], es[i]);
    }
  }

  // ------------------------------------------------------------------ sequences of edits

  /** The edits lead from the chain `s` to the chain `t`. */
  ghost predicate Leads(s: seq<Piece>, es: seq<Edit>, t: seq<Piece>)
    decreases |es|
  {
    if es == [] then s == t else es[0].From() == s && Leads(es[0].To(), es[1..], t)
  }

  ghost function Start(es: seq<Edit>, s: seq<Piece>): seq<Piece> {
    if es == [] then s else es[0].From()
  }

  ghost function Stop(es: seq<Edit>, s: seq<Piece>): seq<Piece> {
    if es == [] then s else es[|es| - 1].To()
  }

  lemma {:induction false} LeadsStop(s: seq<Piece>, es: seq<Edit>, t: seq<Piece>)
    requires Leads(s, es, t)
    ensures Stop(es, s) == t && Start(es, t) == s
    decreases |es|
  {
    if es != [] {
      LeadsStop(es[0].To(), es[1..], t);
    }
  }

  lemma {:induction false} LeadsSnoc(s: seq<Piece>, es: seq<Edit>, e: Edit)
    requires Leads(s, es, e.From())
    ensures Leads(s, es + [e], e.To())
    decreases |es|
  {
    if es != [] {
      LeadsSnoc(es[0].To(), es[1..], e);
      assert (es + [e])[1..] == es[1..] + [e];
    }
  }

  /** Taking back the last edit. */
  ghost function Back(m: Links, head: Piece, e: Edit): Links {
    Relink(m, head, e.Flip())
  }

  /** The chain `s` is linked, and taking back the edits from the last one to the first
      keeps passing through well-linked chains. */
  ghost predicate Past(m: Links, head: Piece, es: seq<Edit>, s: seq<Piece>)
    decreases |es|
  {
    && Ring(m, head, s)
    && (es != [] ==>
          var e := es[|es| - 1];
          e.To() == s && Past(Back(m, head, e), head, es[..|es| - 1], e.From()))
  }

  /** The chain `s` is linked, and replaying the edits keeps passing through linked chains. */
  ghost predicate Future(m: Links, head: Piece, es: seq<Edit>, s: seq<Piece>)
    decreases |es|
  {
    && Ring(m, head, s)
    && (es != [] ==>
          es[0].From() == s && Future(Relink(m, head, es[0]), head, es[1..], es[0].To()))
  }

  /** Taking the edits back one by one, the last one first. */
  ghost function BackAll(m: Links, head: Piece, es: seq<Edit>): Links
    decreases |es|
  {
    if es == [] then m else BackAll(Back(m, head, es[|es| - 1]), head, es[..|es| - 1])
  }

  ghost function ForthAll(m: Links, head: Piece, es: seq<Edit>): Links
    decreases |es|
  {
    if es == [] then m else ForthAll(Relink(m, head, es[0]), head, es[1..])
  }

  lemma {:induction false} PastPrefix(m: Links, head: Piece, ps: seq<Edit>, es: seq<Edit>, s: seq<Piece>)
    requires Past(m, head, ps + es, s)
    ensures Past(BackAll(m, head, es), head, ps, Start(es, s))
    decreases |es|
  {
    if es != [] {
      var e, rest := es[|es| - 1], es[..|es| - 1];
      assert (ps + es)[..|ps + es| - 1] == ps + rest;
      PastPrefix(Back(m, head, e), head, ps, rest, e.From());
      if rest == [] {
        assert Past(Back(m, head, e), head, ps + rest, e.From());
      } else {
        assert Start(rest, e.From()) == Start(es, s);
      }
    } else {
      assert ps + es == ps;
    }
  }

  lemma {:induction false} FutureGrows(m: Links, head: Piece, ps: seq<Edit>, es: seq<Edit>, fs: seq<Edit>,
                                       s: seq<Piece>)
    requires Past(m, head, ps + es, s) && Future(m, head, fs, s)
    ensures Future(BackAll(m, head, es), head, es + fs, Start(es, s))
    decreases |es|
  {
    if es == [] {
      assert es + fs == fs;
    } else {
      var e, rest := es[|es| - 1], es[..|es| - 1];
      var m' := Back(m, head, e);
      assert (ps + es)[..|ps + es| - 1] == ps + rest;
      RelinkBack(m, head, e.Flip());
      assert e.Flip().Flip() == e;
      assert ([e] + fs)[1..] == fs;
      assert Future(m', head, [e] + fs, e.From());
      FutureGrows(m', head, ps, rest, [e] + fs, e.From());
      assert rest + ([e] + fs) == es + fs;
    }
  }

  lemma {:induction false} ForthOfBack(m: Links, head: Piece, ps: seq<Edit>, es: seq<Edit>, s: seq<Piece>)
    requires Past(m, head, ps + es, s)
    ensures ForthAll(BackAll(m, head, es), head, es) == m
    decreases |es|
  {
    if es != [] {
      var e, rest := es[|es| - 1], es[..|es| - 1];
      var m' := Back(m, head, e);
      assert (ps + es)[..|ps + es| - 1] == ps + rest;
      RelinkBack(m, head, e.Flip());
      assert e.Flip().Flip() == e;
      ForthOfBack(m', head, ps, rest, e.From());
      ForthSnoc(BackAll(m', head, rest), head, rest, e);
      assert es == rest + [e];
    }
  }

  /** Taking a group of edits back in reverse order re-forms the chain before the group, and
      the group can be replayed from there to exactly the same memory. */
  lemma UndoRestores(m: Links, head: Piece, ps: seq<Edit>, es: seq<Edit>, fs: seq<Edit>, s: seq<Piece>)
    requires Past(m, head, ps + es, s) && Future(m, head, fs, s)
    ensures Past(BackAll(m, head, es), head, ps, Start(es, s))
    ensures Future(BackAll(m, head, es), head, es + fs, Start(es, s))
    ensures ForthAll(BackAll(m, head, es), head, es) == m
  {
    PastPrefix(m, head, ps, es, s);
    FutureGrows(m, head, ps, es, fs, s);
    ForthOfBack(m, head, ps, es, s);
  }

  lemma {:induction false} ForthSnoc(m: Links, head: Piece, es: seq<Edit>, e: Edit)
    ensures ForthAll(m, head, es + [e]) == Relink(ForthAll(m, head, es), head, e)
    decreases |es|
  {
    if es == [] {
      assert (es + [e])[1..] == [];
    } else {
      assert (es + [e])[1..] == es[1..] + [e];
      ForthSnoc(Relink(m, head, es[0]), head, es[1..], e);
    }
  }

  /** Replaying a group undoes the undoing. */
  lemma {:induction false} RedoRestores(m: Links, head: Piece, ps: seq<Edit>, es: seq<Edit>, fs: seq<Edit>,
                                        s: seq<Piece>)
    requires Past(m, head, ps, s) && Future(m, head, es + fs, s)
    ensures Past(ForthAll(m, head, es), head, ps + es, Stop(es, s))
    ensures Future(ForthAll(m, head, es), head, fs, Stop(es, s))
    ensures BackAll(ForthAll(m, head, es), head, es) == m
    decreases |es|
  {
    hide Ring, Relink;
    if es == [] {
      assert ps + es == ps && es + fs == fs;
    } else {
      var e, rest := es[0], es[1..];
      var m' := Relink(m, head, e);
      assert (es + fs)[1..] == rest + fs;
      assert (es + fs)[0] == e;
      assert Ring(m, head, e.From());
      RelinkBack(m, head, e);
      assert (ps + [e])[..|ps|] == ps;
      assert Past(m', head, ps + [e], e.To());
      RedoRestores(m', head, ps + [e], rest, fs, e.To());
      assert ps + [e] + rest == ps + es;
      BackCons(ForthAll(m', head, rest), head, e, rest);
      assert [e] + rest == es;
      assert Stop(rest, e.To()) == Stop(es, s);
    }
  }

  lemma {:induction false} BackCons(m: Links, head: Piece, e: Edit, es: seq<Edit>)
    ensures BackAll(m, head, [e] + es) == Back(BackAll(m, head, es), head, e)
    decreases |es|
  {
    var all := [e] + es;
    if es == [] {
      assert all[..|all| - 1] == [];
      assert BackAll(Back(m, head, e), head, []) == Back(m, head, e);
    } else {
      assert all[..|all| - 1] == [e] + es[..|es| - 1];
      BackCons(Back(m, head, es[|es| - 1]), head, e, es[..|es| - 1]);
    }
  }

  /** Recording one more edit. */
  lemma PastPush(m: Links, head: Piece, es: seq<Edit>, e: Edit)
    requires Past(m, head, es, e.From())
    requires Hangs(m, e.Left(head), e.came, e.Right(head)) && Distinct([head] + e.To())
    ensures Past(Relink(m, head, e), head, es + [e], e.To())
  {
    RelinkRing(m, head, e);
    RelinkBack(m, head, e);
    assert (es + [e])[..|es|] == es;
  }

  // ------------------------------------------------------------------ new nodes

  /** `n` holds everything `m` holds. */
  ghost predicate Extends(m: Links, n: Links) {
    && (forall p :: p in m.next ==> p in n.next && n.next[p] == m.next[p])
    && (forall p :: p in m.prev ==> p in n.prev && n.prev[p] == m.prev[p])
  }

  lemma {:induction false} PastExtends(m: Links, n: Links, head: Piece, es: seq<Edit>, s: seq<Piece>)
    requires Past(m, head, es, s) && Extends(m, n)
    ensures Past(n, head, es, s)
    decreases |es|
  {
    PathKept(m, n, [head] + s + [head]);
    if es != [] {
      var e := es[|es| - 1];
      PastExtends(Back(m, head, e), Back(n, head, e), head, es[..|es| - 1], e.From());
    }
  }

  // ------------------------------------------------------------------ undo and redo as coded

  ghost predicate CanSwapAll(m: Links, cs: seq<Change>) {
    forall c :: c in cs ==> CanSwap(m, c.original, c.replacement)
  }

  /** `span_swap(replacement, original)` for each change, last to first: the loop of undo. */
  ghost function Unswapped(m: Links, cs: seq<Change>): Links
    requires CanSwapAll(m, cs)
    decreases |cs|
  {
    if cs == [] then m else
    var c, rest := cs[|cs| - 1], cs[..|cs| - 1];
    var n := SwapLinks(m, c.replacement, c.original);
    Unswapped(n, rest)
  }

  /** `span_swap(original, replacement)` for each change, first to last: the loop of redo. */
  ghost function Swapped(m: Links, cs: seq<Change>): Links
    requires CanSwapAll(m, cs)
    decreases |cs|
  {
    if cs == [] then m else
    var n := SwapLinks(m, cs[0].original, cs[0].replacement);
    Swapped(n, cs[1..])
  }

  lemma PastGrip(m: Links, head: Piece, es: seq<Edit>, e: Edit)
    requires Past(m, head, es + [e], e.To())
    ensures Grips(m, head, e.Flip())
  {
    assert (es + [e])[..|es|] == es;
    var b := Back(m, head, e);
    RingParts(b, head, e);
    NeighboursApart(head, e.Flip());
    PathKept(b, m, e.gone);
    RingGrips(m, head, e.Flip());
  }

  lemma StillSwaps(m: Links, o: Span, r: Span, cs: seq<Change>, ds: seq<Change>)
    requires CanSwapAll(m, cs) && CanSwap(m, o, r) && forall d :: d in ds ==> d in cs
    ensures CanSwapAll(SwapLinks(m, o, r), ds)
  {
  }

  /** The run that went still hangs from its old neighbours. */
  lemma GoneHangs(m: Links, head: Piece, es: seq<Edit>, e: Edit)
    requires Past(m, head, es + [e], e.To())
    ensures Ring(m, head, e.To()) && Hangs(m, e.Left(head), e.gone, e.Right(head))
    ensures e.gone != [] ==> e.gone[|e.gone| - 1] != e.Left(head)
  {
    assert (es + [e])[..|es|] == es;
    var b := Back(m, head, e);
    RingParts(b, head, e);
    RingParts(m, head, e.Flip());
    NeighboursApart(head, e.Flip());
    PathKept(b, m, e.gone);
  }

  /** `span_swap` takes the last edit back if and only if the lengths are those it goes by. */
  lemma BackStep(m: Links, head: Piece, es: seq<Edit>, e: Edit, c: Change)
    requires Past(m, head, es + [e], e.To()) && Traces(c, e)
    ensures (CanSwap(m, c.replacement, c.original) && SwapLinks(m, c.replacement, c.original) == Back(m, head, e))
      <==> Undoes(c)
  {
    hide Past, Path, Distinct;
    GoneHangs(m, head, es, e);
    PastGrip(m, head, es, e);
    CameLinked(m, head, e);
    if Undoes(c) {
      SwapOfGrips(m, head, e, c);
    } else if e.came != [] {
      SwapSkips(m, head, e, c);
    }
  }

  lemma CameLinked(m: Links, head: Piece, e: Edit)
    requires Ring(m, head, e.To())
    ensures e.Left(head) in m.next && e.Right(head) in m.prev && Hangs(m, e.Left(head), e.came, e.Right(head))
    ensures e.came != [] ==> m.next[e.Left(head)] == e.came[0] && e.came[0] != e.Right(head)
    ensures e.came == [] ==> m.next[e.Left(head)] == e.Right(head)
  {
    RingParts(m, head, e.Flip());
    NeighboursApart(head, e);
    assert e.came != [] ==> e.came[0] in e.came;
  }

  lemma SwapOfGrips(m: Links, head: Piece, e: Edit, c: Change)
    requires Traces(c, e) && Undoes(c) && Grips(m, head, e.Flip())
    requires e.gone != [] ==>
      && e.gone[0] in m.prev && m.prev[e.gone[0]] == e.Left(head)
      && e.gone[|e.gone| - 1] in m.next && m.next[e.gone[|e.gone| - 1]] == e.Right(head)
      && e.gone[|e.gone| - 1] != e.Left(head)
    ensures CanSwap(m, c.replacement, c.original) && SwapLinks(m, c.replacement, c.original) == Back(m, head, e)
  {
  }

  /** A change with both lengths 0 is not taken back. */
  lemma SwapSkips(m: Links, head: Piece, e: Edit, c: Change)
    requires Traces(c, e) && !Undoes(c) && e.came != [] && e.Left(head) in m.next && m.next[e.Left(head)] == e.came[0]
    requires e.came[0] != e.Right(head)
    ensures e.gone == [] && CanSwap(m, c.replacement, c.original)
    ensures SwapLinks(m, c.replacement, c.original) == m != Back(m, head, e)
  {
    assert Back(m, head, e).next[e.Left(head)] == e.Right(head);
  }

  /** The loop of undo does, swap by swap, what taking back each edit asks for. */
  ghost predicate TakesBack(m: Links, head: Piece, es: seq<Edit>, cs: seq<Change>)
    decreases |es|
  {
    |cs| == |es| &&
    (es != [] ==>
       var e, c := es[|es| - 1], cs[|cs| - 1];
       && CanSwap(m, c.replacement, c.original) && SwapLinks(m, c.replacement, c.original) == Back(m, head, e)
       && TakesBack(Back(m, head, e), head, es[..|es| - 1], cs[..|cs| - 1]))
  }

  /** It does so if and only if the lengths of the revision are those it goes by. */
  lemma {:induction false} TakesBackIff(m: Links, head: Piece, ps: seq<Edit>, es: seq<Edit>, s: seq<Piece>,
                                        cs: seq<Change>)
    requires Past(m, head, ps + es, s) && TracesAll(cs, es)
    ensures TakesBack(m, head, es, cs) <==> UndoesAll(cs)
    decreases |es|
  {
    hide Ring, SwapLinks, CanSwap, Relink, Undoes, Traces;
    if es != [] {
      var n := |es| - 1;
      var e, rest := es[n], es[..n];
      assert ps + es == (ps + rest) + [e] && (ps + es)[..|ps + es| - 1] == ps + rest;
      assert Traces(cs[n], e);
      BackStep(m, head, ps + rest, e, cs[n]);
      TakesBackIff(Back(m, head, e), head, ps, rest, e.From(), cs[..n]);
      assert cs == cs[..n] + [cs[n]];
    }
  }

  /** The loop of undo then follows only pointers that are right: it takes the edits back. */
  lemma {:induction false} UnswappedIsBackAll(m: Links, head: Piece, es: seq<Edit>, cs: seq<Change>)
    requires TakesBack(m, head, es, cs) && CanSwapAll(m, cs)
    ensures Unswapped(m, cs) == BackAll(m, head, es)
    decreases |es|
  {
    hide SwapLinks, CanSwap, Relink;
    if es != [] {
      var n := |es| - 1;
      var c := cs[n];
      assert c in cs && CanSwap(m, c.original, c.replacement);
      StillSwaps(m, c.replacement, c.original, cs, cs[..n]);
      UnswappedIsBackAll(Back(m, head, es[n]), head, es[..n], cs[..n]);
    }
  }

  lemma FutureGrip(m: Links, head: Piece, e: Edit)
    requires Ring(m, head, e.From()) && Ring(Relink(m, head, e), head, e.To())
    ensures Grips(m, head, e)
  {
    var n := Relink(m, head, e);
    RingParts(n, head, e.Flip());
    NeighboursApart(head, e);
    PathKept(n, m, e.came);
    RingGrips(m, head, e);
  }

  /** `span_swap` applies an edit if and only if the length of the run that comes is 0 exactly for
      none. */
  lemma ForthStep(m: Links, head: Piece, e: Edit, c: Change)
    requires Ring(m, head, e.From()) && Ring(Relink(m, head, e), head, e.To()) && Traces(c, e)
    ensures (CanSwap(m, c.original, c.replacement) && SwapLinks(m, c.original, c.replacement) == Relink(m, head, e))
      <==> Redoes(c)
  {
    FutureGrip(m, head, e);
    CameLinked(m, head, e.Flip());
    CameLinked(Relink(m, head, e), head, e);
    CameHangs(m, head, e);
    hide Ring, Grips;
    if Redoes(c) {
      RedoesRecords(c, e);
      assert Grips(m, head, e);
      SwapIsRelink(m, head, e, c.original, c.replacement);
    } else if e.came != [] {
      assert Relink(m, head, e).next[e.Left(head)] == e.came[0];
    }
  }

  lemma CameHangs(m: Links, head: Piece, e: Edit)
    requires Ring(m, head, e.From()) && Ring(Relink(m, head, e), head, e.To())
    ensures Hangs(m, e.Left(head), e.came, e.Right(head))
  {
    var n := Relink(m, head, e);
    RingParts(n, head, e.Flip());
    RingParts(m, head, e);
    NeighboursApart(head, e);
    PathKept(n, m, e.came);
  }

  ghost predicate AppliesAll(m: Links, head: Piece, es: seq<Edit>, cs: seq<Change>)
    decreases |es|
  {
    |cs| == |es| &&
    (es != [] ==>
       && CanSwap(m, cs[0].original, cs[0].replacement)
       && SwapLinks(m, cs[0].original, cs[0].replacement) == Relink(m, head, es[0])
       && AppliesAll(Relink(m, head, es[0]), head, es[1..], cs[1..]))
  }

  lemma {:induction false} AppliesAllIff(m: Links, head: Piece, es: seq<Edit>, fs: seq<Edit>, s: seq<Piece>,
                                         cs: seq<Change>)
    requires Future(m, head, es + fs, s) && TracesAll(cs, es)
    ensures AppliesAll(m, head, es, cs) <==> RedoesAll(cs)
    decreases |es|
  {
    hide Ring, SwapLinks, CanSwap, Relink, Redoes, Traces;
    if es != [] {
      var e := es[0];
      assert (es + fs)[0] == e && (es + fs)[1..] == es[1..] + fs;
      assert Traces(cs[0], e);
      ForthStep(m, head, e, cs[0]);
      forall i | 0 <= i < |cs| - 1 ensures Traces(cs[1..][i], es[1..][i]) {
        assert Traces(cs[i + 1], es[i + 1]);
      }
      AppliesAllIff(Relink(m, head, e), head, es[1..], fs, e.To(), cs[1..]);
      assert cs == [cs[0]] + cs[1..];
    }
  }

  /** And the loop of redo applies them again. */
  lemma {:induction false} SwappedIsForthAll(m: Links, head: Piece, es: seq<Edit>, cs: seq<Change>)
    requires AppliesAll(m, head, es, cs) && CanSwapAll(m, cs)
    ensures Swapped(m, cs) == ForthAll(m, head, es)
    decreases |es|
  {
    hide SwapLinks, CanSwap, Relink;
    if es != [] {
      var c := cs[0];
      assert c in cs && CanSwap(m, c.original, c.replacement);
      StillSwaps(m, c.original, c.replacement, cs, cs[1..]);
      SwappedIsForthAll(Relink(m, head, es[0]), head, es[1..], cs[1..]);
    }
  }

  // ------------------------------------------------------------------ when lengths mislead

  /** A change whose recorded lengths are both 0 is skipped: the pieces it brought stay linked. */
  lemma EmptiedStaysLinked(m: Links, head: Piece, e: Edit, c: Change)
    requires Ring(m, head, e.To()) && e.gone == [] && e.came != []
    requires c.original.len == 0 && c.replacement.len == 0
    ensures SwapLinks(m, c.replacement, c.original) == m && !Ring(m, head, e.From())
  {
    RingParts(m, head, e.Flip());
    NeighboursApart(head, e);
    assert e.Flip().Entry(head) == e.came[0] && e.came[0] in e.came;
    assert e.Entry(head) == e.Right(head) && e.Flip().Left(head) == e.Left(head);
    if Ring(m, head, e.From()) {
      RingParts(m, head, e);
    }
  }

  /** A change that could not be taken back may do no harm: a hollow run left at the gap of an
      earlier deletion of the same revision goes out of the list when the deletion is taken back. */
  lemma {:induction false} HealedByDeletion(m: Links, head: Piece, es: seq<Edit>, cs: seq<Change>, d: Edit, e: Edit)
    requires es == [d, e] && Past(m, head, es, e.To()) && TracesAll(cs, es) && Undoes(cs[0])
    requires d.came == [] && d.before == e.before && d.after == e.after
    requires e.gone == [] && e.came != [] && cs[1].replacement.len == 0
    ensures !Undoes(cs[1]) && CanSwapAll(m, cs) && Unswapped(m, cs) == BackAll(m, head, es)
  {
    hide Ring, SwapLinks, Relink;
    assert Traces(cs[0], d) && Traces(cs[1], e);
    assert es[..1] == [d] && cs[..1] == [cs[0]] && cs == [cs[0], cs[1]];
    HealedStep(m, head, d, e, cs[0], cs[1]);
    OnlyOne(m, head, cs[0], d);
    OnlyOne(Back(m, head, e), head, cs[0], d);
  }

  lemma OnlyOne(m: Links, head: Piece, c: Change, e: Edit)
    ensures CanSwapAll(m, [c]) ==> Unswapped(m, [c]) == SwapLinks(m, c.replacement, c.original)
    ensures BackAll(m, head, [e]) == Back(m, head, e)
  {
    assert [c][..0] == [] && [e][..0] == [];
  }

  lemma PastTwo(m: Links, head: Piece, d: Edit, e: Edit)
    requires Past(m, head, [d, e], e.To())
    ensures Past(Back(m, head, e), head, [] + [d], d.To()) && Ring(m, head, e.To())
    ensures Ring(Back(Back(m, head, e), head, d), head, d.From())
  {
    assert [d, e][..1] == [] + [d] && [d, e][1] == e && ([] + [d])[..0] == [];
    PastOne(Back(m, head, e), head, [] + [d], d);
  }

  lemma PastOne(m: Links, head: Piece, es: seq<Edit>, d: Edit)
    requires Past(m, head, es, d.To()) && es == [d]
    ensures Ring(Back(m, head, d), head, d.From())
  {
    hide Ring, Relink;
    assert es[|es| - 1] == d && es[..|es| - 1] == [];
    assert Past(Back(m, head, d), head, [], d.From());
  }

  lemma HealedStep(m: Links, head: Piece, d: Edit, e: Edit, c: Change, f: Change)
    requires Past(m, head, [d, e], e.To()) && Traces(c, d) && Traces(f, e) && Undoes(c)
    requires d.came == [] && d.before == e.before && d.after == e.after
    requires e.gone == [] && e.came != [] && f.replacement.len == 0
    ensures CanSwap(m, f.replacement, f.original) && SwapLinks(m, f.replacement, f.original) == m
    ensures CanSwap(m, c.replacement, c.original)
    ensures SwapLinks(m, c.replacement, c.original) == Back(Back(m, head, e), head, d)
  {
    var b := Back(m, head, e);
    PastTwo(m, head, d, e);
    GoneHangs(b, head, [], d);
    CameLinked(m, head, e);
    PastTwo(m, head, d, e);
    NeighboursApart(head, d.Flip());
    assert d.gone[0] in d.gone && d.gone[|d.gone| - 1] in d.gone;
  }

  // ------------------------------------------------------------------ all but one change in order

  lemma {:induction false} UnswappedCons(m: Links, c: Change, cs: seq<Change>)
    requires CanSwapAll(m, [c] + cs)
    ensures CanSwapAll(m, cs) && CanSwap(Unswapped(m, cs), c.replacement, c.original)
    ensures Unswapped(m, [c] + cs) == SwapLinks(Unswapped(m, cs), c.replacement, c.original)
    decreases |cs|
  {
    hide SwapLinks;
    var all := [c] + cs;
    assert c in all && forall d :: d in cs ==> d in all;
    if cs == [] {
      assert all[..0] == [] && all[0] == c;
    } else {
      var n := |cs| - 1;
      assert cs[n] in all && all[..|all| - 1] == [c] + cs[..n];
      StillSwaps(m, cs[n].replacement, cs[n].original, all, [c] + cs[..n]);
      UnswappedCons(SwapLinks(m, cs[n].replacement, cs[n].original), c, cs[..n]);
    }
  }

  lemma {:induction false} SwappedSnoc(m: Links, cs: seq<Change>, c: Change)
    requires CanSwapAll(m, cs + [c])
    ensures CanSwapAll(m, cs) && CanSwap(Swapped(m, cs), c.original, c.replacement)
    ensures Swapped(m, cs + [c]) == SwapLinks(Swapped(m, cs), c.original, c.replacement)
    decreases |cs|
  {
    hide SwapLinks, CanSwap;
    var all := cs + [c];
    assert c in all && forall d :: d in cs ==> d in all;
    if cs == [] {
      assert all[1..] == [] && all[0] == c;
    } else {
      assert cs[0] in all && all[1..] == cs[1..] + [c];
      StillSwaps(m, cs[0].original, cs[0].replacement, all, cs[1..] + [c]);
      SwappedSnoc(SwapLinks(m, cs[0].original, cs[0].replacement), cs[1..], c);
    }
  }

  /** When all changes behind the first one are in order, the loop of undo forms the list in front of
      the first edit if and only if that one is in order too. */
  lemma UnswappedRing(m: Links, head: Piece, ps: seq<Edit>, es: seq<Edit>, s: seq<Piece>, cs: seq<Change>)
    requires Past(m, head, ps + es, s) && TracesAll(cs, es) && es != [] && CanSwapAll(m, cs) && UndoesAll(cs[1..])
    ensures Ring(Unswapped(m, cs), head, es[0].From()) <==> Undoes(cs[0])
  {
    hide Ring, SwapLinks, Relink, Undoes, Traces, CanSwap;
    var e, rest := es[0], es[1..];
    assert es == [e] + rest && cs == [cs[0]] + cs[1..] && ps + es == (ps + [e]) + rest;
    UnswappedCons(m, cs[0], cs[1..]);
    forall i | 0 <= i < |rest| ensures Traces(cs[1..][i], rest[i]) {
      assert Traces(cs[i + 1], es[i + 1]);
    }
    assert Traces(cs[0], e);
    TakesBackIff(m, head, ps + [e], rest, s, cs[1..]);
    UnswappedIsBackAll(m, head, rest, cs[1..]);
    PastPrefix(m, head, ps + [e], rest, s);
    PastStart(m, head, ps, e, rest, s);
    LastRing(BackAll(m, head, rest), head, ps, e, cs[0]);
  }

  lemma {:induction false} PastStart(m: Links, head: Piece, ps: seq<Edit>, e: Edit, es: seq<Edit>, s: seq<Piece>)
    requires Past(m, head, (ps + [e]) + es, s)
    ensures Start(es, s) == e.To()
    decreases |es|
  {
    hide Ring;
    PastPrefix(m, head, ps + [e], es, s);
    assert (ps + [e])[|ps|] == e;
  }

  lemma LastRing(m: Links, head: Piece, ps: seq<Edit>, e: Edit, c: Change)
    requires Past(m, head, ps + [e], e.To()) && Traces(c, e) && CanSwap(m, c.replacement, c.original)
    ensures Ring(SwapLinks(m, c.replacement, c.original), head, e.From()) <==> Undoes(c)
  {
    hide Ring, SwapLinks;
    BackStep(m, head, ps, e, c);
    assert (ps + [e])[..|ps|] == ps;
    if !Undoes(c) {
      EmptiedStaysLinked(m, head, e, c);
    }
  }

  /** And the loop of redo that behind the last edit. */
  lemma SwappedRing(m: Links, head: Piece, es: seq<Edit>, fs: seq<Edit>, s: seq<Piece>, cs: seq<Change>)
    requires Future(m, head, es + fs, s) && TracesAll(cs, es) && es != [] && CanSwapAll(m, cs)
      && RedoesAll(cs[..|cs| - 1])
    ensures Ring(Swapped(m, cs), head, es[|es| - 1].To()) <==> Redoes(cs[|cs| - 1])
  {
    hide Ring, SwapLinks, Relink, Redoes, Traces, CanSwap, Future, Swapped, ForthAll, AppliesAll;
    var n := |es| - 1;
    var e, rest := es[n], es[..n];
    assert cs == cs[..n] + [cs[n]] && es + fs == rest + ([e] + fs);
    SwappedSnoc(m, cs[..n], cs[n]);
    TracesFront(cs, es, n);
    AppliesAllIff(m, head, rest, [e] + fs, s, cs[..n]);
    SwappedIsForthAll(m, head, rest, cs[..n]);
    FutureLast(m, head, rest, e, fs, s);
    NextRing(ForthAll(m, head, rest), head, e, cs[n]);
  }

  lemma TracesFront(cs: seq<Change>, es: seq<Edit>, n: nat)
    requires TracesAll(cs, es) && n < |es|
    ensures TracesAll(cs[..n], es[..n]) && Traces(cs[n], es[n])
  {
    hide Traces;
    forall i | 0 <= i < n ensures Traces(cs[..n][i], es[..n][i]) {
      assert Traces(cs[i], es[i]);
    }
  }

  lemma {:induction false} FutureLast(m: Links, head: Piece, es: seq<Edit>, e: Edit, fs: seq<Edit>, s: seq<Piece>)
    requires Future(m, head, es + ([e] + fs), s)
    ensures var n := ForthAll(m, head, es); Ring(n, head, e.From()) && Ring(Relink(n, head, e), head, e.To())
    decreases |es|
  {
    hide Ring, Relink;
    if es == [] {
      assert es + ([e] + fs) == [e] + fs;
    } else {
      assert (es + ([e] + fs))[1..] == es[1..] + ([e] + fs) && (es + ([e] + fs))[0] == es[0];
      FutureLast(Relink(m, head, es[0]), head, es[1..], e, fs, es[0].To());
    }
  }

  lemma NextRing(m: Links, head: Piece, e: Edit, c: Change)
    requires Ring(m, head, e.From()) && Ring(Relink(m, head, e), head, e.To()) && Traces(c, e)
    requires CanSwap(m, c.original, c.replacement)
    ensures Ring(SwapLinks(m, c.original, c.replacement), head, e.To()) <==> Redoes(c)
  {
    ForthStep(m, head, e, c);
    if !Redoes(c) {
      MissingRun(m, head, e, c);
    }
  }

  /** A run whose length is 0 does not come. */
  lemma MissingRun(m: Links, head: Piece, e: Edit, c: Change)
    requires Ring(m, head, e.From()) && Ring(Relink(m, head, e), head, e.To()) && Traces(c, e)
    requires CanSwap(m, c.original, c.replacement) && e.came != [] && c.replacement.len == 0
    ensures !Ring(SwapLinks(m, c.original, c.replacement), head, e.To())
  {
    CameLinked(m, head, e.Flip());
    CameLinked(Relink(m, head, e), head, e);
    NeighboursApart(head, e.Flip());
    var n := SwapLinks(m, c.original, c.replacement);
    assert n.next[e.Left(head)] == e.Right(head);
    if Ring(n, head, e.To()) {
      CameLinked(n, head, e);
    }
  }
}
