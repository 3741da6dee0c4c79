/** The whole history of a file as a value, and what each operation keeps of it. */
module Trace {
  import opened Bytes
  import opened Links
  import opened Chain
  import opened History

  /** `marks[i]` is the chain at revision `i`, `edits[i]` led there from revision `i - 1`,
      and `draft` led from the current revision to `chain`.  Revision 0 is where undo stops;
      the change that opened the file is not tracked, so `edits[0]` is empty. */
  datatype Trace = Trace(
    chain: seq<Piece>, links: Links, text: Texts,
    marks: seq<seq<Piece>>, edits: seq<seq<Edit>>, draft: seq<Edit>)
  {
    ghost predicate Shaped(cur: nat) {
      && |marks| == |edits| && cur < |marks| && edits[0] == []
      && (draft != [] ==> cur == |marks| - 1)
    }

    /** Every edit starts from the chain the one before it ended with. */
    ghost predicate Threaded(cur: nat)
      requires Shaped(cur)
    {
      && (forall i, j :: 0 <= i && j == i + 1 && j < |marks| ==> Leads(marks[i], edits[j], marks[j]))
      && Leads(marks[cur], draft, chain)
    }

    ghost function Applied(cur: nat): seq<Edit>
      requires Shaped(cur)
    {
      Flat(edits[..cur + 1]) + draft
    }

    ghost function Undone(cur: nat): seq<Edit>
      requires Shaped(cur)
    {
      Flat(edits[cur + 1..])
    }

    /** The linked memory can be wound back to revision 0 and forth to the last one. */
    ghost predicate Windable(head: Piece, cur: nat)
      requires Shaped(cur)
    {
      Past(links, head, Applied(cur), chain) && Future(links, head, Undone(cur), chain)
    }

    /** Every piece mentioned anywhere has bytes and links. */
    ghost predicate Covered(head: Piece) {
      && Closed(links) && links.next.Keys == text.Keys + {head} && head !in text
      && Known(text, chain)
      && (forall i :: 0 <= i < |marks| ==> Known(text, marks[i]))
      && (forall i :: 0 <= i < |edits| ==> AllKnown(text, edits[i]))
      && AllKnown(text, draft)
    }

    /** A piece is brought by one edit only, and nothing earlier knows it. */
    ghost predicate Novel() {
      && (forall i, j :: 0 <= j < i < |edits| && j < |marks| ==> NewTo(edits[i], marks[j], edits[j]))
      && (forall i :: 0 <= i < |edits| ==> Once(edits[i]))
      && (forall j :: 0 <= j < |edits| && j < |marks| ==> NewTo(draft, marks[j], edits[j]))
      && Once(draft)
    }

    ghost predicate Sound(head: Piece, cur: nat) {
      Shaped(cur) && Threaded(cur) && Windable(head, cur) && Covered(head) && Novel()
    }
  }

  /** The pieces that the edits bring. */
  ghost function Brought(es: seq<Edit>): set<Piece> { set k, p | 0 <= k < |es| && p in es[k].came :: p }

  /** The pieces that the edits bring or take out. */
  ghost function Mentioned(es: seq<Edit>): set<Piece> {
    set k, p | 0 <= k < |es| && p in es[k].came + es[k].gone :: p
  }

  /** What `es` brings is neither in the chain `s` nor mentioned by `fs`. */
  ghost predicate NewTo(es: seq<Edit>, s: seq<Piece>, fs: seq<Edit>) {
    Brought(es) !! (set p | p in s) && Brought(es) !! Mentioned(fs)
  }

  /** No edit brings what one in front of it mentions. */
  ghost predicate Once(es: seq<Edit>) {
    forall k, l, p :: 0 <= k < l < |es| && p in es[l].came ==> p !in es[k].came && p !in es[k].gone
  }

  /** Pieces without bytes so far are new to everything. */
  lemma PushNovel(g: Trace, e: Edit)
    requires g.Novel() && forall i :: 0 <= i < |g.marks| ==> Known(g.text, g.marks[i])
    requires (forall i :: 0 <= i < |g.edits| ==> AllKnown(g.text, g.edits[i])) && AllKnown(g.text, g.draft)
    requires forall p :: p in e.came ==> p !in g.text
    ensures g.(draft := g.draft + [e]).Novel()
  {
    var ds := g.draft + [e];
    forall j | 0 <= j < |g.edits| && j < |g.marks| ensures NewTo(ds, g.marks[j], g.edits[j]) {
      PushNew(g.text, g.draft, e, g.marks[j], g.edits[j]);
    }
    forall k, l, p | 0 <= k < l < |ds| && p in ds[l].came ensures p !in ds[k].came && p !in ds[k].gone {
      assert EditKnown(g.text, g.draft[k]);
    }
  }

  lemma PushNew(t: Texts, es: seq<Edit>, e: Edit, s: seq<Piece>, fs: seq<Edit>)
    requires NewTo(es, s, fs) && Known(t, s) && AllKnown(t, fs) && forall p :: p in e.came ==> p !in t
    ensures NewTo(es + [e], s, fs)
  {
    forall p | p in Brought(es + [e]) ensures p !in s && p !in Mentioned(fs) {
      var k :| 0 <= k < |es + [e]| && p in (es + [e])[k].came;
      assert k < |es| ==> p in es[k].came && p in Brought(es);
      MentionedKnown(t, fs);
    }
  }

  lemma MentionedKnown(t: Texts, es: seq<Edit>)
    requires AllKnown(t, es)
    ensures forall p :: p in Mentioned(es) ==> p in t
  {
    forall p | p in Mentioned(es) ensures p in t {
      var k :| 0 <= k < |es| && p in es[k].came + es[k].gone;
      assert EditKnown(t, es[k]);
    }
  }

  /** What a purge frees: `change_free` frees what the dropped revisions brought. */
  ghost function Freed(g: Trace, cur: nat): set<Piece> {
    set i, p | cur < i < |g.edits| && p in Brought(g.edits[i]) :: p
  }

  /** None of the pieces is linked or mentioned. */
  ghost predicate Unused(g: Trace, ps: set<Piece>) {
    && ps !! (set p | p in g.chain) && ps !! Mentioned(g.draft)
    && (forall j :: 0 <= j < |g.marks| ==> ps !! (set p | p in g.marks[j]))
    && (forall j :: 0 <= j < |g.edits| ==> ps !! Mentioned(g.edits[j]))
  }

  /** A purge frees nothing that is linked or mentioned by a revision that is kept. */
  lemma PurgeFrees(g: Trace, head: Piece, cur: nat)
    requires g.Sound(head, cur)
    ensures Unused(Purged(g, cur), Freed(g, cur))
    ensures Freed(g, cur) != {} ==> g.draft == []
  {
    hide Brought, Mentioned;
    var f := Freed(g, cur);
    forall p | p in f
      ensures g.draft == [] && p !in g.chain
      ensures forall j :: 0 <= j <= cur ==> p !in g.marks[j] && p !in Mentioned(g.edits[j])
    {
      var i :| cur < i < |g.edits| && p in Brought(g.edits[i]);
      assert g.draft == [] && g.chain == g.marks[cur];
      forall j | 0 <= j <= cur ensures p !in g.marks[j] && p !in Mentioned(g.edits[j]) {
        assert NewTo(g.edits[i], g.marks[j], g.edits[j]);
      }
    }
    NothingMentioned(g.draft);
  }

  lemma NothingMentioned(es: seq<Edit>)
    ensures es == [] ==> Mentioned(es) == {} && Brought(es) == {}
  {
  }

  lemma InBrought(es: seq<Edit>, k: nat, p: Piece)
    requires k < |es| && p in es[k].came
    ensures p in Brought(es) && p in Mentioned(es)
  {
    assert p in es[k].came + es[k].gone;
  }

  /** And no piece is freed twice. */
  lemma FreedOnce(g: Trace, head: Piece, cur: nat, i: nat, k: nat, j: nat, l: nat, p: Piece)
    requires g.Sound(head, cur) && i < |g.edits| && j < |g.edits| && k < |g.edits[i]| && l < |g.edits[j]|
    requires p in g.edits[i][k].came && p in g.edits[j][l].came
    ensures i == j && k == l
  {
    hide Trace.Threaded, Trace.Windable, Trace.Covered;
    InBrought(g.edits[i], k, p);
    InBrought(g.edits[j], l, p);
    hide Brought, Mentioned;
    assert j < i ==> NewTo(g.edits[i], g.marks[j], g.edits[j]);
    assert i < j ==> NewTo(g.edits[j], g.marks[i], g.edits[i]);
    assert i == j ==> Once(g.edits[i]);
  }

  /** Both pointers of `p` lead to pieces that have pointers themselves. */
  ghost predicate Leashed(m: Links, p: Piece) {
    && (p in m.next ==> m.next[p] in m.next.Keys)
    && (p in m.prev ==> m.prev[p] in m.next.Keys)
  }

  ghost predicate Closed(m: Links) {
    && m.next.Keys == m.prev.Keys
    && (forall p {:trigger Leashed(m, p)} :: p in m.next.Keys ==> Leashed(m, p))
  }

  ghost predicate EditKnown(t: Texts, e: Edit) {
    Known(t, e.before) && Known(t, e.gone) && Known(t, e.came) && Known(t, e.after)
  }

  ghost predicate AllKnown(t: Texts, es: seq<Edit>) {
    forall e :: e in es ==> EditKnown(t, e)
  }

  ghost function Flat(ess: seq<seq<Edit>>): seq<Edit> {
    if ess == [] then [] else ess[0] + Flat(ess[1..])
  }

  lemma {:induction false} FlatConcat(a: seq<seq<Edit>>, b: seq<seq<Edit>>)
    ensures Flat(a + b) == Flat(a) + Flat(b)
    decreases |a|
  {
    if a == [] {
      assert a + b == b;
    } else {
      assert (a + b)[1..] == a[1..] + b;
      FlatConcat(a[1..], b);
    }
  }

  lemma FlatSnoc(a: seq<seq<Edit>>, es: seq<Edit>)
    ensures Flat(a + [es]) == Flat(a) + es
  {
    FlatConcat(a, [es]);
    assert [es][1..] == [];
  }

  // ------------------------------------------------------------------ transitions

  /** `revision_purge`: the revisions after the current one are forgotten. */
  ghost function Purged(g: Trace, cur: nat): Trace
    requires g.Shaped(cur)
  {
    g.(marks := g.marks[..cur + 1], edits := g.edits[..cur + 1])
  }

  lemma PurgeSound(g: Trace, head: Piece, cur: nat)
    requires g.Sound(head, cur)
    ensures Purged(g, cur).Sound(head, cur)
  {
    var h := Purged(g, cur);
    assert h.edits[..cur + 1] == g.edits[..cur + 1];
    assert h.edits[cur + 1..] == [];
  }

  /** A new change is appended to the pending ones. */
  ghost function Pushed(g: Trace, head: Piece, links: Links, text: Texts, e: Edit): Trace {
    g.(chain := e.To(), links := Relink(links, head, e), text := text, draft := g.draft + [e])
  }

  lemma PushSound(g: Trace, head: Piece, cur: nat, links: Links, text: Texts, e: Edit)
    requires g.Sound(head, cur) && cur == |g.marks| - 1
    requires e.From() == g.chain && EditKnown(text, e)
    requires Extends(g.links, links) && Closed(links)
    requires g.text.Keys <= text.Keys && links.next.Keys == text.Keys + {head} && head !in text
    requires Hangs(links, e.Left(head), e.came, e.Right(head)) && Distinct([head] + e.To())
    requires forall p :: p in e.came ==> p !in g.text
    ensures Pushed(g, head, links, text, e).Sound(head, cur)
  {
    PushNovel(g, e);
    PushWinds(g, head, cur, links, text, e);
    PushCovered(g, head, links, text, e);
    NovelSame(g.(draft := g.draft + [e]), Pushed(g, head, links, text, e));
  }

  lemma NovelSame(g: Trace, h: Trace)
    requires g.Novel() && h.marks == g.marks && h.edits == g.edits && h.draft == g.draft
    ensures h.Novel()
  {
  }

  lemma PushWinds(g: Trace, head: Piece, cur: nat, links: Links, text: Texts, e: Edit)
    requires g.Shaped(cur) && g.Threaded(cur) && g.Windable(head, cur) && cur == |g.marks| - 1
    requires e.From() == g.chain && Extends(g.links, links)
    requires Hangs(links, e.Left(head), e.came, e.Right(head)) && Distinct([head] + e.To())
    ensures var h := Pushed(g, head, links, text, e); h.Shaped(cur) && h.Threaded(cur) && h.Windable(head, cur)
  {
    var h := Pushed(g, head, links, text, e);
    PastExtends(g.links, links, head, g.Applied(cur), g.chain);
    PastPush(links, head, g.Applied(cur), e);
    assert h.Applied(cur) == g.Applied(cur) + [e];
    LeadsSnoc(g.marks[cur], g.draft, e);
    assert h.edits[cur + 1..] == [];
  }

  lemma PushCovered(g: Trace, head: Piece, links: Links, text: Texts, e: Edit)
    requires g.Covered(head) && EditKnown(text, e) && Closed(links)
    requires g.text.Keys <= text.Keys && links.next.Keys == text.Keys + {head} && head !in text
    ensures Pushed(g, head, links, text, e).Covered(head)
  {
    RelinkClosed(links, head, e, text);
  }

  /** The bytes of one piece change in place. */
  lemma RewriteSound(g: Trace, head: Piece, cur: nat, p: Piece, x: seq<Byte>)
    requires g.Sound(head, cur) && p in g.text
    ensures g.(text := g.text[p := x]).Sound(head, cur)
  {
    hide Trace.Novel;
    NovelSame(g, g.(text := g.text[p := x]));
    var h := g.(text := g.text[p := x]);
    assert h.text.Keys == g.text.Keys;
    assert h.Applied(cur) == g.Applied(cur) && h.Undone(cur) == g.Undone(cur);
  }

  /** `hedit_file_commit_revision`: the pending changes become a revision. */
  ghost function Committed(g: Trace): Trace {
    if g.draft == [] then g
    else g.(marks := g.marks + [g.chain], edits := g.edits + [g.draft], draft := [])
  }

  lemma CommitNovel(g: Trace)
    requires g.Novel() && |g.marks| == |g.edits|
    ensures Committed(g).Novel()
  {
    NothingMentioned([]);
  }

  lemma CommitSound(g: Trace, head: Piece, cur: nat)
    requires g.Sound(head, cur)
    ensures Committed(g).Sound(head, if g.draft == [] then cur else cur + 1)
  {
    hide Trace.Novel;
    CommitNovel(g);
    if g.draft != [] {
      var h := Committed(g);
      assert h.edits[..cur + 2] == g.edits[..cur + 1] + [g.draft];
      FlatSnoc(g.edits[..cur + 1], g.draft);
      assert h.Applied(cur + 1) == g.Applied(cur);
      assert h.edits[cur + 2..] == [] && g.edits[cur + 1..] == [];
    }
  }

  /** The current revision is taken back, last edit first. */
  ghost function Reverted(g: Trace, head: Piece, cur: nat): Trace
    requires g.Shaped(cur) && 0 < cur
  {
    g.(chain := g.marks[cur - 1], links := BackAll(g.links, head, g.edits[cur]))
  }

  lemma RevertSound(g: Trace, head: Piece, cur: nat)
    requires g.Sound(head, cur) && g.draft == [] && 0 < cur
    ensures Reverted(g, head, cur).Sound(head, cur - 1)
  {
    hide Trace.Novel, Trace.Windable, Trace.Covered, Past, Future, Trace.Applied, Trace.Undone;
    NovelSame(g, Reverted(g, head, cur));
    RevertWinds(g, head, cur);
    RevertCovered(g, head, cur);
  }

  lemma RevertCovered(g: Trace, head: Piece, cur: nat)
    requires g.Shaped(cur) && g.Covered(head) && 0 < cur
    ensures Reverted(g, head, cur).Covered(head)
  {
    BackAllClosed(g.links, head, g.edits[cur], g.text);
  }

  lemma RevertWinds(g: Trace, head: Piece, cur: nat)
    requires g.Shaped(cur) && g.Threaded(cur) && g.Windable(head, cur) && g.draft == [] && 0 < cur
    ensures var h := Reverted(g, head, cur); h.Shaped(cur - 1) && h.Threaded(cur - 1) && h.Windable(head, cur - 1)
  {
    var h := Reverted(g, head, cur);
    var es := g.edits[cur];
    assert g.edits[..cur + 1] == g.edits[..cur] + [es];
    FlatSnoc(g.edits[..cur], es);
    assert g.Applied(cur) == Flat(g.edits[..cur]) + es;
    assert g.chain == g.marks[cur];
    LeadsStop(g.marks[cur - 1], es, g.marks[cur]);
    UndoRestores(g.links, head, Flat(g.edits[..cur]), es, g.Undone(cur), g.chain);
    assert g.edits[cur..] == [es] + g.edits[cur + 1..];
    FlatConcat([es], g.edits[cur + 1..]);
    assert [es][1..] == [];
    assert h.Undone(cur - 1) == es + g.Undone(cur);
    assert h.Applied(cur - 1) == Flat(g.edits[..cur]);
  }

  lemma {:induction false} BackAllClosed(m: Links, head: Piece, es: seq<Edit>, t: Texts)
    requires Closed(m) && m.next.Keys == t.Keys + {head} && AllKnown(t, es)
    ensures Closed(BackAll(m, head, es)) && BackAll(m, head, es).next.Keys == m.next.Keys
    decreases |es|
  {
    if es != [] {
      assert es[|es| - 1] in es;
      RelinkClosed(m, head, es[|es| - 1].Flip(), t);
      BackAllClosed(Back(m, head, es[|es| - 1]), head, es[..|es| - 1], t);
    }
  }

  lemma RelinkClosed(m: Links, head: Piece, e: Edit, t: Texts)
    requires Closed(m) && m.next.Keys == t.Keys + {head} && EditKnown(t, e)
    ensures Closed(Relink(m, head, e)) && Relink(m, head, e).next.Keys == m.next.Keys
  {
    var n := Relink(m, head, e);
    assert e.Left(head) in m.next.Keys && e.Right(head) in m.next.Keys;
    assert e.Flip().Entry(head) in m.next.Keys && e.Flip().Exit(head) in m.next.Keys;
    assert n.next.Keys == m.next.Keys && n.prev.Keys == m.prev.Keys;
    forall p | p in n.next.Keys ensures Leashed(n, p) {
      assert Leashed(m, p);
    }
  }

  /** The revision after the current one is applied again, first edit first. */
  ghost function Replayed(g: Trace, head: Piece, cur: nat): Trace
    requires g.Shaped(cur) && cur + 1 < |g.marks|
  {
    g.(chain := g.marks[cur + 1], links := ForthAll(g.links, head, g.edits[cur + 1]))
  }

  lemma ReplaySplits(g: Trace, head: Piece, cur: nat)
    requires g.Shaped(cur) && g.draft == [] && cur + 1 < |g.marks|
    ensures g.Undone(cur) == g.edits[cur + 1] + Flat(g.edits[cur + 2..])
    ensures Replayed(g, head, cur).Applied(cur + 1) == g.Applied(cur) + g.edits[cur + 1]
    ensures Replayed(g, head, cur).Undone(cur + 1) == Flat(g.edits[cur + 2..])
  {
    var es := g.edits[cur + 1];
    assert g.edits[cur + 1..] == [es] + g.edits[cur + 2..];
    FlatConcat([es], g.edits[cur + 2..]);
    assert [es][1..] == [];
    assert g.edits[..cur + 2] == g.edits[..cur + 1] + [es];
    FlatSnoc(g.edits[..cur + 1], es);
  }

  lemma ReplayWindable(g: Trace, head: Piece, cur: nat)
    requires g.Sound(head, cur) && g.draft == [] && cur + 1 < |g.marks|
    ensures Replayed(g, head, cur).Shaped(cur + 1) && Replayed(g, head, cur).Windable(head, cur + 1)
  {
    ReplaySplits(g, head, cur);
    StopOfLeads(g.marks[cur], g.edits[cur + 1], g.marks[cur + 1]);
    RedoRestores(g.links, head, g.Applied(cur), g.edits[cur + 1], Flat(g.edits[cur + 2..]), g.chain);
  }

  lemma StopOfLeads(s: seq<Piece>, es: seq<Edit>, t: seq<Piece>)
    requires Leads(s, es, t)
    ensures Stop(es, s) == t
  {
    LeadsStop(s, es, t);
  }

  lemma ReplaySound(g: Trace, head: Piece, cur: nat)
    requires g.Sound(head, cur) && g.draft == [] && cur + 1 < |g.marks|
    ensures Replayed(g, head, cur).Sound(head, cur + 1)
  {
    hide Trace.Novel;
    NovelSame(g, Replayed(g, head, cur));
    ReplayWindable(g, head, cur);
    ForthAllClosed(g.links, head, g.edits[cur + 1], g.text);
  }

  lemma {:induction false} ForthAllClosed(m: Links, head: Piece, es: seq<Edit>, t: Texts)
    requires Closed(m) && m.next.Keys == t.Keys + {head} && AllKnown(t, es)
    ensures Closed(ForthAll(m, head, es)) && ForthAll(m, head, es).next.Keys == m.next.Keys
    decreases |es|
  {
    if es != [] {
      RelinkClosed(m, head, es[0], t);
      ForthAllClosed(Relink(m, head, es[0]), head, es[1..], t);
    }
  }

  /** Undoing and then redoing a revision is the identity on chain and links. */
  lemma RedoUndoesUndo(g: Trace, head: Piece, cur: nat)
    requires g.Sound(head, cur) && g.draft == [] && 0 < cur
    ensures Reverted(g, head, cur).Shaped(cur - 1)
    ensures Replayed(Reverted(g, head, cur), head, cur - 1) == g
  {
    var es := g.edits[cur];
    assert g.edits[..cur + 1] == g.edits[..cur] + [es];
    FlatSnoc(g.edits[..cur], es);
    assert g.Applied(cur) == Flat(g.edits[..cur]) + es;
    ForthOfBack(g.links, head, Flat(g.edits[..cur]), es, g.chain);
  }
}
