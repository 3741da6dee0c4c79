/** Recording a change: new pieces hang from the neighbours of the run they replace. */
module Recording {
  import opened Bytes
  import opened Links
  import opened Chain
  import opened Heap
  import opened History
  import opened Trace
  import opened Ledger
  import opened State

  /** The pieces with indices `i` up to `j` give way to `ps`. */
  ghost function Splice(s: State, i: nat, j: nat, ps: seq<Piece>): Edit
    requires i <= j <= |s.g.chain|
  {
    Edit(s.g.chain[..i], s.g.chain[i..j], ps, s.g.chain[j..])
  }

  ghost function Before(s: State, i: nat): Piece
    requires i <= |s.g.chain|
  {
    ([s.head] + s.g.chain)[i]
  }

  ghost function After(s: State, j: nat): Piece
    requires j <= |s.g.chain|
  {
    (s.g.chain + [s.head])[j]
  }

  ghost function Members(ps: seq<Piece>): set<Piece> { set p | p in ps }

  /** `n` is `m` with the new pieces `ps` added, hanging between `l` and `r`. */
  ghost predicate Hung(m: Links, n: Links, l: Piece, ps: seq<Piece>, r: Piece) {
    && Extends(m, n) && Hangs(n, l, ps, r) && Distinct(ps)
    && n.next.Keys == n.prev.Keys
    && n.next.Keys == m.next.Keys + Members(ps)
    && (forall p :: p in ps ==> p !in m.next.Keys)
  }

  /** `u` is `t` with the texts of `ps` added. */
  ghost predicate Added(t: Texts, u: Texts, ps: seq<Piece>) {
    && Grows(t, u) && u.Keys == t.Keys + Members(ps)
  }

  /** What the chain of `s` gives the new pieces to hang from. */
  ghost predicate Anchored(s: State) {
    && Ring(s.g.links, s.head, s.g.chain) && Closed(s.g.links) && Known(s.g.text, s.g.chain)
    && s.g.links.next.Keys == s.g.text.Keys + {s.head} && s.head !in s.g.text
  }

  lemma HungClosed(m: Links, n: Links, l: Piece, ps: seq<Piece>, r: Piece)
    requires Closed(m) && Hung(m, n, l, ps, r) && l in m.next.Keys && r in m.next.Keys
    ensures Closed(n)
  {
    forall q | q in n.next.Keys ensures Leashed(n, q) {
      if q in m.next.Keys {
        assert Leashed(m, q);
      } else {
        var i :| 0 <= i < |ps| && ps[i] == q;
        if i > 0 {
          assert Adjacent(n, ps[i - 1], ps[i]);
        }
        if i + 1 < |ps| {
          assert Adjacent(n, ps[i], ps[i + 1]);
        }
      }
    }
  }

  lemma DistinctSwap(x: seq<Piece>, g: seq<Piece>, y: seq<Piece>, ps: seq<Piece>)
    requires Distinct(x + g + y) && Distinct(ps)
    requires forall p :: p in ps ==> p !in x && p !in y
    ensures Distinct(x + ps + y)
  {
    var s, t := x + g + y, x + ps + y;
    forall i, j | 0 <= i < j < |t| ensures t[i] != t[j] {
      var n := |ps|;
      if |x| <= i < |x| + n && |x| <= j < |x| + n {
        assert t[i] == ps[i - |x|] && t[j] == ps[j - |x|];
      } else if !(|x| <= i < |x| + n) && !(|x| <= j < |x| + n) {
        var a := if i < |x| then i else i - n + |g|;
        var b := if j < |x| then j else j - n + |g|;
        assert t[i] == s[a] && t[j] == s[b];
      } else {
        var a, b := if |x| <= i < |x| + n then i else j, if |x| <= i < |x| + n then j else i;
        assert t[a] == ps[a - |x|] && t[a] in ps;
        assert t[b] == if b < |x| then x[b] else y[b - |x| - n];
      }
    }
  }

  lemma SpliceEnds(s: State, i: nat, j: nat, ps: seq<Piece>)
    requires i <= j <= |s.g.chain|
    ensures Splice(s, i, j, ps).From() == s.g.chain
    ensures Splice(s, i, j, ps).Left(s.head) == Before(s, i) && Splice(s, i, j, ps).Right(s.head) == After(s, j)
  {
    var c := s.g.chain;
    assert c == c[..i] + c[i..j] + c[j..];
  }

  lemma SpliceDistinct(s: State, i: nat, j: nat, ps: seq<Piece>)
    requires Distinct([s.head] + s.g.chain) && i <= j <= |s.g.chain| && Distinct(ps)
    requires forall p :: p in ps ==> p !in s.g.chain && p != s.head
    ensures Distinct([s.head] + Splice(s, i, j, ps).To())
  {
    var c := s.g.chain;
    assert [s.head] + c == ([s.head] + c[..i]) + c[i..j] + c[j..];
    DistinctSwap([s.head] + c[..i], c[i..j], c[j..], ps);
    assert [s.head] + Splice(s, i, j, ps).To() == ([s.head] + c[..i]) + ps + c[j..];
  }

  lemma AnchorKeys(s: State, i: nat, j: nat, links: Links, ps: seq<Piece>)
    requires Anchored(s) && i <= j <= |s.g.chain| && Hung(s.g.links, links, Before(s, i), ps, After(s, j))
    ensures Before(s, i) in s.g.links.next.Keys && After(s, j) in s.g.links.next.Keys
    ensures forall p :: p in ps ==> p !in s.g.text && p !in s.g.chain && p != s.head
    ensures Distinct([s.head] + s.g.chain) && Distinct(ps)
  {
    hide Closed, Path;
    assert forall p :: p in s.g.chain ==> p in s.g.links.next.Keys;
  }

  lemma SpliceKnown(s: State, i: nat, j: nat, ps: seq<Piece>, text: Texts)
    requires Known(s.g.text, s.g.chain) && i <= j <= |s.g.chain| && Added(s.g.text, text, ps)
    ensures EditKnown(text, Splice(s, i, j, ps)) && Known(text, Splice(s, i, j, ps).To())
  {
  }

  lemma HungParts(m: Links, n: Links, l: Piece, ps: seq<Piece>, r: Piece, t: Texts, u: Texts, head: Piece)
    requires Hung(m, n, l, ps, r) && Added(t, u, ps) && m.next.Keys == t.Keys + {head} && head !in t
    ensures Extends(m, n) && Hangs(n, l, ps, r) && Grows(t, u)
    ensures n.next.Keys == u.Keys + {head} && head !in u
  {
    hide Extends, Hangs, Grows, Distinct;
  }

  /** New pieces that hang between the right neighbours make the edit ready to be linked. */
  lemma Poising(s: State, i: nat, j: nat, ps: seq<Piece>, links: Links, text: Texts)
    requires Anchored(s) && i <= j <= |s.g.chain|
    requires Hung(s.g.links, links, Before(s, i), ps, After(s, j)) && Added(s.g.text, text, ps)
    ensures Poised(s.g, s.head, links, text, Splice(s, i, j, ps))
  {
    hide Ring, Closed, Distinct, EditKnown, Extends, Grows, Hangs, Hung, Added, Before, After, Known;
    AnchorKeys(s, i, j, links, ps);
    HungClosed(s.g.links, links, Before(s, i), ps, After(s, j));
    SpliceEnds(s, i, j, ps);
    SpliceDistinct(s, i, j, ps);
    SpliceKnown(s, i, j, ps, text);
    HungParts(s.g.links, links, Before(s, i), ps, After(s, j), s.g.text, text, s.head);
  }

  // ------------------------------------------------------------------ the text after a splice

  lemma CutText(t: Texts, c: seq<Piece>, i: nat, j: nat)
    requires Known(t, c) && i <= j <= |c|
    ensures Offset(t, c, i) <= Offset(t, c, j) <= |Text(t, c)|
    ensures Text(t, c)[..Offset(t, c, i)] == Text(t, c[..i])
    ensures Text(t, c)[Offset(t, c, i)..Offset(t, c, j)] == Text(t, c[i..j])
    ensures Text(t, c)[Offset(t, c, j)..] == Text(t, c[j..])
  {
    assert c == c[..i] + c[i..j] + c[j..] && c[..j] == c[..i] + c[i..j];
    TextThree(t, c[..i], c[i..j], c[j..]);
    TextConcat(t, c[..i], c[i..j]);
  }

  /** The text around the replaced run stays. */
  lemma SpliceText(s: State, i: nat, j: nat, ps: seq<Piece>, text: Texts)
    requires Known(s.g.text, s.g.chain) && i <= j <= |s.g.chain| && Added(s.g.text, text, ps)
    requires Known(text, Splice(s, i, j, ps).To())
    ensures Offset(s.g.text, s.g.chain, i) <= Offset(s.g.text, s.g.chain, j) <= |Text(s.g.text, s.g.chain)|
    ensures Text(text, Splice(s, i, j, ps).To()) ==
      Text(s.g.text, s.g.chain)[..Offset(s.g.text, s.g.chain, i)] + Text(text, ps)
      + Text(s.g.text, s.g.chain)[Offset(s.g.text, s.g.chain, j)..]
  {
    var c, t := s.g.chain, s.g.text;
    CutText(t, c, i, j);
    TextKept(t, text, c[..i]);
    TextKept(t, text, c[j..]);
    TextThree(text, c[..i], ps, c[j..]);
  }

  /** The replaced run keeps its bytes. */
  lemma GoneText(s: State, i: nat, j: nat, text: Texts)
    requires Known(s.g.text, s.g.chain) && i <= j <= |s.g.chain| && Grows(s.g.text, text)
    ensures Known(text, s.g.chain[i..j])
    ensures |Text(text, s.g.chain[i..j])| == Offset(s.g.text, s.g.chain, j) - Offset(s.g.text, s.g.chain, i)
  {
    CutText(s.g.text, s.g.chain, i, j);
    TextKept(s.g.text, text, s.g.chain[i..j]);
  }

  // ------------------------------------------------------------------ new bytes

  /** `data` was appended to block `b`, the last one, at `off`. */
  ghost predicate Reserved(s: State, bs: seq<Block>, st: Store, b: Block, off: nat, data: seq<Byte>) {
    && bs != [] && LastOf(bs) == b && (forall c :: c in bs ==> c in st)
    && Spelled(s.g.text, s.at, st) && Cuts(Slice(b, off, |data|), st, data) && off + |data| == |st[b]|
    && (forall p {:trigger s.at[p]} :: p in s.at && s.at[p].block == b ==> s.at[p].off + s.at[p].size <= off)
  }

  lemma Appended(text: Texts, at: Slices, st: Store, b: Block, off: nat, data: seq<Byte>)
    requires Spelled(text, at, st) && b in st && off == |st[b]|
    ensures var u := st[b := Inserted(st[b], off, data)];
      && Spelled(text, at, u) && Cuts(Slice(b, off, |data|), u, data) && off + |data| == |u[b]|
      && (forall p {:trigger at[p]} :: p in at && at[p].block == b ==> at[p].off + at[p].size <= off)
  {
    assert Inserted(st[b], off, data) == st[b] + data;
    SpelledAppend(text, at, st, b, data);
    forall p | p in at && at[p].block == b ensures at[p].off + at[p].size <= off {
      assert Cuts(at[p], st, text[p]);
    }
  }

  // ------------------------------------------------------------------ the change and its effect

  /** What `span_init` makes of both runs of an edit. */
  ghost function ChangeOf(text: Texts, e: Edit, pos: nat): Change
    requires EditKnown(text, e)
  {
    Change(SpanOf(text, e.gone), SpanOf(text, e.came), pos)
  }

  ghost function SpanOf(text: Texts, p: seq<Piece>): Span
    requires Known(text, p)
  {
    if p == [] then Span(null, null, 0) else Span(p[0], p[|p| - 1], |Text(text, p)|)
  }

  lemma SpanOfNames(text: Texts, p: seq<Piece>)
    requires Weighs(text, p)
    ensures Names(SpanOf(text, p), p) && Ends(SpanOf(text, p), p) && SpanOf(text, p).len == |Text(text, p)|
  {
  }

  /** Everything the code needs to find in memory to record and apply the edit. */
  ghost predicate Ready(links: Links, text: Texts, head: Piece, e: Edit, pos: nat) {
    && Closed(links) && EditKnown(text, e)
    && Path(links, e.gone) && Path(links, e.came) && Distinct(e.gone) && Distinct(e.came)
    && (var c := ChangeOf(text, e, pos);
        && (c.original.len != 0 || c.replacement.len != 0)
        && CanSwap(links, c.original, c.replacement)
        && SwapLinks(links, c.original, c.replacement) == Relink(links, head, e))
  }

  lemma Readying(s: State, i: nat, j: nat, ps: seq<Piece>, links: Links, text: Texts, pos: nat)
    requires Anchored(s) && i <= j <= |s.g.chain| && (i < j || ps != [])
    requires Hung(s.g.links, links, Before(s, i), ps, After(s, j)) && Added(s.g.text, text, ps)
    requires Full(Splice(s, i, j, ps), text)
    ensures Ready(links, text, s.head, Splice(s, i, j, ps), pos)
  {
    var e := Splice(s, i, j, ps);
    Poising(s, i, j, ps, links, text);
    AnchorRing(s);
    hide Hung, Added, Anchored, Ring;
    PoisedParts(s.g, s.head, links, text, e);
    SpanOfNames(text, e.gone);
    SpanOfNames(text, e.came);
    hide Poised, Closed, SwapLinks, Relink, CanSwap;
    PoisedSwap(s.g, s.head, links, text, e, ChangeOf(text, e, pos));
    RunsLinked(s.g.links, links, s.head, e);
  }

  lemma AnchorRing(s: State)
    requires Anchored(s)
    ensures Ring(s.g.links, s.head, s.g.chain)
  {
  }

  lemma PoisedParts(g: Trace, head: Piece, links: Links, text: Texts, e: Edit)
    requires Poised(g, head, links, text, e)
    ensures Closed(links) && EditKnown(text, e) && Extends(g.links, links) && e.From() == g.chain
    ensures Hangs(links, e.Left(head), e.came, e.Right(head)) && Distinct([head] + e.To())
  {
  }

  lemma RunsLinked(m: Links, links: Links, head: Piece, e: Edit)
    requires Ring(m, head, e.From()) && Extends(m, links)
    requires Hangs(links, e.Left(head), e.came, e.Right(head)) && Distinct([head] + e.To())
    ensures Path(links, e.gone) && Path(links, e.came) && Distinct(e.gone) && Distinct(e.came)
  {
    RingParts(m, head, e);
    PathKept(m, links, e.gone);
    assert [head] + e.From() == ([head] + e.before) + e.gone + e.after;
    assert [head] + e.To() == ([head] + e.before) + e.came + e.after;
    hide Distinct;
    DistinctMiddle([head] + e.before, e.gone, e.after);
    DistinctMiddle([head] + e.before, e.came, e.after);
  }

  lemma DistinctMiddle(a: seq<Piece>, b: seq<Piece>, c: seq<Piece>)
    requires Distinct(a + b + c)
    ensures Distinct(b)
  {
    assert forall x :: 0 <= x < |b| ==> (a + b + c)[|a| + x] == b[x];
  }

  /** `s` with the edit recorded and applied. */
  ghost function Spliced(s: State, bs: seq<Block>, st: Store, at: Slices, links: Links, text: Texts,
                         e: Edit, pos: nat, cache: Piece?): State
    requires EditKnown(text, e)
  {
    var c := ChangeOf(text, e, pos);
    s.(size := s.size - c.original.len + c.replacement.len, blocks := bs, cache := cache,
       pending := s.pending + [c], at := at, store := st, g := Pushed(s.g, s.head, links, text, e))
  }

  /** Recording keeps the invariant, given what became of the cache and of the text. */
  lemma SplicedTidy(s: State, bs: seq<Block>, st: Store, at: Slices, links: Links, text: Texts,
                    i: nat, j: nat, ps: seq<Piece>, pos: nat, cache: Piece?)
    requires s.Tidy() && s.cur == |s.g.marks| - 1 && i <= j <= |s.g.chain|
    requires Hung(s.g.links, links, Before(s, i), ps, After(s, j)) && Added(s.g.text, text, ps)
    requires EditKnown(text, Splice(s, i, j, ps)) && Full(Splice(s, i, j, ps), text) && (i < j || ps != [])
    requires Spelled(text, at, st) && forall b :: b in bs ==> b in st
    requires var t := Spliced(s, bs, st, at, links, text, Splice(s, i, j, ps), pos, cache);
      t.CacheOk() && Agree(s.Contents(), t.Contents(), pos)
    ensures var t := Spliced(s, bs, st, at, links, text, Splice(s, i, j, ps), pos, cache);
      t.Tidy() && Extended(s, t, links, Splice(s, i, j, ps), ChangeOf(text, Splice(s, i, j, ps), pos))
  {
    var e := Splice(s, i, j, ps);
    var t := Spliced(s, bs, st, at, links, text, e, pos, cache);
    SplicedExtended(s, bs, st, at, links, text, i, j, ps, pos, cache);
    SplicedSize(s, i, j, ps, text);
    Basics(s);
    hide State.Tidy, Extended, Hung, Added, Spelled, State.CacheOk, Agree, Splice, Before, After, EditKnown;
    PushTidy(s, t, links, e, ChangeOf(text, e, pos));
  }

  lemma TidyAnchored(s: State)
    requires s.Tidy()
    ensures Anchored(s)
  {
    Basics(s);
  }

  lemma SplicedExtended(s: State, bs: seq<Block>, st: Store, at: Slices, links: Links, text: Texts,
                        i: nat, j: nat, ps: seq<Piece>, pos: nat, cache: Piece?)
    requires s.Tidy() && s.cur == |s.g.marks| - 1 && i <= j <= |s.g.chain|
    requires Hung(s.g.links, links, Before(s, i), ps, After(s, j)) && Added(s.g.text, text, ps)
    requires EditKnown(text, Splice(s, i, j, ps)) && Full(Splice(s, i, j, ps), text) && (i < j || ps != [])
    ensures Extended(s, Spliced(s, bs, st, at, links, text, Splice(s, i, j, ps), pos, cache), links,
                     Splice(s, i, j, ps), ChangeOf(text, Splice(s, i, j, ps), pos))
  {
    hide State.Tidy, Hung, Added, Anchored, EditKnown, Poised, Traces, ChangeOf, Full;
    TidyAnchored(s);
    Poising(s, i, j, ps, links, text);
    SpliceSome(s, i, j, ps);
    ChangeTraces(text, Splice(s, i, j, ps), pos);
  }

  lemma SpliceSome(s: State, i: nat, j: nat, ps: seq<Piece>)
    requires i <= j <= |s.g.chain| && (i < j || ps != [])
    ensures Splice(s, i, j, ps).gone != [] || Splice(s, i, j, ps).came != []
  {
  }

  /** A change has true lengths when it is recorded. */
  lemma ChangeTraces(text: Texts, e: Edit, pos: nat)
    requires EditKnown(text, e) && Full(e, text) && (e.gone != [] || e.came != [])
    ensures Traces(ChangeOf(text, e, pos), e) && Redoes(ChangeOf(text, e, pos)) && Undoes(ChangeOf(text, e, pos))
  {
    SpanOfNames(text, e.gone);
    SpanOfNames(text, e.came);
  }

  lemma SplicedSize(s: State, i: nat, j: nat, ps: seq<Piece>, text: Texts)
    requires s.Tidy() && i <= j <= |s.g.chain| && Added(s.g.text, text, ps)
    requires EditKnown(text, Splice(s, i, j, ps))
    ensures Known(text, Splice(s, i, j, ps).To())
    ensures var c := ChangeOf(text, Splice(s, i, j, ps), 0);
      s.size - c.original.len + c.replacement.len == |Text(text, Splice(s, i, j, ps).To())|
  {
    Basics(s);
    hide State.Tidy;
    SpliceText(s, i, j, ps, text) by { SpliceKnown(s, i, j, ps, text); }
    GoneText(s, i, j, text);
    SpliceKnown(s, i, j, ps, text);
  }

  lemma SpliceRuns(s: State, i: nat, j: nat, ps: seq<Piece>)
    requires i <= j <= |s.g.chain|
    ensures Splice(s, i, j, ps).gone == s.g.chain[i..j] && Splice(s, i, j, ps).came == ps
    ensures i == j ==> s.g.chain[i..j] == []
  {
  }
}
