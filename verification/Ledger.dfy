/** What the recorded changes say about the edits they stand for. */
module Ledger {
  import opened Bytes
  import opened Links
  import opened Chain
  import opened History
  import opened Trace

  type Revision = seq<Change>

  // ------------------------------------------------------------------ recorded lengths

  ghost predicate Truth(c: Change, e: Edit, t: Texts) {
    EditKnown(t, e) && c.original.len == |Text(t, e.gone)| && c.replacement.len == |Text(t, e.came)|
  }

  /** Every recorded length is the number of bytes in the span. */
  ghost predicate TruthAll(cs: Revision, es: seq<Edit>, t: Texts) {
    |cs| == |es| && forall i :: 0 <= i < |cs| ==> Truth(cs[i], es[i], t)
  }

  ghost predicate Weighs(t: Texts, p: seq<Piece>) {
    Known(t, p) && (p != [] ==> Text(t, p) != [])
  }

  /** No span consists of emptied pieces only. */
  ghost predicate Full(e: Edit, t: Texts) {
    Weighs(t, e.gone) && Weighs(t, e.came)
  }

  ghost predicate FullAll(es: seq<Edit>, t: Texts) {
    forall i :: 0 <= i < |es| ==> Full(es[i], t)
  }

  /** Then the length of a span tells whether it has pieces, as `span_swap` takes for granted. */
  lemma TruthRecords(cs: Revision, es: seq<Edit>, t: Texts)
    requires TracesAll(cs, es) && TruthAll(cs, es, t) && FullAll(es, t)
    ensures RedoesAll(cs) && UndoesAll(cs)
  {
    forall i | 0 <= i < |cs| ensures Records(cs[i], es[i]) {
      assert Traces(cs[i], es[i]) && Truth(cs[i], es[i], t) && Full(es[i], t);
    }
    RedoesRecordsAll(cs, es);
  }

  /** A non-zero length comes with ends to follow: `span_swap` follows no null pointer. */
  predicate NullSafe(cs: Revision) {
    forall c :: c in cs ==>
      && (c.original.len != 0 ==> c.original.start != null && c.original.end != null)
      && (c.replacement.len != 0 ==> c.replacement.start != null && c.replacement.end != null)
  }

  lemma UndoesNullSafe(cs: Revision, es: seq<Edit>)
    requires TracesAll(cs, es) && UndoesAll(cs)
    ensures NullSafe(cs)
  {
    forall c | c in cs
      ensures c.original.len != 0 ==> c.original.start != null && c.original.end != null
      ensures c.replacement.len != 0 ==> c.replacement.start != null && c.replacement.end != null
    {
      var i :| 0 <= i < |cs| && cs[i] == c;
      assert Traces(cs[i], es[i]);
    }
  }

  lemma NullSafeCanSwap(m: Links, cs: Revision, es: seq<Edit>, t: Texts, head: Piece)
    requires TracesAll(cs, es) && NullSafe(cs) && AllKnown(t, es)
    requires m.next.Keys == m.prev.Keys == t.Keys + {head}
    ensures CanSwapAll(m, cs)
  {
    forall c | c in cs ensures CanSwap(m, c.original, c.replacement) {
      var i :| 0 <= i < |cs| && cs[i] == c;
      assert Traces(cs[i], es[i]) && EditKnown(t, es[i]);
    }
  }

  // ------------------------------------------------------------------ recorded positions

  /** The least position recorded in a revision. */
  ghost function Low(cs: Revision): nat {
    if cs == [] then 0
    else if |cs| == 1 then cs[0].pos
    else Min(Low(cs[..|cs| - 1]), cs[|cs| - 1].pos)
  }

  lemma LowSnoc(cs: Revision, c: Change)
    ensures Low(cs + [c]) == if cs == [] then c.pos else Min(Low(cs), c.pos)
  {
    assert (cs + [c])[..|cs|] == cs;
  }

  /** It is one of them, and no other is less. */
  lemma {:induction false} LowLeast(cs: Revision)
    requires cs != []
    ensures (forall i :: 0 <= i < |cs| ==> Low(cs) <= cs[i].pos) && (exists i :: 0 <= i < |cs| && Low(cs) == cs[i].pos)
    decreases |cs|
  {
    var n := |cs| - 1;
    if n == 0 {
      assert Low(cs) == cs[0].pos;
    } else {
      LowLeast(cs[..n]);
      var i :| 0 <= i < n && Low(cs[..n]) == cs[..n][i].pos;
      assert Low(cs) == cs[if cs[n].pos < cs[i].pos then n else i].pos;
      forall j | 0 <= j < n ensures Low(cs) <= cs[j].pos {
        assert cs[..n][j] == cs[j];
      }
    }
  }

  lemma {:induction false} LowSame(cs: Revision, ds: Revision)
    requires |cs| == |ds| && forall i :: 0 <= i < |cs| ==> cs[i].pos == ds[i].pos
    ensures Low(cs) == Low(ds)
    decreases |cs|
  {
    if |cs| > 1 {
      LowSame(cs[..|cs| - 1], ds[..|ds| - 1]);
    }
  }

  /** How many bytes the changes of a revision add, as recorded. */
  ghost function Growth(cs: Revision): int {
    if cs == [] then 0 else cs[0].replacement.len - cs[0].original.len + Growth(cs[1..])
  }

  lemma {:induction false} GrowthSnoc(cs: Revision, c: Change)
    ensures Growth(cs + [c]) == Growth(cs) + c.replacement.len - c.original.len
    decreases |cs|
  {
    if cs == [] {
      assert ([] + [c])[1..] == [];
    } else {
      assert (cs + [c])[1..] == cs[1..] + [c];
      GrowthSnoc(cs[1..], c);
    }
  }

  /** With true lengths that is the difference between the texts. */
  lemma {:induction false} GrowthTrue(t: Texts, s: seq<Piece>, es: seq<Edit>, u: seq<Piece>, cs: Revision)
    requires Leads(s, es, u) && TruthAll(cs, es, t) && Known(t, s)
    ensures Known(t, u) && |Text(t, u)| == |Text(t, s)| + Growth(cs)
    decreases |es|
  {
    if es != [] {
      var e := es[0];
      assert Truth(cs[0], e, t);
      TextThree(t, e.before, e.gone, e.after);
      TextThree(t, e.before, e.came, e.after);
      forall i | 0 <= i < |cs| - 1 ensures Truth(cs[1..][i], es[1..][i], t) {
        assert Truth(cs[i + 1], es[i + 1], t);
      }
      GrowthTrue(t, e.To(), es[1..], u, cs[1..]);
    }
  }

  // ------------------------------------------------------------------ the books as a whole

  ghost function TextOf(g: Trace, s: seq<Piece>): seq<Byte>
  {
    if Known(g.text, s) then Text(g.text, s) else []
  }

  /** From the text `x` to the text `y` by the changes `cs`: the same in front of their least
      position, and longer by what they record. */
  ghost predicate Carries(x: seq<Byte>, y: seq<Byte>, cs: Revision) {
    Agree(x, y, Low(cs)) && |y| == |x| + Growth(cs)
  }

  /** Spans name their pieces, no revision changed a byte in front of its least position, and each
      one records by how much the text grew: whichever change a length was charged to. */
  ghost predicate Kept(revs: seq<Revision>, pending: Revision, cur: nat, g: Trace) {
    && |revs| == |g.edits| == |g.marks| && cur < |revs|
    && (forall i :: 1 <= i < |revs| ==> revs[i] != [] && TracesAll(revs[i], g.edits[i]))
    && TracesAll(pending, g.draft)
    && (forall i, j :: 0 <= i && j == i + 1 && j < |revs| ==>
          Carries(TextOf(g, g.marks[i]), TextOf(g, g.marks[j]), revs[j]))
    && Carries(TextOf(g, g.marks[cur]), TextOf(g, g.chain), pending)
  }

  /** All recorded lengths are true, in the revisions and in the pending changes. */
  ghost predicate Truthful(revs: seq<Revision>, pending: Revision, g: Trace) {
    && |revs| == |g.edits|
    && (forall i :: 1 <= i < |revs| ==> TruthAll(revs[i], g.edits[i], g.text))
    && TruthAll(pending, g.draft, g.text)
  }

  /** All spans but perhaps the replacement of the last pending change are full. */
  ghost predicate Solid(g: Trace) {
    && (forall i :: 1 <= i < |g.edits| ==> FullAll(g.edits[i], g.text))
    && (g.draft != [] ==>
          FullAll(g.draft[..|g.draft| - 1], g.text) && Weighs(g.text, g.draft[|g.draft| - 1].gone))
  }

  ghost predicate LastFull(g: Trace) {
    g.draft != [] ==> Weighs(g.text, g.draft[|g.draft| - 1].came)
  }

  lemma SolidDraft(g: Trace)
    requires Solid(g) && LastFull(g)
    ensures FullAll(g.draft, g.text)
  {
    if g.draft != [] {
      var n := |g.draft| - 1;
      forall i | 0 <= i < |g.draft| ensures Full(g.draft[i], g.text) {
        if i < n {
          assert g.draft[..n][i] == g.draft[i];
        }
      }
    }
  }

  // ------------------------------------------------------------------ texts that grow

  /** `u` has the texts of `t` and perhaps more. */
  ghost predicate Grows(t: Texts, u: Texts) {
    t.Keys <= u.Keys && forall p :: p in t ==> u[p] == t[p]
  }

  lemma GrowText(g: Trace, h: Trace, s: seq<Piece>)
    requires Grows(g.text, h.text) && Known(g.text, s)
    ensures TextOf(h, s) == TextOf(g, s)
  {
    TextKept(g.text, h.text, s);
  }

  lemma GrowTruth(cs: Revision, es: seq<Edit>, t: Texts, u: Texts)
    requires TruthAll(cs, es, t) && Grows(t, u)
    ensures TruthAll(cs, es, u)
  {
    forall i | 0 <= i < |cs| ensures Truth(cs[i], es[i], u) {
      assert Truth(cs[i], es[i], t);
      TextKept(t, u, es[i].gone);
      TextKept(t, u, es[i].came);
    }
  }

  lemma GrowFull(es: seq<Edit>, t: Texts, u: Texts)
    requires FullAll(es, t) && Grows(t, u)
    ensures FullAll(es, u)
  {
    forall i | 0 <= i < |es| ensures Full(es[i], u) {
      assert Full(es[i], t);
      TextKept(t, u, es[i].gone);
      TextKept(t, u, es[i].came);
    }
  }
}
