/** How each kind of operation keeps the books. */
module Booking {
  import opened Bytes
  import opened Links
  import opened Chain
  import opened History
  import opened Trace
  import opened Ledger

  // ------------------------------------------------------------------ a new pending change

  lemma PushKept(revs: seq<Revision>, pending: Revision, cur: nat, g: Trace, head: Piece,
                 links: Links, text: Texts, e: Edit, c: Change)
    requires Kept(revs, pending, cur, g) && cur == |g.marks| - 1
    requires Known(g.text, g.chain) && forall i :: 0 <= i < |g.marks| ==> Known(g.text, g.marks[i])
    requires pending == [] ==> g.chain == g.marks[cur]
    requires Grows(g.text, text) && EditKnown(text, e) && e.From() == g.chain
    requires Traces(c, e) && Agree(Text(g.text, g.chain), Text(text, e.To()), c.pos)
    requires |Text(text, e.To())| == |Text(g.text, g.chain)| - c.original.len + c.replacement.len
    ensures Kept(revs, pending + [c], cur, Pushed(g, head, links, text, e))
  {
    var h := Pushed(g, head, links, text, e);
    forall i | 0 <= i < |g.marks| ensures TextOf(h, g.marks[i]) == TextOf(g, g.marks[i]) {
      GrowText(g, h, g.marks[i]);
    }
    LowSnoc(pending, c);
    GrowthSnoc(pending, c);
    AgreeTrans(TextOf(g, g.marks[cur]), TextOf(g, g.chain), TextOf(h, h.chain), Low(pending), c.pos);
  }

  lemma PushTruthful(revs: seq<Revision>, pending: Revision, g: Trace, head: Piece,
                     links: Links, text: Texts, e: Edit, c: Change)
    requires Truthful(revs, pending, g) && Grows(g.text, text) && Truth(c, e, text)
    ensures Truthful(revs, pending + [c], Pushed(g, head, links, text, e))
  {
    forall i | 1 <= i < |revs| ensures TruthAll(revs[i], g.edits[i], text) {
      GrowTruth(revs[i], g.edits[i], g.text, text);
    }
    GrowTruth(pending, g.draft, g.text, text);
  }

  lemma PushSolid(g: Trace, head: Piece, links: Links, text: Texts, e: Edit)
    requires Solid(g) && LastFull(g) && Grows(g.text, text) && Full(e, text)
    ensures Solid(Pushed(g, head, links, text, e)) && LastFull(Pushed(g, head, links, text, e))
  {
    forall i | 1 <= i < |g.edits| ensures FullAll(g.edits[i], text) {
      GrowFull(g.edits[i], g.text, text);
    }
    SolidDraft(g);
    GrowFull(g.draft, g.text, text);
    assert (g.draft + [e])[..|g.draft|] == g.draft;
  }

  // ------------------------------------------------------------------ an edit of the cached piece

  /** No committed revision mentions `p`. */
  ghost predicate Private(g: Trace, p: Piece) {
    && (forall i :: 0 <= i < |g.marks| ==> p !in g.marks[i])
    && (forall i, k :: 0 <= i < |g.edits| && 0 <= k < |g.edits[i]| ==>
          p !in g.edits[i][k].gone && p !in g.edits[i][k].came)
  }

  ghost predicate InLast(g: Trace, p: Piece) {
    g.draft != [] && p in g.draft[|g.draft| - 1].came
  }

  /** When the last pending change brought `p`, no other pending change mentions it. */
  ghost predicate OnlyLast(g: Trace, p: Piece) {
    InLast(g, p) ==>
      && p !in g.draft[|g.draft| - 1].gone
      && forall k :: 0 <= k < |g.draft| - 1 ==> p !in g.draft[k].gone && p !in g.draft[k].came
  }

  /** `list_last(&file->pending_changes)` with `grow` added to its replacement length. */
  ghost function Charged(pending: Revision, grow: int): Revision
    requires pending != []
  {
    var c := pending[|pending| - 1];
    pending[|pending| - 1 := c.(replacement := c.replacement.(len := c.replacement.len + grow))]
  }

  /** A charge leaves the changes before the last one, and of that one all but a length. */
  lemma ChargedKeeps(pending: Revision, grow: int)
    requires pending != []
    ensures var n := |pending| - 1; var charged := Charged(pending, grow); var (c, d) := (pending[n], charged[n]);
      && |charged| == n + 1 && charged[..n] == pending[..n] && d.pos == c.pos && d.original == c.original
      && d.replacement.start == c.replacement.start && d.replacement.end == c.replacement.end
      && d.replacement.len == c.replacement.len + grow
  {
  }

  /** What is charged to the wrong change is charged to the revision all the same. */
  lemma ChargedGrows(pending: Revision, grow: int)
    requires pending != []
    ensures Growth(Charged(pending, grow)) == Growth(pending) + grow
  {
    var n := |pending| - 1;
    var c := pending[n];
    assert pending == pending[..n] + [c];
    GrowthSnoc(pending[..n], c);
    var d := Charged(pending, grow)[n];
    assert Charged(pending, grow) == pending[..n] + [d];
    GrowthSnoc(pending[..n], d);
  }

  /** Which charge keeps a revision in order: one that leaves a length to pieces, and none to none. */
  lemma ChargedSure(pending: Revision, grow: int)
    requires pending != []
    ensures var n := |pending| - 1; var last := pending[n].replacement;
      && (RedoesAll(Charged(pending, grow)) <==>
            RedoesAll(pending[..n]) && (last.start == null <==> last.len + grow == 0))
      && (UndoesAll(Charged(pending, grow)) <==>
            UndoesAll(pending[..n]) && (last.start == null ==> last.len + grow == 0)
            && (pending[n].original.start == null ==> last.len + grow != 0))
  {
    hide Undoes, Redoes;
    var n := |pending| - 1;
    var d := Charged(pending, grow)[n];
    assert Charged(pending, grow) == pending[..n] + [d];
    SureSnoc(pending[..n], d);
    SureCharge(pending[n], d, grow);
  }

  lemma SureSnoc(cs: Revision, c: Change)
    ensures RedoesAll(cs + [c]) <==> RedoesAll(cs) && Redoes(c)
    ensures UndoesAll(cs + [c]) <==> UndoesAll(cs) && Undoes(c)
  {
    hide Undoes, Redoes;
    assert forall x :: x in cs + [c] <==> x in cs || x == c;
  }

  lemma SureCharge(c: Change, d: Change, grow: int)
    requires d == c.(replacement := c.replacement.(len := c.replacement.len + grow))
    ensures Redoes(d) <==> (c.replacement.start == null <==> c.replacement.len + grow == 0)
    ensures Undoes(d) <==>
      && (c.replacement.start == null ==> c.replacement.len + grow == 0)
      && (c.original.start == null ==> c.replacement.len + grow != 0)
  {
  }

  lemma ChargedTraces(pending: Revision, es: seq<Edit>, grow: int)
    requires pending != [] && TracesAll(pending, es)
    ensures TracesAll(Charged(pending, grow), es)
  {
    var n := |pending| - 1;
    forall i | 0 <= i <= n ensures Traces(Charged(pending, grow)[i], es[i]) {
      assert Traces(pending[i], es[i]);
    }
  }

  ghost function Rewritten(g: Trace, p: Piece, x: seq<Byte>): Trace {
    g.(text := g.text[p := x])
  }

  lemma RewriteKept(revs: seq<Revision>, pending: Revision, cur: nat, g: Trace, head: Piece, p: Piece, x: seq<Byte>,
                    grow: int)
    requires Kept(revs, pending, cur, g) && g.Sound(head, cur) && pending != []
    requires p in g.text && Private(g, p)
    requires Agree(Text(g.text, g.chain), TextOf(Rewritten(g, p, x), g.chain), Low(pending))
    requires |TextOf(Rewritten(g, p, x), g.chain)| == |Text(g.text, g.chain)| + grow
    ensures Kept(revs, Charged(pending, grow), cur, Rewritten(g, p, x))
  {
    hide Trace.Sound, Charged, Traces, TextOf, Carries;
    var h := Rewritten(g, p, x);
    ChargedTraces(pending, g.draft, grow);
    forall i | 0 <= i < |g.marks| ensures TextOf(h, g.marks[i]) == TextOf(g, g.marks[i]) {
      RewriteElsewhere(g, p, x, g.marks[i]);
    }
    SoundChain(g, head, cur);
    RewriteCarries(TextOf(g, g.marks[cur]), TextOf(g, g.chain), TextOf(h, h.chain), pending, grow);
  }

  lemma SoundChain(g: Trace, head: Piece, cur: nat)
    requires g.Sound(head, cur)
    ensures TextOf(g, g.chain) == Text(g.text, g.chain)
  {
    hide Trace.Threaded, Trace.Windable, Trace.Novel;
  }

  lemma RewriteElsewhere(g: Trace, p: Piece, x: seq<Byte>, s: seq<Piece>)
    requires p in g.text && p !in s
    ensures TextOf(Rewritten(g, p, x), s) == TextOf(g, s)
  {
    if Known(g.text, s) {
      TextKept(g.text, Rewritten(g, p, x).text, s);
    }
  }

  lemma RewriteCarries(x: seq<Byte>, y: seq<Byte>, z: seq<Byte>, pending: Revision, grow: int)
    requires pending != [] && Carries(x, y, pending) && Agree(y, z, Low(pending)) && |z| == |y| + grow
    ensures Carries(x, z, Charged(pending, grow))
  {
    ChargedGrows(pending, grow);
    LowSame(pending, Charged(pending, grow));
    AgreeTrans(x, y, z, Low(pending), Low(pending));
  }

  lemma KeepTruth(cs: Revision, es: seq<Edit>, t: Texts, p: Piece, x: seq<Byte>)
    requires TruthAll(cs, es, t) && p in t
    requires forall k :: 0 <= k < |es| ==> p !in es[k].gone && p !in es[k].came
    ensures TruthAll(cs, es, t[p := x])
  {
    var u := t[p := x];
    forall i | 0 <= i < |cs| ensures Truth(cs[i], es[i], u) {
      assert Truth(cs[i], es[i], t);
      TextKept(t, u, es[i].gone);
      TextKept(t, u, es[i].came);
    }
  }

  lemma KeepFull(es: seq<Edit>, t: Texts, p: Piece, x: seq<Byte>)
    requires FullAll(es, t) && p in t
    requires forall k :: 0 <= k < |es| ==> p !in es[k].gone && p !in es[k].came
    ensures FullAll(es, t[p := x])
  {
    var u := t[p := x];
    forall i | 0 <= i < |es| ensures Full(es[i], u) {
      assert Full(es[i], t);
      TextKept(t, u, es[i].gone);
      TextKept(t, u, es[i].came);
    }
  }

  lemma GrownSpan(t: Texts, s: seq<Piece>, p: Piece, x: seq<Byte>)
    requires Known(t, s) && Distinct(s) && p in s
    ensures |Text(t[p := x], s)| == |Text(t, s)| - |t[p]| + |x|
  {
    var k :| 0 <= k < |s| && s[k] == p;
    TextAround(t, s, k);
    TextUpdated(t, s, k, x);
  }

  lemma LastCameDistinct(g: Trace, head: Piece, cur: nat)
    requires g.Sound(head, cur) && g.draft != []
    ensures Distinct(g.draft[|g.draft| - 1].came) && g.draft[|g.draft| - 1].To() == g.chain
  {
    var e := g.draft[|g.draft| - 1];
    var es := g.Applied(cur);
    assert es[|es| - 1] == e;
    var s := [head] + g.chain;
    assert forall i :: 0 <= i < |e.came| ==> e.came[i] == s[1 + |e.before| + i];
  }

  lemma CommittedTruth(revs: seq<Revision>, g: Trace, p: Piece, x: seq<Byte>)
    requires |revs| == |g.edits| && p in g.text && Private(g, p)
    requires forall i :: 1 <= i < |revs| ==> TruthAll(revs[i], g.edits[i], g.text)
    ensures forall i :: 1 <= i < |revs| ==> TruthAll(revs[i], g.edits[i], g.text[p := x])
  {
    forall i | 1 <= i < |revs| ensures TruthAll(revs[i], g.edits[i], g.text[p := x]) {
      KeepTruth(revs[i], g.edits[i], g.text, p, x);
    }
  }

  /** An in-place edit of the cached piece charges its growth to the last pending change: the
      recorded lengths stay true if and only if that change is the one that brought the piece. */
  lemma RewriteTruthful(revs: seq<Revision>, pending: Revision, cur: nat, g: Trace, head: Piece, p: Piece, x: seq<Byte>)
    requires Truthful(revs, pending, g) && g.Sound(head, cur) && pending != []
    requires p in g.text && Private(g, p) && OnlyLast(g, p) && |x| != |g.text[p]|
    ensures Truthful(revs, Charged(pending, |x| - |g.text[p]|), Rewritten(g, p, x)) <==> InLast(g, p)
  {
    hide Trace.Sound, Truth, Text, Known;
    var h := Rewritten(g, p, x);
    var n := |pending| - 1;
    var ps := Charged(pending, |x| - |g.text[p]|);
    var e := g.draft[n];
    assert Truth(pending[n], e, g.text);
    CommittedTruth(revs, g, p, x);
    if InLast(g, p) {
      LastCameDistinct(g, head, cur);
      ChargeTrue(pending[n], ps[n], e, g.text, p, x);
      forall i | 0 <= i < |ps| ensures Truth(ps[i], g.draft[i], h.text) {
        if i < n {
          assert Truth(pending[i], g.draft[i], g.text);
          TruthKept(pending[i], g.draft[i], g.text, p, x);
        }
      }
    } else {
      ChargeFalse(pending[n], ps[n], e, g.text, p, x);
    }
  }

  lemma TruthKept(c: Change, e: Edit, t: Texts, p: Piece, x: seq<Byte>)
    requires Truth(c, e, t) && p in t && p !in e.gone && p !in e.came
    ensures Truth(c, e, t[p := x])
  {
    TextKept(t, t[p := x], e.gone);
    TextKept(t, t[p := x], e.came);
  }

  lemma ChargeTrue(c: Change, d: Change, e: Edit, t: Texts, p: Piece, x: seq<Byte>)
    requires Truth(c, e, t) && p in t && p !in e.gone && p in e.came && Distinct(e.came)
    requires d.original == c.original && d.replacement.len == c.replacement.len + |x| - |t[p]|
    ensures Truth(d, e, t[p := x])
  {
    GrownSpan(t, e.came, p, x);
    TextKept(t, t[p := x], e.gone);
  }

  lemma ChargeFalse(c: Change, d: Change, e: Edit, t: Texts, p: Piece, x: seq<Byte>)
    requires Truth(c, e, t) && p in t && p !in e.came
    requires d.replacement.len != c.replacement.len
    ensures !Truth(d, e, t[p := x])
  {
    TextKept(t, t[p := x], e.came);
  }

  /** Every other span keeps its bytes; the last replacement is full when bytes are left in it. */
  lemma RewriteSolid(g: Trace, p: Piece, x: seq<Byte>)
    requires Solid(g) && p in g.text && Private(g, p) && OnlyLast(g, p) && InLast(g, p)
    ensures Solid(Rewritten(g, p, x))
    ensures x != [] && Known(g.text, g.draft[|g.draft| - 1].came) ==> LastFull(Rewritten(g, p, x))
  {
    var n := |g.draft| - 1;
    forall i | 1 <= i < |g.edits| ensures FullAll(g.edits[i], g.text[p := x]) {
      KeepFull(g.edits[i], g.text, p, x);
    }
    assert forall k :: 0 <= k < n ==> g.draft[..n][k] == g.draft[k];
    KeepFull(g.draft[..n], g.text, p, x);
    TextKept(g.text, g.text[p := x], g.draft[n].gone);
    var s := g.draft[n].came;
    if x != [] && Known(g.text, s) {
      var k :| 0 <= k < |s| && s[k] == p;
      TextAround(g.text[p := x], s, k);
    }
  }

  // ------------------------------------------------------------------ revisions

  lemma PurgeKept(revs: seq<Revision>, pending: Revision, cur: nat, g: Trace)
    requires Kept(revs, pending, cur, g) && g.Shaped(cur)
    ensures Kept(revs[..cur + 1], pending, cur, Purged(g, cur))
    ensures Truthful(revs, pending, g) ==> Truthful(revs[..cur + 1], pending, Purged(g, cur))
    ensures Solid(g) ==> Solid(Purged(g, cur))
  {
  }

  lemma CommitKept(revs: seq<Revision>, pending: Revision, cur: nat, g: Trace)
    requires Kept(revs, pending, cur, g) && g.Shaped(cur) && pending != []
    ensures Kept(revs + [pending], [], cur + 1, Committed(g))
  {
    var h := Committed(g);
    assert forall i :: 0 <= i < |g.marks| ==>
      h.marks[i] == g.marks[i] && TextOf(h, h.marks[i]) == TextOf(g, g.marks[i]);
    assert TextOf(h, h.marks[cur + 1]) == TextOf(g, g.chain);
  }

  lemma CommitTruthful(revs: seq<Revision>, pending: Revision, g: Trace)
    requires |revs| == |g.edits| >= 1 && |g.draft| == |pending| != 0
    requires Truthful(revs, pending, g) && Solid(g) && LastFull(g)
    ensures Truthful(revs + [pending], [], Committed(g)) && Solid(Committed(g))
  {
    SolidDraft(g);
  }

  lemma MoveKept(revs: seq<Revision>, cur: nat, to: nat, g: Trace, h: Trace)
    requires Kept(revs, [], cur, g) && g.Shaped(cur) && to < |g.marks|
    requires h == g.(chain := g.marks[to], links := h.links)
    ensures Kept(revs, [], to, h)
    ensures Truthful(revs, [], g) ==> Truthful(revs, [], h)
    ensures Solid(g) ==> Solid(h)
  {
    forall i | 0 <= i < |g.marks| ensures TextOf(h, h.marks[i]) == TextOf(g, g.marks[i]) {
    }
  }
}
