/** The state of a file as a value, the invariant every operation keeps, and the editor it shows. */
module State {
  import opened Bytes
  import opened Links
  import opened Chain
  import opened Heap
  import opened History
  import opened Trace
  import opened Ledger
  import opened Booking
  import E = Editor

  datatype State = State(
    head: Piece, size: int, blocks: seq<Block>, cache: Piece?,
    revs: seq<Revision>, cur: nat, pending: Revision,
    at: Slices, store: Store, g: Trace)
  {
    /** The cached piece, as long as it is linked, owns the end of the last block alone; no
        revision mentions it, and it starts no earlier than any pending change. */
    ghost predicate CacheOk() {
      cache != null ==>
        && g.draft != [] && cache in g.text && blocks != []
        && Private(g, cache) && OnlyLast(g, cache)
        && (cache in g.chain ==>
              && Owns(at, store, blocks[|blocks| - 1], cache)
              && forall k :: 0 <= k < |g.chain| && g.chain[k] == cache ==>
                   Known(g.text, g.chain) && Low(pending) <= Offset(g.text, g.chain, k))
    }

    ghost predicate Tidy() {
      && Spelled(g.text, at, store) && (forall b :: b in blocks ==> b in store)
      && g.Sound(head, cur) && Kept(revs, pending, cur, g)
      && size == |TextOf(g, g.chain)|
      && CacheOk()
    }

    ghost function Contents(): seq<Byte> { TextOf(g, g.chain) }

    ghost function Snaps(): seq<seq<Byte>> {
      seq(|g.marks|, i requires 0 <= i < |g.marks| => TextOf(g, g.marks[i]))
    }

    /** The editor this file stands for. */
    ghost function Abs(): E.Editor { E.Editor(Contents(), Snaps(), cur, pending != []) }

    /** All recorded span lengths are true. */
    ghost predicate Honest() { Truthful(revs, pending, g) }

    /** No recorded span is left with emptied pieces only. */
    ghost predicate Firm() { Solid(g) && LastFull(g) }

    /** Every recorded length is 0 exactly for a run without pieces, as undo and redo need it. */
    ghost predicate Sure() {
      (forall i :: 1 <= i < |revs| ==> RedoesAll(revs[i])) && RedoesAll(pending)
    }

    /** The cached piece is linked but the last pending change did not bring it. */
    ghost predicate Stray() { cache != null && cache in g.chain && !InLast(g, cache) }
  }

  lemma Coherence(s: State)
    requires s.Tidy()
    ensures s.Abs().Coherent()
  {
  }

  // ------------------------------------------------------------------ purge

  ghost predicate CanPurge(s: State) {
    s.g.Shaped(s.cur) && s.cur < |s.revs|
  }

  ghost function Purge(s: State): State
    requires CanPurge(s)
  {
    s.(revs := s.revs[..s.cur + 1], g := Purged(s.g, s.cur))
  }

  lemma PurgeNothing(s: State)
    requires CanPurge(s) && s.cur == |s.revs| - 1 && |s.revs| == |s.g.marks|
    ensures Purge(s) == s
  {
    assert s.g.marks[..s.cur + 1] == s.g.marks && s.g.edits[..s.cur + 1] == s.g.edits;
  }

  lemma PurgeParts(s: State)
    requires CanPurge(s)
    ensures var t := Purge(s);
      t == s.(revs := s.revs[..s.cur + 1], g := s.g.(marks := t.g.marks, edits := t.g.edits))
  {
  }

  lemma PurgePrivate(g: Trace, cur: nat, p: Piece)
    requires g.Shaped(cur) && Private(g, p)
    ensures Private(Purged(g, cur), p)
  {
    var h := Purged(g, cur);
    forall i, k | 0 <= i < |h.edits| && 0 <= k < |h.edits[i]|
      ensures p !in h.edits[i][k].gone && p !in h.edits[i][k].came
    {
      assert h.edits[i] == g.edits[i];
    }
  }

  lemma PurgeCache(s: State)
    requires CanPurge(s) && s.CacheOk()
    ensures Purge(s).CacheOk()
  {
    if s.cache != null {
      PurgePrivate(s.g, s.cur, s.cache);
    }
  }

  /** What a purge frees is neither linked nor mentioned by what is kept, and is never the cached piece. */
  lemma PurgeSpares(s: State)
    requires s.Tidy()
    ensures CanPurge(s) && Unused(Purge(s).g, Freed(s.g, s.cur))
    ensures s.cache != null ==> Freed(s.g, s.cur) == {}
  {
    PurgeTidy(s);
    hide Kept, Spelled, Trace.Threaded, Trace.Windable, Trace.Covered, Trace.Novel, Unused, Purged, Freed;
    PurgeFrees(s.g, s.head, s.cur);
  }

  /** At the last revision there is nothing to free. */
  lemma NothingFreed(s: State)
    requires s.Tidy() && s.cur == |s.revs| - 1
    ensures Freed(s.g, s.cur) == {}
  {
    Basics(s);
  }

  /** Pending changes, and so a cached piece, exist at the last revision only. */
  lemma CacheKept(s: State)
    requires s.Tidy() && s.cur != |s.revs| - 1
    ensures s.cache == null
  {
    Basics(s);
  }

  lemma SoundBooks(s: State)
    requires s.Tidy()
    ensures s.g.Sound(s.head, s.cur) && |s.revs| == |s.g.marks| == |s.g.edits| && s.g.Shaped(s.cur)
    ensures s.cur < |s.revs| - 1 ==> s.g.draft == []
  {
    Basics(s);
  }

  lemma PurgeAbs(s: State)
    requires CanPurge(s)
    ensures Purge(s).Abs() == s.Abs().(snaps := s.Abs().snaps[..s.cur + 1])
  {
    assert Purge(s).Snaps() == s.Snaps()[..s.cur + 1];
  }

  /** What the operations use of the invariant. */
  lemma Basics(s: State)
    requires s.Tidy()
    ensures s.g.Shaped(s.cur) && |s.revs| == |s.g.marks| && |s.pending| == |s.g.draft|
    ensures Known(s.g.text, s.g.chain) && forall i :: 0 <= i < |s.g.marks| ==> Known(s.g.text, s.g.marks[i])
    ensures s.pending == [] ==> s.g.chain == s.g.marks[s.cur]
    ensures s.pending != [] ==> s.cur == |s.revs| - 1
    ensures Ring(s.g.links, s.head, s.g.chain) && Distinct(s.g.chain)
    ensures Closed(s.g.links) && s.g.links.next.Keys == s.g.text.Keys + {s.head} && s.head !in s.g.text
    ensures s.Contents() == Text(s.g.text, s.g.chain) && s.size == |s.Contents()|
  {
    hide Kept, State.CacheOk, Spelled, Trace.Threaded;
    assert s.g.Threaded(s.cur);
    assert Past(s.g.links, s.head, s.g.Applied(s.cur), s.g.chain);
    var ring := [s.head] + s.g.chain;
    assert forall i :: 0 <= i < |s.g.chain| ==> s.g.chain[i] == ring[i + 1];
    BasicsKept(s);
  }

  lemma LinkedPiece(s: State, p: Piece)
    requires s.Tidy() && p in s.g.text
    ensures p in s.g.links.next
  {
  }

  lemma TidyCovered(s: State)
    requires s.Tidy()
    ensures s.g.Covered(s.head)
  {
  }

  lemma BasicsKept(s: State)
    requires s.g.Shaped(s.cur) && s.g.Threaded(s.cur) && Kept(s.revs, s.pending, s.cur, s.g)
    ensures |s.revs| == |s.g.marks| && |s.pending| == |s.g.draft|
    ensures s.pending == [] ==> s.g.chain == s.g.marks[s.cur]
    ensures s.pending != [] ==> s.cur == |s.revs| - 1
  {
  }

  lemma PurgeTidy(s: State)
    requires s.Tidy()
    ensures CanPurge(s) && |s.revs| == |s.g.marks| && Purge(s).Tidy()
  {
    Basics(s);
    PurgeRest(s);
    hide State.Tidy, Spelled, Kept, Trace.Sound, State.CacheOk, Purge;
    TidyParts(Purge(s));
  }

  lemma PurgeRest(s: State)
    requires s.Tidy() && CanPurge(s)
    ensures var t := Purge(s);
      && Spelled(t.g.text, t.at, t.store) && (forall b :: b in t.blocks ==> b in t.store)
      && t.g.Sound(t.head, t.cur) && Kept(t.revs, t.pending, t.cur, t.g)
      && t.size == |t.Contents()| && t.CacheOk()
  {
    hide Spelled, Kept, Trace.Sound, State.CacheOk;
    PurgeSound(s.g, s.head, s.cur);
    PurgeKept(s.revs, s.pending, s.cur, s.g);
    PurgeCache(s);
  }

  lemma PurgeHonest(s: State)
    requires CanPurge(s) && |s.revs| == |s.g.marks|
    ensures s.Honest() ==> Purge(s).Honest()
    ensures s.Firm() ==> Purge(s).Firm()
  {
    PurgeLast(s);
  }

  lemma PurgeLast(s: State)
    requires CanPurge(s)
    ensures LastFull(s.g) ==> LastFull(Purge(s).g)
  {
  }

  // ------------------------------------------------------------------ a new pending change

  /** The edit `e` of the chain is ready to be linked in: `links` and `text` hold its new pieces,
      which hang from the right neighbours. */
  ghost predicate Poised(g: Trace, head: Piece, links: Links, text: Texts, e: Edit) {
    && e.From() == g.chain && EditKnown(text, e)
    && Extends(g.links, links) && Closed(links)
    && Grows(g.text, text) && links.next.Keys == text.Keys + {head} && head !in text
    && Hangs(links, e.Left(head), e.came, e.Right(head)) && Distinct([head] + e.To())
    && (forall p :: p in e.came ==> p !in g.text)
  }

  /** `t` is `s` with the change `c` recorded and applied. */
  ghost predicate Extended(s: State, t: State, links: Links, e: Edit, c: Change) {
    && t.head == s.head && t.revs == s.revs && t.cur == s.cur && s.cur == |s.g.marks| - 1
    && t.pending == s.pending + [c] && t.g == Pushed(s.g, s.head, links, t.g.text, e)
    && Poised(s.g, s.head, links, t.g.text, e)
    && Traces(c, e)
  }

  /** Then the swap as coded links it in. */
  lemma PoisedSwap(g: Trace, head: Piece, links: Links, text: Texts, e: Edit, c: Change)
    requires Ring(g.links, head, g.chain) && Poised(g, head, links, text, e) && Records(c, e)
    ensures CanSwap(links, c.original, c.replacement)
    ensures SwapLinks(links, c.original, c.replacement) == Relink(links, head, e)
  {
    PathKept(g.links, links, [head] + g.chain + [head]);
    RingGrips(links, head, e);
    SwapIsRelink(links, head, e, c.original, c.replacement);
  }

  lemma PushTidy(s: State, t: State, links: Links, e: Edit, c: Change)
    requires s.Tidy() && Extended(s, t, links, e, c)
    requires Spelled(t.g.text, t.at, t.store) && (forall b :: b in t.blocks ==> b in t.store)
    requires Agree(s.Contents(), t.Contents(), c.pos)
    requires t.size == |t.Contents()| == s.size - c.original.len + c.replacement.len && t.CacheOk()
    ensures t.Tidy()
  {
    Basics(s);
    hide Kept, State.CacheOk, Spelled;
    PushSoundly(s, t, links, e, c);
    PushKept(s.revs, s.pending, s.cur, s.g, s.head, links, t.g.text, e, c);
  }

  lemma PushSoundly(s: State, t: State, links: Links, e: Edit, c: Change)
    requires s.g.Sound(s.head, s.cur) && Extended(s, t, links, e, c)
    ensures t.g.Sound(t.head, t.cur)
  {
    hide Trace.Sound, Past, Future, Relink;
    PushSound(s.g, s.head, s.cur, links, t.g.text, e);
  }

  lemma PushAbs(s: State, t: State, links: Links, e: Edit, c: Change)
    requires Extended(s, t, links, e, c) && forall i :: 0 <= i < |s.g.marks| ==> Known(s.g.text, s.g.marks[i])
    ensures t.Abs() == s.Abs().(text := t.Contents(), pending := true)
  {
    hide Grows, Extends, Closed, Hangs, Distinct;
    forall i | 0 <= i < |s.g.marks| ensures TextOf(t.g, s.g.marks[i]) == TextOf(s.g, s.g.marks[i]) {
      GrowText(s.g, t.g, s.g.marks[i]);
    }
    assert t.Snaps() == s.Snaps();
  }

  lemma PushHonest(s: State, t: State, links: Links, e: Edit, c: Change)
    requires Extended(s, t, links, e, c) && Truth(c, e, t.g.text) && s.Honest()
    ensures t.Honest()
  {
    hide Pushed, Truthful;
    PushTruthful(s.revs, s.pending, s.g, s.head, links, t.g.text, e, c);
  }

  lemma PushFirm(s: State, t: State, links: Links, e: Edit, c: Change)
    requires Extended(s, t, links, e, c) && s.Firm() && Full(e, t.g.text)
    ensures t.Firm()
  {
    hide Pushed, Solid, LastFull, Full;
    PushSolid(s.g, s.head, links, t.g.text, e);
  }

  // ------------------------------------------------------------------ the cache after a new change

  /** A piece no earlier edit can mention. */
  lemma NewPrivate(g: Trace, h: Trace, head: Piece, e: Edit, p: Piece)
    requires g.Covered(head) && p !in g.text && p in e.came && p !in e.gone
    requires h.marks == g.marks && h.edits == g.edits && h.draft == g.draft + [e]
    ensures Private(h, p) && OnlyLast(h, p)
  {
    forall i, k | 0 <= i < |g.edits| && 0 <= k < |g.edits[i]|
      ensures p !in g.edits[i][k].gone && p !in g.edits[i][k].came
    {
      assert EditKnown(g.text, g.edits[i][k]);
    }
    forall k | 0 <= k < |h.draft| - 1 ensures p !in h.draft[k].gone && p !in h.draft[k].came {
      assert h.draft[k] == g.draft[k] && g.draft[k] in g.draft;
      assert EditKnown(g.text, g.draft[k]);
    }
  }

  /** Insertion makes the piece holding the new bytes the cached one. */
  lemma NewCacheOk(s: State, t: State, links: Links, e: Edit, c: Change, p: Piece)
    requires s.g.Covered(s.head) && Extended(s, t, links, e, c) && p in e.came && t.cache == p
    requires t.blocks != [] && Owns(t.at, t.store, t.blocks[|t.blocks| - 1], p)
    requires Known(t.g.text, t.g.chain)
    requires forall k :: 0 <= k < |t.g.chain| && t.g.chain[k] == p ==> Offset(t.g.text, t.g.chain, k) == c.pos
    ensures t.CacheOk()
  {
    LowSnoc(s.pending, c);
    hide Owns, Private, OnlyLast, Extends, Closed, Grows, Hangs, Distinct;
    assert p !in e.gone by {
      assert forall x :: x in e.gone ==> x in s.g.chain;
    }
    NewPrivate(s.g, t.g, s.head, e, p);
  }


  /** The slice lies inside the slice of one of the pieces `ps`. */
  ghost predicate Inside(x: Slice, at: Slices, ps: seq<Piece>) {
    exists p :: p in ps && p in at && at[p].block == x.block && x.off + x.size <= at[p].off + at[p].size
  }

  /** Pieces cut out of removed ones stay clear of the bytes the cached piece owns. */
  lemma OwnsKept(at: Slices, bt: Slices, st: Store, b: Block, c: Piece, gone: seq<Piece>)
    requires Owns(at, st, b, c) && c !in gone
    requires forall p :: p in at ==> p in bt && bt[p] == at[p]
    requires forall p :: p in bt && p !in at ==> Inside(bt[p], at, gone)
    ensures Owns(bt, st, b, c)
  {
    forall p | p in bt && p != c && bt[p].block == b ensures bt[p].off + bt[p].size <= bt[c].off {
      if p !in at {
        assert Inside(bt[p], at, gone);
      }
    }
  }

  lemma OffsetKept(t: Texts, u: Texts, e: Edit, k: nat, low: nat, pos: nat)
    requires Grows(t, u) && EditKnown(u, e) && Known(t, e.From()) && Known(u, e.To())
    requires k < |e.To()| && e.To()[k] !in e.came
    requires pos <= |Text(u, e.before + e.came)|
    requires k < |e.before| ==> low <= Offset(t, e.From(), k)
    ensures Min(low, pos) <= Offset(u, e.To(), k)
  {
    var s := e.To();
    if k < |e.before| {
      assert s[..k] == e.From()[..k];
      TextKept(t, u, s[..k]);
    } else {
      var n := |e.before| + |e.came|;
      assert forall i :: 0 <= i < |e.came| ==> s[|e.before| + i] == e.came[i];
      OffsetMonotone(u, s, n, k);
      assert s[..n] == e.before + e.came;
    }
  }

  /** Deletion leaves the cached piece alone; if it stays linked, its place in front of or
      behind the deleted range keeps it after the least pending position. */
  lemma OldCacheOk(s: State, t: State, links: Links, e: Edit, c: Change)
    requires s.CacheOk() && Extended(s, t, links, e, c) && t.cache == s.cache
    requires t.blocks == s.blocks && t.store == s.store
    requires forall p :: p in s.at ==> p in t.at && t.at[p] == s.at[p]
    requires forall p :: p in t.at && p !in s.at ==> Inside(t.at[p], s.at, e.gone)
    requires Known(s.g.text, s.g.chain) && Distinct(s.g.chain) && Known(t.g.text, t.g.chain)
    requires |s.pending| == |s.g.draft|
    requires c.pos <= |Text(t.g.text, e.before + e.came)|
    ensures t.CacheOk()
  {
    if t.cache != null {
      hide Extends, Closed, Hangs, Owns, Inside, Grows, EditKnown, Low;
      OldPrivate(s, t, links, e, c);
      if t.cache in t.g.chain {
        WhereOld(s.g.chain, e, t.cache);
        OwnsKept(s.at, t.at, s.store, s.blocks[|s.blocks| - 1], s.cache, e.gone);
        LowSnoc(s.pending, c);
        forall k | 0 <= k < |t.g.chain| && t.g.chain[k] == t.cache
          ensures Low(t.pending) <= Offset(t.g.text, t.g.chain, k)
        {
          OffsetKept(s.g.text, t.g.text, e, k, Low(s.pending), c.pos);
        }
      }
    }
  }

  lemma WhereOld(chain: seq<Piece>, e: Edit, p: Piece)
    requires e.From() == chain && Distinct(chain) && p in e.To() && p !in e.came
    ensures p in chain && p !in e.gone
    ensures forall k :: 0 <= k < |e.before| ==> e.To()[k] == chain[k]
  {
    if p in e.before {
      var i :| 0 <= i < |e.before| && e.before[i] == p;
      assert chain[i] == p;
      assert forall j :: 0 <= j < |e.gone| ==> e.gone[j] == chain[|e.before| + j];
    } else {
      assert p in e.after;
      var i :| 0 <= i < |e.after| && e.after[i] == p;
      assert chain[|e.before| + |e.gone| + i] == p;
      assert forall j :: 0 <= j < |e.gone| ==> e.gone[j] == chain[|e.before| + j];
    }
  }

  lemma OldPrivate(s: State, t: State, links: Links, e: Edit, c: Change)
    requires Extended(s, t, links, e, c) && t.cache == s.cache != null && s.CacheOk()
    ensures Private(t.g, t.cache) && OnlyLast(t.g, t.cache) && !InLast(t.g, t.cache)
    ensures t.cache !in e.came && t.cache in t.g.text && t.g.draft != []
  {
  }

  // ------------------------------------------------------------------ the cached piece in place

  /** `t` is `s` after the cached piece `p` got the bytes `x` in place. */
  ghost predicate Touched(s: State, t: State, k: nat, x: seq<Byte>) {
    && s.cache != null && k < |s.g.chain| && s.g.chain[k] == s.cache && s.cache in s.g.text && s.pending != []
    && t.head == s.head && t.blocks == s.blocks && t.cache == s.cache && t.revs == s.revs && t.cur == s.cur
    && t.pending == Charged(s.pending, |x| - |s.g.text[s.cache]|)
    && t.size == s.size + |x| - |s.g.text[s.cache]|
    && t.g == Rewritten(s.g, s.cache, x)
  }

  lemma TouchTidy(s: State, t: State, k: nat, x: seq<Byte>)
    requires s.Tidy() && Touched(s, t, k, x)
    requires Spelled(t.g.text, t.at, t.store) && (forall b :: b in t.blocks ==> b in t.store)
    requires t.blocks != [] && Owns(t.at, t.store, t.blocks[|t.blocks| - 1], t.cache)
    requires Agree(s.Contents(), t.Contents(), Low(s.pending))
    ensures t.Tidy()
  {
    Basics(s);
    hide Spelled, Kept, State.CacheOk, Trace.Sound, Rewritten, Private, Charged, Touched;
    RewriteSound(s.g, s.head, s.cur, s.cache, x) by { TouchKnown(s, t, k, x); }
    TouchSize(s, t, k, x);
    TouchKept(s, t, k, x);
    TouchCache(s, t, k, x);
    TouchKnown(s, t, k, x);
  }

  /** Putting bytes into the cached piece puts them into the text. */
  lemma TouchInserts(s: State, t: State, k: nat, off: nat, data: seq<Byte>)
    requires s.CacheOk() && s.cache in s.g.text && off <= |s.g.text[s.cache]|
    requires Known(s.g.text, s.g.chain) && Distinct(s.g.chain)
    requires Touched(s, t, k, Inserted(s.g.text[s.cache], off, data))
    ensures var o := Offset(s.g.text, s.g.chain, k) + off;
      o <= |s.Contents()| && t.Contents() == Inserted(s.Contents(), o, data)
    ensures Agree(s.Contents(), t.Contents(), Low(s.pending))
  {
    hide Owns, Private, OnlyLast, Charged;
    InsertInPiece(s.g.text, s.g.chain, k, off, data);
  }

  lemma TouchDeletes(s: State, t: State, k: nat, off: nat, n: nat)
    requires s.CacheOk() && s.cache in s.g.text && off + n <= |s.g.text[s.cache]|
    requires Known(s.g.text, s.g.chain) && Distinct(s.g.chain)
    requires Touched(s, t, k, Deleted(s.g.text[s.cache], off, n))
    ensures var o := Offset(s.g.text, s.g.chain, k) + off;
      o + n <= |s.Contents()| && t.Contents() == Deleted(s.Contents(), o, n)
    ensures Agree(s.Contents(), t.Contents(), Low(s.pending))
  {
    hide Owns, Private, OnlyLast, Charged;
    DeleteInPiece(s.g.text, s.g.chain, k, off, n);
    TextAround(s.g.text, s.g.chain, k);
  }

  lemma TouchKnown(s: State, t: State, k: nat, x: seq<Byte>)
    requires Touched(s, t, k, x)
    ensures s.cache in s.g.text && t.g == s.g.(text := s.g.text[s.cache := x]) && t.cur == s.cur && t.head == s.head
  {
  }

  lemma TouchSize(s: State, t: State, k: nat, x: seq<Byte>)
    requires Touched(s, t, k, x) && Known(s.g.text, s.g.chain) && Distinct(s.g.chain)
    requires s.size == |s.Contents()|
    ensures t.size == |t.Contents()|
  {
    TextUpdated(s.g.text, s.g.chain, k, x);
    TextAround(s.g.text, s.g.chain, k);
  }

  lemma TouchKept(s: State, t: State, k: nat, x: seq<Byte>)
    requires Touched(s, t, k, x) && Kept(s.revs, s.pending, s.cur, s.g) && s.g.Sound(s.head, s.cur) && s.CacheOk()
    requires Agree(s.Contents(), t.Contents(), Low(s.pending)) && Known(s.g.text, s.g.chain)
    requires s.size == |s.Contents()| && t.size == |t.Contents()|
    ensures Kept(t.revs, t.pending, t.cur, t.g)
  {
    hide Kept, Trace.Sound, Private, OnlyLast, Owns;
    RewriteKept(s.revs, s.pending, s.cur, s.g, s.head, s.cache, x, |x| - |s.g.text[s.cache]|);
  }

  lemma TouchCache(s: State, t: State, k: nat, x: seq<Byte>)
    requires Touched(s, t, k, x) && s.CacheOk() && Known(s.g.text, s.g.chain) && Distinct(s.g.chain)
    requires t.blocks != [] && Owns(t.at, t.store, t.blocks[|t.blocks| - 1], t.cache)
    ensures t.CacheOk()
  {
    hide Owns;
    LowSame(s.pending, t.pending);
    forall j | 0 <= j < |t.g.chain| && t.g.chain[j] == t.cache
      ensures Low(t.pending) <= Offset(t.g.text, t.g.chain, j)
    {
      assert s.cache !in s.g.chain[..j];
      TextKept(s.g.text, t.g.text, s.g.chain[..j]);
    }
  }

  lemma TouchAbs(s: State, t: State, k: nat, x: seq<Byte>)
    requires Touched(s, t, k, x) && s.CacheOk()
    requires forall i :: 0 <= i < |s.g.marks| ==> Known(s.g.text, s.g.marks[i])
    ensures t.Abs() == s.Abs().(text := t.Contents(), pending := true)
  {
    hide Owns, OnlyLast;
    forall i | 0 <= i < |s.g.marks| ensures TextOf(t.g, s.g.marks[i]) == TextOf(s.g, s.g.marks[i]) {
      TextKept(s.g.text, t.g.text, s.g.marks[i]);
    }
    assert t.Snaps() == s.Snaps();
  }

  /** The lengths stay true exactly when the last pending change brought the cached piece. */
  lemma TouchHonest(s: State, t: State, k: nat, x: seq<Byte>)
    requires s.Tidy() && Touched(s, t, k, x) && s.Honest() && |x| != |s.g.text[s.cache]|
    ensures t.Honest() <==> !s.Stray()
  {
    hide Kept, Trace.Sound, Spelled, Rewritten, Charged, Truthful, OnlyLast, Private, Owns;
    RewriteTruthful(s.revs, s.pending, s.cur, s.g, s.head, s.cache, x);
  }

  /** All spans stay full as long as bytes are left in the replacement; bytes put into an
      emptied cached piece fill its span again. */
  lemma TouchFirm(s: State, t: State, k: nat, x: seq<Byte>)
    requires s.Tidy() && Touched(s, t, k, x) && Solid(s.g) && !s.Stray()
    ensures Solid(t.g)
    ensures t.Firm() <==> LastBytes(t.g) != []
    ensures x != [] ==> LastBytes(t.g) != []
  {
    Basics(s);
    hide Kept, Spelled, Owns, Trace.Threaded, Past, Future;
    RewriteSolid(s.g, s.cache, x);
    assert s.g.Covered(s.head);
    DraftKnown(s.g, s.head, s.g.draft[|s.g.draft| - 1]);
  }

  /** The bytes in the replacement of the last pending change. */
  ghost function LastBytes(g: Trace): seq<Byte> {
    if g.draft == [] then [] else TextOf(g, g.draft[|g.draft| - 1].came)
  }

  lemma DraftKnown(g: Trace, head: Piece, e: Edit)
    requires g.Covered(head) && e in g.draft
    ensures EditKnown(g.text, e)
  {
  }

  // ------------------------------------------------------------------ revisions

  ghost function Commit(s: State): State {
    if s.pending == [] then s.(cache := null)
    else s.(cache := null, revs := s.revs + [s.pending], cur := |s.revs|, pending := [], g := Committed(s.g))
  }

  lemma CommitTidy(s: State)
    requires s.Tidy()
    ensures Commit(s).Tidy() && Commit(s).pending == [] && Commit(s).Contents() == s.Contents()
  {
    if s.pending == [] {
      hide Kept, Trace.Sound, Spelled, Committed;
    } else {
      CommitSome(s);
    }
  }

  lemma CommitSome(s: State)
    requires s.Tidy() && s.pending != []
    ensures Commit(s).Tidy() && Commit(s).Contents() == s.Contents()
  {
    Basics(s);
    hide Kept, Trace.Sound, Spelled, State.CacheOk, Committed, State.Tidy;
    CommitCache(s);
    CommitSoundly(s);
    CommitBooks(s);
    CommitRest(s);
    TidyParts(Commit(s));
  }

  /** The invariant, part by part. */
  lemma TidyParts(s: State)
    requires Spelled(s.g.text, s.at, s.store) && (forall b :: b in s.blocks ==> b in s.store)
    requires s.g.Sound(s.head, s.cur) && Kept(s.revs, s.pending, s.cur, s.g)
    requires s.size == |s.Contents()| && s.CacheOk()
    ensures s.Tidy()
  {
  }

  lemma CommitRest(s: State)
    requires s.Tidy()
    ensures var t := Commit(s);
      && Spelled(t.g.text, t.at, t.store) && (forall b :: b in t.blocks ==> b in t.store)
      && t.size == |t.Contents()| && t.Contents() == s.Contents()
  {
    hide Kept, Trace.Sound, Spelled, State.CacheOk, Committed;
    CommitKeeps(s.g);
  }

  lemma CommitSoundly(s: State)
    requires s.Tidy() && s.pending != []
    ensures Commit(s).g.Sound(s.head, Commit(s).cur)
  {
    Basics(s);
    hide Kept, Trace.Sound, Spelled, State.CacheOk, Committed;
    CommitSound(s.g, s.head, s.cur);
  }

  lemma CommitBooks(s: State)
    requires s.Tidy() && s.pending != []
    ensures var t := Commit(s); Kept(t.revs, t.pending, t.cur, t.g)
  {
    Basics(s);
    hide Kept, Trace.Sound, Spelled, State.CacheOk, Committed;
    CommitKept(s.revs, s.pending, s.cur, s.g);
  }

  lemma CommitKeeps(g: Trace)
    ensures Committed(g).text == g.text && Committed(g).chain == g.chain && Committed(g).links == g.links
  {
  }

  lemma CommitCache(s: State)
    ensures Commit(s).CacheOk()
  {
  }

  lemma CommitAbs(s: State)
    requires |s.revs| == |s.g.marks| && |s.pending| == |s.g.draft|
    ensures Commit(s).Abs() == s.Abs().Commit()
  {
    var t := Commit(s);
    if s.pending != [] {
      assert forall i :: 0 <= i < |s.g.marks| ==> TextOf(t.g, s.g.marks[i]) == TextOf(s.g, s.g.marks[i]);
      assert t.Snaps() == s.Snaps() + [s.Contents()];
    }
  }

  lemma CommitHonest(s: State)
    requires |s.revs| == |s.g.marks| == |s.g.edits| >= 1 && |s.pending| == |s.g.draft| && s.Honest() && s.Firm()
    ensures Commit(s).Honest() && Commit(s).Firm()
  {
    if s.pending != [] {
      CommitTruthful(s.revs, s.pending, s.g);
    }
  }

  /** Moving to another revision with the links `m`. */
  ghost function MoveTo(s: State, to: nat, m: Links): State
    requires to < |s.g.marks|
  {
    s.(cache := null, cur := to, size := |TextOf(s.g, s.g.marks[to])|, g := s.g.(chain := s.g.marks[to], links := m))
  }

  lemma MoveTidy(s: State, to: nat, m: Links)
    requires s.Tidy() && s.pending == [] && to < |s.g.marks|
    requires MoveTo(s, to, m).g.Sound(s.head, to)
    ensures MoveTo(s, to, m).Tidy()
  {
    Basics(s);
    hide Kept, Trace.Sound, Spelled;
    MoveKept(s.revs, s.cur, to, s.g, MoveTo(s, to, m).g);
  }

  lemma MoveAbs(s: State, to: nat, m: Links)
    requires to < |s.g.marks|
    ensures MoveTo(s, to, m).Abs() == s.Abs().(text := s.Abs().snaps[to], cur := to)
    ensures s.Honest() ==> MoveTo(s, to, m).Honest()
    ensures Solid(s.g) ==> Solid(MoveTo(s, to, m).g)
  {
    var t := MoveTo(s, to, m);
    assert forall i :: 0 <= i < |s.g.marks| ==> TextOf(t.g, s.g.marks[i]) == TextOf(s.g, s.g.marks[i]);
    assert t.Snaps() == s.Snaps();
  }

  /** A move between neighbouring revisions leaves the bytes before the least position of the
      revision between them as they are, and changes the length by what the revision records. */
  lemma MoveCarries(s: State, i: nat)
    requires s.Tidy() && i + 1 < |s.g.marks|
    ensures |s.revs| == |s.g.marks|
    ensures Agree(s.Snaps()[i], s.Snaps()[i + 1], Low(s.revs[i + 1]))
    ensures Agree(s.Snaps()[i + 1], s.Snaps()[i], Low(s.revs[i + 1]))
    ensures |s.Snaps()[i + 1]| == |s.Snaps()[i]| + Growth(s.revs[i + 1])
  {
    KeptCarries(s.revs, s.pending, s.cur, s.g, i);
  }

  lemma KeptCarries(revs: seq<Revision>, pending: Revision, cur: nat, g: Trace, i: nat)
    requires Kept(revs, pending, cur, g) && i + 1 < |revs|
    ensures |revs| == |g.marks| && Carries(TextOf(g, g.marks[i]), TextOf(g, g.marks[i + 1]), revs[i + 1])
  {
  }

  // ------------------------------------------------------------------ the two cache operations

  ghost function LastOf(bs: seq<Block>): Block
    requires bs != []
  {
    bs[|bs| - 1]
  }

  /** `piece_find` may answer `piece` and `off`: a place in the piece with index `k`. */
  ghost predicate Points(s: State, piece: Piece, k: nat, off: nat) {
    k < |s.g.chain| && s.g.chain[k] == piece && piece in s.g.text && off <= |s.g.text[piece]|
  }

  /** The cached piece can be edited at `off`. */
  ghost predicate AtCache(s: State, piece: Piece, off: nat) {
    && s.pending != [] && s.blocks != [] && LastOf(s.blocks) in s.store
    && piece in s.at && piece in s.g.text && |s.g.text[piece]| == s.at[piece].size
    && off <= s.at[piece].size && s.at[piece].off + s.at[piece].size == |s.store[LastOf(s.blocks)]|
  }

  lemma CacheReady(s: State, piece: Piece, k: nat, off: nat)
    requires s.Tidy() && Points(s, piece, k, off) && s.cache == piece
    ensures AtCache(s, piece, off) && Spelled(s.g.text, s.at, s.store) && Owns(s.at, s.store, LastOf(s.blocks), piece)
    ensures s.CacheOk() && forall b :: b in s.blocks ==> b in s.store
  {
    hide Trace.Sound;
    Basics(s);
    assert Cuts(s.at[piece], s.store, s.g.text[piece]);
  }

  /** `cache_insert`, when it applies. */
  ghost function Grown(s: State, piece: Piece, off: nat, data: seq<Byte>): State
    requires AtCache(s, piece, off)
  {
    var b, a := LastOf(s.blocks), s.at[piece];
    s.(size := s.size + |data|, pending := Charged(s.pending, |data|),
       at := s.at[piece := a.(size := a.size + |data|)],
       store := s.store[b := Inserted(s.store[b], a.off + off, data)],
       g := Rewritten(s.g, piece, Inserted(s.g.text[piece], off, data)))
  }

  lemma GrownTouches(s: State, piece: Piece, k: nat, off: nat, data: seq<Byte>)
    requires AtCache(s, piece, off) && Points(s, piece, k, off) && s.cache == piece
    ensures Touched(s, Grown(s, piece, off, data), k, Inserted(s.g.text[piece], off, data))
  {
  }

  lemma GrownSpelled(s: State, piece: Piece, off: nat, data: seq<Byte>)
    requires AtCache(s, piece, off) && Spelled(s.g.text, s.at, s.store)
    requires Owns(s.at, s.store, LastOf(s.blocks), piece)
    ensures var t := Grown(s, piece, off, data);
      && Spelled(t.g.text, t.at, t.store) && Owns(t.at, t.store, LastOf(t.blocks), piece)
      && t.store.Keys == s.store.Keys && t.blocks == s.blocks
  {
    hide Spelled, Owns, Inserted, Charged;
    SpelledInsert(s.g.text, s.at, s.store, LastOf(s.blocks), piece, off, data);
    var t := Grown(s, piece, off, data);
    assert t.g.text == s.g.text[piece := Inserted(s.g.text[piece], off, data)];
    assert t.at == s.at[piece := s.at[piece].(size := s.at[piece].size + |data|)];
    assert t.blocks == s.blocks;
  }

  lemma GrownTidy(s: State, piece: Piece, k: nat, off: nat, data: seq<Byte>)
    requires s.Tidy() && Points(s, piece, k, off) && s.cache == piece
    ensures AtCache(s, piece, off) && Grown(s, piece, off, data).Tidy()
    ensures Touched(s, Grown(s, piece, off, data), k, Inserted(s.g.text[piece], off, data))
  {
    CacheReady(s, piece, k, off);
    Basics(s);
    hide Spelled, Owns, State.Tidy, State.CacheOk, Grown, AtCache, Inserted, Touched, Ring, Distinct, Closed;
    var t := Grown(s, piece, off, data);
    GrownTouches(s, piece, k, off, data);
    GrownSpelled(s, piece, off, data);
    TouchInserts(s, t, k, off, data);
    TouchedSame(s, t, k, Inserted(s.g.text[piece], off, data));
    TouchTidy(s, t, k, Inserted(s.g.text[piece], off, data));
  }

  lemma TouchedSame(s: State, t: State, k: nat, x: seq<Byte>)
    requires Touched(s, t, k, x)
    ensures t.blocks == s.blocks && t.cache == s.cache
  {
  }

  /** `cache_delete`, when it applies. */
  ghost function Shrunk(s: State, piece: Piece, off: nat, n: nat): State
    requires AtCache(s, piece, off + n)
  {
    var b, a := LastOf(s.blocks), s.at[piece];
    s.(size := s.size - n, pending := Charged(s.pending, -(n as int)),
       at := s.at[piece := a.(size := a.size - n)],
       store := s.store[b := Deleted(s.store[b], a.off + off, n)],
       g := Rewritten(s.g, piece, Deleted(s.g.text[piece], off, n)))
  }

  lemma ShrunkTouches(s: State, piece: Piece, k: nat, off: nat, n: nat)
    requires AtCache(s, piece, off + n) && Points(s, piece, k, off + n) && s.cache == piece
    ensures Touched(s, Shrunk(s, piece, off, n), k, Deleted(s.g.text[piece], off, n))
  {
  }

  lemma ShrunkSpelled(s: State, piece: Piece, off: nat, n: nat)
    requires AtCache(s, piece, off + n) && Spelled(s.g.text, s.at, s.store)
    requires Owns(s.at, s.store, LastOf(s.blocks), piece)
    ensures var t := Shrunk(s, piece, off, n);
      && Spelled(t.g.text, t.at, t.store) && Owns(t.at, t.store, LastOf(t.blocks), piece)
      && t.store.Keys == s.store.Keys && t.blocks == s.blocks
  {
    hide Spelled, Owns, Deleted, Charged;
    SpelledDelete(s.g.text, s.at, s.store, LastOf(s.blocks), piece, off, n);
    var t := Shrunk(s, piece, off, n);
    assert t.g.text == s.g.text[piece := Deleted(s.g.text[piece], off, n)];
    assert t.at == s.at[piece := s.at[piece].(size := s.at[piece].size - n)];
    assert t.blocks == s.blocks;
  }

  lemma ShrunkTidy(s: State, piece: Piece, k: nat, off: nat, n: nat)
    requires s.Tidy() && Points(s, piece, k, off + n) && s.cache == piece
    ensures AtCache(s, piece, off + n) && Shrunk(s, piece, off, n).Tidy()
    ensures Touched(s, Shrunk(s, piece, off, n), k, Deleted(s.g.text[piece], off, n))
  {
    CacheReady(s, piece, k, off + n);
    Basics(s);
    hide Spelled, Owns, State.Tidy, State.CacheOk, Shrunk, AtCache, Deleted, Touched, Ring, Distinct, Closed;
    var t := Shrunk(s, piece, off, n);
    ShrunkTouches(s, piece, k, off, n);
    ShrunkSpelled(s, piece, off, n);
    TouchDeletes(s, t, k, off, n);
    TouchedSame(s, t, k, Deleted(s.g.text[piece], off, n));
    TouchTidy(s, t, k, Deleted(s.g.text[piece], off, n));
  }

  /** The parts of the state a cache operation changes. */
  ghost predicate Differs(s: State, t: State) {
    && t == s.(size := t.size, pending := t.pending, at := t.at, store := t.store, g := s.g.(text := t.g.text))
    && t.at.Keys == s.at.Keys && t.store.Keys == s.store.Keys
  }

  lemma GrownParts(s: State, piece: Piece, off: nat, data: seq<Byte>)
    requires AtCache(s, piece, off)
    ensures Differs(s, Grown(s, piece, off, data))
  {
  }

  lemma ShrunkParts(s: State, piece: Piece, off: nat, n: nat)
    requires AtCache(s, piece, off + n)
    ensures Differs(s, Shrunk(s, piece, off, n))
  {
  }

  // ------------------------------------------------------------------ new files

  lemma NoEdits(g: Trace)
    requires g.Shaped(0) && g.edits == [[]] && g.draft == []
    ensures g.Applied(0) == [] && g.Undone(0) == []
  {
    var none: seq<seq<Edit>> := [[]];
    assert none[1..] == [] && g.edits[..1] == none && g.edits[1..] == [];
  }

  /** The first piece, linked by `span_swap` into an empty list. */
  lemma FirstLinked(head: Piece, p: Piece, n: nat)
    requires p != head && 0 < n
    ensures var m := WithPiece(Links(map[head := head], map[head := head]), p, head, head);
      && Closed(m) && CanSwap(m, Span(null, null, 0), Span(p, p, n))
      && SwapLinks(m, Span(null, null, 0), Span(p, p, n))
         == Links(map[head := p, p := head], map[head := p, p := head])
  {
    var m := WithPiece(Links(map[head := head], map[head := head]), p, head, head);
    assert m.next == map[head := head, p := head] && m.prev == m.next;
    assert Leashed(m, p) && Leashed(m, head);
    var s := SwapLinks(m, Span(null, null, 0), Span(p, p, n));
    assert s.next == map[head := p, p := head] && s.prev == s.next;
  }

  /** A file without a piece. */
  lemma FreshTidy(s: State)
    requires s.g.chain == [] && s.g.links == Links(map[s.head := s.head], map[s.head := s.head])
    requires s.g.text == map[] && s.at == map[] && s.store == map[] && s.blocks == [] && s.cache == null
    requires s.g.marks == [[]] && s.g.edits == [[]] && s.g.draft == [] && s.pending == [] && |s.revs| == 1 && s.cur == 0
    requires s.size == 0
    ensures s.Tidy() && s.Abs() == E.Editor([], [[]], 0, false) && s.Honest() && s.Firm()
  {
    hide Spelled, Kept, Trace.Sound, State.Abs, State.Honest, State.Firm, State.CacheOk;
    FreshSound(s);
    FreshShows(s);
  }

  lemma FreshSound(s: State)
    requires s.g.chain == [] && s.g.links == Links(map[s.head := s.head], map[s.head := s.head]) && s.g.text == map[]
    requires s.g.marks == [[]] && s.g.edits == [[]] && s.g.draft == [] && s.cur == 0
    ensures s.g.Sound(s.head, s.cur)
  {
    assert [s.head] + [] + [s.head] == [s.head, s.head];
    assert Ring(s.g.links, s.head, []) && Closed(s.g.links);
    NoEdits(s.g);
    hide Ring, Closed, Trace.Applied, Trace.Undone;
    assert s.g.Shaped(0) && s.g.Threaded(0) && s.g.Windable(s.head, 0) && s.g.Covered(s.head) && s.g.Novel();
  }

  lemma FreshShows(s: State)
    requires s.g.chain == [] && s.g.text == map[] && s.at == map[] && s.cache == null && s.cur == 0
    requires s.g.marks == [[]] && s.g.edits == [[]] && s.g.draft == [] && s.pending == [] && |s.revs| == 1
    ensures s.Abs() == E.Editor([], [[]], 0, false) && s.Honest() && s.Firm() && s.Contents() == [] && s.CacheOk()
    ensures Spelled(s.g.text, s.at, s.store) && Kept(s.revs, s.pending, s.cur, s.g)
  {
    assert s.Snaps() == [[]];
  }

  /** A file with the piece `p`, just linked, that shows all of its first block. */
  lemma LoadTidy(s: State, b: Block, p: Piece, x: seq<Byte>)
    requires x != [] && p != s.head && s.g.chain == [p] && s.cache == null
    requires var m := WithPiece(Links(map[s.head := s.head], map[s.head := s.head]), p, s.head, s.head);
      CanSwap(m, Span(null, null, 0), Span(p, p, |x|))
        && s.g.links == SwapLinks(m, Span(null, null, 0), Span(p, p, |x|))
    requires Body(s.g.text, s.at) == WithBytes(Body(map[], map[]), p, x, Slice(b, 0, |x|))
    requires var none: Store := map[]; s.store == none[b := x]
    requires s.blocks == [b]
    requires s.g.marks == [[p]] && s.g.edits == [[]] && s.g.draft == [] && s.pending == [] && |s.revs| == 1
      && s.cur == 0
    requires s.size == |x|
    ensures s.Tidy() && s.Abs() == E.Editor(x, [x], 0, false) && s.Honest() && s.Firm()
    ensures s.g.links.next.Keys == {s.head, p} && s.store.Keys == {b}
  {
    hide State.Tidy, State.Abs, State.Honest, State.Firm, SwapLinks, CanSwap;
    FirstLinked(s.head, p, |x|);
    assert s.g.text == Body(s.g.text, s.at).text && s.at == Body(s.g.text, s.at).at;
    assert s.g.text == map[p := x] && s.at == map[p := Slice(b, 0, |x|)] && s.store == map[b := x];
    OpenTidy(s, b, p, x);
  }

  /** A single piece, linked by the first revision. */
  ghost predicate Opened(s: State, b: Block, p: Piece, x: seq<Byte>) {
    && x != [] && p != s.head && s.g.chain == [p] && s.cache == null
    && s.g.links == Links(map[s.head := p, p := s.head], map[s.head := p, p := s.head])
    && s.g.text == map[p := x] && s.at == map[p := Slice(b, 0, |x|)] && s.store == map[b := x] && s.blocks == [b]
    && s.g.marks == [[p]] && s.g.edits == [[]] && s.g.draft == [] && s.pending == [] && |s.revs| == 1 && s.cur == 0
    && s.size == |x|
  }

  lemma OpenSound(s: State, b: Block, p: Piece, x: seq<Byte>)
    requires Opened(s, b, p, x)
    ensures s.g.Sound(s.head, s.cur)
  {
    NoEdits(s.g);
    OpenRing(s.g.links, s.head, p);
    hide Ring, Closed, Trace.Applied, Trace.Undone;
    assert s.g.Shaped(0) && s.g.Threaded(0) && s.g.Windable(s.head, 0) && s.g.Covered(s.head);
  }

  lemma OpenRing(m: Links, head: Piece, p: Piece)
    requires p != head && m == Links(map[head := p, p := head], map[head := p, p := head])
    ensures Ring(m, head, [p]) && Closed(m)
  {
    assert [head] + [p] + [head] == [head, p, head];
  }

  lemma OpenShows(s: State, b: Block, p: Piece, x: seq<Byte>)
    requires Opened(s, b, p, x)
    ensures s.Abs() == E.Editor(x, [x], 0, false) && s.Honest() && s.Firm() && s.Contents() == x
    ensures Spelled(s.g.text, s.at, s.store) && Kept(s.revs, s.pending, s.cur, s.g)
  {
    TextOne(s.g.text, p);
    assert s.Snaps() == [x];
    assert x[0..|x|] == x;
  }

  lemma OpenTidy(s: State, b: Block, p: Piece, x: seq<Byte>)
    requires Opened(s, b, p, x)
    ensures s.Tidy() && s.Abs() == E.Editor(x, [x], 0, false) && s.Honest() && s.Firm()
  {
    hide Spelled, Kept, Trace.Sound, State.Abs, State.Honest, State.Firm;
    OpenSound(s, b, p, x);
    OpenShows(s, b, p, x);
  }
}
