/** What an edit does to the chain piece by piece, and to the room in the last block. */
module Effect {
  import opened Bytes
  import opened Links
  import opened Chain
  import opened Heap
  import opened Trace
  import opened Ledger
  import opened State
  import opened Recording
  import opened Cases

  const MEM_BLOCK_SIZE: nat := 1024 * 1024

  /** The edit of the last pending change. */
  ghost function LastEdit(t: State): Edit
    requires t.g.draft != []
  {
    t.g.draft[|t.g.draft| - 1]
  }

  /** One more edit leads from the chain of `s` to that of `t`, with pieces not known before; the
      known ones keep their bytes. */
  ghost predicate OneEdit(s: State, t: State) {
    && t.g.draft != [] && t.g.draft[..|t.g.draft| - 1] == s.g.draft
    && var e := LastEdit(t);
      && e.From() == s.g.chain && e.To() == t.g.chain && Known(s.g.text, s.g.chain) && Grows(s.g.text, t.g.text)
      && t.g.text.Keys == s.g.text.Keys + Members(e.came) && Known(t.g.text, e.came)
      && forall p :: p in e.came ==> p !in s.g.text
  }

  /** New bytes got a piece of their own, which is cached: between two pieces, or between the two
      halves of one. */
  ghost predicate Placed(s: State, t: State, offset: nat, data: seq<Byte>) {
    && OneEdit(s, t) && t.cache != null && t.cache in t.g.text && t.g.text[t.cache] == data
    && var e := LastEdit(t); var lo := Offset(s.g.text, s.g.chain, |e.before|);
      if e.gone == [] then e.came == [t.cache] && lo == offset
      else
        && |e.gone| == 1 && |e.came| == 3 && e.came[1] == t.cache
        && var x := s.g.text[e.gone[0]];
          && lo < offset < lo + |x|
          && t.g.text[e.came[0]] == x[..offset - lo] && t.g.text[e.came[2]] == x[offset - lo..]
  }

  /** The pieces from the one with the first byte of the range to the one where it ends give way to
      new pieces for what is left of these two. */
  ghost predicate Narrows(t: Texts, c: seq<Piece>, u: Texts, e: Edit, offset: nat, len: nat)
    requires Known(t, c) && e.From() == c && e.gone != [] && Known(u, e.came)
  {
    var x, y := t[e.gone[0]], t[e.gone[|e.gone| - 1]];
    var lo, hi := Offset(t, c, |e.before|), Offset(t, c, |e.before| + |e.gone|);
    var end := Min(offset + len, |Text(t, c)|);
    && lo <= offset < lo + |x| && hi - |y| <= end <= hi
    && |e.came| == (if lo < offset then 1 else 0) + (if end < hi then 1 else 0)
    && (lo < offset ==> u[e.came[0]] == x[..offset - lo])
    && (end < hi ==> u[e.came[|e.came| - 1]] == y[|y| - (hi - end)..])
  }

  /** Bytes are gone, and nothing else was written. */
  ghost predicate Removed(s: State, t: State, offset: nat, len: nat) {
    && OneEdit(s, t) && t.blocks == s.blocks && t.store == s.store && LastEdit(t).gone != []
    && Narrows(s.g.text, s.g.chain, t.g.text, LastEdit(t), offset, len)
  }

  /** The cached piece and the last block are longer by `grow`, or shorter, and the rest is as it was. */
  ghost predicate Recut(s: State, t: State, grow: int) {
    && t.g.chain == s.g.chain && t.cache == s.cache != null && s.cache in s.g.text && s.cache in t.g.text
    && t.g.text == s.g.text[s.cache := t.g.text[s.cache]] && |t.g.text[s.cache]| == |s.g.text[s.cache]| + grow
    && t.blocks == s.blocks != [] && LastOf(s.blocks) in s.store && LastOf(s.blocks) in t.store
    && |t.store[LastOf(s.blocks)]| == |s.store[LastOf(s.blocks)]| + grow
    && t.g.draft == s.g.draft
  }

  /** The last block has room for `n` more bytes. */
  ghost predicate Fits(s: State, n: nat) {
    s.blocks != [] && LastOf(s.blocks) in s.store && LastOf(s.blocks).data.Length - |s.store[LastOf(s.blocks)]| >= n
  }

  /** `n` bytes went to the end of the last block, if they fit there, or into a new one. */
  ghost predicate Roomed(s: State, t: State, n: nat) {
    && t.blocks != [] && LastOf(t.blocks) in t.store
    && (Fits(s, n) ==> t.blocks == s.blocks && |t.store[LastOf(t.blocks)]| == |s.store[LastOf(s.blocks)]| + n)
    && (!Fits(s, n) ==>
          && |t.blocks| == |s.blocks| + 1 && t.blocks[..|s.blocks|] == s.blocks && |t.store[LastOf(t.blocks)]| == n
          && LastOf(t.blocks).data.Length == if n > MEM_BLOCK_SIZE then n else MEM_BLOCK_SIZE)
  }

  /** Every piece has bytes. */
  ghost predicate Filled(s: State) { forall p :: p in s.g.text ==> s.g.text[p] != [] }

  /** Room is made first, and then the bytes are appended. */
  lemma RoomThenBytes(s: State, bs: seq<Block>, st: Store, t: State, n: nat)
    requires bs != [] && LastOf(bs) in st && LastOf(bs) in t.store && t.blocks == bs
    requires |t.store[LastOf(bs)]| == |st[LastOf(bs)]| + n
    requires Fits(s, n) ==> bs == s.blocks && st == s.store
    requires !Fits(s, n) ==>
      && bs == s.blocks + [LastOf(bs)] && |st[LastOf(bs)]| == 0
      && LastOf(bs).data.Length == if n > MEM_BLOCK_SIZE then n else MEM_BLOCK_SIZE
    ensures Roomed(s, t, n)
  {
  }

  /** A file just read has one full block and one piece. */
  lemma LoadedFull(s: State, b: Block, p: Piece, x: seq<Byte>)
    requires Body(s.g.text, s.at) == WithBytes(Body(map[], map[]), p, x, Slice(b, 0, |x|)) && x != []
    requires s.blocks == [b] && b in s.store && s.store[b] == x && b.data.Length == |x|
    ensures Filled(s) && !Fits(s, 1)
  {
  }

  lemma RoomedSame(s: State, r: State, t: State, n: nat)
    requires Roomed(s, r, n) && t.blocks == r.blocks && t.store == r.store
    ensures Roomed(s, t, n)
  {
  }

  lemma SplicedOne(s: State, bs: seq<Block>, st: Store, at: Slices, links: Links, u: Texts, i: nat, j: nat,
                   ps: seq<Piece>, pos: nat, cache: Piece?)
    requires i <= j <= |s.g.chain| && EditKnown(u, Splice(s, i, j, ps)) && Known(s.g.text, s.g.chain)
    requires Added(s.g.text, u, ps) && forall p :: p in ps ==> p !in s.g.text
    ensures var t := Spliced(s, bs, st, at, links, u, Splice(s, i, j, ps), pos, cache);
      && OneEdit(s, t) && LastEdit(t) == Splice(s, i, j, ps)
      && t.g.text == u && t.cache == cache && t.blocks == bs && t.store == st
  {
    hide Relink, ChangeOf, Text, Members;
    SpliceEnds(s, i, j, ps);
    var e := Splice(s, i, j, ps);
    var t := Spliced(s, bs, st, at, links, u, e, pos, cache);
    assert t.g.draft == s.g.draft + [e];
  }

  lemma OnePlaced(s: State, bs: seq<Block>, st: Store, b: Block, off: nat, i: nat, p: Piece, data: seq<Byte>,
                  m: Links, u: Texts, w: Slices, pos: nat)
    requires OneMade(s, i, p, Slice(b, off, |data|), data, m, u, w) && EditKnown(u, Splice(s, i, i, [p]))
    requires Known(s.g.text, s.g.chain) && pos == Offset(s.g.text, s.g.chain, i)
    ensures Placed(s, Spliced(s, bs, st, w, m, u, Splice(s, i, i, [p]), pos, p), pos, data)
  {
    assert u == s.g.text[p := data] && Members([p]) == {p};
    hide Spliced, OneEdit, Offset, WithPiece, OneMade;
    SplicedOne(s, bs, st, w, m, u, i, i, [p], pos, p);
  }

  lemma ThreePlaced(s: State, bs: seq<Block>, st: Store, slice: Slice, k: nat, po: nat, p: Piece, q: Piece, r: Piece,
                    data: seq<Byte>, m: Links, u: Texts, w: Slices, pos: nat)
    requires ThreeMade(s, k, po, p, q, r, slice, data, m, u, w)
      && EditKnown(u, Splice(s, k, k + 1, [p, q, r]))
    requires Known(s.g.text, s.g.chain) && pos == Offset(s.g.text, s.g.chain, k) + po
    ensures Placed(s, Spliced(s, bs, st, w, m, u, Splice(s, k, k + 1, [p, q, r]), pos, q), pos, data)
  {
    ThreeTexts(s, k, po, p, q, r, slice, data, m, u, w);
    hide Spliced, OneEdit, Offset, ThreeMade, Added;
    SplicedOne(s, bs, st, w, m, u, k, k + 1, [p, q, r], pos, q);
  }

  lemma ThreeTexts(s: State, k: nat, po: nat, p: Piece, q: Piece, r: Piece, slice: Slice, data: seq<Byte>, m: Links,
                   u: Texts, w: Slices)
    requires ThreeMade(s, k, po, p, q, r, slice, data, m, u, w)
    ensures k < |s.g.chain| && s.g.chain[k] in s.g.text && Added(s.g.text, u, [p, q, r])
    ensures p !in s.g.text && q !in s.g.text && r !in s.g.text
    ensures var x := s.g.text[s.g.chain[k]];
      0 < po < |x| && u[p] == x[..po] && u[q] == data && u[r] == x[po..]
  {
    var x, a := s.g.text[s.g.chain[k]], s.at[s.g.chain[k]];
    ThreeAdded(s.g.text, s.at, p, q, r, x[0..po], data, x[po..|x|],
               Slice(a.block, a.off, po), slice, Slice(a.block, a.off + po, a.size - po));
    assert u == Body(u, w).text;
    hide WithThreeBytes, WithThree;
  }

  lemma CutNarrows(s: State, i: nat, so: nat, k: nat, eo: nat, left: bool, p: Piece, right: bool, q: Piece, u: Texts,
                   pos: nat, len: nat)
    requires Cut(s, i, so, k, eo, left, p, right, q, u) && Known(u, Only(left, p) + Only(right, q))
    requires pos == Offset(s.g.text, s.g.chain, i) + so
    requires Offset(s.g.text, s.g.chain, k) + eo == Min(pos + len, |Text(s.g.text, s.g.chain)|)
    requires Splice(s, i, k + 1, Only(left, p) + Only(right, q)).From() == s.g.chain
    ensures Narrows(s.g.text, s.g.chain, u, Splice(s, i, k + 1, Only(left, p) + Only(right, q)), pos, len)
  {
    hide Offset, Added, Text, Min, Known;
    OffsetNext(s.g.text, s.g.chain, k);
    var g := s.g.chain[i..k + 1];
    assert g[0] == s.g.chain[i] && g[|g| - 1] == s.g.chain[k];
  }

  lemma CutRemoved(s: State, i: nat, so: nat, k: nat, eo: nat, left: bool, p: Piece, right: bool, q: Piece,
                   m: Links, u: Texts, w: Slices, pos: nat, len: nat)
    requires CutMade(s, i, so, k, eo, left, p, right, q, m, u, w)
    requires EditKnown(u, Splice(s, i, k + 1, Only(left, p) + Only(right, q)))
    requires Known(s.g.text, s.g.chain) && i <= k < |s.g.chain| && pos == Offset(s.g.text, s.g.chain, i) + so
    requires Offset(s.g.text, s.g.chain, k) + eo == Min(pos + len, |Text(s.g.text, s.g.chain)|)
    ensures var t := Spliced(s, s.blocks, s.store, w, m, u, Splice(s, i, k + 1, Only(left, p) + Only(right, q)), pos,
      s.cache);
      Removed(s, t, pos, len)
  {
    var ps := Only(left, p) + Only(right, q);
    CutIsAdded(s, i, so, k, eo, left, p, right, q, m, u, w);
    CutAdded(s, i, so, k, eo, left, p, right, q, u);
    assert forall x :: x in ps ==> x !in s.g.text;
    assert Splice(s, i, k + 1, ps).gone != [];
    hide Spliced, OneEdit, Offset, CutMade, Added, Text, Min, Only, Cut, Narrows, Splice, Known;
    SplicedOne(s, s.blocks, s.store, w, m, u, i, k + 1, ps, pos, s.cache);
    EditParts(s, i, k + 1, ps, u);
    CutNarrows(s, i, so, k, eo, left, p, right, q, u, pos, len);
  }

  lemma EditParts(s: State, i: nat, j: nat, ps: seq<Piece>, u: Texts)
    requires i <= j <= |s.g.chain| && EditKnown(u, Splice(s, i, j, ps))
    ensures Splice(s, i, j, ps).From() == s.g.chain && Splice(s, i, j, ps).came == ps && Known(u, ps)
  {
    SpliceEnds(s, i, j, ps);
  }

  lemma PlacedFilled(s: State, t: State, at: nat, data: seq<Byte>)
    requires Placed(s, t, at, data) && data != [] && Filled(s)
    ensures Filled(t)
  {
    hide Offset;
    var e := LastEdit(t);
    forall p | p in t.g.text ensures t.g.text[p] != [] {
      if p !in s.g.text {
        assert p in e.came;
      }
    }
  }

  lemma RemovedFilled(s: State, t: State, at: nat, len: nat)
    requires Removed(s, t, at, len) && Filled(s)
    ensures Filled(t)
  {
    hide Offset, Text;
    var e := LastEdit(t);
    forall p | p in t.g.text ensures t.g.text[p] != [] {
      if p !in s.g.text {
        assert p in e.came;
      }
    }
  }
}
