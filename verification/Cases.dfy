/** The three shapes of slow edits: a piece at an edge, a piece split around new bytes, and a
    range cut out. */
module Cases {
  import opened Bytes
  import opened Links
  import opened Chain
  import opened Heap
  import opened History
  import opened Trace
  import opened Ledger
  import opened State
  import opened Recording

  // ------------------------------------------------------------------ where the new piece is

  lemma PlaceUnique(head: Piece, d: seq<Piece>, n: nat, p: Piece)
    requires Distinct([head] + d) && n < |d| && d[n] == p
    ensures forall k :: 0 <= k < |d| && d[k] == p ==> k == n
  {
    forall k | 0 <= k < |d| && d[k] == p ensures k == n {
      assert ([head] + d)[k + 1] == d[k] && ([head] + d)[n + 1] == d[n];
    }
  }

  /** After an insertion the piece with the new bytes, the `n`th of the new ones, is a sound
      cached piece. */
  lemma InsertedCache(s: State, t: State, links: Links, i: nat, j: nat, ps: seq<Piece>, n: nat, c: Change)
    requires s.Tidy() && i <= j <= |s.g.chain| && Extended(s, t, links, Splice(s, i, j, ps), c)
    requires n < |ps| && t.cache == ps[n] && Known(t.g.text, s.g.chain[..i]) && Known(t.g.text, ps)
    requires t.blocks != [] && Owns(t.at, t.store, LastOf(t.blocks), ps[n])
    requires |Text(t.g.text, s.g.chain[..i])| + |Text(t.g.text, ps[..n])| == c.pos
    ensures t.CacheOk()
  {
    hide State.Tidy, Extended, Owns, Trace.Covered, Distinct, Splice;
    TidyCovered(s);
    var e := Splice(s, i, j, ps);
    ExtendedParts(s, t, links, e, c);
    SpliceIndex(s, i, j, ps, n);
    var d := t.g.chain;
    PlaceUnique(s.head, d, i + n, ps[n]);
    TextConcat(t.g.text, s.g.chain[..i], ps[..n]);
    NewCacheOk(s, t, links, e, c, ps[n]);
  }

  lemma SpliceIndex(s: State, i: nat, j: nat, ps: seq<Piece>, n: nat)
    requires i <= j <= |s.g.chain| && n < |ps|
    ensures var e := Splice(s, i, j, ps); var d := e.To();
      |d| > i + n && d[i + n] == ps[n] && d[..i + n] == s.g.chain[..i] + ps[..n] && ps[n] in e.came
  {
  }

  lemma ExtendedParts(s: State, t: State, links: Links, e: Edit, c: Change)
    requires Extended(s, t, links, e, c)
    ensures t.g.chain == e.To() && Distinct([s.head] + e.To()) && Known(t.g.text, e.To())
  {
  }

  // ------------------------------------------------------------------ a piece at an edge

  lemma OneHung(s: State, i: nat, p: Piece, data: seq<Byte>)
    requires Anchored(s) && i <= |s.g.chain| && p !in s.g.links.next && p !in s.g.text
    ensures var n := Links(s.g.links.next[p := After(s, i)], s.g.links.prev[p := Before(s, i)]);
      Hung(s.g.links, n, Before(s, i), [p], After(s, i)) && Added(s.g.text, s.g.text[p := data], [p])
  {
  }

  lemma OneSpelled(s: State, bs: seq<Block>, st: Store, b: Block, off: nat, p: Piece, data: seq<Byte>)
    requires Reserved(s, bs, st, b, off, data) && p !in s.g.text
    ensures Spelled(s.g.text[p := data], s.at[p := Slice(b, off, |data|)], st)
    ensures Owns(s.at[p := Slice(b, off, |data|)], st, b, p)
  {
    SpelledPiece(s.g.text, s.at, st, p, Slice(b, off, |data|), data);
  }

  /** `m`, `u` and `w` hold the new piece `p` for an insertion at the edge with index `i`. */
  ghost predicate OneMade(s: State, i: nat, p: Piece, slice: Slice, data: seq<Byte>, m: Links, u: Texts, w: Slices)
  {
    && i <= |s.g.chain| && p !in s.g.links.next && p !in s.g.text && data != []
    && m == WithPiece(s.g.links, p, Before(s, i), After(s, i))
    && Body(u, w) == WithBytes(Body(s.g.text, s.at), p, data, slice)
  }

  lemma OneReady(s: State, bs: seq<Block>, st: Store, b: Block, off: nat, i: nat, p: Piece, data: seq<Byte>,
                 m: Links, u: Texts, w: Slices, pos: nat)
    requires Anchored(s) && Reserved(s, bs, st, b, off, data) && OneMade(s, i, p, Slice(b, off, |data|), data, m, u, w)
    ensures Hung(s.g.links, m, Before(s, i), [p], After(s, i)) && Added(s.g.text, u, [p])
    ensures Spelled(u, w, st) && Owns(w, st, b, p) && Ready(m, u, s.head, Splice(s, i, i, [p]), pos)
    ensures EditKnown(u, Splice(s, i, i, [p]))
  {
    OneHung(s, i, p, data);
    OneSpelled(s, bs, st, b, off, p, data);
    OneText(s, i, p, data) by { assert Known(s.g.text, s.g.chain); }
    hide Anchored, Hung, Added, Reserved, Spelled, Owns, Splice, Full, EditKnown;
    Readying(s, i, i, [p], m, u, pos);
  }

  lemma OneText(s: State, i: nat, p: Piece, data: seq<Byte>)
    requires Known(s.g.text, s.g.chain) && i <= |s.g.chain| && p !in s.g.text && data != []
    ensures var u := s.g.text[p := data]; var e := Splice(s, i, i, [p]);
      && EditKnown(u, e) && Full(e, u) && Known(u, e.To()) && Text(u, [p]) == data
      && Text(u, s.g.chain[..i]) == Text(s.g.text, s.g.chain[..i])
      && Offset(s.g.text, s.g.chain, i) <= |Text(s.g.text, s.g.chain)|
      && Text(u, e.To()) == Inserted(Text(s.g.text, s.g.chain), Offset(s.g.text, s.g.chain, i), data)
  {
    var u := s.g.text[p := data];
    SpliceKnown(s, i, i, [p], u);
    SpliceText(s, i, i, [p], u);
    TextOne(u, p);
    TextKept(s.g.text, u, s.g.chain[..i]);
    assert s.g.chain[i..i] == [];
  }

  // ------------------------------------------------------------------ a piece split around new bytes

  lemma ThreeHung(m: Links, n: Links, l: Piece, p: Piece, q: Piece, r: Piece, after: Piece)
    requires Extends(m, n) && n.next.Keys == n.prev.Keys == m.next.Keys + {p, q, r}
    requires p !in m.next && q !in m.next && r !in m.next && p != q && q != r && p != r
    requires n.next[p] == q && n.next[q] == r && n.next[r] == after
    requires n.prev[p] == l && n.prev[q] == p && n.prev[r] == q
    ensures Hung(m, n, l, [p, q, r], after)
  {
  }

  lemma ThreeText(s: State, k: nat, off: nat, p: Piece, q: Piece, r: Piece, u: Texts, data: seq<Byte>)
    requires Known(s.g.text, s.g.chain) && k < |s.g.chain| && data != []
    requires Added(s.g.text, u, [p, q, r])
    requires var x := s.g.text[s.g.chain[k]]; 0 < off < |x| && u[p] == x[..off] && u[q] == data && u[r] == x[off..]
    ensures var e := Splice(s, k, k + 1, [p, q, r]);
      && EditKnown(u, e) && Full(e, u) && Known(u, e.To()) && Text(u, [p]) == s.g.text[s.g.chain[k]][..off]
      && Text(u, s.g.chain[..k]) == Text(s.g.text, s.g.chain[..k])
      && Offset(s.g.text, s.g.chain, k) + off <= |Text(s.g.text, s.g.chain)|
      && Text(u, e.To()) == Inserted(Text(s.g.text, s.g.chain), Offset(s.g.text, s.g.chain, k) + off, data)
  {
    hide Added, Grows, Members, Full, EditKnown, Inserted, Text, Offset;
    var x := s.g.text[s.g.chain[k]];
    SpliceKnown(s, k, k + 1, [p, q, r], u);
    ThreeKnown(s, k, u, p, q, r);
    ThreeSpan(u, p, q, r);
    ThreeFull(s, k, p, q, r, u, x, off, data);
    TextKept(s.g.text, u, s.g.chain[..k]);
    OffsetNext(s.g.text, s.g.chain, k);
    SpliceText(s, k, k + 1, [p, q, r], u);
    TextAround(s.g.text, s.g.chain, k);
    ThreeSplice(Text(s.g.text, s.g.chain[..k]), x, Text(s.g.text, s.g.chain[k + 1..]), off, data);
  }

  lemma ThreeKnown(s: State, k: nat, u: Texts, p: Piece, q: Piece, r: Piece)
    requires Added(s.g.text, u, [p, q, r]) && Known(s.g.text, s.g.chain) && k < |s.g.chain|
    ensures p in u && q in u && r in u && Known(u, [p, q, r]) && Grows(s.g.text, u)
    ensures s.g.chain[k] in u && u[s.g.chain[k]] == s.g.text[s.g.chain[k]]
    ensures Known(s.g.text, s.g.chain[..k]) && Known(s.g.text, s.g.chain[k + 1..])
    ensures Known(u, s.g.chain[..k])
    ensures forall z :: z in s.g.chain[..k] ==> u[z] == s.g.text[z]
  {
    assert p in [p, q, r] && q in [p, q, r] && r in [p, q, r];
  }

  lemma ThreeSpan(u: Texts, p: Piece, q: Piece, r: Piece)
    requires p in u && q in u && r in u
    ensures Text(u, [p]) == u[p] && Text(u, [p, q, r]) == u[p] + u[q] + u[r]
  {
    TextOne(u, p);
    TextOne(u, q);
    TextOne(u, r);
    TextThree(u, [p], [q], [r]);
    assert [p] + [q] + [r] == [p, q, r];
  }

  lemma ThreeSplice(a: seq<Byte>, x: seq<Byte>, b: seq<Byte>, off: nat, data: seq<Byte>)
    requires off <= |x|
    ensures a + (x[..off] + data + x[off..]) + b == Inserted(a + x + b, |a| + off, data)
  {
    InsertedInside(a, x, b, off, data);
  }

  lemma ThreeFull(s: State, k: nat, p: Piece, q: Piece, r: Piece, u: Texts, x: seq<Byte>, off: nat, data: seq<Byte>)
    requires k < |s.g.chain| && Known(u, [p, q, r]) && s.g.chain[k] in u && u[s.g.chain[k]] == x && x != []
    requires off <= |x| && Text(u, [p, q, r]) == x[..off] + data + x[off..]
    ensures Full(Splice(s, k, k + 1, [p, q, r]), u)
  {
    assert s.g.chain[k..k + 1] == [s.g.chain[k]];
    TextOne(u, s.g.chain[k]);
  }

  /** `p`, `q`, `r` hold the front of piece `k`, the new bytes, and the rest of piece `k`. */
  ghost predicate ThreeMade(s: State, k: nat, off: nat, p: Piece, q: Piece, r: Piece, slice: Slice, data: seq<Byte>,
                            m: Links, u: Texts, w: Slices)
  {
    && k < |s.g.chain| && s.g.chain[k] in s.g.text && s.g.chain[k] in s.at && data != []
    && p !in s.g.links.next && q !in s.g.links.next && r !in s.g.links.next && p != q && q != r && p != r
    && p !in s.g.text && q !in s.g.text && r !in s.g.text
    && m == WithThree(s.g.links, p, q, r, Before(s, k), After(s, k + 1))
    && (var x, a := s.g.text[s.g.chain[k]], s.at[s.g.chain[k]];
        && 0 < off < |x| && off <= a.size
        && Body(u, w) == WithThreeBytes(Body(s.g.text, s.at), p, x[0..off], Slice(a.block, a.off, off), q, data, slice,
                                        r, x[off..|x|], Slice(a.block, a.off + off, a.size - off)))
  }

  /** Three pieces added one after the other, and the first two tied to their successors. */
  ghost function WithThree(m: Links, p: Piece, q: Piece, r: Piece, prev: Piece, next: Piece): Links {
    WithNext(WithNext(WithPiece(WithPiece(WithPiece(m, p, prev, next), q, p, next), r, q, next), p, q), q, r)
  }

  lemma ThreeLinked(m: Links, p: Piece, q: Piece, r: Piece, prev: Piece, next: Piece)
    requires m.next.Keys == m.prev.Keys && p !in m.next && q !in m.next && r !in m.next
    requires p != q && q != r && p != r
    ensures var n := WithThree(m, p, q, r, prev, next);
      && Extends(m, n) && n.next.Keys == n.prev.Keys == m.next.Keys + {p, q, r}
      && n.next[p] == q && n.next[q] == r && n.next[r] == next
      && n.prev[p] == prev && n.prev[q] == p && n.prev[r] == q
  {
    hide WithPiece, WithNext, Extends;
    var a := WithPiece(m, p, prev, next);
    var b := WithPiece(a, q, p, next);
    var l := WithPiece(b, r, q, next);
    PieceAdded(m, p, prev, next);
    PieceAdded(a, q, p, next);
    PieceAdded(b, r, q, next);
    NextSet(m, l, p, q);
    NextSet(m, WithNext(l, p, q), q, r);
    ExtendsTwice(m, a, b);
    ExtendsTwice(m, b, l);
  }

  lemma PieceAdded(m: Links, p: Piece, prev: Piece, next: Piece)
    requires m.next.Keys == m.prev.Keys && p !in m.next
    ensures var n := WithPiece(m, p, prev, next);
      && Extends(m, n) && n.next.Keys == n.prev.Keys == m.next.Keys + {p} && n.next[p] == next && n.prev[p] == prev
      && (forall x :: x in m.next ==> n.next[x] == m.next[x]) && (forall x :: x in m.prev ==> n.prev[x] == m.prev[x])
  {
  }

  lemma ExtendsTwice(m: Links, n: Links, o: Links)
    requires Extends(m, n) && Extends(n, o)
    ensures Extends(m, o)
  {
  }

  /** A pointer of a piece that is not in `m` may change. */
  lemma NextSet(m: Links, n: Links, p: Piece, q: Piece)
    requires n.next.Keys == n.prev.Keys && p in n.next && p !in m.next
    ensures var o := WithNext(n, p, q);
      && (Extends(m, n) ==> Extends(m, o)) && o.next.Keys == o.prev.Keys == n.next.Keys && o.prev == n.prev
      && o.next[p] == q && forall x :: x in n.next && x != p ==> o.next[x] == n.next[x]
  {
  }

  ghost function WithThreeBytes(b: Body, p: Piece, x: seq<Byte>, sp: Slice, q: Piece, y: seq<Byte>, sq: Slice,
                                r: Piece, z: seq<Byte>, sr: Slice): Body
  {
    WithBytes(WithBytes(WithBytes(b, p, x, sp), q, y, sq), r, z, sr)
  }

  lemma ThreeAdded(t: Texts, at: Slices, p: Piece, q: Piece, r: Piece, x: seq<Byte>, y: seq<Byte>, z: seq<Byte>,
                   sp: Slice, sq: Slice, sr: Slice)
    requires p !in t && q !in t && r !in t && p != q && q != r && p != r
    ensures var u := WithThreeBytes(Body(t, at), p, x, sp, q, y, sq, r, z, sr).text;
      Added(t, u, [p, q, r]) && u[p] == x && u[q] == y && u[r] == z
  {
    assert Members([p, q, r]) == {p, q, r};
  }

  lemma MadeThree(s: State, k: nat, off: nat, c: Piece, p: Piece, q: Piece, r: Piece, slice: Slice, data: seq<Byte>,
                  m: Links, u: Texts, w: Slices)
    requires k < |s.g.chain| && s.g.chain[k] == c && c in s.g.text && c in s.at && data != []
    requires p !in s.g.links.next && q !in s.g.links.next && r !in s.g.links.next && p != q && q != r && p != r
    requires p !in s.g.text && q !in s.g.text && r !in s.g.text
    requires m == WithThree(s.g.links, p, q, r, Before(s, k), After(s, k + 1))
    requires var x, a := s.g.text[c], s.at[c];
      && 0 < off < |x| && off <= a.size
      && Body(u, w) == WithThreeBytes(Body(s.g.text, s.at), p, x[0..off], Slice(a.block, a.off, off), q, data, slice,
                                      r, x[off..|x|], Slice(a.block, a.off + off, a.size - off))
    requires s.g.links.next.Keys == s.g.links.prev.Keys
    ensures ThreeMade(s, k, off, p, q, r, slice, data, m, u, w)
    ensures m.next.Keys == s.g.links.next.Keys + {p, q, r}
  {
    hide WithThreeBytes, WithThree;
    ThreeLinked(s.g.links, p, q, r, Before(s, k), After(s, k + 1));
  }

  lemma SpelledThree(text: Texts, at: Slices, st: Store, c: Piece, off: nat, p: Piece, q: Piece, r: Piece, sl: Slice,
                     data: seq<Byte>)
    requires Spelled(text, at, st) && c in text && Cuts(sl, st, data)
    requires p !in text && q !in text && r !in text && p != q && q != r && p != r && off <= |text[c]|
    ensures at[c].size == |text[c]|
    ensures var x, a := text[c], at[c];
      var b := WithThreeBytes(Body(text, at), p, x[0..off], Slice(a.block, a.off, off), q, data, sl,
                              r, x[off..|x|], Slice(a.block, a.off + off, a.size - off));
      Spelled(b.text, b.at, st)
  {
    hide Spelled, Cuts;
    SameKeys(text, at, st);
    SizeOf(text, at, st, c);
    var x, a := text[c], at[c];
    SpelledTwo(text, at, st, c, off, p, q, sl, data);
    var t, w := text[p := x[0..off]][q := data], at[p := Slice(a.block, a.off, off)][q := sl];
    PartSpelled(t, w, st, c, r, off, |x|);
  }

  lemma SpelledTwo(text: Texts, at: Slices, st: Store, c: Piece, off: nat, p: Piece, q: Piece, sl: Slice,
                   data: seq<Byte>)
    requires Spelled(text, at, st) && c in text && c in at && Cuts(sl, st, data)
    requires p !in text && q !in text && p != q && off <= |text[c]|
    ensures Spelled(text[p := text[c][0..off]][q := data], at[p := Slice(at[c].block, at[c].off, off)][q := sl], st)
  {
    hide Spelled, Cuts;
    PartSpelled(text, at, st, c, p, 0, off);
    SpelledPiece(text[p := text[c][0..off]], at[p := Slice(at[c].block, at[c].off, off)], st, q, sl, data);
  }

  /** Only the new bytes lie at the end of the last block. */
  lemma OwnsThree(s: State, bs: seq<Block>, st: Store, b: Block, at: nat, c: Piece, off: nat, p: Piece, q: Piece,
                  r: Piece,
                  data: seq<Byte>, t: Texts, x: seq<Byte>, z: seq<Byte>)
    requires Reserved(s, bs, st, b, at, data) && c in s.at && off <= s.at[c].size
    requires p !in s.at && q !in s.at && r !in s.at && p != q && q != r && p != r
    ensures var a := s.at[c];
      Owns(WithThreeBytes(Body(t, s.at), p, x, Slice(a.block, a.off, off), q, data, Slice(b, at, |data|),
                          r, z, Slice(a.block, a.off + off, a.size - off)).at, st, b, q)
  {
    hide Spelled;
  }

  lemma ThreeSpelled(s: State, bs: seq<Block>, st: Store, b: Block, at: nat, c: Piece, off: nat, p: Piece, q: Piece,
                     r: Piece,
                     data: seq<Byte>)
    requires Reserved(s, bs, st, b, at, data) && c in s.g.text && c in s.at && off <= |s.g.text[c]|
      && off <= s.at[c].size
    requires p !in s.g.text && q !in s.g.text && r !in s.g.text && p != q && q != r && p != r
    ensures var x, a := s.g.text[c], s.at[c];
      var d := WithThreeBytes(Body(s.g.text, s.at), p, x[0..off], Slice(a.block, a.off, off), q, data,
        Slice(b, at, |data|),
                              r, x[off..|x|], Slice(a.block, a.off + off, a.size - off));
      Spelled(d.text, d.at, st) && Owns(d.at, st, b, q)
  {
    hide Spelled, Cuts, Owns, Reserved, WithThreeBytes;
    ReservedParts(s, bs, st, b, at, data);
    SameKeys(s.g.text, s.at, st);
    SizeOf(s.g.text, s.at, st, c);
    SpelledThree(s.g.text, s.at, st, c, off, p, q, r, Slice(b, at, |data|), data);
    var x := s.g.text[c];
    OwnsThree(s, bs, st, b, at, c, off, p, q, r, data, s.g.text, x[0..off], x[off..|x|]);
  }

  lemma ReservedParts(s: State, bs: seq<Block>, st: Store, b: Block, off: nat, data: seq<Byte>)
    requires Reserved(s, bs, st, b, off, data)
    ensures Spelled(s.g.text, s.at, st) && Cuts(Slice(b, off, |data|), st, data)
  {
  }

  lemma SameKeys(text: Texts, at: Slices, st: Store)
    requires Spelled(text, at, st)
    ensures text.Keys == at.Keys
  {
  }

  lemma ThreeReady(s: State, bs: seq<Block>, st: Store, b: Block, at: nat, k: nat, off: nat, p: Piece, q: Piece,
                   r: Piece,
                   data: seq<Byte>, m: Links, u: Texts, w: Slices, pos: nat)
    requires Anchored(s) && Reserved(s, bs, st, b, at, data)
    requires ThreeMade(s, k, off, p, q, r, Slice(b, at, |data|), data, m, u, w)
    ensures Hung(s.g.links, m, Before(s, k), [p, q, r], After(s, k + 1)) && Added(s.g.text, u, [p, q, r])
    ensures Spelled(u, w, st) && Owns(w, st, b, q) && Ready(m, u, s.head, Splice(s, k, k + 1, [p, q, r]), pos)
    ensures EditKnown(u, Splice(s, k, k + 1, [p, q, r]))
  {
    hide Anchored, Reserved, Spelled, Owns, Splice, Full, EditKnown, Added, Extends, Ready, Hung, WithThree,
         WithThreeBytes;
    ThreeLinked(s.g.links, p, q, r, Before(s, k), After(s, k + 1)) by { AnchorKeysMatch(s); }
    ThreeSpelled(s, bs, st, b, at, s.g.chain[k], off, p, q, r, data);
    assert u == Body(u, w).text && w == Body(u, w).at;
    ThreeHung(s.g.links, m, Before(s, k), p, q, r, After(s, k + 1));
    var x, a := s.g.text[s.g.chain[k]], s.at[s.g.chain[k]];
    ThreeAdded(s.g.text, s.at, p, q, r, x[0..off], data, x[off..|x|],
               Slice(a.block, a.off, off), Slice(b, at, |data|), Slice(a.block, a.off + off, a.size - off));
    assert x[0..off] == x[..off] && x[off..|x|] == x[off..];
    ThreeText(s, k, off, p, q, r, u, data) by { AnchorKnown(s); }
    Readying(s, k, k + 1, [p, q, r], m, u, pos);
  }

  lemma AnchorKeysMatch(s: State)
    requires Anchored(s)
    ensures s.g.links.next.Keys == s.g.links.prev.Keys
  {
  }

  lemma AnchorKnown(s: State)
    requires Anchored(s)
    ensures Known(s.g.text, s.g.chain)
  {
  }

  // ------------------------------------------------------------------ a range cut out

  lemma NoneHung(m: Links, l: Piece, r: Piece)
    requires m.next.Keys == m.prev.Keys
    ensures Hung(m, m, l, [], r)
  {
  }

  lemma SingleHung(m: Links, n: Links, l: Piece, p: Piece, r: Piece)
    requires Extends(m, n) && n.next.Keys == n.prev.Keys == m.next.Keys + {p} && p !in m.next
    requires n.next[p] == r && n.prev[p] == l
    ensures Hung(m, n, l, [p], r)
  {
  }

  lemma TwoHung(m: Links, n: Links, l: Piece, p: Piece, q: Piece, r: Piece)
    requires Extends(m, n) && n.next.Keys == n.prev.Keys == m.next.Keys + {p, q}
    requires p !in m.next && q !in m.next && p != q
    requires n.next[p] == q && n.next[q] == r && n.prev[p] == l && n.prev[q] == p
    ensures Hung(m, n, l, [p, q], r)
  {
  }

  /** The range from offset `so` of the piece `i` to offset `eo` of the piece `k` is cut out:
      `p` keeps the bytes of piece `i` in front of it, `q` those of piece `k` behind it. */
  ghost predicate Cut(s: State, i: nat, so: nat, k: nat, eo: nat, left: bool, p: Piece, right: bool, q: Piece,
                      u: Texts) {
    && i <= k < |s.g.chain| && Known(s.g.text, s.g.chain)
    && so < |s.g.text[s.g.chain[i]]| && eo <= |s.g.text[s.g.chain[k]]|
    && (left <==> so != 0) && (right <==> eo != |s.g.text[s.g.chain[k]]|)
    && Added(s.g.text, u, Only(left, p) + Only(right, q)) && (left && right ==> p != q)
    && (left ==> p in u && u[p] == s.g.text[s.g.chain[i]][..so])
    && (right ==> q in u && u[q] == s.g.text[s.g.chain[k]][eo..])
  }

  lemma OnlyText(u: Texts, left: bool, p: Piece, x: seq<Byte>, right: bool, q: Piece, y: seq<Byte>)
    requires left ==> p in u && u[p] == x
    requires right ==> q in u && u[q] == y
    requires (!left ==> x == []) && (!right ==> y == [])
    ensures Known(u, Only(left, p) + Only(right, q))
    ensures Text(u, Only(left, p)) == x && Text(u, Only(left, p) + Only(right, q)) == x + y
  {
    if left {
      TextOne(u, p);
    }
    if right {
      TextOne(u, q);
    }
    TextConcat(u, Only(left, p), Only(right, q));
  }

  lemma CutRemains(s: State, i: nat, so: nat, k: nat, eo: nat, left: bool, p: Piece, right: bool, q: Piece, u: Texts)
    requires Cut(s, i, so, k, eo, left, p, right, q, u)
    ensures var ps := Only(left, p) + Only(right, q);
      && Known(u, ps) && EditKnown(u, Splice(s, i, k + 1, ps)) && Known(u, Splice(s, i, k + 1, ps).To())
      && Text(u, ps) == s.g.text[s.g.chain[i]][..so] + s.g.text[s.g.chain[k]][eo..]
  {
    var x, y := s.g.text[s.g.chain[i]], s.g.text[s.g.chain[k]];
    OnlyText(u, left, p, x[..so], right, q, y[eo..]);
    SpliceKnown(s, i, k + 1, Only(left, p) + Only(right, q), u);
  }

  lemma FrontInside(t: Texts, c: seq<Piece>, i: nat, so: nat)
    requires Known(t, c) && i < |c| && so <= |t[c[i]]|
    ensures Offset(t, c, i) + so <= |Text(t, c)|
    ensures Text(t, c)[..Offset(t, c, i) + so] == Text(t, c[..i]) + t[c[i]][..so]
  {
    TextAround(t, c, i);
  }

  lemma BackInside(t: Texts, c: seq<Piece>, k: nat, eo: nat)
    requires Known(t, c) && k < |c| && eo <= |t[c[k]]|
    ensures Offset(t, c, k) + eo <= |Text(t, c)|
    ensures Text(t, c)[Offset(t, c, k) + eo..] == t[c[k]][eo..] + Text(t, c[k + 1..])
  {
    TextAround(t, c, k);
  }

  lemma Regroup(a: seq<Byte>, x: seq<Byte>, y: seq<Byte>, b: seq<Byte>)
    ensures a + (x + y) + b == (a + x) + (y + b)
  {
  }

  /** What is left: the text in front of the range and the text behind it. */
  lemma CutContents(s: State, i: nat, so: nat, k: nat, eo: nat, left: bool, p: Piece, right: bool, q: Piece, u: Texts)
    requires Cut(s, i, so, k, eo, left, p, right, q, u)
    ensures var e := Splice(s, i, k + 1, Only(left, p) + Only(right, q)); var t := Text(s.g.text, s.g.chain);
      && Known(u, e.To()) && Offset(s.g.text, s.g.chain, i) + so <= |t| && Offset(s.g.text, s.g.chain, k) + eo <= |t|
      && Text(u, e.To()) == t[..Offset(s.g.text, s.g.chain, i) + so] + t[Offset(s.g.text, s.g.chain, k) + eo..]
  {
    hide EditKnown, Cut, Only, Added, Text, Offset;
    var c, t := s.g.chain, s.g.text;
    CutRemains(s, i, so, k, eo, left, p, right, q, u);
    CutAdded(s, i, so, k, eo, left, p, right, q, u);
    SpliceText(s, i, k + 1, Only(left, p) + Only(right, q), u);
    CutText(t, c, i, k + 1);
    FrontInside(t, c, i, so);
    BackInside(t, c, k, eo);
    Regroup(Text(t, c[..i]), t[c[i]][..so], t[c[k]][eo..], Text(t, c[k + 1..]));
  }

  lemma CutAdded(s: State, i: nat, so: nat, k: nat, eo: nat, left: bool, p: Piece, right: bool, q: Piece, u: Texts)
    requires Cut(s, i, so, k, eo, left, p, right, q, u)
    ensures i <= k < |s.g.chain| && Known(s.g.text, s.g.chain)
    ensures so <= |s.g.text[s.g.chain[i]]| && eo <= |s.g.text[s.g.chain[k]]|
    ensures Added(s.g.text, u, Only(left, p) + Only(right, q))
  {
  }

  /** The cut run had bytes, and so have the pieces that are left of it. */
  lemma CutFull(s: State, i: nat, so: nat, k: nat, eo: nat, left: bool, p: Piece, right: bool, q: Piece, u: Texts)
    requires Cut(s, i, so, k, eo, left, p, right, q, u)
    ensures Full(Splice(s, i, k + 1, Only(left, p) + Only(right, q)), u)
  {
    CutRemains(s, i, so, k, eo, left, p, right, q, u);
    var g := s.g.chain[i..k + 1];
    assert g == [s.g.chain[i]] + g[1..] && g[0] == s.g.chain[i];
    assert Grows(s.g.text, u) && s.g.chain[i] in u && u[s.g.chain[i]] == s.g.text[s.g.chain[i]];
  }

  /** In front of the range nothing is lost: the kept part reaches up to the position. */
  lemma CutFront(s: State, i: nat, so: nat, k: nat, eo: nat, left: bool, p: Piece, right: bool, q: Piece, u: Texts)
    requires Cut(s, i, so, k, eo, left, p, right, q, u)
    ensures var e := Splice(s, i, k + 1, Only(left, p) + Only(right, q));
      Known(u, e.before + e.came) && Offset(s.g.text, s.g.chain, i) + so <= |Text(u, e.before + e.came)|
  {
    CutRemains(s, i, so, k, eo, left, p, right, q, u);
    var e := Splice(s, i, k + 1, Only(left, p) + Only(right, q));
    TextConcat(u, e.before, e.came);
    TextKept(s.g.text, u, e.before);
  }

  lemma SubCut(a: Slice, st: Store, x: seq<Byte>, lo: nat, hi: nat)
    requires Cuts(a, st, x) && lo <= hi <= |x|
    ensures Cuts(Slice(a.block, a.off + lo, hi - lo), st, x[lo..hi])
  {
    SubRange(st[a.block], a.off, a.size, lo, hi);
  }

  lemma SubRange(x: seq<Byte>, off: nat, size: nat, lo: nat, hi: nat)
    requires off + size <= |x| && lo <= hi <= size
    ensures x[off + lo..off + lo + (hi - lo)] == x[off..off + size][lo..hi]
  {
    var u, v := x[off + lo..off + lo + (hi - lo)], x[off..off + size][lo..hi];
    assert |u| == |v| && forall i :: 0 <= i < |u| ==> u[i] == v[i];
    assert u == v;
  }

  /** A piece with part of the bytes of an old one. */
  lemma PartSpelled(text: Texts, at: Slices, st: Store, old_: Piece, p: Piece, lo: nat, hi: nat)
    requires Spelled(text, at, st) && old_ in text && p !in text && lo <= hi <= |text[old_]|
    ensures at[old_].size == |text[old_]|
    ensures Spelled(text[p := text[old_][lo..hi]], at[p := Slice(at[old_].block, at[old_].off + lo, hi - lo)], st)
  {
    assert Cuts(at[old_], st, text[old_]);
    SubCut(at[old_], st, text[old_], lo, hi);
    SpelledPiece(text, at, st, p, Slice(at[old_].block, at[old_].off + lo, hi - lo), text[old_][lo..hi]);
  }

  /** The new pieces of a deletion, in memory. */
  ghost predicate CutMade(s: State, i: nat, so: nat, k: nat, eo: nat, left: bool, p: Piece, right: bool, q: Piece,
                          m: Links, u: Texts, w: Slices)
  {
    && i <= k < |s.g.chain| && s.g.chain[i] in s.g.text && s.g.chain[k] in s.g.text
    && s.g.chain[i] in s.at && s.g.chain[k] in s.at
    && (left ==> p !in s.g.links.next && p !in s.g.text) && (right ==> q !in s.g.links.next && q !in s.g.text)
    && (left && right ==> p != q)
    && (var x, y, a, z := s.g.text[s.g.chain[i]], s.g.text[s.g.chain[k]], s.at[s.g.chain[i]], s.at[s.g.chain[k]];
        && so < |x| && eo <= |y| && so <= a.size && eo <= z.size
        && (left <==> so != 0) && (right <==> eo != |y|)
        && Body(u, w)
          == MaybeBytes(right, MaybeBytes(left, Body(s.g.text, s.at), p, x[0..so], Slice(a.block, a.off, so)),
                                    q, y[eo..|y|], Slice(z.block, z.off + eo, z.size - eo)))
    && Hung(s.g.links, m, Before(s, i), Only(left, p) + Only(right, q), After(s, k + 1))
  }

  /** The links of a deletion, as the code sets them. */
  ghost function CutLinks(m: Links, left: bool, p: Piece, right: bool, q: Piece, before: Piece, after: Piece): Links {
    if left && right then WithNext(WithPiece(WithPiece(m, p, before, after), q, p, after), p, q)
    else if left then WithPiece(m, p, before, after)
    else if right then WithPiece(m, q, before, after)
    else m
  }

  lemma CutHung(m: Links, left: bool, p: Piece, right: bool, q: Piece, before: Piece, after: Piece)
    requires m.next.Keys == m.prev.Keys && (left ==> p !in m.next) && (right ==> q !in m.next)
      && (left && right ==> p != q)
    ensures var n := CutLinks(m, left, p, right, q, before, after);
      && Hung(m, n, before, Only(left, p) + Only(right, q), after)
      && n.next.Keys == m.next.Keys + (if left then {p} else {}) + (if right then {q} else {})
  {
    hide Hung, WithPiece, WithNext, Extends;
    var n := CutLinks(m, left, p, right, q, before, after);
    if left && right {
      var a := WithPiece(m, p, before, after);
      PieceAdded(m, p, before, after);
      PieceAdded(a, q, p, after);
      ExtendsTwice(m, a, WithPiece(a, q, p, after));
      NextSet(m, WithPiece(a, q, p, after), p, q);
      TwoHung(m, n, before, p, q, after);
      assert Only(left, p) + Only(right, q) == [p, q];
    } else if left {
      PieceAdded(m, p, before, after);
      SingleHung(m, n, before, p, after);
      assert Only(left, p) + Only(right, q) == [p];
    } else if right {
      PieceAdded(m, q, before, after);
      SingleHung(m, n, before, q, after);
      assert Only(left, p) + Only(right, q) == [q];
    } else {
      NoneHung(m, before, after);
      assert Only(left, p) + Only(right, q) == [];
    }
  }

  lemma MadeCut(s: State, i: nat, so: nat, k: nat, eo: nat, left: bool, p: Piece, right: bool, q: Piece,
                m: Links, u: Texts, w: Slices)
    requires Anchored(s) && Spelled(s.g.text, s.at, s.store) && i <= k < |s.g.chain|
    requires s.g.chain[i] in s.g.text && s.g.chain[k] in s.g.text && s.g.chain[i] in s.at && s.g.chain[k] in s.at
    requires (left ==> p !in s.g.links.next && p !in s.g.text) && (right ==> q !in s.g.links.next && q !in s.g.text)
    requires left && right ==> p != q
    requires var x, y, a, z := s.g.text[s.g.chain[i]], s.g.text[s.g.chain[k]], s.at[s.g.chain[i]], s.at[s.g.chain[k]];
      && so < |x| && eo <= |y| && so <= a.size && eo <= z.size
      && (left <==> so != 0) && (right <==> eo != |y|)
      && Body(u, w) == MaybeBytes(right, MaybeBytes(left, Body(s.g.text, s.at), p, x[0..so], Slice(a.block, a.off, so)),
                                  q, y[eo..|y|], Slice(z.block, z.off + eo, z.size - eo))
    requires m == CutLinks(s.g.links, left, p, right, q, Before(s, i), After(s, k + 1))
    ensures CutMade(s, i, so, k, eo, left, p, right, q, m, u, w)
    ensures m.next.Keys == s.g.links.next.Keys + (if left then {p} else {}) + (if right then {q} else {})
  {
    hide Hung, CutLinks, MaybeBytes, Spelled, Anchored;
    AnchorKeysMatch(s);
    CutHung(s.g.links, left, p, right, q, Before(s, i), After(s, k + 1));
  }

  lemma CutEnds(s: State, i: nat, k: nat, left: bool, p: Piece, right: bool, q: Piece, start: Piece?, end: Piece?)
    requires i <= k < |s.g.chain|
    requires start == (if left then p else if right then q else null)
    requires end == (if right then q else if left then p else null)
    ensures var e := Splice(s, i, k + 1, Only(left, p) + Only(right, q));
      Ends(Span(s.g.chain[i], s.g.chain[k], 0), e.gone) && Ends(Span(start, end, 0), e.came)
  {
  }

  lemma CutIsAdded(s: State, i: nat, so: nat, k: nat, eo: nat, left: bool, p: Piece, right: bool, q: Piece,
                   m: Links, u: Texts, w: Slices)
    requires CutMade(s, i, so, k, eo, left, p, right, q, m, u, w) && Known(s.g.text, s.g.chain)
    ensures Cut(s, i, so, k, eo, left, p, right, q, u)
  {
    hide Hung;
    var x, y := s.g.text[s.g.chain[i]], s.g.text[s.g.chain[k]];
    assert x[0..so] == x[..so] && y[eo..|y|] == y[eo..];
    assert Members(Only(left, p) + Only(right, q)) == (if left then {p} else {}) + (if right then {q} else {});
  }

  ghost function MaybeBytes(keep: bool, b: Body, p: Piece, x: seq<Byte>, s: Slice): Body {
    if keep then WithBytes(b, p, x, s) else b
  }

  lemma MaybeSpelled(keep: bool, b: Body, st: Store, c: Piece, p: Piece, lo: nat, hi: nat)
    requires Spelled(b.text, b.at, st) && c in b.text && c in b.at && lo <= hi <= |b.text[c]| && (keep ==> p !in b.text)
    ensures var d := MaybeBytes(keep, b, p, b.text[c][lo..hi], Slice(b.at[c].block, b.at[c].off + lo, hi - lo));
      Spelled(d.text, d.at, st)
  {
    if keep {
      PartSpelled(b.text, b.at, st, c, p, lo, hi);
    }
  }

  lemma CutSpelled(s: State, i: nat, so: nat, k: nat, eo: nat, left: bool, p: Piece, right: bool, q: Piece,
                   m: Links, u: Texts, w: Slices)
    requires CutMade(s, i, so, k, eo, left, p, right, q, m, u, w) && Spelled(s.g.text, s.at, s.store)
    ensures Spelled(u, w, s.store)
  {
    hide Hung, Spelled, Cuts, MaybeBytes, Before, After, Only;
    SameKeys(s.g.text, s.at, s.store);
    SizeOf(s.g.text, s.at, s.store, s.g.chain[k]);
    var a, z := s.g.chain[i], s.g.chain[k];
    var b := Body(s.g.text, s.at);
    MaybeSpelled(left, b, s.store, a, p, 0, so);
    var b1 := MaybeBytes(left, b, p, s.g.text[a][0..so], Slice(s.at[a].block, s.at[a].off, so));
    MaybeKeeps(left, b, p, s.g.text[a][0..so], Slice(s.at[a].block, s.at[a].off, so), z, q);
    MaybeSpelled(right, b1, s.store, z, q, eo, |s.g.text[z]|);
  }

  lemma MaybeKeeps(keep: bool, b: Body, p: Piece, x: seq<Byte>, s: Slice, c: Piece, q: Piece)
    requires c in b.text && c in b.at && (keep ==> p != c)
    ensures var d := MaybeBytes(keep, b, p, x, s);
      && c in d.text && d.text[c] == b.text[c] && c in d.at && d.at[c] == b.at[c]
      && (q !in b.text && !(keep && p == q) ==> q !in d.text)
  {
  }

  lemma SizeOf(text: Texts, at: Slices, st: Store, c: Piece)
    requires Spelled(text, at, st) && c in text
    ensures c in at && at[c].size == |text[c]|
  {
    assert Cuts(at[c], st, text[c]);
  }

  /** The new slices lie inside the slices of cut pieces. */
  lemma CutInside(s: State, i: nat, so: nat, k: nat, eo: nat, left: bool, p: Piece, right: bool, q: Piece,
                  m: Links, u: Texts, w: Slices)
    requires CutMade(s, i, so, k, eo, left, p, right, q, m, u, w) && s.at.Keys == s.g.text.Keys
    ensures forall x :: x in s.at ==> x in w && w[x] == s.at[x]
    ensures forall x :: x in w && x !in s.at ==> Inside(w[x], s.at, s.g.chain[i..k + 1])
  {
    hide Hung;
    var a, z, g := s.g.chain[i], s.g.chain[k], s.g.chain[i..k + 1];
    assert g[0] == a && g[k - i] == z;
    assert a in g && z in g;
  }

  lemma CutReady(s: State, i: nat, so: nat, k: nat, eo: nat, left: bool, p: Piece, right: bool, q: Piece,
                 m: Links, u: Texts, w: Slices, pos: nat)
    requires Anchored(s) && Spelled(s.g.text, s.at, s.store)
    requires CutMade(s, i, so, k, eo, left, p, right, q, m, u, w)
    ensures var ps := Only(left, p) + Only(right, q);
      && Hung(s.g.links, m, Before(s, i), ps, After(s, k + 1)) && Added(s.g.text, u, ps)
      && Spelled(u, w, s.store) && Ready(m, u, s.head, Splice(s, i, k + 1, ps), pos)
      && EditKnown(u, Splice(s, i, k + 1, ps)) && Cut(s, i, so, k, eo, left, p, right, q, u)
  {
    CutSpelled(s, i, so, k, eo, left, p, right, q, m, u, w);
    AnchorKnown(s);
    CutIsAdded(s, i, so, k, eo, left, p, right, q, m, u, w);
    CutFull(s, i, so, k, eo, left, p, right, q, u);
    CutRemains(s, i, so, k, eo, left, p, right, q, u);
    hide Hung, Spelled, Anchored, Added, Ready, EditKnown, Full, Splice, Only;
    Readying(s, i, k + 1, Only(left, p) + Only(right, q), m, u, pos);
  }
}
