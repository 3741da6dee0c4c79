/** What each way of editing does to the editor a file stands for, and to the recorded lengths. */
module Outcome {
  import opened Bytes
  import opened Links
  import opened Chain
  import opened Heap
  import opened History
  import opened Trace
  import opened Ledger
  import opened Booking
  import opened State
  import opened Recording
  import opened Cases
  import opened Effect
  import E = Editor

  /** From `s` to `t` the text became `text`; the revisions stayed and there are changes to commit. */
  ghost predicate Edits(s: State, t: State, text: seq<Byte>) {
    t.Tidy() && t.Abs() == s.Abs().(text := text, pending := true)
  }

  /** The pending changes are those of before and one more, which can be taken back and applied. */
  ghost predicate OneMore(ps: Revision, qs: Revision) {
    |qs| == |ps| + 1 && qs[..|ps|] == ps && Undoes(qs[|ps|]) && Redoes(qs[|ps|])
  }

  /** The last pending change has `offset` as its position. */
  ghost predicate Noted(t: State, offset: nat) {
    t.pending != [] && t.pending[|t.pending| - 1].pos == offset
  }

  /** A recorded edit: nothing that is recorded goes wrong. */
  ghost predicate Adds(s: State, t: State, text: seq<Byte>) {
    && Edits(s, t, text) && t.revs == s.revs && OneMore(s.pending, t.pending)
    && t.g.marks == s.g.marks && t.g.edits == s.g.edits
    && (s.Honest() ==> t.Honest()) && (s.Firm() ==> t.Firm())
  }

  /** An edit in place charges the last pending change. */
  ghost predicate Charges(s: State, t: State, text: seq<Byte>, grow: int) {
    && Edits(s, t, text) && t.revs == s.revs && s.pending != [] && t.pending == Charged(s.pending, grow)
    && t.g.marks == s.g.marks && t.g.edits == s.g.edits
    && (s.Honest() ==> (t.Honest() <==> !s.Stray()))
    && t.cache == s.cache && (t.Stray() <==> s.Stray())
  }

  // ------------------------------------------------------------------ where an edit lands

  /** The piece with index `k` is the one an insertion at `offset` turns to: the one with the
      byte at `offset`, or the last one at the end of the text. */
  ghost predicate Lands(s: State, offset: nat, k: nat) {
    && k < |s.g.chain| && Known(s.g.text, s.g.chain) && Offset(s.g.text, s.g.chain, k) <= offset
    && (offset < Offset(s.g.text, s.g.chain, k + 1)
        || (k == |s.g.chain| - 1 && offset == Offset(s.g.text, s.g.chain, k + 1)))
  }

  /** The piece an insertion tries to grow in place: piece `k`, or the one in front of it when
      `offset` is where piece `k` starts. */
  ghost predicate Growing(s: State, offset: nat, k: nat) {
    && s.cache != null && Lands(s, offset, k)
    && (s.g.chain[k] == s.cache
        || (offset == Offset(s.g.text, s.g.chain, k) && 0 < k && s.g.chain[k - 1] == s.cache))
  }

  /** There is only one such piece, so a caller can tell in advance. */
  lemma LandsOnce(s: State, offset: nat, j: nat, k: nat)
    requires Lands(s, offset, j) && Lands(s, offset, k)
    ensures j == k
  {
    if j < k {
      OffsetMonotone(s.g.text, s.g.chain, j + 1, k);
    } else if k < j {
      OffsetMonotone(s.g.text, s.g.chain, k + 1, j);
    }
  }

  /** `piece` and `po` are the place of `offset` in the chain. */
  ghost predicate Landed(s: State, piece: Piece, po: nat, offset: nat, k: nat) {
    && Lands(s, offset, k) && Points(s, piece, k, po) && offset == Offset(s.g.text, s.g.chain, k) + po
    && (po == |s.g.text[piece]| ==> k == |s.g.chain| - 1)
  }

  lemma BeforeStart(s: State, k: nat)
    requires Known(s.g.text, s.g.chain) && 0 < k < |s.g.chain|
    ensures Points(s, s.g.chain[k - 1], k - 1, |s.g.text[s.g.chain[k - 1]]|)
    ensures Offset(s.g.text, s.g.chain, k - 1) + |s.g.text[s.g.chain[k - 1]]| == Offset(s.g.text, s.g.chain, k)
  {
    OffsetNext(s.g.text, s.g.chain, k - 1);
  }

  /** An insertion that grew the cached piece: the lengths stay true exactly when the last
      pending change is the one that brought that piece. */
  ghost predicate GrownInto(s: State, t: State, offset: nat, data: seq<Byte>) {
    && offset <= |s.Contents()| && Charges(s, t, Inserted(s.Contents(), offset, data), |data|)
    && (Solid(s.g) && !s.Stray() ==> t.Firm()) && Recut(s, t, |data|)
  }

  // ------------------------------------------------------------------ in the cached piece

  lemma GrownEdits(s: State, piece: Piece, k: nat, off: nat, data: seq<Byte>)
    requires s.Tidy() && Points(s, piece, k, off) && s.cache == piece && data != []
    ensures AtCache(s, piece, off) && Known(s.g.text, s.g.chain)
    ensures Offset(s.g.text, s.g.chain, k) + off <= |s.Contents()|
    ensures var t := Grown(s, piece, off, data);
      && Edits(s, t, Inserted(s.Contents(), Offset(s.g.text, s.g.chain, k) + off, data))
      && (s.Honest() ==> (t.Honest() <==> !s.Stray()))
      && (Solid(s.g) && !s.Stray() ==> t.Firm())
  {
    hide State.Tidy, State.CacheOk, Grown, Touched, Solid, Truthful, AtCache, Inserted, Spelled, Owns, Ring, Closed,
         Distinct;
    GrownTidy(s, piece, k, off, data);
    CacheReady(s, piece, k, off);
    Basics(s);
    var t, x := Grown(s, piece, off, data), Inserted(s.g.text[piece], off, data);
    TouchInserts(s, t, k, off, data);
    TouchAbs(s, t, k, x);
    InsertedSize(s.g.text[piece], off, data);
    GrownCommon(s, t, piece, k, x);
  }

  lemma GrownPays(s: State, piece: Piece, k: nat, off: nat, data: seq<Byte>, offset: nat)
    requires s.Tidy() && Points(s, piece, k, off) && s.cache == piece && data != [] && Known(s.g.text, s.g.chain)
    requires offset == Offset(s.g.text, s.g.chain, k) + off
    ensures AtCache(s, piece, off) && GrownInto(s, Grown(s, piece, off, data), offset, data)
  {
    hide State.Tidy, Grown, Edits, AtCache, Truthful, Solid, LastFull;
    GrownEdits(s, piece, k, off, data);
    GrownCache(s, piece, off, data);
  }

  lemma GrownCache(s: State, piece: Piece, off: nat, data: seq<Byte>)
    requires AtCache(s, piece, off) && s.cache == piece
    ensures var t := Grown(s, piece, off, data);
      && Recut(s, t, |data|) && t.cache == s.cache && (t.Stray() <==> s.Stray())
      && t.revs == s.revs && s.pending != [] && t.pending == Charged(s.pending, |data|)
      && t.g.marks == s.g.marks && t.g.edits == s.g.edits
  {
  }

  lemma GrownRoomed(s: State, t: State, offset: nat, data: seq<Byte>)
    requires GrownInto(s, t, offset, data) && Fits(s, |data|)
    ensures Roomed(s, t, |data|)
  {
    hide State.Tidy, Edits, Truthful, Solid, LastFull, Charged;
  }

  lemma ShrunkCache(s: State, piece: Piece, off: nat, n: nat)
    requires AtCache(s, piece, off + n) && s.cache == piece
    ensures var t := Shrunk(s, piece, off, n);
      && Recut(s, t, -(n as int)) && t.cache == s.cache && (t.Stray() <==> s.Stray())
      && t.revs == s.revs && s.pending != [] && t.pending == Charged(s.pending, -(n as int))
      && t.g.marks == s.g.marks && t.g.edits == s.g.edits
  {
  }

  /** A cached piece that the recorded change brought is not a stray. */
  lemma BroughtLast(s: State, bs: seq<Block>, st: Store, at: Slices, links: Links, text: Texts, i: nat, j: nat,
                    ps: seq<Piece>,
                    pos: nat, p: Piece)
    requires i <= j <= |s.g.chain| && p in ps && EditKnown(text, Splice(s, i, j, ps))
    ensures !Spliced(s, bs, st, at, links, text, Splice(s, i, j, ps), pos, p).Stray()
  {
  }

  /** What `Landed` says about the choice of the piece to grow. */
  lemma LandedParts(s: State, piece: Piece, po: nat, offset: nat, k: nat)
    requires Landed(s, piece, po, offset, k)
    ensures Points(s, piece, k, po) && k < |s.g.chain| && s.g.chain[k] == piece && Known(s.g.text, s.g.chain)
    ensures offset == Offset(s.g.text, s.g.chain, k) + po
    ensures Growing(s, offset, k) <==> s.cache == piece || (po == 0 && 0 < k && s.cache == s.g.chain[k - 1])
  {
  }

  lemma InsertedSize(x: seq<Byte>, off: nat, data: seq<Byte>)
    requires off <= |x| && data != []
    ensures |Inserted(x, off, data)| != |x| && Inserted(x, off, data) != []
  {
  }

  lemma GrownCommon(s: State, t: State, piece: Piece, k: nat, x: seq<Byte>)
    requires s.Tidy() && Touched(s, t, k, x) && s.cache == piece && piece in s.g.text && |x| != |s.g.text[piece]|
    ensures s.Honest() ==> (t.Honest() <==> !s.Stray())
    ensures Solid(s.g) && !s.Stray() ==> Solid(t.g) && (t.Firm() <==> LastBytes(t.g) != [])
    ensures Solid(s.g) && !s.Stray() && x != [] ==> t.Firm()
  {
    hide State.Tidy, Touched, Solid, Truthful, LastFull;
    if s.Honest() {
      TouchHonest(s, t, k, x);
    }
    if Solid(s.g) && !s.Stray() {
      TouchFirm(s, t, k, x);
    }
  }

  lemma ShrunkEdits(s: State, piece: Piece, k: nat, off: nat, n: nat)
    requires s.Tidy() && Points(s, piece, k, off + n) && s.cache == piece && 0 < n
    ensures AtCache(s, piece, off + n) && Known(s.g.text, s.g.chain)
    ensures Offset(s.g.text, s.g.chain, k) + off + n <= |s.Contents()|
    ensures var t := Shrunk(s, piece, off, n);
      && Edits(s, t, Deleted(s.Contents(), Offset(s.g.text, s.g.chain, k) + off, n))
      && (s.Honest() ==> (t.Honest() <==> !s.Stray()))
      && (Solid(s.g) && !s.Stray() ==> Solid(t.g) && (t.Firm() <==> LastBytes(t.g) != []))
      && (Solid(s.g) && !s.Stray() && n < |s.g.text[piece]| ==> t.Firm())
  {
    hide State.Tidy, State.CacheOk, Shrunk, Touched, Solid, Truthful, AtCache, Deleted, Spelled, Owns, Ring, Closed,
         Distinct;
    ShrunkTidy(s, piece, k, off, n);
    CacheReady(s, piece, k, off + n);
    Basics(s);
    var t, x := Shrunk(s, piece, off, n), Deleted(s.g.text[piece], off, n);
    TouchDeletes(s, t, k, off, n);
    TouchAbs(s, t, k, x);
    DeletedSize(s.g.text[piece], off, n);
    GrownCommon(s, t, piece, k, x);
  }

  lemma DeletedSize(x: seq<Byte>, off: nat, n: nat)
    requires off + n <= |x| && 0 < n
    ensures |Deleted(x, off, n)| == |x| - n
  {
  }

  // ------------------------------------------------------------------ with new pieces

  /** A recorded change keeps the invariant, the lengths and the fullness of spans. */
  lemma SplicedEdits(s: State, bs: seq<Block>, st: Store, at: Slices, links: Links, text: Texts,
                     i: nat, j: nat, ps: seq<Piece>, pos: nat, cache: Piece?)
    requires s.Tidy() && s.cur == |s.g.marks| - 1 && i <= j <= |s.g.chain|
    requires Hung(s.g.links, links, Before(s, i), ps, After(s, j)) && Added(s.g.text, text, ps)
    requires EditKnown(text, Splice(s, i, j, ps)) && Full(Splice(s, i, j, ps), text) && (i < j || ps != [])
    requires Spelled(text, at, st) && forall b :: b in bs ==> b in st
    requires var t := Spliced(s, bs, st, at, links, text, Splice(s, i, j, ps), pos, cache);
      t.CacheOk() && Agree(s.Contents(), t.Contents(), pos)
    ensures var t := Spliced(s, bs, st, at, links, text, Splice(s, i, j, ps), pos, cache); Adds(s, t, t.Contents())
  {
    hide State.Tidy, State.CacheOk, Hung, Added, Spelled, Agree, Splice, Before, After, Extended, Full, EditKnown,
         Truthful,
         Solid, LastFull, Spliced, OneMore, State.Abs, Edits, Known;
    var e := Splice(s, i, j, ps);
    var t := Spliced(s, bs, st, at, links, text, e, pos, cache);
    var c := ChangeOf(text, e, pos);
    SplicedTidy(s, bs, st, at, links, text, i, j, ps, pos, cache);
    Basics(s);
    PushAbs(s, t, links, e, c);
    EditsIs(s, t);
    ChangeTruth(text, e, pos);
    SpliceSome(s, i, j, ps);
    SplicedAdds(s, bs, st, at, links, text, e, pos, cache);
    if s.Honest() {
      PushHonest(s, t, links, e, c);
    }
    if s.Firm() {
      PushFirm(s, t, links, e, c);
    }
  }

  lemma EditsIs(s: State, t: State)
    requires t.Tidy() && t.Abs() == s.Abs().(text := t.Contents(), pending := true)
    ensures Edits(s, t, t.Contents())
  {
  }

  lemma SplicedAdds(s: State, bs: seq<Block>, st: Store, at: Slices, links: Links, text: Texts, e: Edit, pos: nat,
                    cache: Piece?)
    requires EditKnown(text, e) && Full(e, text) && (e.gone != [] || e.came != [])
    ensures var t := Spliced(s, bs, st, at, links, text, e, pos, cache);
      && OneMore(s.pending, t.pending) && t.revs == s.revs && t.g.text == text
      && t.g.marks == s.g.marks && t.g.edits == s.g.edits
  {
    hide EditKnown, Full, Undoes, Redoes;
    ChangeTraces(text, e, pos);
  }

  lemma ChangeTruth(text: Texts, e: Edit, pos: nat)
    requires EditKnown(text, e)
    ensures Truth(ChangeOf(text, e, pos), e, text)
  {
  }

  // ------------------------------------------------------------------ the three slow shapes

  /** A new piece at index `i` holding `data`. */
  lemma OneEdits(s: State, bs: seq<Block>, st: Store, b: Block, off: nat, i: nat, p: Piece, data: seq<Byte>,
                 m: Links, u: Texts, w: Slices, pos: nat)
    requires s.Tidy() && s.cur == |s.g.marks| - 1 && Reserved(s, bs, st, b, off, data)
    requires OneMade(s, i, p, Slice(b, off, |data|), data, m, u, w) && EditKnown(u, Splice(s, i, i, [p]))
    requires Known(s.g.text, s.g.chain) && pos == Offset(s.g.text, s.g.chain, i)
    ensures pos <= |s.Contents()|
    ensures var t := Spliced(s, bs, st, w, m, u, Splice(s, i, i, [p]), pos, p);
      Adds(s, t, Inserted(s.Contents(), pos, data))
  {
    hide State.Tidy, State.CacheOk, Reserved, OneMade, Anchored, Hung, Added, Spelled, Owns, Splice, Full, EditKnown,
         Extended, Agree, Inserted, Truthful, Solid, LastFull, Ring, Distinct, Closed;
    OneParts(s, i, p, Slice(b, off, |data|), data, m, u, w);
    var e := Splice(s, i, i, [p]);
    var t := Spliced(s, bs, st, w, m, u, e, pos, p);
    Basics(s);
    TidyAnchored(s);
    ReservedBlocks(s, bs, st, b, off, data);
    OneReady(s, bs, st, b, off, i, p, data, m, u, w, pos);
    OneText(s, i, p, data);
    SplicedExtended(s, bs, st, w, m, u, i, i, [p], pos, p);
    assert Text(u, [p][..0]) == [];
    InsertedCache(s, t, m, i, i, [p], 0, ChangeOf(u, e, pos));
    SplicedShows(s, bs, st, w, m, u, e, pos, p);
    AgreeInserted(s.Contents(), pos, data);
    SplicedEdits(s, bs, st, w, m, u, i, i, [p], pos, p);
  }

  lemma OneParts(s: State, i: nat, p: Piece, slice: Slice, data: seq<Byte>, m: Links, u: Texts, w: Slices)
    requires OneMade(s, i, p, slice, data, m, u, w) && Known(s.g.text, s.g.chain)
    ensures i <= |s.g.chain| && p !in s.g.text && data != [] && u == s.g.text[p := data]
    ensures Known(u, s.g.chain[..i]) && Known(u, [p])
  {
  }

  lemma ReservedBlocks(s: State, bs: seq<Block>, st: Store, b: Block, off: nat, data: seq<Byte>)
    requires Reserved(s, bs, st, b, off, data)
    ensures bs != [] && LastOf(bs) == b && forall c :: c in bs ==> c in st
  {
  }

  lemma SplicedShows(s: State, bs: seq<Block>, st: Store, at: Slices, links: Links, text: Texts, e: Edit, pos: nat,
                     cache: Piece?)
    requires EditKnown(text, e) && Known(text, e.To())
    ensures var t := Spliced(s, bs, st, at, links, text, e, pos, cache);
      && t.Contents() == Text(text, e.To()) && t.cache == cache && t.blocks == bs && t.at == at && t.store == st
      && t.g.text == text && t.g.chain == e.To()
  {
  }

  lemma AgreeInserted(x: seq<Byte>, pos: nat, data: seq<Byte>)
    requires pos <= |x|
    ensures Agree(x, Inserted(x, pos, data), pos)
  {
  }

  /** Piece `k` split around `data`. */
  lemma ThreeEdits(s: State, bs: seq<Block>, st: Store, b: Block, off: nat, k: nat, po: nat, p: Piece, q: Piece,
                   r: Piece,
                   data: seq<Byte>, m: Links, u: Texts, w: Slices, pos: nat)
    requires s.Tidy() && s.cur == |s.g.marks| - 1 && Reserved(s, bs, st, b, off, data)
    requires ThreeMade(s, k, po, p, q, r, Slice(b, off, |data|), data, m, u, w)
      && EditKnown(u, Splice(s, k, k + 1, [p, q, r]))
    requires Known(s.g.text, s.g.chain) && pos == Offset(s.g.text, s.g.chain, k) + po
    ensures pos <= |s.Contents()|
    ensures var t := Spliced(s, bs, st, w, m, u, Splice(s, k, k + 1, [p, q, r]), pos, q);
      Adds(s, t, Inserted(s.Contents(), pos, data))
  {
    var e := Splice(s, k, k + 1, [p, q, r]);
    var t := Spliced(s, bs, st, w, m, u, e, pos, q);
    Basics(s);
    TidyAnchored(s);
    ReservedBlocks(s, bs, st, b, off, data);
    hide Spliced, ChangeOf, Before, After, Edits, Grows, Members, Closed, Weighs, State.Tidy, State.CacheOk, Reserved,
         ThreeMade, Anchored, Hung, Added, Spelled, Owns, Splice, Full, EditKnown, Extended, Agree, Inserted,
           Truthful, Solid, LastFull, Ring, Distinct, Closed;
    ThreeReady(s, bs, st, b, off, k, po, p, q, r, data, m, u, w, pos);
    ThreeCached(s, bs, st, b, off, k, po, p, q, r, data, m, u, w, pos);
    AgreeInserted(s.Contents(), pos, data);
    SplicedEdits(s, bs, st, w, m, u, k, k + 1, [p, q, r], pos, q);
  }

  lemma ThreeCached(s: State, bs: seq<Block>, st: Store, b: Block, off: nat, k: nat, po: nat, p: Piece, q: Piece,
                    r: Piece,
                    data: seq<Byte>, m: Links, u: Texts, w: Slices, pos: nat)
    requires s.Tidy() && s.cur == |s.g.marks| - 1 && Anchored(s) && Reserved(s, bs, st, b, off, data)
    requires ThreeMade(s, k, po, p, q, r, Slice(b, off, |data|), data, m, u, w)
      && EditKnown(u, Splice(s, k, k + 1, [p, q, r]))
    requires Known(s.g.text, s.g.chain) && pos == Offset(s.g.text, s.g.chain, k) + po
    ensures pos <= |s.Contents()| && Full(Splice(s, k, k + 1, [p, q, r]), u)
    ensures var t := Spliced(s, bs, st, w, m, u, Splice(s, k, k + 1, [p, q, r]), pos, q);
      t.CacheOk() && t.Contents() == Inserted(s.Contents(), pos, data)
  {
    hide Known, TextOf, Offset, Text, Edit.To, LastOf, Cuts;
    hide Spliced, ChangeOf, Before, After, Edits, Grows, Members, Closed, Weighs, State.Tidy, State.CacheOk, Reserved,
         ThreeMade, Anchored, Hung, Added, Spelled, Owns, Splice, Full, EditKnown, Extended, Agree, Inserted,
           Truthful, Solid, LastFull, Ring, Distinct, Closed;
    ThreeWhere(s, k, po, p, q, r, Slice(b, off, |data|), data, m, u, w);
    var e := Splice(s, k, k + 1, [p, q, r]);
    ChangePos(u, e, pos);
    var t := Spliced(s, bs, st, w, m, u, e, pos, q);
    Basics(s);
    ReservedBlocks(s, bs, st, b, off, data);
    ThreeReady(s, bs, st, b, off, k, po, p, q, r, data, m, u, w, pos);
    ThreeSpells(s, k, po, p, q, r, Slice(b, off, |data|), data, m, u, w);
    SplicedExtended(s, bs, st, w, m, u, k, k + 1, [p, q, r], pos, q);
    SplicedShows(s, bs, st, w, m, u, e, pos, q);
    InsertedCache(s, t, m, k, k + 1, [p, q, r], 1, ChangeOf(u, e, pos));
  }

  lemma ThreeSpells(s: State, k: nat, po: nat, p: Piece, q: Piece, r: Piece, slice: Slice, data: seq<Byte>,
                    m: Links, u: Texts, w: Slices)
    requires Known(s.g.text, s.g.chain) && ThreeMade(s, k, po, p, q, r, slice, data, m, u, w)
    requires Added(s.g.text, u, [p, q, r])
    ensures var e := Splice(s, k, k + 1, [p, q, r]);
      && EditKnown(u, e) && Full(e, u) && Known(u, e.To()) && Known(u, s.g.chain[..k]) && Known(u, [p, q, r])
      && |Text(u, s.g.chain[..k])| + |Text(u, [p, q, r][..1])| == Offset(s.g.text, s.g.chain, k) + po
      && Offset(s.g.text, s.g.chain, k) + po <= |Text(s.g.text, s.g.chain)|
      && Text(u, e.To()) == Inserted(Text(s.g.text, s.g.chain), Offset(s.g.text, s.g.chain, k) + po, data)
      && [p, q, r][1] == q
  {
    ThreeParts(s, k, po, p, q, r, slice, data, m, u, w);
    ThreeText(s, k, po, p, q, r, u, data);
    ThreeKnown(s, k, u, p, q, r);
    assert [p, q, r][..1] == [p];
    hide ThreeMade, Added, Full, EditKnown, Inserted;
  }

  lemma ThreeWhere(s: State, k: nat, po: nat, p: Piece, q: Piece, r: Piece, slice: Slice, data: seq<Byte>,
                   m: Links, u: Texts, w: Slices)
    requires ThreeMade(s, k, po, p, q, r, slice, data, m, u, w)
    ensures k < |s.g.chain|
  {
  }

  lemma ChangePos(text: Texts, e: Edit, pos: nat)
    requires EditKnown(text, e)
    ensures ChangeOf(text, e, pos).pos == pos
  {
  }

  lemma ThreeParts(s: State, k: nat, po: nat, p: Piece, q: Piece, r: Piece, slice: Slice, data: seq<Byte>, m: Links,
                   u: Texts, w: Slices)
    requires ThreeMade(s, k, po, p, q, r, slice, data, m, u, w) && Added(s.g.text, u, [p, q, r])
    ensures k < |s.g.chain| && s.g.chain[k] in s.g.text && data != []
    ensures p in u && q in u && r in u
    ensures var x := s.g.text[s.g.chain[k]]; 0 < po < |x| && u[p] == x[..po] && u[q] == data && u[r] == x[po..]
  {
    var x, a := s.g.text[s.g.chain[k]], s.at[s.g.chain[k]];
    ThreeAdded(s.g.text, s.at, p, q, r, x[0..po], data, x[po..|x|],
               Slice(a.block, a.off, po), slice, Slice(a.block, a.off + po, a.size - po));
    assert u == Body(u, w).text;
    hide WithThreeBytes;
  }

  /** The range from `so` in piece `i` to `eo` in piece `k` cut out; the cached piece stays. */
  lemma CutEdits(s: State, i: nat, so: nat, k: nat, eo: nat, left: bool, p: Piece, right: bool, q: Piece,
                 m: Links, u: Texts, w: Slices, pos: nat)
    requires s.Tidy() && s.cur == |s.g.marks| - 1
    requires CutMade(s, i, so, k, eo, left, p, right, q, m, u, w)
    requires EditKnown(u, Splice(s, i, k + 1, Only(left, p) + Only(right, q)))
    requires Known(s.g.text, s.g.chain) && pos == Offset(s.g.text, s.g.chain, i) + so
    ensures pos <= |s.Contents()| && Offset(s.g.text, s.g.chain, k) + eo <= |s.Contents()|
    ensures var t := Spliced(s, s.blocks, s.store, w, m, u, Splice(s, i, k + 1, Only(left, p) + Only(right, q)), pos,
      s.cache);
      Adds(s, t, s.Contents()[..pos] + s.Contents()[Offset(s.g.text, s.g.chain, k) + eo..])
  {
    hide Spliced, ChangeOf, Before, After, Edits, Grows, Members, Weighs, State.Tidy, State.CacheOk, CutMade, Cut,
         Anchored, Hung, Added, Spelled, Owns, Splice, Full, EditKnown, Extended, Agree, Only, Inside, Truthful,
           Solid, LastFull, Ring, Distinct, Closed;
    var ps := Only(left, p) + Only(right, q);
    CutWhere(s, i, so, k, eo, left, p, right, q, m, u, w);
    var e := Splice(s, i, k + 1, ps);
    ChangePos(u, e, pos);
    var t := Spliced(s, s.blocks, s.store, w, m, u, e, pos, s.cache);
    Basics(s);
    TidyAnchored(s);
    TidyRest(s);
    SameKeys(s.g.text, s.at, s.store);
    CutReady(s, i, so, k, eo, left, p, right, q, m, u, w, pos);
    CutContents(s, i, so, k, eo, left, p, right, q, u);
    CutFront(s, i, so, k, eo, left, p, right, q, u);
    CutFull(s, i, so, k, eo, left, p, right, q, u);
    CutInside(s, i, so, k, eo, left, p, right, q, m, u, w);
    SpliceRuns(s, i, k + 1, ps);
    SplicedExtended(s, s.blocks, s.store, w, m, u, i, k + 1, ps, pos, s.cache);
    SplicedShows(s, s.blocks, s.store, w, m, u, e, pos, s.cache);
    OldCacheOk(s, t, m, e, ChangeOf(u, e, pos));
    AgreeCut(s.Contents(), pos, s.Contents()[Offset(s.g.text, s.g.chain, k) + eo..]);
    SplicedEdits(s, s.blocks, s.store, w, m, u, i, k + 1, ps, pos, s.cache);
  }

  lemma CutWhere(s: State, i: nat, so: nat, k: nat, eo: nat, left: bool, p: Piece, right: bool, q: Piece, m: Links,
                 u: Texts, w: Slices)
    requires CutMade(s, i, so, k, eo, left, p, right, q, m, u, w)
    ensures i <= k < |s.g.chain|
  {
  }

  lemma TidyRest(s: State)
    requires s.Tidy()
    ensures Spelled(s.g.text, s.at, s.store) && s.CacheOk() && (forall b :: b in s.blocks ==> b in s.store)
    ensures |s.pending| == |s.g.draft|
  {
    Basics(s);
  }

  lemma StoreReady(s: State)
    requires s.Tidy()
    ensures Anchored(s) && Spelled(s.g.text, s.at, s.store) && forall b :: b in s.blocks ==> b in s.store
  {
    TidyRest(s);
    TidyAnchored(s);
  }

  lemma AgreeCut(x: seq<Byte>, pos: nat, y: seq<Byte>)
    requires pos <= |x|
    ensures Agree(x, x[..pos] + y, pos)
  {
  }

  // ------------------------------------------------------------------ insertions as a whole

  /** An insertion with new pieces: nothing recorded goes wrong. */
  ghost predicate Lengthened(s: State, t: State, offset: nat, data: seq<Byte>) {
    && offset <= |s.Contents()| && Adds(s, t, Inserted(s.Contents(), offset, data)) && !t.Stray()
    && Placed(s, t, offset, data) && Noted(t, offset)
  }

  lemma OnePays(s: State, bs: seq<Block>, st: Store, b: Block, off: nat, i: nat, p: Piece, data: seq<Byte>,
                m: Links, u: Texts, w: Slices, pos: nat)
    requires s.Tidy() && s.cur == |s.g.marks| - 1 && Reserved(s, bs, st, b, off, data)
    requires OneMade(s, i, p, Slice(b, off, |data|), data, m, u, w) && EditKnown(u, Splice(s, i, i, [p]))
    requires Known(s.g.text, s.g.chain) && pos == Offset(s.g.text, s.g.chain, i)
    ensures var t := Spliced(s, bs, st, w, m, u, Splice(s, i, i, [p]), pos, p);
      Lengthened(s, t, pos, data) && t.Tidy()
  {
    hide State.Tidy, Spliced, Splice, Reserved, OneMade, EditKnown, Truthful, Solid, LastFull, State.Abs;
    OneEdits(s, bs, st, b, off, i, p, data, m, u, w, pos);
    OneParts(s, i, p, Slice(b, off, |data|), data, m, u, w);
    OnePlaced(s, bs, st, b, off, i, p, data, m, u, w, pos);
    BroughtLast(s, bs, st, w, m, u, i, i, [p], pos, p);
    SplicedNoted(s, bs, st, w, m, u, Splice(s, i, i, [p]), pos, p);
  }

  lemma ThreePays(s: State, bs: seq<Block>, st: Store, b: Block, off: nat, k: nat, po: nat, p: Piece, q: Piece,
                  r: Piece,
                  data: seq<Byte>, m: Links, u: Texts, w: Slices, pos: nat)
    requires s.Tidy() && s.cur == |s.g.marks| - 1 && Reserved(s, bs, st, b, off, data)
    requires ThreeMade(s, k, po, p, q, r, Slice(b, off, |data|), data, m, u, w)
      && EditKnown(u, Splice(s, k, k + 1, [p, q, r]))
    requires Known(s.g.text, s.g.chain) && pos == Offset(s.g.text, s.g.chain, k) + po
    ensures var t := Spliced(s, bs, st, w, m, u, Splice(s, k, k + 1, [p, q, r]), pos, q);
      Lengthened(s, t, pos, data) && t.Tidy()
  {
    hide State.Tidy, Spliced, Splice, Reserved, ThreeMade, EditKnown, Truthful, Solid, LastFull, State.Abs;
    ThreeEdits(s, bs, st, b, off, k, po, p, q, r, data, m, u, w, pos);
    ThreeWhere(s, k, po, p, q, r, Slice(b, off, |data|), data, m, u, w);
    ThreePlaced(s, bs, st, Slice(b, off, |data|), k, po, p, q, r, data, m, u, w, pos);
    BroughtLast(s, bs, st, w, m, u, k, k + 1, [p, q, r], pos, q);
    SplicedNoted(s, bs, st, w, m, u, Splice(s, k, k + 1, [p, q, r]), pos, q);
  }

  lemma EmptyEnds(s: State)
    requires s.g.chain == []
    ensures Before(s, 0) == s.head && After(s, 0) == s.head && Known(s.g.text, [])
      && Offset(s.g.text, s.g.chain, 0) == 0
  {
  }

  lemma BeforeAfter(s: State, k: nat)
    requires k < |s.g.chain|
    ensures After(s, k) == s.g.chain[k] && Before(s, k + 1) == s.g.chain[k]
  {
  }

  /** Behind the last byte of a piece is only the end of the text. */
  lemma LandedEnd(s: State, piece: Piece, po: nat, offset: nat, k: nat)
    requires Landed(s, piece, po, offset, k)
    ensures po == |s.g.text[piece]| ==> offset == Offset(s.g.text, s.g.chain, k + 1)
    ensures po <= |s.g.text[piece]|
  {
    OffsetNext(s.g.text, s.g.chain, k);
  }

  // ------------------------------------------------------------------ which pieces are known

  lemma ReservedSame(s: State, t: State, bs: seq<Block>, st: Store, b: Block, off: nat, data: seq<Byte>)
    requires Reserved(s, bs, st, b, off, data) && s.g.text == t.g.text && s.at == t.at
    ensures Reserved(t, bs, st, b, off, data)
  {
  }

  lemma PointsAt(s: State, piece: Piece, k: nat, off: nat)
    requires Points(s, piece, k, off)
    ensures k < |s.g.chain| && s.g.chain[k] == piece
  {
  }

  lemma SplicedNoted(s: State, bs: seq<Block>, st: Store, at: Slices, links: Links, text: Texts, e: Edit, pos: nat,
                     cache: Piece?)
    requires EditKnown(text, e)
    ensures Noted(Spliced(s, bs, st, at, links, text, e, pos, cache), pos)
  {
    ChangePos(text, e, pos);
    hide EditKnown, ChangeOf;
  }

  lemma SplicedRest(s: State, bs: seq<Block>, st: Store, at: Slices, links: Links, text: Texts, e: Edit, pos: nat,
                    cache: Piece?)
    requires EditKnown(text, e)
    ensures var t := Spliced(s, bs, st, at, links, text, e, pos, cache);
      && t.head == s.head && t.blocks == bs && t.revs == s.revs && t.cur == s.cur
      && t.g.marks == s.g.marks && t.g.edits == s.g.edits && t.g.text == text && t.at == at && t.cache == cache
  {
  }

  lemma SameAnchor(s: State, t: State)
    requires Anchored(s) && t.g == s.g && t.head == s.head
    ensures s.g.links.next.Keys == s.g.text.Keys + {s.head} && t.g.links == s.g.links
  {
  }

  lemma OneGrew(s: State, t: State, i: nat, p: Piece, slice: Slice, data: seq<Byte>, m: Links)
    requires OneMade(s, i, p, slice, data, m, t.g.text, t.at) && t.Tidy() && t.head == s.head
    requires s.g.links.next.Keys == s.g.text.Keys + {s.head}
    ensures t.g.links.next.Keys == s.g.links.next.Keys + {p}
  {
    hide State.Tidy;
    Basics(t);
  }

  lemma ThreeGrew(s: State, t: State, k: nat, po: nat, p: Piece, q: Piece, r: Piece, slice: Slice, data: seq<Byte>,
                  m: Links)
    requires ThreeMade(s, k, po, p, q, r, slice, data, m, t.g.text, t.at) && t.Tidy() && t.head == s.head
    requires s.g.links.next.Keys == s.g.text.Keys + {s.head}
    ensures t.g.links.next.Keys == s.g.links.next.Keys + {p, q, r}
  {
    hide State.Tidy, Ring, Closed, Distinct, Known, WithThree;
    Basics(t);
    var x, a := s.g.text[s.g.chain[k]], s.at[s.g.chain[k]];
    ThreeAdded(s.g.text, s.at, p, q, r, x[0..po], data, x[po..|x|],
               Slice(a.block, a.off, po), slice, Slice(a.block, a.off + po, a.size - po));
    assert t.g.text == Body(t.g.text, t.at).text;
    assert Members([p, q, r]) == {p, q, r};
  }

  lemma SplitPays(s: State, bs: seq<Block>, st: Store, b: Block, off: nat, k: nat, po: nat, p: Piece, q: Piece,
                  r: Piece,
                  data: seq<Byte>, m: Links, u: Texts, w: Slices, pos: nat)
    returns (t: State)
    requires s.Tidy() && s.cur == |s.g.marks| - 1 && Reserved(s, bs, st, b, off, data)
    requires ThreeMade(s, k, po, p, q, r, Slice(b, off, |data|), data, m, u, w)
      && EditKnown(u, Splice(s, k, k + 1, [p, q, r]))
    requires Known(s.g.text, s.g.chain) && pos == Offset(s.g.text, s.g.chain, k) + po
    requires s.g.links.next.Keys == s.g.text.Keys + {s.head} && k < |s.g.chain|
    ensures t == Spliced(s, bs, st, w, m, u, Splice(s, k, k + 1, [p, q, r]), pos, q)
    ensures t.head == s.head && t.blocks == bs && t.revs == s.revs && t.cur == s.cur
    ensures t.g.marks == s.g.marks && t.g.edits == s.g.edits
    ensures Lengthened(s, t, pos, data) && t.Tidy() && t.g.links.next.Keys == s.g.links.next.Keys + {p, q, r}
  {
    hide State.Tidy, Spliced, Splice, Reserved, ThreeMade, EditKnown, Lengthened;
    ThreePays(s, bs, st, b, off, k, po, p, q, r, data, m, u, w, pos);
    SplicedRest(s, bs, st, w, m, u, Splice(s, k, k + 1, [p, q, r]), pos, q);
    t := Spliced(s, bs, st, w, m, u, Splice(s, k, k + 1, [p, q, r]), pos, q);
    ThreeGrew(s, t, k, po, p, q, r, Slice(b, off, |data|), data, m);
  }

  // ------------------------------------------------------------------ with the purge in front

  lemma SizeTrue(s: State)
    requires s.Tidy()
    ensures s.size == |s.Contents()| && s.Abs().text == s.Contents()
  {
    Basics(s);
  }

  /** The purge that precedes an edit touches neither the chain nor the cached piece. */
  lemma PurgeSame(s: State, piece: Piece, po: nat, offset: nat, k: nat, n: nat)
    requires CanPurge(s)
    ensures var u := Purge(s);
      && (Landed(u, piece, po, offset, k) <==> Landed(s, piece, po, offset, k))
      && (Growing(u, offset, k) <==> Growing(s, offset, k)) && (Fits(u, n) <==> Fits(s, n))
      && (u.Stray() <==> s.Stray()) && u.Contents() == s.Contents()
  {
  }

  lemma PurgeSolid(s: State)
    requires CanPurge(s)
    ensures Solid(s.g) ==> Solid(Purge(s).g)
  {
  }

  /** An edit after the purge, seen from before it: the undone revisions are gone. */
  lemma EditedAbs(s: State, t: State, text: seq<Byte>)
    requires CanPurge(s) && Edits(Purge(s), t, text) && |s.g.marks| > s.cur
    ensures t.Tidy() && s.cur < |s.Abs().snaps| && t.Abs() == s.Abs().Edited(text)
    ensures t.size == |text|
  {
    hide State.Tidy, State.Contents;
    PurgeAbs(s);
    SizeTrue(t);
  }

  /** What an edit does to the books: a new change that can be taken back and applied, or a charge
      to the last one; and the revisions after the current one are dropped. */
  ghost predicate Booked(s: State, t: State, hit: bool, grow: int) {
    && (s.Honest() ==> (t.Honest() <==> !(hit && s.Stray())))
    && (!hit && s.Firm() ==> t.Firm())
    && s.cur < |s.revs| && t.revs == s.revs[..s.cur + 1] && s.g.Shaped(s.cur)
    && t.g.marks == s.g.marks[..s.cur + 1] && t.g.edits == s.g.edits[..s.cur + 1]
    && (if hit then s.pending != [] && t.pending == Charged(s.pending, grow) else OneMore(s.pending, t.pending))
  }

  /** All that an insertion does to the state. */
  ghost predicate InsertPaid(s: State, t: State, offset: nat, data: seq<Byte>, hit: bool) {
    && s.cur < |s.Abs().snaps| && offset <= |s.Contents()|
    && t.Abs() == s.Abs().Insert(offset, data) && t.size == |s.Contents()| + |data|
    && (if hit then Recut(s, t, |data|) else Placed(s, t, offset, data)) && Roomed(s, t, |data|)
    && Booked(s, t, hit, |data|) && (hit || Noted(t, offset))
    && (hit && Solid(s.g) && !s.Stray() ==> t.Firm()) && (t.Stray() ==> hit && s.Stray())
    && E.Told(E.Changed(offset, |s.Contents()| - offset), s.Abs().text, t.Abs().text)
    && t.Tidy()
  }

  lemma InsertPays(s: State, t: State, offset: nat, data: seq<Byte>, hit: bool)
    requires s.Tidy() && CanPurge(s) && data != []
    requires if hit then GrownInto(Purge(s), t, offset, data) else Lengthened(Purge(s), t, offset, data)
    requires Roomed(Purge(s), t, |data|)
    ensures InsertPaid(s, t, offset, data, hit)
  {
    hide State.Tidy, Edits, Truthful, Solid, LastFull, Purge, Inserted, OneMore, Charged, Placed, Recut, Roomed;
    PurgeEffect(s, t, |data|, offset, data, |data|);
    Basics(s);
    SizeTrue(s);
    PurgeContents(s);
    PurgeSolid(s);
    PurgeHonestly(s);
    var x := Inserted(s.Contents(), offset, data);
    EditedAbs(s, t, x);
    InsertedLength(s.Contents(), offset, data);
    E.InsertTold(s.Abs(), offset, data);
  }

  /** What the contract of insertion says of it. */
  lemma InsertParts(s: State, t: State, offset: nat, data: seq<Byte>, hit: bool)
    requires InsertPaid(s, t, offset, data, hit)
    ensures s.Abs().cur < |s.Abs().snaps| && t.Abs() == s.Abs().Insert(offset, data)
      && t.size == |s.Abs().text| + |data|
    ensures s.Honest() ==> (t.Honest() <==> !(hit && s.Stray()))
    ensures (hit && Solid(s.g) && !s.Stray() ==> t.Firm()) && (!hit && s.Firm() ==> t.Firm())
    ensures (t.Stray() ==> s.Stray()) && offset <= |s.Abs().text|
    ensures E.Told(E.Changed(offset, |s.Abs().text| - offset), s.Abs().text, t.Abs().text)
    ensures s.cur < |s.revs| && t.revs == s.revs[..s.cur + 1] && t.cur == s.cur
    ensures if hit then s.pending != [] && t.pending == Charged(s.pending, |data|)
      else OneMore(s.pending, t.pending) && Noted(t, offset)
  {
    hide State.Tidy, State.Honest, State.Firm, State.Stray, Solid, E.Told, Charged, OneMore;
  }

  lemma PurgeContents(s: State)
    requires CanPurge(s)
    ensures Purge(s).Contents() == s.Contents() && (Purge(s).Stray() <==> s.Stray()) && s.cur < |s.g.marks|
    ensures Purge(s).cur == s.cur == |Purge(s).g.marks| - 1 && Purge(s).cache == s.cache
    ensures Purge(s).revs == s.revs[..s.cur + 1] && Purge(s).pending == s.pending && Purge(s).g.text == s.g.text
    ensures Purge(s).g.marks == s.g.marks[..s.cur + 1] && |s.g.edits| == |s.g.marks|
    ensures Purge(s).g.edits == s.g.edits[..s.cur + 1]
    ensures Purge(s).g.chain == s.g.chain && Purge(s).blocks == s.blocks && Purge(s).store == s.store
  {
  }

  /** The effect of an edit is the same seen from before the purge. */
  lemma PurgeEffect(s: State, t: State, grow: int, offset: nat, data: seq<Byte>, len: nat)
    requires CanPurge(s)
    ensures Recut(Purge(s), t, grow) <==> Recut(s, t, grow)
    ensures Placed(Purge(s), t, offset, data) <==> Placed(s, t, offset, data)
    ensures Removed(Purge(s), t, offset, len) <==> Removed(s, t, offset, len)
    ensures Roomed(Purge(s), t, len) <==> Roomed(s, t, len)
  {
    hide Grows, Members, Narrows, Offset;
  }

  lemma PurgeHonestly(s: State)
    requires s.Tidy() && CanPurge(s)
    ensures s.Honest() ==> Purge(s).Honest()
    ensures s.Firm() ==> Purge(s).Firm()
  {
    Basics(s);
    PurgeHonest(s);
  }

  lemma InsertedLength(x: seq<Byte>, offset: nat, data: seq<Byte>)
    requires offset <= |x|
    ensures |Inserted(x, offset, data)| == |x| + |data|
  {
  }

  lemma EmptyLands(s: State, offset: nat, k: nat)
    requires s.g.chain == []
    ensures !Growing(s, offset, k)
  {
  }

  // ------------------------------------------------------------------ deletions as a whole

  /** The range of `len` bytes from `offset` ends at `eo` in `piece`, or with the text. */
  ghost predicate Reaches(s: State, offset: nat, len: nat, i: nat, piece: Piece, eo: nat, k: nat) {
    && Points(s, piece, k, eo) && i <= k && Known(s.g.text, s.g.chain)
    && Offset(s.g.text, s.g.chain, k) + eo == Min(offset + len, |Text(s.g.text, s.g.chain)|)
  }

  lemma ReachesParts(s: State, offset: nat, len: nat, i: nat, start: Piece, so: nat, piece: Piece, eo: nat, k: nat)
    requires Landed(s, start, so, offset, i) && Reaches(s, offset, len, i, piece, eo, k)
    ensures Points(s, start, i, so) && Points(s, piece, k, eo) && i <= k < |s.g.chain| && Known(s.g.text, s.g.chain)
    ensures offset == Offset(s.g.text, s.g.chain, i) + so
    ensures Offset(s.g.text, s.g.chain, k) + eo == Min(offset + len, |Text(s.g.text, s.g.chain)|)
  {
  }

  ghost predicate Shortened(s: State, t: State, offset: nat, len: nat) {
    && offset <= |s.Contents()| && Adds(s, t, Deleted(s.Contents(), offset, len))
    && t.cache == s.cache && (t.cache != null && t.cache in t.g.chain ==> s.cache in s.g.chain)
    && Removed(s, t, offset, len) && Noted(t, offset)
  }

  lemma CutPays(s: State, i: nat, so: nat, k: nat, eo: nat, left: bool, p: Piece, right: bool, q: Piece,
                m: Links, u: Texts, w: Slices, pos: nat, len: nat)
    requires s.Tidy() && s.cur == |s.g.marks| - 1
    requires CutMade(s, i, so, k, eo, left, p, right, q, m, u, w) && i <= k < |s.g.chain|
    requires EditKnown(u, Splice(s, i, k + 1, Only(left, p) + Only(right, q)))
    requires Known(s.g.text, s.g.chain) && pos == Offset(s.g.text, s.g.chain, i) + so
    requires Offset(s.g.text, s.g.chain, k) + eo == Min(pos + len, |Text(s.g.text, s.g.chain)|)
    ensures var t := Spliced(s, s.blocks, s.store, w, m, u, Splice(s, i, k + 1, Only(left, p) + Only(right, q)), pos,
      s.cache);
      Shortened(s, t, pos, len) && t.Tidy()
  {
    hide State.Tidy, Spliced, Splice, CutMade, EditKnown, Truthful, Solid, LastFull, State.Abs, Only, Offset;
    Basics(s);
    CutEdits(s, i, so, k, eo, left, p, right, q, m, u, w, pos);
    SplicedRest(s, s.blocks, s.store, w, m, u, Splice(s, i, k + 1, Only(left, p) + Only(right, q)), pos, s.cache);
    TidyRest(s);
    CutLinked(s, i, so, k, eo, left, p, right, q, m, u, w, pos);
    CutRemoved(s, i, so, k, eo, left, p, right, q, m, u, w, pos, len);
    SplicedNoted(s, s.blocks, s.store, w, m, u, Splice(s, i, k + 1, Only(left, p) + Only(right, q)), pos, s.cache);
  }

  /** No old piece comes back. */
  lemma CutLinked(s: State, i: nat, so: nat, k: nat, eo: nat, left: bool, p: Piece, right: bool, q: Piece,
                  m: Links, u: Texts, w: Slices, pos: nat)
    requires s.CacheOk() && CutMade(s, i, so, k, eo, left, p, right, q, m, u, w) && i <= k < |s.g.chain|
    requires EditKnown(u, Splice(s, i, k + 1, Only(left, p) + Only(right, q)))
    ensures var t := Spliced(s, s.blocks, s.store, w, m, u, Splice(s, i, k + 1, Only(left, p) + Only(right, q)), pos,
      s.cache);
      t.cache != null && t.cache in t.g.chain ==> t.cache in s.g.chain
  {
    hide Private, OnlyLast, Owns, Hung, EditKnown;
    if s.cache != null {
      assert s.cache in s.g.text;
    }
  }

  lemma CutGrew(s: State, t: State, i: nat, so: nat, k: nat, eo: nat, left: bool, p: Piece, right: bool, q: Piece,
                m: Links)
    requires CutMade(s, i, so, k, eo, left, p, right, q, m, t.g.text, t.at) && t.Tidy() && t.head == s.head
      && Anchored(s)
    ensures t.g.links.next.Keys == s.g.links.next.Keys + (if left then {p} else {}) + (if right then {q} else {})
  {
    hide Hung, State.Tidy, Ring, Closed;
    Basics(t);
    var x, y, a, z := s.g.text[s.g.chain[i]], s.g.text[s.g.chain[k]], s.at[s.g.chain[i]], s.at[s.g.chain[k]];
    var b := Body(t.g.text, t.at);
    assert b.text == t.g.text;
  }

  /** A cut of `len` bytes leaves some of the cached piece. */
  ghost predicate Leaves(s: State, len: nat) {
    s.cache != null && s.cache in s.g.text && len < |s.g.text[s.cache]|
  }

  /** A deletion inside the cached piece: truthful as an insertion is; and it may empty the
      span of the last pending change. */
  ghost predicate ShrunkInto(s: State, t: State, offset: nat, len: nat) {
    && offset <= |s.Contents()| && Charges(s, t, Deleted(s.Contents(), offset, len), -(len as int))
    && (Solid(s.g) && !s.Stray() ==> Solid(t.g) && (t.Firm() <==> LastBytes(t.g) != []))
    && (Solid(s.g) && !s.Stray() && Leaves(s, len) ==> t.Firm()) && Recut(s, t, -(len as int))
  }

  lemma ShrunkPays(s: State, piece: Piece, k: nat, off: nat, len: nat, offset: nat)
    requires s.Tidy() && Points(s, piece, k, off + len) && s.cache == piece && 0 < len && Known(s.g.text, s.g.chain)
    requires offset == Offset(s.g.text, s.g.chain, k) + off
    ensures AtCache(s, piece, off + len) && ShrunkInto(s, Shrunk(s, piece, off, len), offset, len)
  {
    hide State.Tidy, Shrunk, Edits, AtCache, Truthful, Solid, LastFull;
    ShrunkEdits(s, piece, k, off, len);
    ShrunkCache(s, piece, off, len);
  }

  /** The range lies inside the cached piece, which starts at or before `offset`. */
  ghost predicate Shrinking(s: State, offset: nat, len: nat, k: nat) {
    && s.cache != null && Lands(s, offset, k) && s.g.chain[k] == s.cache
    && offset + len <= Offset(s.g.text, s.g.chain, k + 1)
  }

  /** The file without its cached piece. */
  ghost function Dropped(s: State, drop: bool): State { if drop then s.(cache := null) else s }

  lemma DroppedReach(s: State, drop: bool, start: Piece, so: nat, offset: nat, i: nat, len: nat, piece: Piece, eo: nat,
                     k: nat)
    requires Landed(s, start, so, offset, i) && Reaches(s, offset, len, i, piece, eo, k)
    ensures Landed(Dropped(s, drop), start, so, offset, i) && Reaches(Dropped(s, drop), offset, len, i, piece, eo, k)
  {
  }

  lemma DroppedTidy(s: State, drop: bool)
    requires s.Tidy()
    ensures Dropped(s, drop).Tidy() && Dropped(s, drop).Abs() == s.Abs() && Dropped(s, drop).Contents() == s.Contents()
    ensures (Dropped(s, drop).Honest() <==> s.Honest()) && (Dropped(s, drop).Firm() <==> s.Firm())
  {
    hide Spelled, Kept, Trace.Sound;
  }

  ghost predicate DeletePaid(s: State, t: State, offset: nat, len: nat, hit: bool, drop: bool) {
    && s.cur < |s.Abs().snaps|
    && t.Abs() == s.Abs().Delete(offset, len) && t.size == |t.Contents()| && t.size + len - offset >= 0
    && Booked(s, t, hit, -(len as int)) && (hit || Noted(t, offset))
    && (hit && Solid(s.g) && !s.Stray() ==> Solid(t.g) && (t.Firm() <==> LastBytes(t.g) != []))
    && (hit && Solid(s.g) && !s.Stray() && Leaves(s, len) ==> t.Firm())
    && (if hit then Recut(s, t, -(len as int)) else Removed(s, t, offset, len))
    && (!hit && t.cache != null && t.cache in t.g.chain ==> s.cache in s.g.chain)
    && t.cache == (if drop && !hit then null else s.cache) && (hit ==> (t.Stray() <==> s.Stray()))
    && E.Told(E.Changed(offset, t.size + len - offset), s.Abs().text, t.Abs().text)
    && t.Tidy()
  }

  /** What the contract of deletion says of it. */
  lemma DeleteParts(s: State, t: State, offset: nat, len: nat, hit: bool, drop: bool)
    requires DeletePaid(s, t, offset, len, hit, drop)
    ensures s.Abs().cur < |s.Abs().snaps| && t.Abs() == s.Abs().Delete(offset, len)
    ensures t.size == |t.Abs().text| && t.size + len - offset >= 0
    ensures s.Honest() ==> (t.Honest() <==> !(hit && s.Stray()))
    ensures hit && Solid(s.g) && !s.Stray() ==> Solid(t.g) && (t.Firm() <==> LastBytes(t.g) != [])
    ensures (hit && Solid(s.g) && !s.Stray() && Leaves(s, len) ==> t.Firm()) && (!hit && s.Firm() ==> t.Firm())
    ensures t.cache == if drop && !hit then null else s.cache
    ensures E.Told(E.Changed(offset, t.size + len - offset), s.Abs().text, t.Abs().text)
    ensures s.cur < |s.revs| && t.revs == s.revs[..s.cur + 1] && t.cur == s.cur
    ensures if hit then s.pending != [] && t.pending == Charged(s.pending, -(len as int))
      else OneMore(s.pending, t.pending) && Noted(t, offset)
  {
    hide State.Tidy, State.Honest, State.Firm, State.Stray, Solid, E.Told, Charged, OneMore, LastBytes, Leaves, Recut;
  }

  lemma DeletePays(s: State, t: State, offset: nat, len: nat, hit: bool, drop: bool)
    requires s.Tidy() && CanPurge(s) && 0 < len && offset < |s.Contents()|
    requires if hit then ShrunkInto(Purge(s), t, offset, len) else Shortened(Dropped(Purge(s), drop), t, offset, len)
    ensures DeletePaid(s, t, offset, len, hit, drop)
  {
    hide State.Tidy, Edits, Truthful, Solid, LastFull, Purge, Deleted, OneMore, Charged, Recut, Removed;
    PurgeEffect(s, t, -(len as int), offset, [], len);
    DroppedRemoves(Purge(s), t, drop, offset, len);
    Basics(s);
    SizeTrue(s);
    PurgeContents(s);
    EditsDropped(Purge(s), t, Deleted(s.Contents(), offset, len), drop);
    PurgeSolid(s);
    PurgeHonestly(s);
    EditedAbs(s, t, Deleted(s.Contents(), offset, len));
    DeletedLength(s.Contents(), offset, len);
    SizeTrue(t);
    E.DeleteTold(s.Abs(), offset, len);
  }

  lemma EditsDropped(s: State, t: State, text: seq<Byte>, drop: bool)
    ensures Edits(Dropped(s, drop), t, text) <==> Edits(s, t, text)
    ensures Dropped(s, drop).Contents() == s.Contents()
    ensures (Dropped(s, drop).Honest() <==> s.Honest()) && (Dropped(s, drop).Firm() <==> s.Firm())
    ensures Dropped(s, drop).Abs() == s.Abs()
  {
  }

  lemma DroppedRemoves(s: State, t: State, drop: bool, offset: nat, len: nat)
    ensures Removed(Dropped(s, drop), t, offset, len) <==> Removed(s, t, offset, len)
  {
    hide Grows, Members, Narrows, Offset;
  }

  lemma DeletedLength(x: seq<Byte>, offset: nat, len: nat)
    requires offset <= |x|
    ensures |Deleted(x, offset, len)| == |x| - (Min(offset + len, |x|) - offset)
  {
  }

  lemma LandedPlace(s: State, piece: Piece, po: nat, offset: nat, k: nat)
    requires Landed(s, piece, po, offset, k)
    ensures Lands(s, offset, k) && piece in s.g.text && po <= |s.g.text[piece]|
  {
  }

  lemma LandedShrinks(s: State, piece: Piece, po: nat, offset: nat, len: nat, k: nat)
    requires Landed(s, piece, po, offset, k)
    ensures piece in s.g.text
    ensures Shrinking(s, offset, len, k) <==> s.cache == piece && |s.g.text[piece]| - po >= len
  {
    OffsetNext(s.g.text, s.g.chain, k);
  }

  lemma PointsFurther(s: State, piece: Piece, k: nat, po: nat, len: nat)
    requires Points(s, piece, k, po) && piece in s.g.text && |s.g.text[piece]| - po >= len
    ensures Points(s, piece, k, po + len)
  {
  }

  lemma PurgeReach(s: State, start: Piece, so: nat, offset: nat, i: nat, len: nat, piece: Piece, eo: nat, k: nat)
    requires CanPurge(s)
    ensures var u := Purge(s);
      && (Landed(u, start, so, offset, i) <==> Landed(s, start, so, offset, i))
      && (Reaches(u, offset, len, i, piece, eo, k) <==> Reaches(s, offset, len, i, piece, eo, k))
      && (Shrinking(u, offset, len, i) <==> Shrinking(s, offset, len, i)) && (Leaves(u, len) <==> Leaves(s, len))
      && u.g.text == s.g.text
  {
  }

  // ------------------------------------------------------------------ what the editor sees

  lemma AbsReplace(s: State, offset: nat, data: seq<Byte>)
    requires s.Tidy()
    ensures var e := s.Abs();
      && e.cur < |e.snaps|
      && e.Delete(offset, |data|).cur < |e.Delete(offset, |data|).snaps|
      && (data == [] || offset < |e.text| ==>
            && e.Replace(offset, data) == e.Delete(offset, |data|).Insert(offset, data)
            && (data == [] || offset <= |e.Delete(offset, |data|).text|))
      && (data != [] && offset >= |e.text| ==> e.Replace(offset, data) == e)
      && (data != [] && offset < |e.text| ==> e.Delete(offset, |data|).text == Deleted(e.text, offset, |data|))
  {
    Basics(s);
    hide State.Tidy;
    if offset < |s.Abs().text| {
      E.ReplaceIsBoth(s.Abs(), offset, data);
    }
  }

  /** The two parts of a commit. */
  lemma CommitShows(s: State)
    requires s.Tidy()
    ensures Commit(s).Abs() == s.Abs().Commit()
    ensures s.Honest() && s.Firm() ==> Commit(s).Honest() && Commit(s).Firm()
    ensures var t := Commit(s);
      && t == s.(cache := null, revs := t.revs, cur := t.cur, pending := [],
                 g := s.g.(marks := t.g.marks, edits := t.g.edits, draft := t.g.draft))
      && (if s.pending == [] then t == s.(cache := null)
          else t.revs == s.revs + [s.pending] && t.cur == |s.revs|)
  {
    Basics(s);
    hide State.Tidy, Truthful, Solid;
    CommitAbs(s);
    if s.Honest() && s.Firm() {
      BasicEdits(s);
      CommitHonest(s);
    }
  }

  lemma BasicEdits(s: State)
    requires s.Tidy()
    ensures |s.revs| == |s.g.marks| == |s.g.edits| >= 1 && |s.pending| == |s.g.draft|
  {
    Basics(s);
  }
}
