/** A file: the piece chain of `src/file.c` with its blocks, revisions and cached piece. */
module File {
  import opened Bytes
  import opened Links
  import opened Chain
  import opened Heap
  import opened History
  import opened Trace
  import F = Freeing
  import opened Ledger
  import opened Booking
  import opened State
  import opened Recording
  import opened Cases
  import opened Effect
  import opened Outcome
  import opened Moving
  import E = Editor

  class File {
    const mended: bool               // false: the program as it is; see `Delete`
    const head: Piece                // the list head `file->pieces`
    var size: int
    var dirty: bool
    var blocks: seq<Block>           // `all_blocks`
    var cache: Piece?
    var revisions: seq<Revision>     // `all_revisions`
    var current: nat                 // index of `current_revision`
    var pending: Revision            // `pending_changes`

    /** A file without a name: empty, with an initial revision. */
    constructor New(mended: bool)
      ensures Valid() && fresh(Footprint()) && Abs() == E.Editor([], [[]], 0, false) && this.mended == mended
      ensures View().Honest() && View().Firm() && cache == null && !dirty && Filled(View()) && !Fits(View(), 1)
    {
      hide State.Tidy, State.Abs, State.Honest, State.Firm, Ring, Closed;
      var h := new Piece();
      head, this.mended := h, mended;
      size, dirty, blocks, cache := 0, false, [], null;
      revisions, current, pending := [[]], 0, [];
      links := Links(map[h := h], map[h := h]);
      at, store, text := map[], map[], map[];
      chain, marks, edits, draft := [], [[]], [[]], [];
      new;
      FreshTidy(View());
    }

    /** A file read from disk: its bytes are one block and one piece, unless it is empty; the
        change that brought them is the first revision. */
    constructor Open(contents: seq<Byte>, mended: bool)
      ensures Valid() && fresh(Footprint()) && Abs() == E.Editor(contents, [contents], 0, false)
      ensures this.mended == mended
      ensures View().Honest() && View().Firm() && cache == null && !dirty && Filled(View()) && !Fits(View(), 1)
    {
      hide State.Tidy, State.Abs, State.Honest, State.Firm, File.Shown, Filled, Fits;
      var h := new Piece();
      head, this.mended := h, mended;
      size, dirty, blocks, cache := 0, false, [], null;
      revisions, current, pending := [[]], 0, [];
      links := Links(map[h := h], map[h := h]);
      at, store, text := map[], map[], map[];
      chain, marks, edits, draft := [], [[]], [[]], [];
      new;
      Begin(contents);
    }

    /** Nothing is linked, stored or recorded yet. */
    ghost predicate Blank()
      reads this, head
    {
      && head.next == head && head.prev == head && size == 0 && blocks == [] && cache == null && revisions == [[]]
      && current == 0 && pending == []
      && links == Links(map[head := head], map[head := head]) && at == map[] && store == map[] && text == map[]
      && chain == [] && marks == [[]] && edits == [[]] && draft == []
    }

    // The mirror of the objects, and how the chain got where it is.
    ghost var links: Links
    ghost var at: Slices
    ghost var store: Store
    ghost var text: Texts
    ghost var chain: seq<Piece>
    ghost var marks: seq<seq<Piece>>
    ghost var edits: seq<seq<Edit>>
    ghost var draft: seq<Edit>

    /** The whole state as a value. */
    ghost function View(): State
      reads this
    {
      State(head, size, blocks, cache, revisions, current, pending, at, store,
            Trace(chain, links, text, marks, edits, draft))
    }

    ghost predicate Valid()
      reads this, links.next.Keys`next, links.prev.Keys`prev, at.Keys`block, at.Keys`off, at.Keys`size
      reads store.Keys, set b | b in store.Keys :: b.data
    {
      Shown() && View().Tidy()
    }

    /** The editor this file stands for. */
    ghost function Abs(): E.Editor
      reads this
    {
      View().Abs()
    }

    /** Everything the file may write to. */
    ghost function Footprint(): set<object>
      reads this
    {
      {this} + Cells(links.next.Keys, store.Keys)
    }

    ghost predicate Shown()
      reads `links, `at, `store, links.next.Keys`next, links.prev.Keys`prev, at.Keys`block, at.Keys`off, at.Keys`size
      reads store.Keys, set b | b in store.Keys :: b.data
    {
      NextShown(links.next) && PrevShown(links.prev) && SlicesShown(at) && BlocksShown(store) && MemoryApart(store)
    }

    method Begin(contents: seq<Byte>)
      requires Blank()
      modifies this, head
      ensures Valid() && Abs() == E.Editor(contents, [contents], 0, false) && View().Honest() && View().Firm()
      ensures fresh(Footprint() - {this, head}) && cache == null && dirty == old(dirty)
      ensures Filled(View()) && !Fits(View(), 1)
    {
      hide State.Tidy, State.Abs, State.Honest, State.Firm, Cells, File.Shown;
      BlankShown();
      if contents == [] {
        FreshTidy(View());
        EmptyCells(head);
        NameRevision();
        FreshTidy(View());
      } else {
        var p, b := Load(contents);
        CellsOf(head, p, b);
      }
    }

    lemma BlankShown()
      requires Blank()
      ensures Shown()
    {
    }

    method NameRevision()
      requires Shown()
      modifies `revisions
      ensures Shown() && revisions == [[Change(Span(null, null, 0), Span(null, null, 0), 0)]]
    {
      revisions := [[Change(Span(null, null, 0), Span(null, null, 0), 0)]];
    }

    /** The initial piece and the change that links it. */
    method Load(contents: seq<Byte>) returns (p: Piece, b: Block)
      requires Shown() && contents != [] && size == 0 && blocks == [] && cache == null && current == 0 && pending == []
      requires links == Links(map[head := head], map[head := head]) && at == map[] && store == map[] && text == map[]
      requires edits == [[]] && draft == []
      modifies this, head
      ensures Shown() && View().Tidy() && Abs() == E.Editor(contents, [contents], 0, false) && View().Honest()
        && View().Firm()
      ensures fresh(p) && fresh(b) && fresh(b.data) && links.next.Keys == {head, p} && store.Keys == {b}
      ensures cache == null && dirty == old(dirty) && Filled(View()) && !Fits(View(), 1)
    {
      hide State.Tidy, File.Shown, SwapLinks, CanSwap, Closed, WithPiece, WithBytes, State.Abs, State.Honest,
           State.Firm, Filled, Fits;
      b, p := LoadPiece(contents);
      revisions := [[Change(Span(null, null, 0), Span(p, p, |contents|), 0)]];
      chain, marks := [p], [[p]];
      LoadTidy(View(), b, p, contents);
      LoadedFull(View(), b, p, contents);
    }

    method LoadPiece(contents: seq<Byte>) returns (b: Block, p: Piece)
      requires Shown() && contents != []
      requires links == Links(map[head := head], map[head := head])
      modifies `blocks, `store, `links, `at, `text, `size, head`next, head`prev
      ensures Shown() && fresh(p) && fresh(b) && fresh(b.data) && p != head && blocks == old(blocks) + [b]
      ensures var m := WithPiece(old(links), p, head, head);
        CanSwap(m, Span(null, null, 0), Span(p, p, |contents|))
          && links == SwapLinks(m, Span(null, null, 0), Span(p, p, |contents|))
      ensures Body(text, at) == WithBytes(old(Body(text, at)), p, contents, Slice(b, 0, |contents|))
      ensures store == old(store)[b := contents] && size == old(size) + |contents| && b.data.Length == |contents|
    {
      hide SwapLinks, CanSwap, WithPiece, WithBytes, File.Shown;
      b := AddBlock(|contents|, contents);
      p := LinkFirst(b, contents);
    }

    method LinkFirst(b: Block, contents: seq<Byte>) returns (p: Piece)
      requires Shown() && contents != [] && links == Links(map[head := head], map[head := head])
      modifies `links, `at, `text, `size, head`next, head`prev
      ensures Shown() && fresh(p) && p != head && size == old(size) + |contents|
      ensures var m := WithPiece(old(links), p, head, head);
        CanSwap(m, Span(null, null, 0), Span(p, p, |contents|))
          && links == SwapLinks(m, Span(null, null, 0), Span(p, p, |contents|))
      ensures Body(text, at) == WithBytes(old(Body(text, at)), p, contents, Slice(b, 0, |contents|))
    {
      hide *;
      p := AddPiece(b, 0, |contents|, contents, head, head);
      SwapFirst(p, |contents|);
    }

    method SwapFirst(p: Piece, n: nat)
      requires Shown() && 0 < n && p != head
      requires links == WithPiece(Links(map[head := head], map[head := head]), p, head, head)
      modifies `links, `size, head`next, head`prev, p`next, p`prev
      ensures Shown() && size == old(size) + n && Body(text, at) == old(Body(text, at))
      ensures CanSwap(old(links), Span(null, null, 0), Span(p, p, n))
      ensures links == SwapLinks(old(links), Span(null, null, 0), Span(p, p, n))
    {
      hide SwapLinks, CanSwap, Closed, File.Shown;
      FirstLinked(head, p, n);
      assert links.next.Keys == {head, p};
      SpanSwap(Span(null, null, 0), Span(p, p, n));
    }

    // ---------------------------------------------------------------- writing one object

    method SetNext(p: Piece, q: Piece)
      requires Shown() && p in links.next
      modifies p`next, this`links
      ensures Shown() && links == WithNext(old(links), p, q) && links.next.Keys == old(links.next.Keys)
      ensures Body(text, at) == old(Body(text, at))
    {
      p.next := q;
      links := links.(next := links.next[p := q]);
    }

    method SetPrev(p: Piece, q: Piece)
      requires Shown() && p in links.prev
      modifies p`prev, this`links
      ensures Shown() && links == WithPrev(old(links), p, q) && links.next.Keys == old(links.next.Keys)
      ensures Body(text, at) == old(Body(text, at))
    {
      p.prev := q;
      links := links.(prev := links.prev[p := q]);
    }

    method SetSize(p: Piece, size: nat, ghost w: Slices)
      requires Shown() && p in at && w == at[p := at[p].(size := size)]
      modifies p`size, this`at
      ensures Shown() && at == w
    {
      p.size := size;
      at := w;
    }

    /** `piece_alloc`, with the data and the pointers its callers set next. */
    method AddPiece(block: Block?, off: nat, size: nat, ghost x: seq<Byte>, prev: Piece, next: Piece) returns (p: Piece)
      requires Shown()
      modifies this`links, this`at, this`text
      ensures fresh(p) && p !in old(links.next) && p !in old(links.prev) && p !in old(at) && p !in old(text)
      ensures links == WithPiece(old(links), p, prev, next)
      ensures Body(text, at) == WithBytes(old(Body(text, at)), p, x, Slice(block, off, size))
      ensures text.Keys == old(text.Keys) + {p} && links.next.Keys == old(links.next.Keys) + {p}
        && at.Keys == old(at.Keys) + {p}
      ensures Shown()
    {
      p := new Piece.At(block, off, size, prev, next);
      links := Links(links.next[p := next], links.prev[p := prev]);
      at := at[p := Slice(block, off, size)];
      text := text[p := x];
    }

    method NewBlock(capacity: nat, x: seq<Byte>) returns (b: Block)
      requires |x| <= capacity
      ensures fresh(b) && fresh(b.data) && b.data.Length == capacity && b.len == |x| && b.data[..b.len] == x
    {
      var data := new Byte[capacity](i => 0);
      b := new Block(data, 0);
      b.Insert(0, x);
    }

    /** A block of the given capacity that already holds `x`. */
    method AddBlock(capacity: nat, x: seq<Byte>) returns (b: Block)
      requires Shown() && |x| <= capacity
      modifies this`blocks, this`store
      ensures blocks == old(blocks) + [b] && store == old(store)[b := x]
      ensures fresh(b) && fresh(b.data) && b !in old(store) && b.data.Length == capacity && b.len == |x|
      ensures Shown()
    {
      b := NewBlock(capacity, x);
      blocks := blocks + [b];
      store := store[b := x];
    }

    method BlockInsert(b: Block, pos: nat, x: seq<Byte>, ghost u: Store)
      requires Shown() && b in store && pos <= b.len && b.len + |x| <= b.data.Length
      requires pos <= |store[b]| && u == store[b := Inserted(store[b], pos, x)]
      modifies b`len, b.data, this`store
      ensures Shown() && store == u && b.len == old(b.len) + |x|
    {
      assert b.data[..b.len] == store[b];
      b.Insert(pos, x);
      store := u;
    }

    method BlockDelete(b: Block, pos: nat, n: nat, ghost u: Store)
      requires Shown() && b in store && pos + n <= b.len
      requires pos + n <= |store[b]| && u == store[b := Deleted(store[b], pos, n)]
      modifies b`len, b.data, this`store
      ensures Shown() && store == u && b.len == old(b.len) - n
    {
      assert b.data[..b.len] == store[b];
      b.Delete(pos, n);
      store := u;
    }

    // ---------------------------------------------------------------- spans

    /** `span_swap`: writes the two outer pointers and adjusts the size. */
    method SpanSwap(original: Span, replacement: Span)
      requires Shown() && Closed(links) && CanSwap(links, original, replacement)
      modifies links.next.Keys`next, links.next.Keys`prev, this`size, this`links
      ensures links == SwapLinks(old(links), original, replacement)
      ensures Shown() && Closed(links) && links.next.Keys == old(links).next.Keys
      ensures size == if original.len == 0 && replacement.len == 0 then old(size)
                      else old(size) - original.len + replacement.len
    {
      hide Closed, CanSwap, SwapLinks, File.Shown;
      SwapClosed(links, original, replacement);
      if original.len == 0 && replacement.len == 0 {
        SwapNothing(links, original, replacement);
        return;
      }
      size := size - original.len + replacement.len;
      SwapPointers(original, replacement);
    }

    method SwapPointers(original: Span, replacement: Span)
      requires Shown() && Closed(links) && CanSwap(links, original, replacement)
      requires original.len != 0 || replacement.len != 0
      modifies links.next.Keys`next, links.next.Keys`prev, this`links
      ensures links == SwapLinks(old(links), original, replacement)
      ensures Shown()
    {
      SwapStays(links, original, replacement);
      if original.len == 0 {
        SetOuter(replacement.start, replacement.start, replacement.end, replacement.end);
      } else if replacement.len == 0 {
        var after, before := original.end.next, original.start.prev;
        assert after == links.next[original.end] && before == links.prev[original.start];
        SetOuter(original.start, after, original.end, before);
      } else {
        SetOuter(original.start, replacement.start, original.end, replacement.end);
      }
    }

    /** `start->prev->next = entry; end->next->prev = exit;` */
    method SetOuter(start: Piece, entry: Piece, end: Piece, exit: Piece)
      requires Shown() && start in links.prev && end in links.next
      requires links.prev[start] in links.next && links.next.Keys == links.prev.Keys
      requires links.next[end] in links.next && entry in links.next
      modifies links.next.Keys`next, links.next.Keys`prev, this`links
      ensures links == Outer(old(links), start, entry, end, exit)
      ensures Shown()
    {
      ghost var m := links;
      var l := start.prev;
      assert l == m.prev[start];
      SetNext(l, entry);
      var r := end.next;
      assert r == m.next[l := entry][end];
      SetPrev(r, exit);
    }

    /** `span_init`: walks from `start` to `end` adding up the sizes. */
    method SpanInit(start: Piece?, end: Piece?, ghost p: seq<Piece>) returns (s: Span)
      requires Shown() && Spelled(text, at, store)
      requires Known(text, p) && Path(links, p) && Distinct(p)
      requires Ends(Span(start, end, 0), p)
      ensures s == SpanOf(text, p)
    {
      if start == null && end == null {
        return Span(start, end, 0);
      }
      var q, stop := start, start == end;
      ghost var i := 0;
      assert p[..1] == [p[0]];
      TextOne(text, p[0]);
      assert Cuts(at[q], store, text[q]);
      var len := q.size;
      while !stop
        invariant 0 <= i < |p| && q == p[i] && stop == (i == |p| - 1)
        invariant len == |Text(text, p[..i + 1])|
        decreases |p| - i
      {
        assert Adjacent(links, p[i], p[i + 1]);
        q := q.next;
        i := i + 1;
        assert Cuts(at[q], store, text[q]);
        OffsetNext(text, p, i);
        len := len + q.size;
        stop := q == end;
      }
      assert p[..i + 1] == p;
      s := Span(start, end, len);
    }
  
    // ---------------------------------------------------------------- finding a piece

    /** `piece_find`: the piece that holds the byte at `abs`, and the offset in it. */
    method PieceFind(abs: nat) returns (piece: Piece?, offset: nat, ghost k: nat)
      requires Shown() && Spelled(text, at, store) && Ring(links, head, chain)
      requires Known(text, chain) && size == |Text(text, chain)|
      ensures piece == null <==> abs >= |Text(text, chain)|
      ensures piece != null ==>
        && k < |chain| && piece == chain[k] && piece in text && offset < |text[piece]|
        && Offset(text, chain, k) + offset == abs
    {
      hide Ring, BlocksShown, MemoryApart;
      k, offset := 0, 0;
      if abs > size {
        return null, 0, 0;
      }
      RingStep(links, head, chain, 0);
      var p, abspos := head.next, 0;
      OffsetEnd(text, chain);
      while p != head
        invariant 0 <= k <= |chain| && p == ([head] + chain + [head])[k + 1]
        invariant p == head <==> k == |chain|
        invariant abspos == Offset(text, chain, k) <= abs
        decreases |chain| - k
      {
        assert p == chain[k] && Cuts(at[p], store, text[p]);
        OffsetNext(text, chain, k);
        if abs < abspos + p.size {
          return p, abs - abspos, k;
        } else {
          abspos := abspos + p.size;
        }
        k := k + 1;
        RingStep(links, head, chain, k);
        p := p.next;
      }
      return null, 0, k;
    }
  
    // ---------------------------------------------------------------- the cached piece

    /** `list_last(&file->all_blocks)` */
    function LastBlock(): Block
      requires blocks != []
      reads this`blocks
    {
      blocks[|blocks| - 1]
    }

    /** `block_can_fit` on the last block. */
    predicate LastFits(n: nat)
      reads this`blocks, blocks
    {
      blocks != [] && LastBlock().data.Length - LastBlock().len >= n
    }

    /** The stored numbers of a piece that ends where the last block ends. */
    ghost predicate AtEnd(piece: Piece)
      reads this`blocks, this`at, this`store, piece, blocks
    {
      && blocks != [] && LastBlock() in store && piece in at && piece.size == at[piece].size
      && LastBlock().len == |store[LastBlock()]| == at[piece].off + piece.size <= LastBlock().data.Length
    }

    /** Writes `data` into the cached piece at `pieceOffset`. */
    method CacheGrow(piece: Piece, pieceOffset: nat, data: seq<Byte>, ghost u: Store, ghost w: Slices)
      requires Shown() && AtEnd(piece) && LastFits(|data|) && pieceOffset <= piece.size
      requires u == store[LastBlock() := Inserted(store[LastBlock()], at[piece].off + pieceOffset, data)]
      requires w == at[piece := at[piece].(size := at[piece].size + |data|)]
      modifies this`at, this`store, piece`size, LastBlock()`len, LastBlock().data
      ensures Shown() && at == w && store == u
    {
      hide File.Shown, Inserted;
      var b := LastBlock();
      BlockInsert(b, b.len - (piece.size - pieceOffset), data, u);
      SetSize(piece, piece.size + |data|, w);
    }

    method CacheShrink(piece: Piece, pieceOffset: nat, n: nat, ghost u: Store, ghost w: Slices)
      requires Shown() && AtEnd(piece) && pieceOffset + n <= piece.size
      requires u == store[LastBlock() := Deleted(store[LastBlock()], at[piece].off + pieceOffset, n)]
      requires w == at[piece := at[piece].(size := at[piece].size - n)]
      modifies this`at, this`store, piece`size, LastBlock()`len, LastBlock().data
      ensures Shown() && at == w && store == u
    {
      hide File.Shown, Deleted;
      var b := LastBlock();
      BlockDelete(b, b.len - (piece.size - pieceOffset), n, u);
      SetSize(piece, piece.size - n, w);
    }

    /** `change->replacement.len += len` on the last pending change. */
    method Charge(grow: int, ghost t: Texts)
      requires Shown() && pending != []
      modifies this`pending, this`size, this`text
      ensures Shown() && pending == Charged(old(pending), grow) && size == old(size) + grow && text == t
    {
      size := size + grow;
      var c := pending[|pending| - 1];
      pending := pending[|pending| - 1 := c.(replacement := c.replacement.(len := c.replacement.len + grow))];
      text := t;
    }

    /** The stored numbers agree with the mirror. */
    lemma EndNumbers(piece: Piece, off: nat)
      requires Shown() && AtCache(View(), piece, off)
      ensures AtEnd(piece) && off <= piece.size
    {
      assert at[piece] == Slice(piece.block, piece.off, piece.size);
      assert LastBlock().data[..LastBlock().len] == store[LastBlock()];
    }

    lemma FitsShown(n: nat)
      requires Shown() && forall b :: b in blocks ==> b in store
      ensures LastFits(n) <==> Fits(View(), n)
    {
      if blocks != [] {
        assert LastBlock() in store && LastBlock().data[..LastBlock().len] == store[LastBlock()];
      }
    }

    /** A block holds no more than it has room for. */
    lemma BlocksHold()
      requires Valid() && blocks != []
      ensures Fits(View(), 0)
    {
      hide Kept, Trace.Sound, Spelled, State.CacheOk;
      assert LastBlock() in store && LastBlock().data[..LastBlock().len] == store[LastBlock()];
    }

    /** The stored length of the last block. */
    lemma NewLength()
      requires Shown() && blocks != [] && LastBlock() in store
      ensures |store[LastBlock()]| == LastBlock().len
    {
      assert LastBlock().data[..LastBlock().len] == store[LastBlock()];
    }

    method CacheInsertNow(piece: Piece, pieceOffset: nat, data: seq<Byte>, ghost s: State)
      requires Shown() && LastFits(|data|)
      requires AtCache(View(), piece, pieceOffset) && s == Grown(View(), piece, pieceOffset, data)
      modifies this`size, this`pending, this`text, this`at, this`store, piece`size, LastBlock()`len, LastBlock().data
      ensures Shown()
      ensures size == s.size && pending == s.pending && text == s.g.text && at == s.at && store == s.store
    {
      EndNumbers(piece, pieceOffset);
      assert s.g.text == text[piece := Inserted(text[piece], pieceOffset, data)];
      assert s.pending == Charged(pending, |data|);
      hide File.Shown, Inserted, Charged;
      Charge(|data|, s.g.text);
      CacheGrow(piece, pieceOffset, data, s.store, s.at);
    }

    lemma InFootprint(piece: Piece)
      requires piece in links.next && blocks != [] && LastBlock() in store
      ensures piece in Footprint() && LastBlock() in Footprint() && LastBlock().data in Footprint()
    {
    }

    /** `cache_insert`: `data` goes into `piece` itself when that is the cached piece and the
        last block has room. */
    method CacheInsert(piece: Piece, pieceOffset: nat, data: seq<Byte>, ghost k: nat) returns (hit: bool)
      requires Valid() && Points(View(), piece, k, pieceOffset)
      modifies Footprint()
      ensures Valid() && Footprint() == old(Footprint())
      ensures hit == (old(cache) == piece && Fits(old(View()), |data|))
      ensures !hit ==> View() == old(View())
      ensures hit ==> AtCache(old(View()), piece, pieceOffset) && View() == Grown(old(View()), piece, pieceOffset, data)
    {
      hide State.Tidy, File.Shown, Inserted, Cells, Grown, Spelled, State.CacheOk;
      if cache == null || cache != piece {
        return false;
      }
      TidyRest(View());
      FitsShown(|data|);
      if !LastFits(|data|) {
        return false;
      }
      CacheInsertHit(piece, pieceOffset, data, k);
      hit := true;
    }

    method CacheInsertHit(piece: Piece, pieceOffset: nat, data: seq<Byte>, ghost k: nat)
      requires Valid() && Points(View(), piece, k, pieceOffset) && cache == piece && LastFits(|data|)
      modifies Footprint()
      ensures Valid() && Footprint() == old(Footprint())
      ensures AtCache(old(View()), piece, pieceOffset) && View() == Grown(old(View()), piece, pieceOffset, data)
    {
      hide State.Tidy, File.Shown, Inserted, Cells, Grown, Spelled, State.CacheOk, AtCache, File.AtEnd, Touched,
           Charged;
      GrownTidy(View(), piece, k, pieceOffset, data);
      EndHeld(View(), piece, pieceOffset);
      GrownParts(View(), piece, pieceOffset, data);
      LinkedPiece(View(), piece);
      InFootprint(piece);
      CacheInsertNow(piece, pieceOffset, data, Grown(View(), piece, pieceOffset, data));
    }
  
    method CacheDeleteNow(piece: Piece, pieceOffset: nat, n: nat, ghost s: State)
      requires Shown()
      requires AtCache(View(), piece, pieceOffset + n) && s == Shrunk(View(), piece, pieceOffset, n)
      modifies this`size, this`pending, this`text, this`at, this`store, piece`size, LastBlock()`len, LastBlock().data
      ensures Shown()
      ensures size == s.size && pending == s.pending && text == s.g.text && at == s.at && store == s.store
    {
      EndNumbers(piece, pieceOffset + n);
      assert s.pending == Charged(pending, -(n as int));
      hide File.Shown, Deleted, Charged;
      Charge(-(n as int), s.g.text);
      CacheShrink(piece, pieceOffset, n, s.store, s.at);
    }

    /** `cache_delete`: the range is cut out of `piece` itself when that is the cached piece and
        holds all of it.  The mended one declines to empty the piece. */
    method CacheDelete(piece: Piece, pieceOffset: nat, n: nat, ghost k: nat) returns (hit: bool)
      requires Valid() && Points(View(), piece, k, pieceOffset)
      modifies Footprint()
      ensures Valid() && Footprint() == old(Footprint())
      ensures hit == (old(cache == piece && |text[piece]| - pieceOffset >= n) && (mended ==> Leaves(old(View()), n)))
      ensures !hit ==> View() == old(View())
      ensures hit ==>
        AtCache(old(View()), piece, pieceOffset + n) && View() == Shrunk(old(View()), piece, pieceOffset, n)
    {
      hide State.Tidy, File.Shown, Deleted, Cells, Shrunk, Spelled, Owns, State.CacheOk, AtCache;
      if cache == null || cache != piece {
        return false;
      }
      CacheReady(View(), piece, k, pieceOffset);
      SizeShown(piece, pieceOffset);
      if piece.size - pieceOffset < n || (mended && piece.size == n) {
        return false;
      }
      CacheDeleteHit(piece, pieceOffset, n, k);
      hit := true;
    }

    method CacheDeleteHit(piece: Piece, pieceOffset: nat, n: nat, ghost k: nat)
      requires Valid() && Points(View(), piece, k, pieceOffset + n) && cache == piece
      modifies Footprint()
      ensures Valid() && Footprint() == old(Footprint())
      ensures AtCache(old(View()), piece, pieceOffset + n) && View() == Shrunk(old(View()), piece, pieceOffset, n)
    {
      hide State.Tidy, File.Shown, Deleted, Cells, Shrunk, Spelled, Owns, State.CacheOk, AtCache, File.AtEnd, Touched,
           Charged;
      ShrunkTidy(View(), piece, k, pieceOffset, n);
      EndHeld(View(), piece, pieceOffset + n);
      ShrunkParts(View(), piece, pieceOffset, n);
      LinkedPiece(View(), piece);
      InFootprint(piece);
      CacheDeleteNow(piece, pieceOffset, n, Shrunk(View(), piece, pieceOffset, n));
    }

    lemma EndHeld(s: State, piece: Piece, off: nat)
      requires AtCache(s, piece, off)
      ensures s.blocks != [] && LastOf(s.blocks) in s.store && piece in s.at
    {
    }

    lemma SizeShown(piece: Piece, off: nat)
      requires Shown() && AtCache(View(), piece, off)
      ensures piece.size == |text[piece]|
    {
      assert at[piece] == Slice(piece.block, piece.off, piece.size);
    }

    // ---------------------------------------------------------------- editing

    /** `change_free`: the pieces it frees, from the first to the last one that the change brought. */
    method ChangeFree(c: Change, ghost e: Edit) returns (freed: seq<Piece>)
      requires Shown() && F.Hung(links, head, e) && Ends(c.replacement, e.came)
      ensures Shown() && freed == e.came
    {
      freed := [];
      if c.replacement.start != null {
        var p := c.replacement.start;
        freed := [p];
        while p != c.replacement.end
          invariant 0 < |freed| <= |e.came| && freed == e.came[..|freed|] && p == freed[|freed| - 1]
          decreases |e.came| - |freed|
        {
          assert Adjacent(links, e.came[|freed| - 1], e.came[|freed|]);
          p := p.next;
          freed := freed + [p];
        }
      }
    }

    /** `revision_free`, from the last change to the first. */
    method RevisionFree(rev: Revision, ghost es: seq<Edit>) returns (freed: seq<Piece>)
      requires Shown() && TracesAll(rev, es) && forall k :: 0 <= k < |es| ==> F.Hung(links, head, es[k])
      ensures Shown() && freed == F.CameOf(es)
    {
      hide File.Shown, F.Hung, Ends;
      var i := |rev|;
      freed := [];
      assert es[|es|..] == [];
      while i > 0
        invariant 0 <= i <= |rev| && Shown() && freed == F.CameOf(es[i..])
      {
        i := i - 1;
        F.CameCons(es, i);
        assert Traces(rev[i], es[i]) && F.Hung(links, head, es[i]);
        var more := ChangeFree(rev[i], es[i]);
        freed := freed + more;
      }
      assert es[0..] == es;
    }

    /** `revision_purge`: drops the revisions after the current one and frees the pieces they had
        brought, each once, none of which is linked, cached or mentioned by what is kept. */
    method RevisionPurge() returns (purged: bool, freed: seq<Piece>)
      requires Valid()
      modifies this`revisions, this`marks, this`edits
      ensures Valid() && Footprint() == old(Footprint())
      ensures CanPurge(old(View())) && View() == Purge(old(View()))
      ensures purged == (old(current) != |old(revisions)| - 1) && (purged ==> old(draft) == [])
      ensures (set p | p in freed) == Freed(old(View()).g, old(current)) && Distinct(freed)
      ensures Unused(View().g, set p | p in freed) && cache == old(cache) && cache !in freed
    {
      hide State.Tidy, Purged, Cells, Freed, Unused, File.Shown, Purge;
      PurgeTidy(View());
      PurgeSpares(View());
      freed := [];
      if current == |revisions| - 1 {
        PurgeNothing(View());
        NothingFreed(View());
        return false, freed;
      }
      freed := FreeAfter();
      CacheKept(View());
      PurgeParts(View());
      Forget(Purge(View()));
      purged := true;
    }

    /** The revisions from the last one to the one after the current one. */
    method FreeAfter() returns (freed: seq<Piece>)
      requires Valid() && current < |revisions| - 1
      ensures Shown() && (set p | p in freed) == Freed(View().g, current) && Distinct(freed) && draft == []
    {
      hide State.Tidy, File.Shown, Freed, F.CameOf, F.Hung, TracesAll, Trace.Sound;
      ghost var s := View();
      SoundBooks(s);
      F.UndoneWalks(s.g, head, current);
      var i := |revisions|;
      freed := [];
      F.NoneCame(edits, i);
      while i > current + 1
        invariant current + 1 <= i <= |revisions| && Shown() && freed == F.CameOf(Flat(edits[i..]))
      {
        i := i - 1;
        RevisionBooks(s, i);
        F.RevisionHangs(s.g, head, current, i);
        F.RevisionCame(edits, i);
        var more := RevisionFree(revisions[i], edits[i]);
        freed := freed + more;
      }
    }

    method Forget(ghost s: State)
      requires Shown() && current < |revisions|
      requires s == View().(revs := revisions[..current + 1], g := View().g.(marks := s.g.marks, edits := s.g.edits))
      modifies this`revisions, this`marks, this`edits
      ensures Shown() && View() == s
    {
      hide File.Shown;
      revisions := revisions[..current + 1];
      marks, edits := s.g.marks, s.g.edits;
    }
  
    /** Makes sure that the last block can take `n` bytes. */
    method Room(n: nat)
      requires Shown() && Spelled(text, at, store) && forall c :: c in blocks ==> c in store
      modifies this`blocks, this`store
      ensures Shown() && Spelled(text, at, store) && forall c :: c in blocks ==> c in store
      ensures LastFits(n) && old(store).Keys <= store.Keys && fresh(store.Keys - old(store).Keys)
      ensures fresh(LastBlock().data) || LastBlock() in old(store).Keys
      ensures if old(LastFits(n)) then blocks == old(blocks) && store == old(store)
        else
          && blocks == old(blocks) + [LastBlock()] && LastBlock().len == 0
          && LastBlock().data.Length == if n > MEM_BLOCK_SIZE then n else MEM_BLOCK_SIZE
      ensures forall c :: c in store.Keys - old(store).Keys ==> fresh(c.data)
    {
      if !LastFits(n) {
        ghost var st := store;
        var b := AddBlock(if n > MEM_BLOCK_SIZE then n else MEM_BLOCK_SIZE, []);
        SpelledBlock(text, at, st, b, []);
      }
    }

    /** `block_append` to the last block. */
    method Append(data: seq<Byte>) returns (b: Block, off: nat)
      requires Shown() && Spelled(text, at, store) && LastFits(|data|) && forall c :: c in blocks ==> c in store
      modifies this`store, LastBlock()`len, LastBlock().data
      ensures Shown() && Reserved(View(), blocks, store, b, off, data) && store.Keys == old(store).Keys
      ensures store[LastBlock()] == old(store[LastBlock()]) + data
    {
      b := LastBlock();
      off := b.len;
      assert b.data[..b.len] == store[b];
      ghost var st := store;
      hide Spelled, Cuts;
      BlockInsert(b, off, data, store[b := Inserted(store[b], off, data)]);
      Appended(text, at, st, b, off, data);
    }
  
    /** Records the change `c` for the edit `e` and applies it. */
    method Record(c: Change, ghost e: Edit)
      requires Shown() && Closed(links) && CanSwap(links, c.original, c.replacement)
      requires SwapLinks(links, c.original, c.replacement) == Relink(links, head, e)
      requires c.original.len != 0 || c.replacement.len != 0
      modifies this`pending, this`chain, this`draft, this`links, this`size
      modifies links.next.Keys`next, links.next.Keys`prev
      ensures Shown() && links == Relink(old(links), head, e) && chain == e.To() && draft == old(draft) + [e]
      ensures pending == old(pending) + [c] && size == old(size) - c.original.len + c.replacement.len
    {
      hide Closed, CanSwap, SwapLinks, Relink, File.Shown, Edit.To;
      pending := pending + [c];
      chain := e.To();
      draft := draft + [e];
      SpanSwap(c.original, c.replacement);
    }
  
    /** The fields a recorded change sets. */
    ghost predicate Fields(t: State)
      reads this
    {
      && size == t.size && pending == t.pending && cache == t.cache && at == t.at && store == t.store
      && text == t.g.text && links == t.g.links && chain == t.g.chain && draft == t.g.draft
    }

    /** Both spans, the change, and the swap. */
    method Finish(gone: Piece?, goneEnd: Piece?, came: Piece?, cameEnd: Piece?, pos: nat, ghost e: Edit, ghost s: State)
      requires Shown() && Spelled(text, at, store) && Ready(links, text, head, e, pos)
      requires Ends(Span(gone, goneEnd, 0), e.gone) && Ends(Span(came, cameEnd, 0), e.came)
      requires head == s.head && size == s.size && pending == s.pending && draft == s.g.draft
      modifies this`pending, this`chain, this`draft, this`links, this`size
      modifies links.next.Keys`next, links.next.Keys`prev
      ensures Shown() && EditKnown(text, e) && Fields(Spliced(s, blocks, store, at, old(links), text, e, pos, cache))
    {
      hide Spelled, Path, Distinct, Closed, SwapLinks, Relink, CanSwap, Text, Known, Edit.To, File.Shown;
      var o := SpanInit(gone, goneEnd, e.gone);
      var r := SpanInit(came, cameEnd, e.came);
      Record(Change(o, r, pos), e);
    }
  
    method MakeOne(prev: Piece, next: Piece, b: Block, off: nat, data: seq<Byte>, pos: nat, ghost i: nat,
                   ghost s: State)
      returns (p: Piece)
      requires Shown() && Anchored(s) && View() == s.(blocks := blocks, store := store)
      requires Reserved(s, blocks, store, b, off, data) && data != []
      requires i <= |s.g.chain| && prev == Before(s, i) && next == After(s, i)
      modifies this`links, this`at, this`text
      ensures Shown() && fresh(p) && OneMade(s, i, p, Slice(b, off, |data|), data, links, text, at)
      ensures links.next.Keys == old(links.next.Keys) + {p} && at.Keys == old(at.Keys) + {p}
      ensures Ready(links, text, head, Splice(s, i, i, [p]), pos) && Spelled(text, at, store)
      ensures EditKnown(text, Splice(s, i, i, [p]))
    {
      p := AddPiece(b, off, |data|, data, prev, next);
      hide Reserved, Spelled, Ready, File.Shown, Anchored, Splice, EditKnown, WithPiece, WithBytes;
      OneReady(s, blocks, store, b, off, i, p, data, links, text, at, pos);
    }

    /** A new piece at the edge of another one, or the first piece of an empty file. */
    method InsertOne(prev: Piece, next: Piece, b: Block, off: nat, data: seq<Byte>, pos: nat, ghost i: nat,
                     ghost s: State)
      returns (p: Piece, ghost m: Links)
      requires Shown() && Anchored(s) && View() == s.(blocks := blocks, store := store)
      requires Reserved(s, blocks, store, b, off, data) && data != []
      requires i <= |s.g.chain| && prev == Before(s, i) && next == After(s, i)
      modifies this`pending, this`chain, this`draft, this`links, this`size, this`at, this`text, this`cache
      modifies links.next.Keys`next, links.next.Keys`prev
      ensures Shown() && fresh(p) && OneMade(s, i, p, Slice(b, off, |data|), data, m, text, at)
      ensures EditKnown(text, Splice(s, i, i, [p]))
      ensures Fields(Spliced(s, blocks, store, at, m, text, Splice(s, i, i, [p]), pos, p))
    {
      hide Relink, Splice, Reserved, Spelled, Ready, File.Shown, File.Fields, Spliced, Anchored, OneMade, EditKnown,
           ChangeOf, Text, Before, After, Edit.To, Known;
      p := MakeOne(prev, next, b, off, data, pos, i, s);
      m := links;
      cache := p;
      SpliceRuns(s, i, i, [p]);
      Finish(null, null, p, p, pos, Splice(s, i, i, [p]), s);
    }
  
    /** Three new pieces, joined together between `prev` and `next`. */
    method AddThree(sp: Slice, ghost xp: seq<Byte>, sq: Slice, ghost xq: seq<Byte>, sr: Slice, ghost xr: seq<Byte>,
                    prev: Piece, next: Piece)
      returns (p: Piece, q: Piece, r: Piece)
      requires Shown()
      modifies this`links, this`at, this`text
      ensures Shown() && fresh(p) && fresh(q) && fresh(r) && p != q && q != r && p != r
      ensures p !in old(links.next) && q !in old(links.next) && r !in old(links.next)
      ensures p !in old(text) && q !in old(text) && r !in old(text)
      ensures links == WithThree(old(links), p, q, r, prev, next)
      ensures Body(text, at) == WithThreeBytes(old(Body(text, at)), p, xp, sp, q, xq, sq, r, xr, sr)
    {
      hide File.Shown, WithPiece, WithNext, WithBytes;
      p := AddPiece(sp.block, sp.off, sp.size, xp, prev, next);
      q := AddPiece(sq.block, sq.off, sq.size, xq, p, next);
      r := AddPiece(sr.block, sr.off, sr.size, xr, q, next);
      SetNext(p, q);
      SetNext(q, r);
    }

    /** The stored fields of the piece with index `k`. */
    lemma PieceCells(piece: Piece, k: nat, off: nat, s: State)
      requires Shown() && Anchored(s) && Points(s, piece, k, off)
      requires head == s.head && chain == s.g.chain && links == s.g.links && text == s.g.text && at == s.at
      requires Spelled(text, at, store)
      ensures piece.prev == Before(s, k) && piece.next == After(s, k + 1)
      ensures piece in at && at[piece] == Slice(piece.block, piece.off, piece.size) && piece.size == |text[piece]|
    {
      assert Cuts(at[piece], store, text[piece]);
      assert at[piece] == Slice(piece.block, piece.off, piece.size);
      RingStep(links, head, chain, k);
      RingStep(links, head, chain, k + 1);
      var ring := [head] + chain + [head];
      assert ring[k] == Before(s, k) && ring[k + 1] == piece && ring[k + 2] == After(s, k + 1);
    }
  
    /** The middle of a piece: its front, the new bytes and its rest take its place. */
    method MakeThree(piece: Piece, pieceOffset: nat, b: Block, off: nat, data: seq<Byte>, pos: nat, ghost k: nat,
                     ghost s: State)
      returns (p: Piece, q: Piece, r: Piece)
      requires Shown() && Anchored(s) && View() == s.(blocks := blocks, store := store)
      requires Reserved(s, blocks, store, b, off, data) && data != []
      requires Points(s, piece, k, pieceOffset) && 0 < pieceOffset < |s.g.text[piece]|
      modifies this`links, this`at, this`text
      ensures Shown() && fresh(p) && fresh(q) && fresh(r)
      ensures ThreeMade(s, k, pieceOffset, p, q, r, Slice(b, off, |data|), data, links, text, at)
      ensures links.next.Keys == old(links.next.Keys) + {p, q, r}
      ensures Ready(links, text, head, Splice(s, k, k + 1, [p, q, r]), pos) && Spelled(text, at, store)
      ensures EditKnown(text, Splice(s, k, k + 1, [p, q, r]))
    {
      hide Reserved, Spelled, Ready, File.Shown, Anchored, Splice, EditKnown, Before, After, WithThree,
           WithThreeBytes, ThreeMade;
      ReservedParts(s, blocks, store, b, off, data);
      PieceCells(piece, k, pieceOffset, s);
      AnchorKeysMatch(s);
      p, q, r := AddThree(
        Slice(piece.block, piece.off, pieceOffset), text[piece][0..pieceOffset],
        Slice(b, off, |data|), data,
        Slice(piece.block, piece.off + pieceOffset, piece.size - pieceOffset), text[piece][pieceOffset..|text[piece]|],
        piece.prev, piece.next);
      MadeThree(s, k, pieceOffset, piece, p, q, r, Slice(b, off, |data|), data, links, text, at);
      ThreeReady(s, blocks, store, b, off, k, pieceOffset, p, q, r, data, links, text, at, pos);
    }
  
    /** `data` in the middle of `piece`: three pieces take its place. */
    method InsertThree(piece: Piece, pieceOffset: nat, b: Block, off: nat, data: seq<Byte>, pos: nat, ghost k: nat,
                       ghost s: State)
      returns (p: Piece, q: Piece, r: Piece, ghost m: Links)
      requires Shown() && Anchored(s) && View() == s.(blocks := blocks, store := store)
      requires Reserved(s, blocks, store, b, off, data) && data != []
      requires Points(s, piece, k, pieceOffset) && 0 < pieceOffset < |s.g.text[piece]|
      modifies this`pending, this`chain, this`draft, this`links, this`size, this`at, this`text, this`cache
      modifies links.next.Keys`next, links.next.Keys`prev
      ensures Shown() && fresh(p) && fresh(q) && fresh(r)
      ensures ThreeMade(s, k, pieceOffset, p, q, r, Slice(b, off, |data|), data, m, text, at)
      ensures EditKnown(text, Splice(s, k, k + 1, [p, q, r]))
      ensures Fields(Spliced(s, blocks, store, at, m, text, Splice(s, k, k + 1, [p, q, r]), pos, q))
    {
      hide Relink, Splice, Reserved, Spelled, Ready, File.Shown, File.Fields, Spliced, Anchored, ThreeMade, EditKnown,
           ChangeOf, Text, Before, After, Edit.To, Known, Points;
      PointsAt(s, piece, k, pieceOffset);
      p, q, r := MakeThree(piece, pieceOffset, b, off, data, pos, k, s);
      m := links;
      cache := q;
      SpliceRuns(s, k, k + 1, [p, q, r]);
      Finish(piece, piece, p, r, pos, Splice(s, k, k + 1, [p, q, r]), s);
    }

    /** What is left in front of the range, and what is left behind it, as new pieces. */
    method MakeCut(startPiece: Piece, so: nat, endPiece: Piece, eo: nat, left: bool, right: bool, pos: nat,
                   ghost i: nat, ghost k: nat, ghost s: State)
      returns (newStart: Piece?, newEnd: Piece?, ghost p: Piece, ghost q: Piece)
      requires Shown() && Anchored(s) && View() == s && Spelled(text, at, store)
      requires Points(s, startPiece, i, so) && Points(s, endPiece, k, eo) && i <= k && so < |s.g.text[startPiece]|
      requires (left <==> so != 0) && (right <==> eo != |s.g.text[endPiece]|)
      modifies this`links, this`at, this`text
      ensures Shown() && (left ==> fresh(p)) && (right ==> fresh(q))
      ensures CutMade(s, i, so, k, eo, left, p, right, q, links, text, at)
      ensures newStart == (if left then p else null) && newEnd == (if right then q else null)
      ensures links.next.Keys == old(links.next.Keys) + (if left then {p} else {}) + (if right then {q} else {})
    {
      hide Spelled, Ready, File.Shown, Anchored, Splice, EditKnown, Before, After, CutLinks, MaybeBytes, CutMade, Hung;
      PieceCells(startPiece, i, so, s);
      PieceCells(endPiece, k, eo, s);
      AnchorKeysMatch(s);
      newStart, newEnd, p, q := AddRemains(left, right,
        Slice(startPiece.block, startPiece.off, so), text[startPiece][0..so],
        Slice(endPiece.block, endPiece.off + eo, endPiece.size - eo), text[endPiece][eo..|text[endPiece]|],
        startPiece.prev, endPiece.next);
      MadeCut(s, i, so, k, eo, left, p, right, q, links, text, at);
    }

    /** At most two new pieces between `before` and `after`, joined if there are two. */
    method AddRemains(left: bool, right: bool, sp: Slice, ghost x: seq<Byte>, sq: Slice, ghost y: seq<Byte>,
                      before: Piece, after: Piece)
      returns (newStart: Piece?, newEnd: Piece?, ghost p: Piece, ghost q: Piece)
      requires Shown()
      modifies this`links, this`at, this`text
      ensures Shown() && (left ==> fresh(p)) && (right ==> fresh(q)) && (left && right ==> p != q)
      ensures left ==> p !in old(links.next) && p !in old(text)
      ensures right ==> q !in old(links.next) && q !in old(text)
      ensures newStart == (if left then p else null) && newEnd == (if right then q else null)
      ensures links == CutLinks(old(links), left, p, right, q, before, after)
      ensures Body(text, at) == MaybeBytes(right, MaybeBytes(left, old(Body(text, at)), p, x, sp), q, y, sq)
      ensures links.next.Keys == old(links.next.Keys) + (if left then {p} else {}) + (if right then {q} else {})
    {
      hide File.Shown, WithPiece, WithBytes, WithNext;
      p, q, newStart, newEnd := head, head, null, null;
      if left && right {
        var a := AddPiece(sp.block, sp.off, sp.size, x, before, after);
        var b := AddPiece(sq.block, sq.off, sq.size, y, a, after);
        SetNext(a, b);
        p, q, newStart, newEnd := a, b, a, b;
      } else if left {
        var a := AddPiece(sp.block, sp.off, sp.size, x, before, after);
        p, newStart := a, a;
      } else if right {
        var b := AddPiece(sq.block, sq.off, sq.size, y, before, after);
        q, newEnd := b, b;
      }
    }
  
    /** The range from `so` in `startPiece` to `eo` in `endPiece` is taken out. */
    method CutRange(startPiece: Piece, so: nat, endPiece: Piece, eo: nat, pos: nat, ghost i: nat, ghost k: nat,
                    ghost s: State)
      returns (ghost left: bool, ghost p: Piece, ghost right: bool, ghost q: Piece, ghost m: Links)
      requires Shown() && Anchored(s) && View() == s && Spelled(text, at, store)
      requires Points(s, startPiece, i, so) && Points(s, endPiece, k, eo) && i <= k && so < |s.g.text[startPiece]|
      modifies this`pending, this`chain, this`draft, this`links, this`size, this`at, this`text
      modifies links.next.Keys`next, links.next.Keys`prev
      ensures Shown() && (left ==> fresh(p)) && (right ==> fresh(q))
      ensures CutMade(s, i, so, k, eo, left, p, right, q, m, text, at)
      ensures EditKnown(text, Splice(s, i, k + 1, Only(left, p) + Only(right, q)))
      ensures Fields(Spliced(s, blocks, store, at, m, text, Splice(s, i, k + 1, Only(left, p) + Only(right, q)), pos,
        cache))
    {
      hide Relink, Splice, Spelled, Ready, File.Shown, File.Fields, Spliced, Anchored, CutMade, EditKnown, ChangeOf,
           Only, Before, After, Hung, Added;
      SizeIs(endPiece);
      var splitStart, splitEnd := so != 0, eo != endPiece.size;
      left, right := splitStart, splitEnd;
      var newStart, newEnd;
      newStart, newEnd, p, q := MakeCut(startPiece, so, endPiece, eo, splitStart, splitEnd, pos, i, k, s);
      m := links;
      if newStart == null && newEnd != null {
        newStart := newEnd;
      } else if newStart != null && newEnd == null {
        newEnd := newStart;
      }
      CutReady(s, i, so, k, eo, left, p, right, q, links, text, at, pos);
      CutEnds(s, i, k, left, p, right, q, newStart, newEnd);
      Finish(startPiece, endPiece, newStart, newEnd, pos, Splice(s, i, k + 1, Only(left, p) + Only(right, q)), s);
    }

    /** `list_next` of the head, or of the piece with index `k - 1`. */
    lemma NextAfter(p: Piece, k: nat)
      requires Shown() && Ring(links, head, chain) && k <= |chain| && p == Before(View(), k)
      ensures p.next == After(View(), k) && (After(View(), k) == head <==> k == |chain|)
    {
      RingStep(links, head, chain, k);
      var r := [head] + chain + [head];
      assert r[k] == Before(View(), k) && r[k + 1] == After(View(), k);
    }

    /** The bytes of a piece are in its block. */
    lemma BytesAre(piece: Piece)
      requires Shown() && Spelled(text, at, store) && piece in text
      ensures piece.block != null && piece.off + piece.size <= piece.block.data.Length
      ensures piece.block.data[piece.off..piece.off + piece.size] == text[piece] && piece.size == |text[piece]|
    {
      SizeIs(piece);
      assert Cuts(at[piece], store, text[piece]) && at[piece] == Slice(piece.block, piece.off, piece.size);
      var b := piece.block;
      assert b.data[..b.len] == store[b];
      assert b.data[piece.off..piece.off + piece.size] == b.data[..b.len][piece.off..piece.off + piece.size];
    }

    lemma SizeIs(piece: Piece)
      requires Shown() && Spelled(text, at, store) && piece in text
      ensures piece.size == |text[piece]|
    {
      assert Cuts(at[piece], store, text[piece]);
      assert at[piece] == Slice(piece.block, piece.off, piece.size);
    }

    // ---------------------------------------------------------------- insertion

    /** The piece an insertion at `offset` turns to; an empty list has none. */
    method Locate(offset: nat) returns (piece: Piece?, pieceOffset: nat, ghost k: nat)
      requires Valid() && offset <= size
      ensures Valid() && View() == old(View())
      ensures piece == null ==> chain == [] && offset == 0
      ensures piece != null ==> Landed(View(), piece, pieceOffset, offset, k)
    {
      hide State.Tidy, Ring, Closed, Distinct, Spelled, File.Shown;
      Basics(View());
      TidyRest(View());
      piece, pieceOffset, k := PieceFind(offset);
      if piece != null {
        OffsetNext(text, chain, k);
      } else {
        piece, pieceOffset, k := LastPiece();
      }
    }

    /** `list_last`, with the position behind its last byte. */
    method LastPiece() returns (piece: Piece?, pieceOffset: nat, ghost k: nat)
      requires Shown() && Ring(links, head, chain) && Known(text, chain) && Spelled(text, at, store)
      ensures piece == null ==> chain == []
      ensures piece != null ==> Landed(View(), piece, pieceOffset, |Text(text, chain)|, k) && k == |chain| - 1
    {
      k := 0;
      RingStep(links, head, chain, 0);
      RingStep(links, head, chain, |chain|);
      if head.next == head {
        return null, 0, 0;
      }
      k := |chain| - 1;
      piece := head.prev;
      assert ([head] + chain)[|chain|] == chain[k];
      SizeIs(piece);
      pieceOffset := piece.size;
      OffsetNext(text, chain, k);
      OffsetEnd(text, chain);
    }

    /** The piece in front of `piece`, if there is one. */
    method PrevPiece(piece: Piece, ghost k: nat) returns (prev: Piece?)
      requires Shown() && Ring(links, head, chain) && k < |chain| && chain[k] == piece
      ensures prev == if k == 0 then null else chain[k - 1]
    {
      RingStep(links, head, chain, 0);
      RingStep(links, head, chain, k);
      assert k > 0 ==> ([head] + chain)[k] == chain[k - 1];
      assert ([head] + chain)[k + 1] == piece && ([head] + chain)[1] == chain[0];
      if head.next == piece {
        prev := null;
      } else {
        prev := piece.prev;
      }
    }

    method MarkDirty()
      requires Valid()
      modifies this`dirty
      ensures Valid() && View() == old(View()) && Footprint() == old(Footprint()) && dirty
    {
      hide State.Tidy, Cells;
      dirty := true;
    }

    /** The cached piece takes the bytes if it is `piece`, or the one in front of its start. */
    method TryCache(piece: Piece, pieceOffset: nat, data: seq<Byte>, offset: nat, ghost k: nat) returns (hit: bool)
      requires Valid() && data != [] && Landed(View(), piece, pieceOffset, offset, k)
      modifies Footprint()
      ensures Valid() && Footprint() == old(Footprint())
      ensures hit == (Growing(old(View()), offset, k) && Fits(old(View()), |data|))
      ensures !hit ==> View() == old(View())
      ensures hit ==> GrownInto(old(View()), View(), offset, data)
    {
      hide State.Tidy, Cells, Grown, Spelled, File.Shown, File.Footprint, Fits, GrownInto, Growing, Landed, Points,
           AtCache, State.CacheOk, Ring, Closed, Distinct;
      ghost var s := View();
      Basics(s);
      TidyRest(s);
      LandedParts(s, piece, pieceOffset, offset, k);
      hit := CacheInsert(piece, pieceOffset, data, k);
      if hit {
        GrownPays(s, piece, k, pieceOffset, data, offset);
      } else if pieceOffset == 0 {
        var prev := PrevPiece(piece, k);
        if prev != null {
          BeforeStart(s, k);
          SizeIs(prev);
          hit := CacheInsert(prev, prev.size, data, k - 1);
          if hit {
            GrownPays(s, prev, k - 1, |s.g.text[prev]|, data, offset);
          }
        }
      }
    }

    /** Room for the bytes at the end of the last block, and the bytes put there. */
    method Reserve(data: seq<Byte>) returns (b: Block, off: nat)
      requires Shown() && Spelled(text, at, store) && forall c :: c in blocks ==> c in store
      modifies this`blocks, this`store, Cells({}, store.Keys)
      ensures Shown() && Reserved(old(View()), blocks, store, b, off, data) && Spelled(text, at, store)
      ensures Roomed(old(View()), View(), |data|)
      ensures old(store).Keys <= store.Keys && fresh(Cells({}, store.Keys) - old(Cells({}, store.Keys)))
    {
      hide File.Shown, Spelled, Reserved, Roomed, Fits;
      ghost var s := View();
      FitsShown(|data|);
      Room(|data|);
      NewLength();
      ghost var bs, st := blocks, store;
      b, off := Append(data);
      ReservedParts(View(), blocks, store, b, off, data);
      ReservedSame(View(), s, blocks, store, b, off, data);
      RoomThenBytes(s, bs, st, View(), |data|);
    }

    /** The slow path: the bytes go to the end of the last block, and one or three new pieces
        show them. */
    method InsertNew(piece: Piece?, pieceOffset: nat, data: seq<Byte>, offset: nat, ghost k: nat)
      requires Valid() && data != [] && current == |marks| - 1
      requires piece == null ==> chain == [] && offset == 0
      requires piece != null ==> Landed(View(), piece, pieceOffset, offset, k)
      modifies Footprint()
      ensures Valid() && fresh(Footprint() - old(Footprint()))
      ensures Lengthened(old(View()), View(), offset, data) && Roomed(old(View()), View(), |data|)
    {
      hide State.Tidy, Spelled, File.Shown, Landed, Anchored, Ring, Closed, Distinct, Reserved, Lengthened, Roomed;
      ghost var s := View();
      StoreReady(s);
      var b, off := Reserve(data);
      ghost var r := View();
      ghost var news := InsertReserved(piece, pieceOffset, data, offset, b, off, k, s);
      RoomedSame(s, r, View(), |data|);
    }

    /** The fields a change sets, and the others, make up the view. */
    lemma FieldsShow(t: State)
      requires Fields(t) && t.head == head && t.blocks == blocks && t.revs == revisions && t.cur == current
      requires t.g.marks == marks && t.g.edits == edits
      ensures View() == t
    {
    }

    method InsertEdge(prev: Piece, next: Piece, data: seq<Byte>, pos: nat, b: Block, off: nat, ghost i: nat,
                      ghost s: State)
      returns (ghost news: set<Piece>)
      requires Shown() && Spelled(text, at, store) && View() == s.(blocks := blocks, store := store)
      requires s.Tidy() && Anchored(s) && Reserved(s, blocks, store, b, off, data) && data != []
        && s.cur == |s.g.marks| - 1
      requires i <= |s.g.chain| && prev == Before(s, i) && next == After(s, i)
      requires Known(s.g.text, s.g.chain) && pos == Offset(s.g.text, s.g.chain, i)
      modifies this`pending, this`chain, this`draft, this`links, this`size, this`at, this`text, this`cache
      modifies links.next.Keys`next, links.next.Keys`prev
      ensures Valid() && Lengthened(s, View(), pos, data)
      ensures fresh(news) && links.next.Keys == old(links).next.Keys + news
    {
      hide State.Tidy, Spelled, File.Shown, File.Fields, Anchored, Reserved, Lengthened, OneMade, Spliced, Splice,
           EditKnown, Before, After, Offset, Known;
      SameAnchor(s, View());
      ghost var p, m := InsertOne(prev, next, b, off, data, pos, i, s);
      SplicedRest(s, blocks, store, at, m, text, Splice(s, i, i, [p]), pos, p);
      FieldsShow(Spliced(s, blocks, store, at, m, text, Splice(s, i, i, [p]), pos, p));
      OnePays(s, blocks, store, b, off, i, p, data, m, text, at, pos);
      news := {p};
      OneGrew(s, View(), i, p, Slice(b, off, |data|), data, m);
    }

    /** The split piece in the fields as they are now. */
    lemma SplitShows(s: State, t: State, b: Block, off: nat, k: nat, po: nat, p: Piece, q: Piece, r: Piece,
                     data: seq<Byte>, m: Links, pos: nat)
      requires s.Tidy() && s.cur == |s.g.marks| - 1 && Reserved(s, blocks, store, b, off, data)
      requires ThreeMade(s, k, po, p, q, r, Slice(b, off, |data|), data, m, text, at)
      requires k < |s.g.chain| && EditKnown(text, Splice(s, k, k + 1, [p, q, r]))
      requires Known(s.g.text, s.g.chain) && pos == Offset(s.g.text, s.g.chain, k) + po
      requires s.g.links.next.Keys == s.g.text.Keys + {s.head}
      requires head == s.head && revisions == s.revs && current == s.cur && marks == s.g.marks && edits == s.g.edits
      requires Fields(Spliced(s, blocks, store, at, m, text, Splice(s, k, k + 1, [p, q, r]), pos, q)) && t == View()
      ensures t.Tidy() && Lengthened(s, t, pos, data) && links.next.Keys == s.g.links.next.Keys + {p, q, r}
    {
      hide State.Tidy, Reserved, Lengthened, ThreeMade, Spliced, Splice, EditKnown, Offset, Known, File.Fields;
      var u := SplitPays(s, blocks, store, b, off, k, po, p, q, r, data, m, text, at, pos);
      FieldsShow(u);
    }

    /** What the view says of the fields. */
    lemma SameView(s: State)
      requires View() == s.(blocks := blocks, store := store) && Anchored(s)
      ensures head == s.head && revisions == s.revs && current == s.cur && marks == s.g.marks && edits == s.g.edits
      ensures links == s.g.links && s.g.links.next.Keys == s.g.text.Keys + {s.head}
    {
      SameAnchor(s, View());
    }

    method InsertSplit(piece: Piece, pieceOffset: nat, data: seq<Byte>, pos: nat, b: Block, off: nat, ghost k: nat,
                       ghost s: State)
      returns (ghost news: set<Piece>)
      requires Shown() && Spelled(text, at, store) && View() == s.(blocks := blocks, store := store)
      requires s.Tidy() && Anchored(s) && Reserved(s, blocks, store, b, off, data) && data != []
        && s.cur == |s.g.marks| - 1
      requires Points(s, piece, k, pieceOffset) && 0 < pieceOffset < |s.g.text[piece]|
      requires Known(s.g.text, s.g.chain) && pos == Offset(s.g.text, s.g.chain, k) + pieceOffset
      modifies this`pending, this`chain, this`draft, this`links, this`size, this`at, this`text, this`cache
      modifies links.next.Keys`next, links.next.Keys`prev
      ensures Valid() && Lengthened(s, View(), pos, data)
      ensures fresh(news) && links.next.Keys == old(links).next.Keys + news
    {
      hide State.Tidy, Spelled, File.Shown, File.Fields, Anchored, Reserved, Lengthened, ThreeMade, Spliced, Splice,
           EditKnown, Offset, Known,
           Points, File.Footprint, Cells;
      SameView(s);
      PointsAt(s, piece, k, pieceOffset);
      ghost var p, q, r, m := InsertThree(piece, pieceOffset, b, off, data, pos, k, s);
      news := {p, q, r};
      FreshThree(p, q, r);
      SplitShows(s, View(), b, off, k, pieceOffset, p, q, r, data, m, pos);
    }

    twostate lemma FreshThree(new p: Piece, new q: Piece, new r: Piece)
      requires fresh(p) && fresh(q) && fresh(r)
      ensures fresh({p, q, r})
    {
    }

    /** The new pieces for bytes that are already stored. */
    method InsertReserved(piece: Piece?, pieceOffset: nat, data: seq<Byte>, offset: nat, b: Block, off: nat,
                          ghost k: nat, ghost s: State)
      returns (ghost news: set<Piece>)
      requires Shown() && Spelled(text, at, store) && View() == s.(blocks := blocks, store := store)
      requires s.Tidy() && Anchored(s) && Reserved(s, blocks, store, b, off, data) && data != []
        && s.cur == |s.g.marks| - 1
      requires piece == null ==> s.g.chain == [] && offset == 0
      requires piece != null ==> Landed(s, piece, pieceOffset, offset, k)
      modifies this`pending, this`chain, this`draft, this`links, this`size, this`at, this`text, this`cache
      modifies links.next.Keys`next, links.next.Keys`prev
      ensures Valid() && Lengthened(s, View(), offset, data)
      ensures fresh(news) && links.next.Keys == old(links).next.Keys + news
    {
      hide State.Tidy, Spelled, File.Shown, Landed, Anchored, Ring, Closed, Distinct, Reserved, Lengthened;
      AnchorKnown(s);
      if piece == null {
        EmptyEnds(s);
        news := InsertEdge(head, head, data, offset, b, off, 0, s);
      } else {
        LandedParts(s, piece, pieceOffset, offset, k);
        LandedEnd(s, piece, pieceOffset, offset, k);
        BeforeAfter(s, k);
        PieceCells(piece, k, pieceOffset, s);
        if pieceOffset == 0 {
          news := InsertEdge(piece.prev, piece, data, offset, b, off, k, s);
        } else if pieceOffset == piece.size {
          news := InsertEdge(piece, piece.next, data, offset, b, off, k + 1, s);
        } else {
          news := InsertSplit(piece, pieceOffset, data, offset, b, off, k, s);
        }
      }
    }

    /** `hedit_file_insert`.  `hit` tells that the bytes went into the cached piece, which is
        settled by where `offset` lands. */
    method Insert(offset: nat, data: seq<Byte>) returns (ok: bool, event: E.Event, ghost hit: bool, ghost k: nat)
      requires Valid()
      modifies Footprint()
      ensures Valid() && fresh(Footprint() - old(Footprint()))
      ensures Abs() == old(Abs()).Insert(offset, data)
      ensures ok == (data == [] || offset <= |old(Abs()).text|)
      ensures !ok || data == [] ==> event == E.Silent && View() == old(View()) && dirty == old(dirty)
      ensures ok && data != [] ==> event == E.Changed(offset, |old(Abs()).text| - offset) && dirty
      ensures ok && data != [] ==>
        && InsertPaid(old(View()), View(), offset, data, hit)
        && revisions == old(revisions)[..old(current) + 1] && current == old(current)
        && if hit then old(pending) != [] && pending == Charged(old(pending), |data|)
          else OneMore(old(pending), pending) && Noted(View(), offset)
      ensures ok && data != [] && old(chain) != [] ==> Lands(old(View()), offset, k)
      ensures hit == (ok && data != [] && Growing(old(View()), offset, k) && Fits(old(View()), |data|))
      ensures old(View().Honest()) ==> (View().Honest() <==> !(hit && old(View()).Stray()))
      ensures hit && Solid(old(View()).g) && !old(View()).Stray() ==> View().Firm()
      ensures !hit && old(View().Firm()) ==> View().Firm()
      ensures View().Stray() ==> old(View()).Stray()
      ensures ok && data != [] ==> E.Told(event, old(Abs()).text, Abs().text)
    {
      hide State.Tidy, File.Shown, Growing, Fits, State.Abs, State.Honest, State.Firm, State.Stray, Solid, E.Told,
           InsertPaid, Charged, OneMore, Noted;
      hit, k, event := false, 0, E.Silent;
      SizeTrue(View());
      if data == [] {
        return true, E.Silent, false, 0;
      }
      if offset > size {
        return false, E.Silent, false, 0;
      }
      ghost var s := View();
      hit, k := InsertAt(offset, data);
      InsertParts(s, View(), offset, data, hit);
      ok, event := true, E.Changed(offset, size - |data| - offset);
    }

    /** Bytes at a place inside the file. */
    method InsertAt(offset: nat, data: seq<Byte>) returns (ghost hit: bool, ghost k: nat)
      requires Valid() && data != [] && offset <= size
      modifies Footprint()
      ensures Valid() && fresh(Footprint() - old(Footprint())) && dirty
      ensures InsertPaid(old(View()), View(), offset, data, hit) && (old(chain) != [] ==> Lands(old(View()), offset, k))
      ensures hit == (Growing(old(View()), offset, k) && Fits(old(View()), |data|))
    {
      hide State.Tidy, File.Shown, Landed, Growing, Fits, GrownInto, Lengthened, InsertPaid, State.Stray, Freed,
           Unused, Purge, CanPurge, Lands, State.Contents, State.Abs, Roomed;
      ghost var s := View();
      var piece, pieceOffset;
      piece, pieceOffset, k := Locate(offset);
      var purged, freed := RevisionPurge();
      if piece == null {
        EmptyLands(s, offset, k);
      } else {
        PurgeSame(s, piece, pieceOffset, offset, k, |data|);
        LandedPlace(s, piece, pieceOffset, offset, k);
      }
      PurgeContents(s);
      hit := PutIn(piece, pieceOffset, data, offset, k);
      InsertPays(s, View(), offset, data, hit);
      MarkDirty();
    }

    /** In place if the cached piece takes the bytes, with new pieces otherwise. */
    method PutIn(piece: Piece?, pieceOffset: nat, data: seq<Byte>, offset: nat, ghost k: nat) returns (ghost hit: bool)
      requires Valid() && data != [] && current == |marks| - 1
      requires piece == null ==> chain == [] && offset == 0
      requires piece != null ==> Landed(View(), piece, pieceOffset, offset, k)
      modifies Footprint()
      ensures Valid() && fresh(Footprint() - old(Footprint()))
      ensures if hit then GrownInto(old(View()), View(), offset, data)
        else Lengthened(old(View()), View(), offset, data)
      ensures Roomed(old(View()), View(), |data|)
      ensures hit == (piece != null && Growing(old(View()), offset, k) && Fits(old(View()), |data|))
    {
      hide State.Tidy, File.Shown, Landed, Growing, Fits, GrownInto, Lengthened;
      var cached := false;
      ghost var s := View();
      if piece != null {
        cached := TryCache(piece, pieceOffset, data, offset, k);
        if cached {
          GrownRoomed(s, View(), offset, data);
        }
      }
      hit := cached;
      if !cached {
        InsertNew(piece, pieceOffset, data, offset, k);
      }
    }

    // ---------------------------------------------------------------- deletion

    /** The piece and the position in it where the range from `offset` ends; a range that ends
        outside the file ends with the last piece. */
    method LocateEnd(offset: nat, len: nat, ghost i: nat) returns (piece: Piece, pieceOffset: nat, ghost k: nat)
      requires Valid() && 0 < len && offset < size && Lands(View(), offset, i)
      ensures Valid() && View() == old(View())
      ensures Reaches(View(), offset, len, i, piece, pieceOffset, k)
    {
      hide State.Tidy, Ring, Closed, Distinct, Spelled;
      Basics(View());
      TidyRest(View());
      var found;
      found, pieceOffset, k := PieceFind(offset + len);
      if found == null {
        found, pieceOffset, k := LastPiece();
      }
      piece := found;
      if k < i {
        OffsetNext(text, chain, k);
        OffsetMonotone(text, chain, k + 1, i);
      }
    }

    /** The slow path: the pieces of the range give way to what is left of the outer two.  The mended
        one forgets the cached piece first. */
    method DeleteRange(startPiece: Piece, so: nat, endPiece: Piece, eo: nat, offset: nat, len: nat, ghost i: nat,
                       ghost k: nat)
      requires Valid() && current == |marks| - 1 && 0 < len
      requires Landed(View(), startPiece, so, offset, i) && so < |text[startPiece]|
      requires Reaches(View(), offset, len, i, endPiece, eo, k)
      modifies Footprint()
      ensures Valid() && fresh(Footprint() - old(Footprint()))
      ensures Shortened(Dropped(old(View()), mended), View(), offset, len)
    {
      hide State.Tidy, Spelled, File.Shown, Landed, Reaches, Anchored, Ring, Closed, Distinct, Shortened, Known,
           Offset, Points, Text;
      DroppedTidy(View(), mended);
      DroppedReach(View(), mended, startPiece, so, offset, i, len, endPiece, eo, k);
      if mended {
        cache := null;
      }
      ghost var s := View();
      Basics(s);
      TidyRest(s);
      TidyAnchored(s);
      ReachesParts(s, offset, len, i, startPiece, so, endPiece, eo, k);
      ghost var news := DeleteFound(startPiece, so, endPiece, eo, offset, len, i, k, s);
    }

    method DeleteFound(startPiece: Piece, so: nat, endPiece: Piece, eo: nat, offset: nat, len: nat, ghost i: nat,
                       ghost k: nat, ghost s: State)
      returns (ghost news: set<Piece>)
      requires Shown() && Spelled(text, at, store) && View() == s && s.Tidy() && Anchored(s) && s.cur == |s.g.marks| - 1
      requires Points(s, startPiece, i, so) && Points(s, endPiece, k, eo) && i <= k && so < |s.g.text[startPiece]|
      requires Known(s.g.text, s.g.chain) && offset == Offset(s.g.text, s.g.chain, i) + so
      requires Offset(s.g.text, s.g.chain, k) + eo == Min(offset + len, |Text(s.g.text, s.g.chain)|)
      modifies this`pending, this`chain, this`draft, this`links, this`size, this`at, this`text
      modifies links.next.Keys`next, links.next.Keys`prev
      ensures Valid() && Shortened(s, View(), offset, len)
      ensures fresh(news) && links.next.Keys == old(links).next.Keys + news
    {
      hide State.Tidy, Spelled, File.Shown, File.Fields, Anchored, Shortened, CutMade, Spliced, Splice, EditKnown,
           Only, Known, Offset, Points, Text;
      PointsAt(s, endPiece, k, eo);
      ghost var left, p, right, q, m := CutRange(startPiece, so, endPiece, eo, offset, i, k, s);
      ghost var e := Splice(s, i, k + 1, Only(left, p) + Only(right, q));
      SplicedRest(s, blocks, store, at, m, text, e, offset, cache);
      FieldsShow(Spliced(s, blocks, store, at, m, text, e, offset, cache));
      CutPays(s, i, so, k, eo, left, p, right, q, m, text, at, offset, len);
      news := (if left then {p} else {}) + (if right then {q} else {});
      CutGrew(s, View(), i, so, k, eo, left, p, right, q, m);
    }

    /** `hedit_file_delete`.  `hit` tells that the bytes were cut out of the cached piece.  The program
        keeps a cached piece in use when it takes new pieces for what is left, and empties it when
        told to; a mended file does neither. */
    method Delete(offset: nat, len: nat) returns (ok: bool, event: E.Event, ghost hit: bool, ghost k: nat)
      requires Valid()
      modifies Footprint()
      ensures Valid() && fresh(Footprint() - old(Footprint()))
      ensures Abs() == old(Abs()).Delete(offset, len)
      ensures ok == (len == 0 || offset < |old(Abs()).text|)
      ensures !ok || len == 0 ==> event == E.Silent && View() == old(View()) && dirty == old(dirty)
      ensures ok && len != 0 ==> event == E.Changed(offset, |Abs().text| + len - offset) && dirty
      ensures ok && len != 0 ==>
        && DeletePaid(old(View()), View(), offset, len, hit, mended) && Lands(old(View()), offset, k)
        && revisions == old(revisions)[..old(current) + 1] && current == old(current)
        && if hit then old(pending) != [] && pending == Charged(old(pending), -(len as int))
          else OneMore(old(pending), pending) && Noted(View(), offset)
      ensures hit == (ok && len != 0 && Shrinking(old(View()), offset, len, k) && (mended ==> Leaves(old(View()), len)))
      ensures old(View().Honest()) ==> (View().Honest() <==> !(hit && old(View()).Stray()))
      ensures hit && Solid(old(View()).g) && !old(View()).Stray() ==>
        Solid(View().g) && (View().Firm() <==> LastBytes(View().g) != [])
      ensures hit && Solid(old(View()).g) && !old(View()).Stray() && Leaves(old(View()), len) ==> View().Firm()
      ensures !hit && old(View().Firm()) ==> View().Firm()
      ensures cache == if mended && ok && len != 0 && !hit then null else old(cache)
      ensures ok && len != 0 ==> E.Told(event, old(Abs()).text, Abs().text)
    {
      hide State.Tidy, File.Shown, Shrinking, State.Abs, State.Honest, State.Firm, State.Stray, Solid, E.Told,
           LastBytes, Landed, Purge, E.Editor.Delete, E.Editor.Coherent, Inserted, Deleted, Known, Offset, Text,
           DeletePaid, Charged, OneMore, Noted, Lands, Leaves;
      hit, k, event := false, 0, E.Silent;
      SizeTrue(View());
      Coherence(View());
      E.DeleteNothing(Abs(), offset, len);
      if len == 0 {
        return true, E.Silent, false, 0;
      }
      if offset > size {
        return false, E.Silent, false, 0;
      }
      ghost var s := View();
      ok, hit, k := DeleteFrom(offset, len);
      if !ok {
        return false, E.Silent, false, 0;
      }
      DeleteParts(s, View(), offset, len, hit, mended);
      ok, event := true, E.Changed(offset, size + len - offset);
    }

    /** Where the range starts, and the deletion if that is inside the file. */
    method DeleteFrom(offset: nat, len: nat) returns (ok: bool, ghost hit: bool, ghost k: nat)
      requires Valid() && 0 < len && offset <= size
      modifies Footprint()
      ensures Valid() && fresh(Footprint() - old(Footprint())) && ok == (offset < old(size))
      ensures !ok ==> View() == old(View()) && dirty == old(dirty)
      ensures ok ==> dirty && Lands(old(View()), offset, k) && DeletePaid(old(View()), View(), offset, len, hit, mended)
      ensures ok ==> hit == (Shrinking(old(View()), offset, len, k) && (mended ==> Leaves(old(View()), len)))
    {
      hide State.Tidy, File.Shown, Shrinking, Landed, DeletePaid, Lands, Leaves, Known, Offset, Text;
      hit := false;
      var startPiece, so;
      startPiece, so, k := Find(offset);
      ok := startPiece != null;
      if startPiece != null {
        LandedPlace(View(), startPiece, so, offset, k);
        hit := DeleteAt(startPiece, so, offset, len, k);
      }
    }

    /** A range that starts inside the file. */
    method DeleteAt(startPiece: Piece, so: nat, offset: nat, len: nat, ghost k: nat) returns (ghost hit: bool)
      requires Valid() && 0 < len && offset < size && Landed(View(), startPiece, so, offset, k)
        && so < |text[startPiece]|
      modifies Footprint()
      ensures Valid() && fresh(Footprint() - old(Footprint())) && dirty
      ensures DeletePaid(old(View()), View(), offset, len, hit, mended)
      ensures hit == (Shrinking(old(View()), offset, len, k) && (mended ==> Leaves(old(View()), len)))
    {
      hide State.Tidy, File.Shown, Landed, Reaches, Shrinking, ShrunkInto, Shortened, DeletePaid, AtCache, Shrunk,
           Points, Freed, Unused,
           Purge, CanPurge, Leaves, Dropped, Lands, State.Contents, State.Abs;
      ghost var s := View();
      SizeTrue(s);
      LandedPlace(s, startPiece, so, offset, k);
      ghost var j;
      var endPiece, eo;
      endPiece, eo, j := LocateEnd(offset, len, k);
      var purged, freed := RevisionPurge();
      PurgeReach(s, startPiece, so, offset, k, len, endPiece, eo, j);
      PurgeContents(s);
      hit := CutOut(startPiece, so, endPiece, eo, offset, len, k, j);
      DeletePays(s, View(), offset, len, hit, mended);
      MarkDirty();
    }

    /** In place if the cached piece holds the range, with new pieces otherwise. */
    method CutOut(startPiece: Piece, so: nat, endPiece: Piece, eo: nat, offset: nat, len: nat, ghost k: nat,
                  ghost j: nat)
      returns (ghost hit: bool)
      requires Valid() && current == |marks| - 1 && 0 < len
      requires Landed(View(), startPiece, so, offset, k) && so < |text[startPiece]|
      requires Reaches(View(), offset, len, k, endPiece, eo, j)
      modifies Footprint()
      ensures Valid() && fresh(Footprint() - old(Footprint()))
      ensures if hit then ShrunkInto(old(View()), View(), offset, len)
              else Shortened(Dropped(old(View()), mended), View(), offset, len)
      ensures hit == (Shrinking(old(View()), offset, len, k) && (mended ==> Leaves(old(View()), len)))
    {
      hide State.Tidy, File.Shown, Landed, Reaches, Shrinking, ShrunkInto, Shortened, Leaves, Dropped;
      var cached := DeleteCached(startPiece, so, offset, len, k);
      hit := cached;
      if !cached {
        DeleteRange(startPiece, so, endPiece, eo, offset, len, k, j);
      }
    }

    /** `piece_find` at `offset`. */
    method Find(offset: nat) returns (piece: Piece?, pieceOffset: nat, ghost k: nat)
      requires Valid() && offset <= size
      ensures Valid() && View() == old(View())
      ensures piece == null <==> offset == size
      ensures piece != null ==> Landed(View(), piece, pieceOffset, offset, k) && pieceOffset < |text[piece]|
    {
      hide State.Tidy, Ring, Closed, Distinct, Spelled;
      Basics(View());
      TidyRest(View());
      piece, pieceOffset, k := PieceFind(offset);
      if piece != null {
        OffsetNext(text, chain, k);
      }
    }

    method DeleteCached(piece: Piece, pieceOffset: nat, offset: nat, len: nat, ghost k: nat) returns (hit: bool)
      requires Valid() && 0 < len && Landed(View(), piece, pieceOffset, offset, k)
      modifies Footprint()
      ensures Valid() && Footprint() == old(Footprint())
      ensures hit == (Shrinking(old(View()), offset, len, k) && (mended ==> Leaves(old(View()), len)))
      ensures !hit ==> View() == old(View())
      ensures hit ==> ShrunkInto(old(View()), View(), offset, len)
    {
      hide State.Tidy, Cells, Shrunk, Spelled, File.Shown, ShrunkInto, Shrinking, Landed, Points, AtCache,
           State.CacheOk, Ring, Closed, Distinct;
      ghost var s := View();
      Basics(s);
      LandedParts(s, piece, pieceOffset, offset, k);
      LandedShrinks(s, piece, pieceOffset, offset, len, k);
      hit := CacheDelete(piece, pieceOffset, len, k);
      if hit {
        PointsFurther(s, piece, k, pieceOffset, len);
        ShrunkPays(s, piece, k, pieceOffset, len, offset);
      }
    }

    /** `hedit_file_replace`: a deletion and then an insertion at the same place.  `mid` is the state
        between the two; `cut` and `grown` tell which of them went into the cached piece. */
    method Replace(offset: nat, data: seq<Byte>)
      returns (ok: bool, first: E.Event, second: E.Event,
               ghost cut: bool, ghost i: nat, ghost mid: State, ghost grown: bool, ghost k: nat)
      requires Valid()
      modifies Footprint()
      ensures Valid() && fresh(Footprint() - old(Footprint()))
      ensures Abs() == old(Abs()).Replace(offset, data)
      ensures ok == (data == [] || offset < |old(Abs()).text|)
      ensures !ok || data == [] ==> first == second == E.Silent && View() == old(View()) && dirty == old(dirty)
      ensures ok && data != [] ==>
        && dirty && var d := Deleted(old(Abs()).text, offset, |data|);
        && first == E.Changed(offset, |d| + |data| - offset) && second == E.Changed(offset, |d| - offset)
      ensures ok && data != [] ==> var t := old(Abs()).text;
        E.Told(first, t, Deleted(t, offset, |data|)) && E.Told(second, Deleted(t, offset, |data|), Abs().text)
      ensures ok && data != [] ==>
        && DeletePaid(old(View()), mid, offset, |data|, cut, mended) && InsertPaid(mid, View(), offset, data, grown)
        && Lands(old(View()), offset, i) && (mid.g.chain != [] ==> Lands(mid, offset, k))
        && cut == (Shrinking(old(View()), offset, |data|, i) && (mended ==> Leaves(old(View()), |data|)))
        && grown == (Growing(mid, offset, k) && Fits(mid, |data|))
    {
      hide State.Tidy, File.Shown, Growing, Fits, Shrinking, Leaves, State.Honest, State.Firm, Solid, LastBytes,
           State.Abs, Lands, Deleted, Leaves, OneMore, Charged, State.Stray,
           E.Editor.Insert, E.Editor.Delete, E.Editor.Replace, DeletePaid, InsertPaid;
      second, cut, grown, i, k, mid := E.Silent, false, false, 0, 0, View();
      AbsReplace(View(), offset, data);
      ok, first, cut, i := Delete(offset, |data|);
      if ok {
        mid := View();
        ok, second, grown, k := Insert(offset, data);
      }
    }

    // ---------------------------------------------------------------- revisions

    /** `hedit_file_commit_revision` */
    method CommitRevision() returns (ok: bool)
      requires Valid()
      modifies this`cache, this`revisions, this`current, this`pending, this`marks, this`edits, this`draft
      ensures Valid() && Footprint() == old(Footprint()) && ok && dirty == old(dirty)
      ensures View() == Commit(old(View())) && Abs() == old(Abs()).Commit()
      ensures old(View().Honest() && View().Firm()) ==> View().Honest() && View().Firm()
      ensures cache == null
    {
      hide State.Tidy, Commit, Committed, State.Abs, State.Honest, State.Firm, Cells, File.Shown;
      CommitTidy(View());
      CommitShows(View());
      CommitFields(Commit(View()));
      ok := true;
    }

    method CommitFields(ghost t: State)
      requires Shown()
      requires t == View().(cache := null, revs := t.revs, cur := t.cur, pending := [],
                            g := View().g.(marks := t.g.marks, edits := t.g.edits, draft := t.g.draft))
      requires if pending == [] then t == View().(cache := null)
               else t.revs == revisions + [pending] && t.cur == |revisions|
      modifies this`cache, this`revisions, this`current, this`pending, this`marks, this`edits, this`draft
      ensures Shown() && View() == t
    {
      hide File.Shown;
      if pending != [] {
        revisions := revisions + [pending];
        current := |revisions| - 1;
        pending := [];
        marks, edits, draft := t.g.marks, t.g.edits, t.g.draft;
      }
      cache := null;
    }

    /** The loop of undo: `span_swap(replacement, original)` for each change, last to first. */
    method SwapBack(cs: Revision) returns (pos: nat, firstPos: int)
      requires Shown() && Closed(links) && CanSwapAll(links, cs)
      modifies links.next.Keys`next, links.next.Keys`prev, this`size, this`links
      ensures Shown() && links == Unswapped(old(links), cs) && links.next.Keys == old(links).next.Keys
      ensures size == old(size) - Growth(cs)
      ensures cs != [] ==> pos == cs[0].pos && firstPos == Min(old(size), Low(cs))
    {
      hide File.Shown, Closed, CanSwapAll, CanSwap, SwapLinks, Unswapped, Growth, Low, Min;
      var i := |cs|;
      firstPos, pos := size, 0;
      assert cs[..|cs|] == cs;
      while i > 0
        invariant 0 <= i <= |cs| && Shown() && Closed(links) && links.next.Keys == old(links).next.Keys
        invariant CanSwapAll(links, cs[..i]) && Unswapped(links, cs[..i]) == Unswapped(old(links), cs)
        invariant size == old(size) - Growth(cs) + Growth(cs[..i])
        invariant i == |cs| ==> firstPos == old(size)
        invariant i < |cs| ==> pos == cs[i].pos
        invariant if i == 0 then cs != [] ==> firstPos == Min(old(size), Low(cs))
                  else Min(firstPos, Low(cs[..i])) == Min(old(size), Low(cs))
      {
        i := i - 1;
        UnswapStep(links, cs, i);
        LeastBack(cs, i, firstPos);
        SpanSwap(cs[i].replacement, cs[i].original);
        pos := cs[i].pos;
        firstPos := Min(firstPos, cs[i].pos);
      }
      NothingLeft(links, cs[..0]);
    }

    /** The loop of redo: `span_swap(original, replacement)` for each change, first to last. */
    method SwapForth(cs: Revision) returns (pos: nat, firstPos: int)
      requires Shown() && Closed(links) && CanSwapAll(links, cs)
      modifies links.next.Keys`next, links.next.Keys`prev, this`size, this`links
      ensures Shown() && links == Swapped(old(links), cs) && links.next.Keys == old(links).next.Keys
      ensures size == old(size) + Growth(cs)
      ensures cs != [] ==> pos == cs[|cs| - 1].pos && firstPos == Min(old(size), Low(cs))
    {
      hide File.Shown, Closed, CanSwapAll, CanSwap, SwapLinks, Swapped, Growth, Low, Min, ToDo, LeastTo;
      var i := 0;
      firstPos, pos := size, 0;
      AllToDo(cs);
      LeastAll(size, cs);
      while i < |cs|
        invariant 0 <= i <= |cs| && Shown() && Closed(links) && links.next.Keys == old(links).next.Keys
        invariant CanSwapAll(links, ToDo(cs, i)) && Swapped(links, ToDo(cs, i)) == Swapped(old(links), cs)
        invariant size == old(size) + Growth(cs) - Growth(ToDo(cs, i))
        invariant i > 0 ==> pos == cs[i - 1].pos
        invariant firstPos == LeastTo(old(size), cs, i)
      {
        ApplyOne(cs, i);
        LeastStep(old(size), cs, i);
        pos := cs[i].pos;
        firstPos := Min(firstPos, cs[i].pos);
        i := i + 1;
      }
      NothingLeft(links, ToDo(cs, i));
    }

    method ApplyOne(cs: Revision, i: nat)
      requires Shown() && Closed(links) && i < |cs| && CanSwapAll(links, ToDo(cs, i))
      modifies links.next.Keys`next, links.next.Keys`prev, this`size, this`links
      ensures Shown() && Closed(links) && links.next.Keys == old(links).next.Keys
      ensures CanSwapAll(links, ToDo(cs, i + 1)) && Swapped(links, ToDo(cs, i + 1)) == Swapped(old(links), ToDo(cs, i))
      ensures size - Growth(ToDo(cs, i)) == old(size) - Growth(ToDo(cs, i + 1))
    {
      hide File.Shown, Closed, CanSwapAll, CanSwap, SwapLinks, Swapped, Growth, ToDo;
      SwapStep(links, cs, i);
      SpanSwap(cs[i].original, cs[i].replacement);
    }

    method UndoRevision() returns (pos: nat, firstPos: int)
      requires Valid() && pending == [] && 0 < current && current < |revisions| && NullSafe(revisions[current])
      modifies Footprint()
      ensures Shown() && UndoneTo(old(View()), View()) && Footprint() == old(Footprint()) && dirty == old(dirty)
      ensures cache == old(cache) && current == old(current) - 1 < |revisions| && revisions == old(revisions)
      ensures pos == revisions[old(current)][0].pos
      ensures firstPos == Min(old(size), Low(revisions[old(current)]))
    {
      hide State.Tidy, File.Shown, NullSafe, Unswapped, Swapped, Growth, Low, CanSwapAll, Closed, Min;
      ghost var s := View();
      RevisionSwaps(s, current);
      Revisions(s);
      pos, firstPos := SwapBack(revisions[current]);
      SetCurrent(current - 1);
    }

    method SetCurrent(to: nat)
      requires Shown() && to < |marks|
      modifies `current, `chain
      ensures Shown() && View() == old(View()).(cur := to, g := old(View()).g.(chain := marks[to]))
    {
      hide File.Shown;
      current := to;
      chain := marks[to];
    }

    /** `hedit_file_undo`.  When the lengths of the revision are those `span_swap` goes by, it takes
        the editor one revision back; the bytes before the published offset stay.  `wild` tells
        that the loop comes to a span with a length but without pieces: there the program follows a
        null pointer, and what it has done until then is of no interest. */
    method Undo() returns (ok: bool, pos: nat, event: E.Event, wild: bool)
      requires Valid()
      modifies Footprint()
      ensures Shown() && Footprint() == old(Footprint()) && dirty == old(dirty)
      ensures wild <==> !NullSafe(UndoOf(old(View())))
      ensures ok == (old(Abs()).Commit().cur > 0 && !wild)
      ensures !ok ==> Valid() && View() == Commit(old(View())) && event == E.Silent
      ensures ok ==> UndoneTo(Commit(old(View())), View())
      ensures ok ==>
        var s := Commit(old(View()));
        0 < s.cur < |s.revs| && UndoReport(s.revs[s.cur], s.size, pos, event)
      ensures UndoesAll(UndoOf(old(View()))) ==>
        && !wild && Valid() && Abs() == old(Abs()).Undo() && (ok ==> E.Told(event, old(Abs()).text, Abs().text))
      ensures old(View().Honest() && View().Firm()) ==>
        UndoesAll(UndoOf(old(View()))) && View().Honest() && View().Firm()
      ensures cache == null
    {
      hide State.Tidy, File.Shown, State.Abs, State.Honest, State.Firm, E.Told, NullSafe, Commit, E.Editor.Undo,
           E.Editor.Commit, UndoneTo, Low, UndoOf, UndoesAll;
      pos, event, wild := 0, E.Silent, false;
      ghost var v := View();
      BeforeMove(v);
      var committed := CommitRevision();
      ghost var s := View();
      if current == 0 {
        return false, 0, E.Silent, false;
      }
      if !NullSafe(revisions[current]) {
        return false, 0, E.Silent, true;
      }
      var previous, firstPos := size, 0;
      pos, firstPos := UndoRevision();
      ok, event := true, E.Changed(firstPos, previous - firstPos);
      if UndoesAll(UndoOf(v)) {
        UndoArrives(s, View(), event);
      }
    }

    method RedoRevision() returns (pos: nat, firstPos: int)
      requires Valid() && pending == [] && current + 1 < |revisions| && current < |revisions|
        && NullSafe(revisions[current + 1])
      modifies Footprint()
      ensures Shown() && RedoneTo(old(View()), View()) && Footprint() == old(Footprint()) && dirty == old(dirty)
      ensures cache == old(cache) && current == old(current) + 1 < |revisions| && revisions == old(revisions)
      ensures pos == revisions[current][|revisions[current]| - 1].pos
      ensures firstPos == Min(old(size), Low(revisions[current]))
    {
      hide State.Tidy, File.Shown, NullSafe, Unswapped, Swapped, Growth, Low, CanSwapAll, Closed, Min;
      ghost var s := View();
      RevisionSwaps(s, current + 1);
      Revisions(s);
      pos, firstPos := SwapForth(revisions[current + 1]);
      SetCurrent(current + 1);
    }

    /** `hedit_file_redo`: the revision after the current one again. */
    method Redo() returns (ok: bool, pos: nat, event: E.Event, wild: bool)
      requires Valid()
      modifies Footprint()
      ensures Shown() && Footprint() == old(Footprint()) && dirty == old(dirty)
      ensures wild <==> !NullSafe(RedoOf(old(View())))
      ensures ok == (old(Abs()).Commit().cur + 1 < |old(Abs()).Commit().snaps| && !wild)
      ensures !ok ==> Valid() && View() == Commit(old(View())) && event == E.Silent
      ensures ok ==> RedoneTo(Commit(old(View())), View())
      ensures ok ==>
        var s := Commit(old(View()));
        s.cur + 1 < |s.revs| && RedoReport(s.revs[s.cur + 1], s.size, pos, event)
      ensures RedoesAll(RedoOf(old(View()))) ==>
        && !wild && Valid() && Abs() == old(Abs()).Redo() && (ok ==> E.Told(event, old(Abs()).text, Abs().text))
      ensures old(View().Honest() && View().Firm()) ==>
        RedoesAll(RedoOf(old(View()))) && View().Honest() && View().Firm()
      ensures cache == null
    {
      hide State.Tidy, File.Shown, State.Abs, State.Honest, State.Firm, E.Told, NullSafe, Commit, E.Editor.Redo,
           E.Editor.Commit, RedoneTo, Low, RedoOf, RedoesAll;
      pos, event, wild := 0, E.Silent, false;
      ghost var v := View();
      BeforeMove(v);
      var committed := CommitRevision();
      ghost var s := View();
      if current == |revisions| - 1 {
        return false, 0, E.Silent, false;
      }
      if !NullSafe(revisions[current + 1]) {
        return false, 0, E.Silent, true;
      }
      var previous, firstPos := size, 0;
      pos, firstPos := RedoRevision();
      ok, event := true, E.Changed(firstPos, previous - firstPos);
      if RedoesAll(RedoOf(v)) {
        RedoArrives(s, View(), event);
      }
    }
  }

  lemma EmptyCells(head: Piece)
    ensures Cells({head}, {}) == {head}
    ensures var m: map<Piece, Piece> := map[head := head]; m.Keys == {head}
    ensures var none: Store := map[]; none.Keys == {}
  {
  }

  lemma CellsOf(head: Piece, p: Piece, b: Block)
    ensures Cells({head, p}, {b}) == {head, p, b, b.data}
  {
  }

  ghost function Cells(linked: set<Piece>, stored: set<Block>): set<object> {
    linked + stored + (set b | b in stored :: b.data)
  }

  lemma SwapNothing(m: Links, o: Span, r: Span)
    requires o.len == 0 && r.len == 0
    ensures SwapLinks(m, o, r) == m
  {
  }

  /** The cells `span_swap` writes belong to known pieces. */
  lemma SwapStays(m: Links, o: Span, r: Span)
    requires Closed(m) && CanSwap(m, o, r)
    ensures SwapLinks(m, o, r).next.Keys == m.next.Keys && SwapLinks(m, o, r).prev.Keys == m.prev.Keys
    ensures o.len != 0 ==> m.prev[o.start] in m.next.Keys && m.next[o.end] in m.next.Keys
    ensures r.len != 0 ==> m.prev[r.start] in m.next.Keys && m.next[r.end] in m.next.Keys
  {
    if o.len != 0 {
      assert Leashed(m, o.start) && Leashed(m, o.end);
    }
    if r.len != 0 {
      assert Leashed(m, r.start) && Leashed(m, r.end);
    }
  }
}
