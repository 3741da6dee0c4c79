/** The objects behind a file and the values that mirror them. */
module Heap {
  import opened Bytes
  import opened Links
  import opened Chain

  /** Where the bytes of a piece are: `piece->data` and `piece->size`. */
  datatype Slice = Slice(block: Block?, off: nat, size: nat)

  type Slices = map<Piece, Slice>
  type Store = map<Block, seq<Byte>>

  ghost predicate NextShown(n: map<Piece, Piece>)
    reads n.Keys`next
  {
    forall p {:trigger n[p]} :: p in n ==> p.next == n[p]
  }

  ghost predicate PrevShown(n: map<Piece, Piece>)
    reads n.Keys`prev
  {
    forall p {:trigger n[p]} :: p in n ==> p.prev == n[p]
  }

  ghost predicate SlicesShown(at: Slices)
    reads at.Keys`block, at.Keys`off, at.Keys`size
  {
    forall p {:trigger at[p]} :: p in at ==> at[p] == Slice(p.block, p.off, p.size)
  }

  /** The first `len` bytes of every block are the recorded ones. */
  ghost predicate BlocksShown(st: Store)
    reads st.Keys, set b | b in st.Keys :: b.data
  {
    forall b {:trigger st[b]} :: b in st ==> b.len <= b.data.Length && b.data[..b.len] == st[b]
  }

  /** No two blocks share their memory. */
  ghost predicate MemoryApart(st: Store) {
    forall b, c :: b in st && c in st && b != c ==> b.data != c.data
  }

  // ------------------------------------------------------------------ one more piece

  ghost function WithPiece(m: Links, p: Piece, prev: Piece, next: Piece): Links {
    Links(m.next[p := next], m.prev[p := prev])
  }

  ghost function WithNext(m: Links, p: Piece, q: Piece): Links { m.(next := m.next[p := q]) }

  ghost function WithPrev(m: Links, p: Piece, q: Piece): Links { m.(prev := m.prev[p := q]) }

  /** The bytes of the pieces, and where they are. */
  datatype Body = Body(text: Texts, at: Slices)

  ghost function WithBytes(b: Body, p: Piece, x: seq<Byte>, s: Slice): Body {
    Body(b.text[p := x], b.at[p := s])
  }

  // ------------------------------------------------------------------ bytes of pieces

  /** `text` is what the slices cut out of the blocks. */
  ghost predicate Spelled(text: Texts, at: Slices, st: Store) {
    && text.Keys == at.Keys
    && forall p {:trigger text[p]} {:trigger at[p]} :: p in text ==> Cuts(at[p], st, text[p])
  }

  ghost predicate Cuts(s: Slice, st: Store, x: seq<Byte>) {
    && s.block != null && s.block in st && s.off + s.size <= |st[s.block]|
    && st[s.block][s.off..s.off + s.size] == x
  }

  /** `c` ends where the used part of block `b` ends, and no other piece reaches into it. */
  ghost predicate Owns(at: Slices, st: Store, b: Block, c: Piece) {
    && c in at && b in st && at[c].block == b && at[c].off + at[c].size == |st[b]|
    && forall p {:trigger at[p]} :: p in at && p != c && at[p].block == b ==> at[p].off + at[p].size <= at[c].off
  }

  /** New bytes at the end of a block disturb no piece. */
  lemma SpelledAppend(text: Texts, at: Slices, st: Store, b: Block, x: seq<Byte>)
    requires Spelled(text, at, st) && b in st
    ensures Spelled(text, at, st[b := st[b] + x])
  {
    var u := st[b := st[b] + x];
    forall p | p in text ensures Cuts(at[p], u, text[p]) {
      assert Cuts(at[p], st, text[p]);
    }
  }

  lemma SpelledBlock(text: Texts, at: Slices, st: Store, b: Block, x: seq<Byte>)
    requires Spelled(text, at, st) && b !in st
    ensures Spelled(text, at, st[b := x])
  {
    forall p | p in text ensures Cuts(at[p], st[b := x], text[p]) {
      assert Cuts(at[p], st, text[p]);
    }
  }

  lemma SpelledPiece(text: Texts, at: Slices, st: Store, p: Piece, s: Slice, x: seq<Byte>)
    requires Spelled(text, at, st) && p !in text && Cuts(s, st, x)
    ensures Spelled(text[p := x], at[p := s], st)
  {
  }

  lemma CutElsewhere(text: Texts, at: Slices, st: Store, b: Block, c: Piece, p: Piece, y: seq<Byte>)
    requires Spelled(text, at, st) && Owns(at, st, b, c) && p in text && p != c
    requires at[c].off <= |y| && y[..at[c].off] == st[b][..at[c].off]
    ensures Cuts(at[p], st[b := y], text[p])
  {
    assert Cuts(at[p], st, text[p]);
    CutKept(at[p], st, text[p], b, at[c].off, y);
  }

  /** The piece that owns the end of its block gets `n` other bytes there. */
  lemma OwnerChanged(text: Texts, at: Slices, st: Store, b: Block, c: Piece, n: nat, x: seq<Byte>, y: seq<Byte>)
    requires Spelled(text, at, st) && Owns(at, st, b, c) && c in text
    requires at[c].off <= |y| && y[..at[c].off] == st[b][..at[c].off]
    requires at[c].off + n == |y| && y[at[c].off..at[c].off + n] == x
    ensures var w, u := at[c := at[c].(size := n)], st[b := y]; Spelled(text[c := x], w, u) && Owns(w, u, b, c)
  {
    var w, u := at[c := at[c].(size := n)], st[b := y];
    forall p | p in text && p != c ensures Cuts(at[p], u, text[p]) {
      CutElsewhere(text, at, st, b, c, p, y);
    }
    assert Cuts(w[c], u, x);
  }

  /** Bytes inserted into the piece that owns the end of its block show up in that piece only. */
  lemma SpelledInsert(text: Texts, at: Slices, st: Store, b: Block, c: Piece, off: nat, x: seq<Byte>)
    requires Spelled(text, at, st) && Owns(at, st, b, c) && off <= at[c].size
    ensures off <= |text[c]| && at[c].off + off <= |st[b]|
    ensures var u := st[b := Inserted(st[b], at[c].off + off, x)];
      var w := at[c := at[c].(size := at[c].size + |x|)];
      Spelled(text[c := Inserted(text[c], off, x)], w, u) && Owns(w, u, b, c)
  {
    hide Inserted;
    assert Cuts(at[c], st, text[c]);
    CutInserted(st[b], at[c].off, at[c].size, off, x);
    OwnerChanged(text, at, st, b, c, at[c].size + |x|, Inserted(text[c], off, x), Inserted(st[b], at[c].off + off, x));
  }

  lemma CutInserted(s: seq<Byte>, o: nat, n: nat, off: nat, x: seq<Byte>)
    requires o + n == |s| && off <= n
    ensures Inserted(s, o + off, x)[o..o + n + |x|] == Inserted(s[o..o + n], off, x)
    ensures |Inserted(s, o + off, x)| == |s| + |x| && Inserted(s, o + off, x)[..o] == s[..o]
  {
  }

  lemma SpelledDelete(text: Texts, at: Slices, st: Store, b: Block, c: Piece, off: nat, len: nat)
    requires Spelled(text, at, st) && Owns(at, st, b, c) && off + len <= at[c].size
    ensures off + len <= |text[c]| && at[c].off + off + len <= |st[b]|
    ensures var u := st[b := Deleted(st[b], at[c].off + off, len)];
      var w := at[c := at[c].(size := at[c].size - len)];
      Spelled(text[c := Deleted(text[c], off, len)], w, u) && Owns(w, u, b, c)
  {
    hide Deleted;
    assert Cuts(at[c], st, text[c]);
    CutDeleted(st[b], at[c].off, at[c].size, off, len);
    OwnerChanged(text, at, st, b, c, at[c].size - len, Deleted(text[c], off, len),
      Deleted(st[b], at[c].off + off, len));
  }

  /** A piece in front of the place where its block changes keeps its bytes. */
  lemma CutKept(s: Slice, st: Store, x: seq<Byte>, b: Block, o: nat, y: seq<Byte>)
    requires Cuts(s, st, x) && b in st && (s.block == b ==> s.off + s.size <= o)
    requires o <= |st[b]| && o <= |y| && y[..o] == st[b][..o]
    ensures Cuts(s, st[b := y], x)
  {
    if s.block == b {
      assert y[s.off..s.off + s.size] == y[..o][s.off..s.off + s.size];
      assert st[b][s.off..s.off + s.size] == st[b][..o][s.off..s.off + s.size];
    }
  }

  lemma CutDeleted(s: seq<Byte>, o: nat, n: nat, off: nat, len: nat)
    requires o + n == |s| && off + len <= n
    ensures Deleted(s, o + off, len)[o..o + n - len] == Deleted(s[o..o + n], off, len)
    ensures |Deleted(s, o + off, len)| == |s| - len && Deleted(s, o + off, len)[..o] == s[..o]
  {
  }
}
