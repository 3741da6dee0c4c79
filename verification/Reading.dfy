/** Reading a file: single bytes, the chunk iterator, and the visit that saving uses. */
module Reading {
  import opened Bytes
  import opened Links
  import opened Chain
  import opened Heap
  import opened Trace
  import opened State
  import opened Recording
  import opened Outcome
  import opened File

  /** `hedit_file_read_byte` */
  method ReadByte(f: File, offset: nat) returns (ok: bool, out: Byte)
    requires f.Valid()
    ensures f.Valid() && f.View() == old(f.View())
    ensures ok == (offset < |f.Abs().text|)
    ensures ok ==> out == f.Abs().text[offset]
  {
    hide State.Tidy, Ring, Closed, Distinct, Spelled, File.Shown, Offset, Text;
    ghost var s := f.View();
    Basics(s);
    TidyRest(s);
    SizeTrue(s);
    ghost var k;
    var p, at;
    p, at, k := f.PieceFind(offset);
    if p == null {
      return false, 0;
    }
    ChunkPlace(s, k, at, 1);
    f.BytesAre(p);
    ok, out := true, p.block.data[p.off + at];
    assert out == p.block.data[p.off..p.off + p.size][at];
  }

  /** A place before the end of the text has a piece after it. */
  lemma StillInside(s: State, k: nat, off: nat, end: int)
    requires Known(s.g.text, s.g.chain) && k <= |s.g.chain| && off < end <= |Text(s.g.text, s.g.chain)|
    requires off == Min(end, Offset(s.g.text, s.g.chain, k))
    ensures k < |s.g.chain| && off == Offset(s.g.text, s.g.chain, k)
  {
    OffsetEnd(s.g.text, s.g.chain);
  }

  /** The bytes of a piece from `from` on, at most `limit` of them. */
  method TakeChunk(f: File, p: Piece, from: nat, limit: nat) returns (data: seq<Byte>)
    requires f.Shown() && Spelled(f.text, f.at, f.store) && p in f.text && from <= |f.text[p]|
    ensures f.Shown() && f.View() == old(f.View())
    ensures data == f.text[p][from..from + Min(|f.text[p]| - from, limit)]
  {
    f.BytesAre(p);
    var n := Min(p.size - from, limit);
    ghost var all := p.block.data[p.off..p.off + p.size];
    data := p.block.data[p.off + from..p.off + from + n];
    assert data == all[from..from + n];
  }

  /** Where the bytes of a piece are in the text. */
  lemma ChunkPlace(s: State, k: nat, from: nat, limit: nat)
    requires Known(s.g.text, s.g.chain) && k < |s.g.chain| && from <= |s.g.text[s.g.chain[k]]|
    ensures var x := s.g.text[s.g.chain[k]]; var n := Min(|x| - from, limit);
      var o := Offset(s.g.text, s.g.chain, k) + from;
      && o + n <= |Text(s.g.text, s.g.chain)| && Text(s.g.text, s.g.chain)[o..o + n] == x[from..from + n]
      && o + n == Min(o + limit, Offset(s.g.text, s.g.chain, k + 1))
  {
    OffsetNext(s.g.text, s.g.chain, k);
    var x := s.g.text[s.g.chain[k]];
    TextAround(s.g.text, s.g.chain, k);
  }

  // ------------------------------------------------------------------ the iterator

  class FileIterator {
    const file: File
    var currentPiece: Piece?
    var currentOff: nat
    const maxOff: int
    /** How many pieces of the chain are used up. */
    ghost var used: nat

    /** The iterator stands at `currentOff`, where the pieces used so far end or the range does. */
    ghost predicate Fits(s: State)
      reads this
    {
      && maxOff <= |s.Contents()| && used <= |s.g.chain| && Known(s.g.text, s.g.chain)
      && (currentPiece == null ==> used == 0)
      && (currentPiece != null ==>
            && 0 < used && currentPiece == s.g.chain[used - 1]
            && currentOff == Min(maxOff, Offset(s.g.text, s.g.chain, used)))
    }

    /** `hedit_file_iter` */
    constructor (file: File, start: nat, len: nat)
      requires file.Valid()
      ensures file.Valid() && file.View() == old(file.View())
      ensures this.file == file && Fits(file.View()) && currentOff == start && currentPiece == null
      ensures maxOff == Min(start + len, |file.Abs().text|)
    {
      hide State.Tidy;
      SizeTrue(file.View());
      Basics(file.View());
      this.file := file;
      currentPiece, currentOff, used := null, start, 0;
      maxOff := Min(start + len, file.size);
    }

    /** `hedit_file_iter_next`: the next chunk; it is empty for a piece without bytes. */
    method Next() returns (ok: bool, data: seq<Byte>)
      requires file.Valid() && Fits(file.View())
      modifies this
      ensures file.Valid() && file.View() == old(file.View()) && Fits(file.View())
      ensures ok == (old(currentOff) < maxOff)
      ensures !ok ==> data == [] && currentOff == old(currentOff)
      ensures ok ==> old(used) < used && currentOff == old(currentOff) + |data| <= maxOff
      ensures ok ==> data == file.Abs().text[old(currentOff)..currentOff]
    {
      hide State.Tidy, Ring, Closed, Distinct, Spelled, File.Shown, Offset, Text, Known;
      ghost var s := file.View();
      Basics(s);
      TidyRest(s);
      SizeTrue(s);
      if currentOff >= maxOff {
        return false, [];
      }
      ok := true;
      data := Take(s);
      currentOff := currentOff + |data|;
    }

    /** The next piece's bytes, as far as the range goes. */
    method Take(ghost s: State) returns (data: seq<Byte>)
      requires file.Shown() && s == file.View() && Fits(s) && currentOff < maxOff
      requires Ring(s.g.links, s.head, s.g.chain) && Spelled(s.g.text, s.at, s.store)
      modifies this`currentPiece, this`used
      ensures file.Shown() && file.View() == s && old(used) < used <= |s.g.chain| && currentPiece == s.g.chain[used - 1]
      ensures Known(s.g.text, s.g.chain) && var t, end := Text(s.g.text, s.g.chain), currentOff + |data|;
        end <= |t| && data == t[currentOff..end] && end == Min(maxOff, Offset(s.g.text, s.g.chain, used))
    {
      hide Ring, Closed, Distinct, Spelled, File.Shown, Offset, Text;
      var p, from := Step(s);
      ChunkPlace(s, used - 1, from, maxOff - currentOff);
      data := TakeChunk(file, p, from, maxOff - currentOff);
    }

    /** The piece of the next chunk, and where the chunk starts in it. */
    method Step(ghost s: State) returns (p: Piece, from: nat)
      requires file.Shown() && s == file.View() && Fits(s) && currentOff < maxOff
      requires Ring(s.g.links, s.head, s.g.chain) && Spelled(s.g.text, s.at, s.store)
      modifies this`currentPiece, this`used
      ensures file.Shown() && file.View() == s && old(used) < used <= |s.g.chain|
        && currentPiece == p == s.g.chain[used - 1]
      ensures p in s.g.text && from <= |s.g.text[p]| && Offset(s.g.text, s.g.chain, used - 1) + from == currentOff
    {
      hide Ring, Spelled, BlocksShown, MemoryApart, SlicesShown;
      if currentPiece == null {
        ghost var k;
        p, from, k := FirstPiece(currentOff);
        used := k + 1;
      } else {
        StillInside(s, used, currentOff, maxOff);
        p := NextPiece();
        from := 0;
        used := used + 1;
      }
      currentPiece := p;
    }

    /** The loop of the first call: the piece with the byte at `start`. */
    method FirstPiece(start: nat) returns (piece: Piece, from: nat, ghost k: nat)
      requires file.Shown() && Ring(file.links, file.head, file.chain) && Known(file.text, file.chain)
      requires Spelled(file.text, file.at, file.store) && start < |Text(file.text, file.chain)|
      ensures k < |file.chain| && piece == file.chain[k] && piece in file.text && from < |file.text[piece]|
      ensures Offset(file.text, file.chain, k) + from == start
    {
      hide Ring, BlocksShown, MemoryApart, Spelled;
      k := 0;
      var off := 0;
      ghost var r := [file.head] + file.chain + [file.head];
      RingStep(file.links, file.head, file.chain, 0);
      OffsetEnd(file.text, file.chain);
      piece := file.head.next;
      while true
        invariant 0 <= k < |file.chain| && piece == file.chain[k] && off == Offset(file.text, file.chain, k) <= start
        decreases |file.chain| - k
      {
        file.SizeIs(piece);
        OffsetNext(file.text, file.chain, k);
        if off + piece.size > start {
          from := start - off;
          return;
        }
        off := off + piece.size;
        k := k + 1;
        RingStep(file.links, file.head, file.chain, k);
        piece := piece.next;
      }
    }

    /** `list_next` of the current piece. */
    method NextPiece() returns (piece: Piece)
      requires file.Shown() && Ring(file.links, file.head, file.chain)
      requires 0 < used < |file.chain| && currentPiece == file.chain[used - 1]
      ensures piece == file.chain[used]
    {
      RingStep(file.links, file.head, file.chain, used);
      piece := currentPiece.next;
    }
  }

  /** Taking chunks until there are none: they spell the range, and the chunks run out. */
  method ReadAll(f: File, start: nat, len: nat) returns (data: seq<Byte>)
    requires f.Valid()
    ensures data == Part(f.Abs().text, start, start + len)
  {
    hide State.Tidy, File.Shown, Part, Offset;
    ghost var s := f.View();
    SizeTrue(s);
    ReadEnds(s.Abs().text, start, len);
    var it := new FileIterator(f, start, len);
    var more, chunk := true, [];
    data := [];
    while more
      invariant f.Valid() && f.View() == s && it.file == f && it.Fits(s)
      invariant it.maxOff == Min(start + len, |s.Contents()|)
      invariant start <= it.currentOff && (it.currentOff <= it.maxOff || it.currentOff == start)
      invariant data == Part(s.Abs().text, start, it.currentOff)
      invariant !more ==> it.currentOff >= it.maxOff
      decreases more, |s.g.chain| - it.used
    {
      ghost var was := it.currentOff;
      more, chunk := it.Next();
      ReadOn(s.Abs().text, start, was, it.currentOff, data, chunk);
      data := data + chunk;
    }
  }

  lemma ReadEnds(x: seq<Byte>, start: nat, len: nat)
    ensures Part(x, start, start) == []
    ensures start <= Min(start + len, |x|) ==> Part(x, start, Min(start + len, |x|)) == Part(x, start, start + len)
    ensures Min(start + len, |x|) <= start ==> Part(x, start, start + len) == []
  {
  }

  lemma ReadOn(x: seq<Byte>, start: nat, from: nat, to: nat, data: seq<Byte>, chunk: seq<Byte>)
    requires start <= from <= to && data == Part(x, start, from)
    requires (chunk == [] && to == from) || (to <= |x| && chunk == x[from..to])
    ensures data + chunk == Part(x, start, to)
  {
  }

  // ------------------------------------------------------------------ the visit

  datatype Chunk = Chunk(offset: nat, data: seq<Byte>)

  ghost function Joined(cs: seq<Chunk>): seq<Byte> {
    if cs == [] then [] else Joined(cs[..|cs| - 1]) + cs[|cs| - 1].data
  }

  /** Where the last piece starts. */
  ghost function LastStart(s: State): nat
    requires Known(s.g.text, s.g.chain)
  {
    if s.g.chain == [] then 0 else Offset(s.g.text, s.g.chain, |s.g.chain| - 1)
  }

  lemma StartsLate(s: State, k: nat, end: nat)
    requires Known(s.g.text, s.g.chain) && k < |s.g.chain| && end < Offset(s.g.text, s.g.chain, k)
    ensures end < LastStart(s)
  {
    OffsetMonotone(s.g.text, s.g.chain, k, |s.g.chain| - 1);
  }

  /** Each chunk comes with the offset of its first byte. */
  ghost predicate InPlace(cs: seq<Chunk>, start: nat) {
    forall i :: 0 <= i < |cs| ==> cs[i].offset == start + |Joined(cs[..i])|
  }

  lemma InPlaceSnoc(cs: seq<Chunk>, c: Chunk, start: nat)
    requires InPlace(cs, start) && c.offset == start + |Joined(cs)|
    ensures InPlace(cs + [c], start)
  {
    hide Joined;
    var ds := cs + [c];
    forall i | 0 <= i < |ds| ensures ds[i].offset == start + |Joined(ds[..i])| {
      assert ds[..i] == if i < |cs| then cs[..i] else cs;
    }
  }

  /** The chunks so far spell the range as far as the first `k` pieces reach. */
  ghost predicate Visited(s: State, start: nat, end: nat, k: nat, cs: seq<Chunk>)
    requires Known(s.g.text, s.g.chain) && k <= |s.g.chain|
  {
    && Joined(cs) == Part(Text(s.g.text, s.g.chain), start, Min(Offset(s.g.text, s.g.chain, k), end))
    && InPlace(cs, start)
  }

  lemma PartGrows(t: seq<Byte>, start: nat, a: nat, b: nat)
    requires a <= b <= |t|
    ensures start <= a ==> Part(t, start, b) == Part(t, start, a) + t[a..b]
    ensures a < start <= b ==> Part(t, start, b) == t[start..b] && Part(t, start, a) == []
    ensures b < start ==> Part(t, start, b) == Part(t, start, a) == []
  {
  }

  lemma JoinedSnoc(cs: seq<Chunk>, c: Chunk)
    ensures Joined(cs + [c]) == Joined(cs) + c.data
  {
    assert (cs + [c])[..|cs|] == cs;
  }

  /** One more chunk takes the joined bytes to the end of its piece, or of the range. */
  lemma VisitStep(s: State, k: nat, start: nat, end: nat, from: nat, data: seq<Byte>, cs: seq<Chunk>)
    requires Known(s.g.text, s.g.chain) && k < |s.g.chain| && start < end
    requires var x, o := s.g.text[s.g.chain[k]], Offset(s.g.text, s.g.chain, k);
      && from == (if o <= start then start - o else 0) && from <= |x| && o <= end
      && data == x[from..from + Min(|x| - from, end - o - from)]
    requires Visited(s, start, end, k, cs)
    ensures Visited(s, start, end, k + 1, cs + [Chunk(Offset(s.g.text, s.g.chain, k) + from, data)])
  {
    hide Offset, Text, Joined, Part, InPlace;
    var o := Offset(s.g.text, s.g.chain, k);
    OffsetNext(s.g.text, s.g.chain, k);
    ChunkPlace(s, k, from, end - o - from);
    StepPart(Text(s.g.text, s.g.chain), start, end, o, Offset(s.g.text, s.g.chain, k + 1), from, data);
    JoinedSnoc(cs, Chunk(o + from, data));
    PartLength(Text(s.g.text, s.g.chain), start, Min(o, end));
    InPlaceSnoc(cs, Chunk(o + from, data), start);
  }

  lemma PartLength(t: seq<Byte>, start: nat, to: nat)
    requires to <= |t|
    ensures |Part(t, start, to)| == if start <= to then to - start else 0
  {
  }

  lemma StepPart(t: seq<Byte>, start: nat, end: nat, o: nat, n: nat, from: nat, data: seq<Byte>)
    requires o <= n <= |t| && o <= end && start < end && start <= n
    requires from == if o <= start then start - o else 0
    requires o + from + |data| == Min(end, n) && data == t[o + from..o + from + |data|]
    ensures Part(t, start, Min(n, end)) == Part(t, start, Min(o, end)) + data
  {
    PartGrows(t, start, Min(o, end), Min(n, end));
  }

  lemma VisitSkip(s: State, k: nat, start: nat, end: nat, cs: seq<Chunk>)
    requires Known(s.g.text, s.g.chain) && k < |s.g.chain| && start < end && Visited(s, start, end, k, cs)
    requires Offset(s.g.text, s.g.chain, k + 1) < start
    ensures Visited(s, start, end, k + 1, cs)
  {
    OffsetNext(s.g.text, s.g.chain, k);
  }

  lemma VisitNone(s: State, start: nat, end: nat)
    requires Known(s.g.text, s.g.chain) && start < end
    ensures Visited(s, start, end, 0, []) && Offset(s.g.text, s.g.chain, 0) == 0
  {
    OffsetEnd(s.g.text, s.g.chain);
  }

  lemma VisitAll(s: State, start: nat, end: nat, cs: seq<Chunk>)
    requires Known(s.g.text, s.g.chain) && start < end && Visited(s, start, end, |s.g.chain|, cs)
    ensures Joined(cs) == Part(Text(s.g.text, s.g.chain), start, end) && InPlace(cs, start)
  {
    OffsetEnd(s.g.text, s.g.chain);
  }

  /** `hedit_file_visit` with a visitor that accepts everything, as the one saving uses does.
      The length of a chunk is computed in `size_t`; where the subtraction would wrap the visit
      stops and answers `wild`. */
  method Visit(f: File, start: nat, len: nat) returns (chunks: seq<Chunk>, wild: bool)
    requires f.Valid()
    ensures Known(f.text, f.chain)
    ensures wild <==> start < |f.Abs().text| && len != 0 && start + len < LastStart(f.View())
    ensures !wild ==> Joined(chunks) == Part(f.Abs().text, start, start + len) && InPlace(chunks, start)
  {
    hide State.Tidy, Ring, Closed, Distinct, Spelled, File.Shown, Offset, Text, Known, Visited, Part, Joined, InPlace,
         After, Before, LastStart;
    ghost var s := f.View();
    Basics(s);
    TidyRest(s);
    SizeTrue(s);
    chunks, wild := [], false;
    if start >= f.size || len == 0 {
      NoPart(s.Contents(), start, len);
      return;
    }
    var off := 0;
    ghost var k := 0;
    VisitNone(s, start, start + len);
    HeadBefore(s);
    f.NextAfter(f.head, 0);
    var p := f.head.next;
    while p != f.head
      invariant f.Valid() && f.View() == s && 0 <= k <= |s.g.chain|
      invariant p == After(s, k) && (p == s.head <==> k == |s.g.chain|)
      invariant off == Offset(s.g.text, s.g.chain, k) && Visited(s, start, start + len, k, chunks)
      invariant k > 0 ==> Offset(s.g.text, s.g.chain, k - 1) <= start + len
      decreases |s.g.chain| - k
    {
      AfterIs(s, k);
      f.SizeIs(p);
      OffsetNext(s.g.text, s.g.chain, k);
      chunks, wild := VisitPiece(f, p, off, start, len, chunks, s, k);
      if wild {
        return;
      }
      off := off + p.size;
      k := k + 1;
      f.NextAfter(p, k);
      p := p.next;
    }
    VisitAll(s, start, start + len, chunks);
    LastIs(s);
  }

  /** What the visitor gets of one piece. */
  method VisitPiece(f: File, p: Piece, off: nat, start: nat, len: nat, chunks: seq<Chunk>, ghost s: State, ghost k: nat)
    returns (next: seq<Chunk>, wild: bool)
    requires f.Shown() && f.View() == s && Spelled(f.text, f.at, f.store) && len != 0
    requires Known(s.g.text, s.g.chain) && k < |s.g.chain| && p == s.g.chain[k] && p.size == |s.g.text[p]|
    requires off == Offset(s.g.text, s.g.chain, k) && Visited(s, start, start + len, k, chunks)
    requires Offset(s.g.text, s.g.chain, k + 1) == off + p.size
    requires k > 0 ==> Offset(s.g.text, s.g.chain, k - 1) <= start + len
    ensures wild <==> start + len < off
    ensures wild ==> start + len < LastStart(s)
    ensures !wild ==> Visited(s, start, start + len, k + 1, next)
  {
    hide File.Shown, Spelled, Offset, Text, Visited, Part, Joined, LastStart;
    next, wild := chunks, false;
    if off + p.size >= start {
      var from := if off <= start then start - off else 0;
      var over := if off + p.size >= start + len then off + p.size - start - len else 0;
      if p.size - from < over {
        StartsLate(s, k, start + len);
        return chunks, true;
      }
      var data := TakeChunk(f, p, from, p.size - from - over);
      VisitStep(s, k, start, start + len, from, data, chunks);
      next := chunks + [Chunk(off + from, data)];
    } else {
      VisitSkip(s, k, start, start + len, chunks);
    }
  }

  lemma NoPart(x: seq<Byte>, start: nat, len: nat)
    requires start >= |x| || len == 0
    ensures Part(x, start, start + len) == [] && Joined([]) == [] && InPlace([], start)
  {
  }

  lemma HeadBefore(s: State)
    ensures Before(s, 0) == s.head
  {
  }

  lemma AfterIs(s: State, k: nat)
    requires k < |s.g.chain| && Known(s.g.text, s.g.chain)
    ensures After(s, k) == s.g.chain[k] && s.g.chain[k] in s.g.text && Before(s, k + 1) == s.g.chain[k]
  {
  }

  lemma LastIs(s: State)
    requires Known(s.g.text, s.g.chain)
    ensures LastStart(s) == if s.g.chain == [] then 0 else Offset(s.g.text, s.g.chain, |s.g.chain| - 1)
  {
  }

  /** The bytes from `from` up to `to`, as far as there are any. */
  ghost function Part(x: seq<Byte>, from: nat, to: nat): (r: seq<Byte>)
  {
    if from <= to && from <= |x| then x[from..Min(to, |x|)] else []
  }
}
