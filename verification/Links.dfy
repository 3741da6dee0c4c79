/** The doubly linked piece list of a file, seen as a value.

  `Links` is a snapshot of every `list.next` and `list.prev` field; a `Piece` object
  holds the real fields (File.dfy), and every method there keeps the two equal.  The
  list head embedded in the file is a piece without data, so that every neighbour is
  a `Piece`. */
module Links {
  import opened Bytes

  /** A contiguous run of bytes living in a block. */
  class Block {
    const data: array<Byte>
    var len: nat

    constructor (data: array<Byte>, len: nat)
      ensures this.data == data && this.len == len
    {
      this.data := data;
      this.len := len;
    }

    /** Opens a gap of `|x|` bytes at `pos` of the used part and fills it. */
    method Insert(pos: nat, x: seq<Byte>)
      requires pos <= len && len + |x| <= data.Length
      modifies `len, data
      ensures len == old(len) + |x|
      ensures data[..len] == Inserted(old(data[..len]), pos, x)
    {
      forall i | pos <= i < len {
        data[i + |x|] := data[i];
      }
      forall i | 0 <= i < |x| {
        data[pos + i] := x[i];
      }
      len := len + |x|;
    }

    /** Closes the gap of `n` bytes at `pos` of the used part. */
    method Delete(pos: nat, n: nat)
      requires pos + n <= len <= data.Length
      modifies `len, data
      ensures len == old(len) - n
      ensures data[..len] == Deleted(old(data[..len]), pos, n)
    {
      forall i | pos <= i < len - n {
        data[i] := data[i + n];
      }
      len := len - n;
    }
  }

  class Piece {
    var block: Block?
    var off: nat
    var size: nat
    var prev: Piece
    var next: Piece

    constructor ()
      ensures block == null && off == 0 && size == 0 && prev == this && next == this
    {
      block, off, size := null, 0, 0;
      prev, next := this, this;
    }

    constructor At(block: Block?, off: nat, size: nat, prev: Piece, next: Piece)
      ensures this.block == block && this.off == off && this.size == size
      ensures this.prev == prev && this.next == next
    {
      this.block, this.off, this.size := block, off, size;
      this.prev, this.next := prev, next;
    }
  }

  /** A recorded run of pieces: its two ends and its length in bytes.
      The length is a `size_t`; it is an unbounded integer here. */
  datatype Span = Span(start: Piece?, end: Piece?, len: int)

  datatype Links = Links(next: map<Piece, Piece>, prev: map<Piece, Piece>)

  /** One edit of the chain: `gone` was replaced by `came` between `before` and `after`. */
  datatype Edit = Edit(before: seq<Piece>, gone: seq<Piece>, came: seq<Piece>, after: seq<Piece>)
  {
    ghost function From(): seq<Piece> { before + gone + after }
    ghost function To(): seq<Piece> { before + came + after }
    ghost function Flip(): Edit { Edit(before, came, gone, after) }
    /** The neighbours of the edited run; the list head stands in at both ends. */
    ghost function Left(head: Piece): Piece { ([head] + before)[|before|] }
    ghost function Right(head: Piece): Piece { (after + [head])[0] }
    /** What `Left.next` and `Right.prev` must hold once `gone` is linked. */
    ghost function Entry(head: Piece): Piece { (gone + after + [head])[0] }
    ghost function Exit(head: Piece): Piece { ([head] + before + gone)[|before| + |gone|] }
  }

  /** `p`, if it is kept. */
  ghost function Only(keep: bool, p: Piece): seq<Piece> { if keep then [p] else [] }

  // ------------------------------------------------------------------ well-linked runs

  ghost predicate Distinct<T>(s: seq<T>) {
    forall i, j :: 0 <= i < j < |s| ==> s[i] != s[j]
  }

  ghost predicate Adjacent(m: Links, x: Piece, y: Piece) {
    x in m.next && m.next[x] == y && y in m.prev && m.prev[y] == x
  }

  /** Consecutive elements point at each other, forwards and backwards. */
  ghost predicate Path(m: Links, s: seq<Piece>) {
    forall i, j :: 0 <= i && j == i + 1 && j < |s| ==> Adjacent(m, s[i], s[j])
  }

  /** The circular list with head `head` holds exactly `s`. */
  ghost predicate Ring(m: Links, head: Piece, s: seq<Piece>) {
    Distinct([head] + s) && Path(m, [head] + s + [head])
  }

  /** `p` is linked inside and its outer pointers, possibly stale, name `l` and `r`. */
  ghost predicate Hangs(m: Links, l: Piece, p: seq<Piece>, r: Piece) {
    Path(m, p) &&
    (p != [] ==>
      p[0] in m.prev && m.prev[p[0]] == l &&
      p[|p| - 1] in m.next && m.next[p[|p| - 1]] == r)
  }

  lemma PathSplit(m: Links, a: seq<Piece>, b: seq<Piece>)
    ensures Path(m, a + b) ==> Path(m, a) && Path(m, b)
    ensures Path(m, a + b) && a != [] && b != [] ==> Adjacent(m, a[|a| - 1], b[0])
  {
    var s := a + b;
    if Path(m, s) {
      forall i, j | 0 <= i && j == i + 1 && j < |a| ensures Adjacent(m, a[i], a[j]) {
        assert Adjacent(m, s[i], s[j]);
      }
      forall i, j | 0 <= i && j == i + 1 && j < |b| ensures Adjacent(m, b[i], b[j]) {
        assert Adjacent(m, s[|a| + i], s[|a| + j]);
      }
      if a != [] && b != [] {
        assert Adjacent(m, s[|a| - 1], s[|a|]);
      }
    }
  }

  lemma PathJoin(m: Links, a: seq<Piece>, b: seq<Piece>)
    requires Path(m, a) && Path(m, b)
    requires a != [] && b != [] ==> Adjacent(m, a[|a| - 1], b[0])
    ensures Path(m, a + b)
  {
    var s := a + b;
    forall i, j | 0 <= i && j == i + 1 && j < |s| ensures Adjacent(m, s[i], s[j]) {
      if j < |a| {
        assert Adjacent(m, a[i], a[j]);
      } else if |a| <= i {
        assert Adjacent(m, b[i - |a|], b[j - |a|]);
      }
    }
  }

  /** The pieces on each side of an edit, with the neighbours that a path through it uses. */
  lemma RingParts(m: Links, head: Piece, e: Edit)
    requires Ring(m, head, e.From())
    ensures Path(m, [head] + e.before) && Path(m, e.after + [head])
    ensures Hangs(m, e.Left(head), e.gone, e.Right(head))
    ensures e.Left(head) in m.next && m.next[e.Left(head)] == e.Entry(head)
    ensures e.Right(head) in m.prev && m.prev[e.Right(head)] == e.Exit(head)
  {
    var a, g, b := [head] + e.before, e.gone, e.after + [head];
    assert [head] + e.From() + [head] == a + (g + b);
    PathSplit(m, a, g + b);
    PathSplit(m, g, b);
    assert a[|a| - 1] == e.Left(head) && b[0] == e.Right(head);
    assert (g + b)[0] == e.Entry(head) by { assert g + b == e.gone + e.after + [head]; }
    assert e.Exit(head) == if g == [] then e.Left(head) else g[|g| - 1];
  }

  /** One step along a ring; only the last one arrives at the head. */
  lemma RingStep(m: Links, head: Piece, s: seq<Piece>, k: nat)
    requires Ring(m, head, s) && k <= |s|
    ensures var r := [head] + s + [head];
      && r[k] in m.next && m.next[r[k]] == r[k + 1] && r[k + 1] in m.prev && m.prev[r[k + 1]] == r[k]
      && (r[k + 1] == head <==> k == |s|) && (k < |s| ==> r[k + 1] == s[k])
  {
    var r := [head] + s + [head];
    assert Adjacent(m, r[k], r[k + 1]);
    if k < |s| {
      assert ([head] + s)[k + 1] == s[k] && ([head] + s)[0] == head;
    }
  }

  // ------------------------------------------------------------------ relinking

  /** The memory after `came` takes the place of `gone`: two fields change. */
  ghost function Relink(m: Links, head: Piece, e: Edit): Links {
    if e.gone == [] && e.came == [] then m else
    Links(m.next[e.Left(head) := e.Flip().Entry(head)], m.prev[e.Right(head) := e.Flip().Exit(head)])
  }

  lemma PathKept(m: Links, m': Links, s: seq<Piece>)
    requires Path(m, s)
    requires forall i :: 0 <= i < |s| - 1 && s[i] in m.next ==> s[i] in m'.next && m'.next[s[i]] == m.next[s[i]]
    requires forall i :: 0 < i < |s| && s[i] in m.prev ==> s[i] in m'.prev && m'.prev[s[i]] == m.prev[s[i]]
    ensures Path(m', s)
  {
    forall i, j | 0 <= i && j == i + 1 && j < |s| ensures Adjacent(m', s[i], s[j]) {
      assert Adjacent(m, s[i], s[j]);
    }
  }

  /** None of the cells an intact part of the chain relies on is one of the two rewritten. */
  lemma NeighboursApart(head: Piece, e: Edit)
    requires Distinct([head] + e.To())
    ensures var a := [head] + e.before; forall i :: 0 <= i < |a| - 1 ==> a[i] != e.Left(head)
    ensures var a := [head] + e.before; forall i :: 0 < i < |a| ==> a[i] != e.Right(head)
    ensures var b := e.after + [head]; forall i :: 0 <= i < |b| - 1 ==> b[i] != e.Left(head)
    ensures var b := e.after + [head]; forall i :: 0 < i < |b| ==> b[i] != e.Right(head)
    ensures e.Left(head) !in e.came && e.Right(head) !in e.came
  {
    var t := [head] + e.To();
    var k, n := |e.before|, |e.came|;
    assert forall i :: 0 <= i <= k ==> ([head] + e.before)[i] == t[i];
    assert forall i :: 0 <= i < n ==> e.came[i] == t[1 + k + i];
    assert forall i :: 0 <= i <= |e.after| ==>
      (e.after + [head])[i] == if i < |e.after| then t[1 + k + n + i] else t[0];
    assert e.Left(head) == t[k];
    assert e.Right(head) == if e.after == [] then t[0] else t[1 + k + n];
  }

  /** Relinking an edit turns a ring over `From` into a ring over `To`, and leaves the
      displaced run hanging from the same two neighbours. */
  lemma RelinkRing(m: Links, head: Piece, e: Edit)
    requires Ring(m, head, e.From())
    requires Hangs(m, e.Left(head), e.came, e.Right(head))
    requires Distinct([head] + e.To())
    ensures Ring(Relink(m, head, e), head, e.To())
    ensures Hangs(Relink(m, head, e), e.Left(head), e.gone, e.Right(head))
  {
    hide Path, Distinct, Relink;
    var m' := Relink(m, head, e);
    var a, b, c := [head] + e.before, e.after + [head], e.came;
    RelinkKeeps(m, head, e);
    RelinkJoins(m, head, e);
    PathJoin(m', c, b);
    PathJoin(m', a, c + b);
    assert [head] + e.To() + [head] == a + (c + b);
  }

  /** The parts stay paths, and the outer pointers of both runs stay as they are. */
  lemma RelinkKeeps(m: Links, head: Piece, e: Edit)
    requires Ring(m, head, e.From())
    requires Hangs(m, e.Left(head), e.came, e.Right(head))
    requires Distinct([head] + e.To())
    ensures var m' := Relink(m, head, e);
      && Path(m', [head] + e.before) && Path(m', e.after + [head])
      && Hangs(m', e.Left(head), e.came, e.Right(head)) && Hangs(m', e.Left(head), e.gone, e.Right(head))
  {
    hide Path, Distinct;
    var m' := Relink(m, head, e);
    RingParts(m, head, e);
    NeighboursApart(head, e);
    NeighboursApart(head, e.Flip());
    PathKept(m, m', [head] + e.before);
    PathKept(m, m', e.after + [head]);
    HangsKept(m, m', head, e, e.came);
    HangsKept(m, m', head, e, e.gone);
  }

  lemma HangsKept(m: Links, n: Links, head: Piece, e: Edit, p: seq<Piece>)
    requires Hangs(m, e.Left(head), p, e.Right(head)) && e.Left(head) !in p && e.Right(head) !in p
    requires e.gone != [] || e.came != [] ==>
      && n.next == m.next[e.Left(head) := e.Flip().Entry(head)]
      && n.prev == m.prev[e.Right(head) := e.Flip().Exit(head)]
    requires e.gone == [] && e.came == [] ==> n == m
    ensures Hangs(n, e.Left(head), p, e.Right(head))
  {
    hide Path;
    PathKept(m, n, p);
    assert p != [] ==> p[0] in p && p[|p| - 1] in p;
  }

  /** The two writes join them. */
  lemma RelinkJoins(m: Links, head: Piece, e: Edit)
    requires Ring(m, head, e.From()) && Hangs(m, e.Left(head), e.came, e.Right(head)) && Distinct([head] + e.To())
    ensures var m', a, b, c := Relink(m, head, e), [head] + e.before, e.after + [head], e.came;
      && (c != [] ==> Adjacent(m', a[|a| - 1], c[0]) && Adjacent(m', c[|c| - 1], b[0]))
      && (c == [] ==> Adjacent(m', a[|a| - 1], b[0]))
  {
    hide Path, Distinct;
    RingParts(m, head, e);
    NeighboursApart(head, e);
    var a, b, c := [head] + e.before, e.after + [head], e.came;
    assert a[|a| - 1] == e.Left(head) && b[0] == e.Right(head);
    assert c != [] ==> c[0] in c && c[|c| - 1] in c;
    assert c != [] ==> e.Flip().Entry(head) == c[0] && e.Flip().Exit(head) == c[|c| - 1];
    assert c == [] ==> e.Flip().Entry(head) == b[0] && e.Flip().Exit(head) == a[|a| - 1];
  }

  /** Relinking and then relinking the flipped edit is the identity on the whole memory. */
  lemma RelinkBack(m: Links, head: Piece, e: Edit)
    requires Ring(m, head, e.From())
    ensures Relink(Relink(m, head, e), head, e.Flip()) == m
  {
    RingParts(m, head, e);
  }

  // ------------------------------------------------------------------ the swap as coded

  ghost predicate CanSwap(m: Links, o: Span, r: Span) {
    && (o.len != 0 ==> o.start != null && o.end != null && o.start in m.prev && o.end in m.next)
    && (r.len != 0 ==> r.start != null && r.end != null && r.start in m.prev && r.end in m.next)
  }

  /** `start->prev->next = entry`, then `end->next->prev = exit`. */
  ghost function Outer(m: Links, start: Piece, entry: Piece, end: Piece, exit: Piece): Links
    requires start in m.prev && end in m.next
  {
    var n := m.next[m.prev[start] := entry];
    Links(n, m.prev[n[end] := exit])
  }

  /** The pointer writes of `span_swap`, in its order and with its tests on the lengths. */
  ghost function SwapLinks(m: Links, o: Span, r: Span): Links
    requires CanSwap(m, o, r)
  {
    if o.len == 0 && r.len == 0 then m
    else if o.len == 0 then Outer(m, r.start, r.start, r.end, r.end)
    else if r.len == 0 then Outer(m, o.start, m.next[o.end], o.end, m.prev[o.start])
    else Outer(m, o.start, r.start, o.end, r.end)
  }

  /** The span stores the two ends of `p`, and its length tells whether `p` is empty. */
  ghost predicate Names(s: Span, p: seq<Piece>) {
    && (s.len == 0 <==> p == [])
    && (if p == [] then s.start == null && s.end == null
        else s.start == p[0] && s.end == p[|p| - 1])
  }

  /** The run whose outer pointers the swap follows. */
  ghost function Handle(e: Edit): seq<Piece> {
    if e.gone != [] then e.gone else e.came
  }

  /** Those outer pointers name the right neighbours. */
  ghost predicate Grips(m: Links, head: Piece, e: Edit) {
    var x := Handle(e);
    x != [] ==>
      && x[0] in m.prev && m.prev[x[0]] == e.Left(head)
      && x[|x| - 1] in m.next && m.next[x[|x| - 1]] == e.Right(head)
      && x[|x| - 1] != e.Left(head)
  }

  lemma SwapIsRelink(m: Links, head: Piece, e: Edit, o: Span, r: Span)
    requires Names(o, e.gone) && Names(r, e.came) && CanSwap(m, o, r)
    requires Grips(m, head, e)
    ensures SwapLinks(m, o, r) == Relink(m, head, e)
  {
  }

  lemma RingGrips(m: Links, head: Piece, e: Edit)
    requires Ring(m, head, e.From())
    requires e.gone == [] ==> Hangs(m, e.Left(head), e.came, e.Right(head))
    requires Distinct([head] + e.To())
    ensures Grips(m, head, e)
  {
    RingParts(m, head, e);
    NeighboursApart(head, e);
    NeighboursApart(head, e.Flip());
  }
}
