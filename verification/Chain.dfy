/** The text a chain of pieces spells. */
module Chain {
  import opened Bytes
  import opened Links

  type Texts = map<Piece, seq<Byte>>

  /** The bytes of the pieces of `s`, one after the other. */
  ghost function Text(t: Texts, s: seq<Piece>): seq<Byte>
    requires forall p :: p in s ==> p in t
    decreases |s|
  {
    if s == [] then [] else t[s[0]] + Text(t, s[1..])
  }

  ghost predicate Known(t: Texts, s: seq<Piece>) {
    forall p :: p in s ==> p in t
  }

  lemma {:induction false} TextConcat(t: Texts, a: seq<Piece>, b: seq<Piece>)
    requires Known(t, a) && Known(t, b)
    ensures Text(t, a + b) == Text(t, a) + Text(t, b)
    decreases |a|
  {
    if a == [] {
      assert a + b == b;
    } else {
      assert (a + b)[1..] == a[1..] + b;
      TextConcat(t, a[1..], b);
    }
  }

  lemma TextOne(t: Texts, p: Piece)
    requires p in t
    ensures Text(t, [p]) == t[p]
  {
    assert [p][1..] == [];
  }

  lemma TextThree(t: Texts, a: seq<Piece>, b: seq<Piece>, c: seq<Piece>)
    requires Known(t, a) && Known(t, b) && Known(t, c)
    ensures Text(t, a + b + c) == Text(t, a) + Text(t, b) + Text(t, c)
  {
    TextConcat(t, a + b, c);
    TextConcat(t, a, b);
  }

  /** Pieces whose bytes are kept spell what they spelled. */
  lemma {:induction false} TextKept(t: Texts, u: Texts, s: seq<Piece>)
    requires Known(t, s) && Known(u, s) && forall p :: p in s ==> u[p] == t[p]
    ensures Text(u, s) == Text(t, s)
    decreases |s|
  {
    if s != [] {
      TextKept(t, u, s[1..]);
    }
  }

  /** The offset at which the piece with index `k` starts. */
  ghost function Offset(t: Texts, s: seq<Piece>, k: nat): nat
    requires Known(t, s) && k <= |s|
  {
    |Text(t, s[..k])|
  }

  lemma OffsetNext(t: Texts, s: seq<Piece>, k: nat)
    requires Known(t, s) && k < |s|
    ensures Offset(t, s, k + 1) == Offset(t, s, k) + |t[s[k]]|
    ensures Offset(t, s, k + 1) <= |Text(t, s)|
    ensures Text(t, s)[Offset(t, s, k)..Offset(t, s, k + 1)] == t[s[k]]
    ensures Text(t, s)[..Offset(t, s, k)] == Text(t, s[..k])
    ensures Text(t, s)[Offset(t, s, k + 1)..] == Text(t, s[k + 1..])
  {
    assert s == s[..k] + [s[k]] + s[k + 1..];
    assert s[..k + 1] == s[..k] + [s[k]];
    TextOne(t, s[k]);
    TextConcat(t, s[..k], [s[k]]);
    TextThree(t, s[..k], [s[k]], s[k + 1..]);
  }

  lemma OffsetEnd(t: Texts, s: seq<Piece>)
    requires Known(t, s)
    ensures Offset(t, s, |s|) == |Text(t, s)| && Offset(t, s, 0) == 0
  {
    assert s[..|s|] == s;
  }

  lemma {:induction false} OffsetMonotone(t: Texts, s: seq<Piece>, j: nat, k: nat)
    requires Known(t, s) && j <= k <= |s|
    ensures Offset(t, s, j) <= Offset(t, s, k)
    decreases k
  {
    if j < k {
      OffsetNext(t, s, k - 1);
      OffsetMonotone(t, s, j, k - 1);
    }
  }

  /** Changing the bytes of one piece of a chain changes the text exactly there. */
  lemma TextUpdated(t: Texts, s: seq<Piece>, k: nat, x: seq<Byte>)
    requires Known(t, s) && Distinct(s) && k < |s|
    ensures var u := t[s[k] := x];
      Known(u, s) &&
      Text(u, s) == Text(t, s[..k]) + x + Text(t, s[k + 1..])
  {
    var u := t[s[k] := x];
    assert s == s[..k] + [s[k]] + s[k + 1..];
    OffsetNext(t, s, k);
    TextKept(t, u, s[..k]);
    TextKept(t, u, s[k + 1..]);
    TextOne(u, s[k]);
    TextThree(u, s[..k], [s[k]], s[k + 1..]);
  }

  lemma InsertedInside(a: seq<Byte>, x: seq<Byte>, b: seq<Byte>, off: nat, data: seq<Byte>)
    requires off <= |x|
    ensures Inserted(a + x + b, |a| + off, data) == a + Inserted(x, off, data) + b
  {
  }

  lemma DeletedInside(a: seq<Byte>, x: seq<Byte>, b: seq<Byte>, off: nat, len: nat)
    requires off + len <= |x|
    ensures Deleted(a + x + b, |a| + off, len) == a + Deleted(x, off, len) + b
  {
  }

  lemma TextAround(t: Texts, s: seq<Piece>, k: nat)
    requires Known(t, s) && k < |s|
    ensures Text(t, s) == Text(t, s[..k]) + t[s[k]] + Text(t, s[k + 1..])
  {
    assert s == s[..k] + [s[k]] + s[k + 1..];
    TextOne(t, s[k]);
    TextThree(t, s[..k], [s[k]], s[k + 1..]);
  }

  /** Writing into the cached piece in place is an insertion into the text. */
  lemma InsertInPiece(t: Texts, s: seq<Piece>, k: nat, off: nat, data: seq<Byte>)
    requires Known(t, s) && Distinct(s) && k < |s| && off <= |t[s[k]]|
    ensures var u := t[s[k] := Inserted(t[s[k]], off, data)];
      Known(u, s) && Offset(t, s, k) + off <= |Text(t, s)| &&
      Text(u, s) == Inserted(Text(t, s), Offset(t, s, k) + off, data)
  {
    TextAround(t, s, k);
    TextUpdated(t, s, k, Inserted(t[s[k]], off, data));
    InsertedInside(Text(t, s[..k]), t[s[k]], Text(t, s[k + 1..]), off, data);
  }

  lemma DeleteInPiece(t: Texts, s: seq<Piece>, k: nat, off: nat, len: nat)
    requires Known(t, s) && Distinct(s) && k < |s| && off + len <= |t[s[k]]|
    ensures var u := t[s[k] := Deleted(t[s[k]], off, len)];
      Known(u, s) && Offset(t, s, k) + off <= |Text(t, s)| &&
      Text(u, s) == Deleted(Text(t, s), Offset(t, s, k) + off, len)
  {
    TextAround(t, s, k);
    TextUpdated(t, s, k, Deleted(t[s[k]], off, len));
    DeletedInside(Text(t, s[..k]), t[s[k]], Text(t, s[k + 1..]), off, len);
  }
}
