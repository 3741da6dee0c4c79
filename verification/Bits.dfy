/** Keys as bit strings: bytes from first to last, bits from the highest to the lowest, and
    zeros behind the end. */
module Bits {
  /** A C string: no byte in it is NUL. */
  type Key = k: seq<bv8> | forall i :: 0 <= i < |k| ==> k[i] != 0

  function BitOf(c: bv8, i: nat): bool
    requires i < 8
  {
    (c >> i) & 1 == 1
  }

  /** Bit `p` of the key: bit `7 - p % 8` of byte `p / 8`, or 0 behind the end. */
  function At(k: seq<bv8>, p: nat): bool {
    p / 8 < |k| && BitOf(k[p / 8], 7 - p % 8)
  }

  /** The position of bit `bitNum` of byte `byteNum`. */
  function Position(byteNum: nat, bitNum: nat): nat
    requires bitNum < 8
  {
    8 * byteNum + 7 - bitNum
  }

  lemma AtPosition(k: seq<bv8>, byteNum: nat, bitNum: nat)
    requires bitNum < 8
    ensures At(k, Position(byteNum, bitNum)) == (byteNum < |k| && BitOf(k[byteNum], bitNum))
  {
  }

  /** The same before position `p`. */
  ghost predicate AgreeTo(a: seq<bv8>, b: seq<bv8>, p: nat) {
    forall q: nat :: q < p ==> At(a, q) == At(b, q)
  }

  /** `p` is the first position at which they differ. */
  ghost predicate Differ(a: seq<bv8>, b: seq<bv8>, p: nat) {
    AgreeTo(a, b, p) && At(a, p) != At(b, p)
  }

  // ------------------------------------------------------------------ bytes and their bits

  lemma SameByte(a: bv8, b: bv8)
    requires forall i: nat :: i < 8 ==> BitOf(a, i) == BitOf(b, i)
    ensures a == b
  {
    assert BitOf(a, 0) == BitOf(b, 0) && BitOf(a, 1) == BitOf(b, 1) && BitOf(a, 2) == BitOf(b, 2)
      && BitOf(a, 3) == BitOf(b, 3);
    assert BitOf(a, 4) == BitOf(b, 4) && BitOf(a, 5) == BitOf(b, 5) && BitOf(a, 6) == BitOf(b, 6)
      && BitOf(a, 7) == BitOf(b, 7);
  }

  lemma ZeroByte(i: nat)
    requires i < 8
    ensures !BitOf(0, i)
  {
  }

  /** The highest differing bit decides the order of two bytes. */
  lemma ByteOrder(a: bv8, b: bv8, i: nat)
    requires i < 8 && !BitOf(a, i) && BitOf(b, i)
    requires forall j: nat :: i < j < 8 ==> BitOf(a, j) == BitOf(b, j)
    ensures a < b
  {
    if i < 1 { assert BitOf(a, 1) == BitOf(b, 1); }
    if i < 2 { assert BitOf(a, 2) == BitOf(b, 2); }
    if i < 3 { assert BitOf(a, 3) == BitOf(b, 3); }
    if i < 4 { assert BitOf(a, 4) == BitOf(b, 4); }
    if i < 5 { assert BitOf(a, 5) == BitOf(b, 5); }
    if i < 6 { assert BitOf(a, 6) == BitOf(b, 6); }
    if i < 7 { assert BitOf(a, 7) == BitOf(b, 7); }
  }

  /** `for (bit_num = 0; diff >>= 1; bit_num++);` finds the highest bit that differs. */
  method HighestDifference(a: bv8, b: bv8) returns (bitNum: nat)
    requires a != b
    ensures bitNum < 8 && BitOf(a, bitNum) != BitOf(b, bitNum)
    ensures forall j: nat :: bitNum < j < 8 ==> BitOf(a, j) == BitOf(b, j)
  {
    var diff := a ^ b;
    bitNum := 0;
    diff := diff >> 1;
    while diff != 0
      invariant bitNum < 8 && (a ^ b) >> bitNum != 0
      invariant diff == ((a ^ b) >> bitNum) >> 1
      decreases diff
    {
      ShiftOnce(a ^ b, bitNum);
      bitNum := bitNum + 1;
      diff := diff >> 1;
    }
    Highest(a, b, bitNum);
  }

  lemma ShiftOnce(d: bv8, n: nat)
    requires n < 8 && (d >> n) >> 1 != 0
    ensures n + 1 < 8 && d >> (n + 1) == (d >> n) >> 1
    ensures ((d >> n) >> 1) >> 1 < (d >> n) >> 1
  {
    if n == 0 {} else if n == 1 {} else if n == 2 {} else if n == 3 {} else if n == 4 {} else if n == 5 {}
      else if n == 6 {} else {}
  }

  lemma Highest(a: bv8, b: bv8, n: nat)
    requires n < 8 && (a ^ b) >> n != 0 && ((a ^ b) >> n) >> 1 == 0
    ensures BitOf(a, n) != BitOf(b, n) && forall j: nat :: n < j < 8 ==> BitOf(a, j) == BitOf(b, j)
  {
    forall j: nat | n < j < 8 ensures BitOf(a, j) == BitOf(b, j) {
      HigherSame(a, b, n, j);
    }
    if n == 0 {} else if n == 1 {} else if n == 2 {} else if n == 3 {} else if n == 4 {} else if n == 5 {}
      else if n == 6 {} else {}
  }

  lemma HigherSame(a: bv8, b: bv8, n: nat, j: nat)
    requires n < j < 8 && ((a ^ b) >> n) >> 1 == 0
    ensures BitOf(a, j) == BitOf(b, j)
  {
    if n == 0 {
      assert a >> 1 == b >> 1;
    } else if n == 1 {
      assert a >> 2 == b >> 2;
    } else if n == 2 {
      assert a >> 3 == b >> 3;
    } else if n == 3 {
      assert a >> 4 == b >> 4;
    } else if n == 4 {
      assert a >> 5 == b >> 5;
    } else if n == 5 {
      assert a >> 6 == b >> 6;
    } else {
      assert a >> 7 == b >> 7;
    }
    if j == 1 {} else if j == 2 {} else if j == 3 {} else if j == 4 {} else if j == 5 {} else if j == 6 {} else {}
  }

  // ------------------------------------------------------------------ keys and their bits

  /** The bits of byte `n` are the same, hence the byte is. */
  lemma AgreeByte(a: Key, b: Key, n: nat, p: nat)
    requires AgreeTo(a, b, p) && 8 * n + 8 <= p && (n < |a| || n < |b|)
    ensures n < |a| && n < |b| && a[n] == b[n]
  {
    var x, y := if n < |a| then a[n] else 0, if n < |b| then b[n] else 0;
    forall i: nat | i < 8 ensures BitOf(x, i) == BitOf(y, i) {
      ZeroByte(i);
      AtPosition(a, n, i);
      AtPosition(b, n, i);
      assert At(a, Position(n, i)) == At(b, Position(n, i));
    }
    SameByte(x, y);
  }

  lemma AgreeBytes(a: Key, b: Key, n: nat)
    requires AgreeTo(a, b, 8 * n) && n <= |b|
    ensures n <= |a| && a[..n] == b[..n]
  {
    forall i | 0 <= i < n ensures i < |a| && a[i] == b[i] {
      AgreeByte(a, b, i, 8 * n);
    }
    if |a| < n {
      AgreeByte(a, b, |a|, 8 * n);
    }
  }

  /** `x` is a prefix of `k` exactly when they agree on all bits of `x`. */
  lemma PrefixAgrees(k: Key, x: Key)
    ensures x <= k <==> AgreeTo(k, x, 8 * |x|)
  {
    if AgreeTo(k, x, 8 * |x|) {
      AgreeBytes(k, x, |x|);
    }
  }

  /** Keys with the same bits are the same. */
  lemma SameKey(a: Key, b: Key, p: nat)
    requires AgreeTo(a, b, p) && 8 * |a| <= p && 8 * |b| <= p
    ensures a == b
  {
    if |a| <= |b| {
      AgreeLess(a, b, 8 * |b|, p);
      AgreeBytes(a, b, |b|);
    } else {
      AgreeLess(b, a, 8 * |a|, p);
      AgreeBytes(b, a, |a|);
    }
  }

  lemma AgreeLess(a: seq<bv8>, b: seq<bv8>, p: nat, q: nat)
    requires (AgreeTo(a, b, q) || AgreeTo(b, a, q)) && p <= q
    ensures AgreeTo(a, b, p)
  {
  }

  lemma AgreeSame(a: seq<bv8>, b: seq<bv8>, c: seq<bv8>, p: nat)
    requires (AgreeTo(a, b, p) || AgreeTo(b, a, p)) && (AgreeTo(b, c, p) || AgreeTo(c, b, p))
    ensures AgreeTo(a, c, p) && AgreeTo(c, a, p)
  {
  }

  /** The first position from `p` on at which the keys differ. */
  function Critical(a: Key, b: Key, p: nat): (r: nat)
    requires a != b && AgreeTo(a, b, p)
    ensures Differ(a, b, r)
    decreases 8 * |a| + 8 * |b| - p
  {
    if At(a, p) != At(b, p) then p
    else
      assert p < 8 * |a| + 8 * |b| by {
        if 8 * |a| + 8 * |b| <= p {
          SameKey(a, b, p);
        }
      }
      Critical(a, b, p + 1)
  }

  /** There is only one such position. */
  lemma DifferOnce(a: seq<bv8>, b: seq<bv8>, p: nat, q: nat)
    requires Differ(a, b, p) && (Differ(a, b, q) || Differ(b, a, q))
    ensures p == q
  {
  }

  /** The order of `strcmp`: byte by byte, unsigned, shorter first. */
  ghost predicate Less(a: Key, b: Key) {
    exists n :: 0 <= n <= |a| && Below(a, b, n)
  }

  ghost predicate Below(a: Key, b: Key, n: nat)
    requires n <= |a|
  {
    n < |b| && a[..n] == b[..n] && (n == |a| || a[n] < b[n])
  }

  /** Where two strings differ first, the smaller byte decides; a string is before its extensions. */
  lemma LessDecides(a: Key, b: Key, n: nat)
    requires a != b && n <= |a| && n <= |b| && a[..n] == b[..n] && (n < |a| && n < |b| ==> a[n] != b[n])
    ensures Less(a, b) <==> n < |b| && (n == |a| || a[n] < b[n])
    ensures Less(a, b) <==> !Less(b, a)
  {
    if n < |b| && (n == |a| || a[n] < b[n]) {
      assert Below(a, b, n);
      LessIrreflexive(a, b);
    } else {
      assert Below(b, a, n);
      LessIrreflexive(b, a);
    }
  }

  /** The first differing bit decides. */
  lemma BitOrder(a: Key, b: Key, p: nat)
    requires Differ(a, b, p) && !At(a, p)
    ensures Less(a, b)
  {
    var n, i := p / 8, 7 - p % 8;
    AgreeLess(a, b, 8 * n, p);
    AgreeBytes(a, b, n);
    if n < |a| {
      forall j: nat | i < j < 8 ensures BitOf(a[n], j) == BitOf(b[n], j) {
        AtPosition(a, n, j);
        AtPosition(b, n, j);
        assert At(a, Position(n, j)) == At(b, Position(n, j));
      }
      ByteOrder(a[n], b[n], i);
    }
    assert Below(a, b, n);
  }

  lemma BelowOnce(a: Key, b: Key, n: nat, m: nat)
    requires n <= |a| && m <= |b| && Below(a, b, n)
    ensures !Below(b, a, m)
  {
    if m < n {
      assert a[..n][m] == b[..n][m];
    } else if n < m && n < |a| {
      assert b[..m][n] == b[n];
      assert m <= |a| ==> a[..m][n] == a[n];
    }
  }

  lemma LessIrreflexive(a: Key, b: Key)
    requires Less(a, b)
    ensures !Less(b, a) && a != b
  {
    var n :| 0 <= n <= |a| && Below(a, b, n);
    forall m: nat | m <= |b| ensures !Below(b, a, m) {
      BelowOnce(a, b, n, m);
    }
  }

  /** A byte of a string with its terminating NUL. */
  function ByteAt(k: seq<bv8>, n: nat): bv8 { if n < |k| then k[n] else 0 }

  /** The loop that compares two strings up to the first byte that differs. */
  method FirstDifference(a: Key, b: Key) returns (n: nat, differ: bool)
    ensures differ <==> a != b
    ensures differ ==> n <= |a| && n <= |b| && a[..n] == b[..n] && ByteAt(a, n) != ByteAt(b, n)
  {
    n := 0;
    while ByteAt(a, n) == ByteAt(b, n)
      invariant n <= |a| && n <= |b| && a[..n] == b[..n]
      decreases |a| - n
    {
      if ByteAt(b, n) == 0 {
        return n, false;
      }
      n := n + 1;
    }
    differ := true;
    assert a == b ==> ByteAt(a, n) == ByteAt(b, n);
  }

  /** The first differing byte and its highest differing bit make the first differing position. */
  lemma DifferAt(a: Key, b: Key, n: nat, bitNum: nat)
    requires n <= |a| && n <= |b| && a[..n] == b[..n] && bitNum < 8
    requires BitOf(ByteAt(a, n), bitNum) != BitOf(ByteAt(b, n), bitNum)
    requires forall j: nat :: bitNum < j < 8 ==> BitOf(ByteAt(a, n), j) == BitOf(ByteAt(b, n), j)
    ensures Differ(a, b, Position(n, bitNum))
  {
    var p := Position(n, bitNum);
    ZeroByte(bitNum);
    AtPosition(a, n, bitNum);
    AtPosition(b, n, bitNum);
    forall q: nat | q < p ensures At(a, q) == At(b, q) {
      if q / 8 < n {
        assert a[q / 8] == a[..n][q / 8] == b[..n][q / 8] == b[q / 8];
      } else {
        assert q / 8 == n;
        ZeroByte(7 - q % 8);
        assert BitOf(ByteAt(a, n), 7 - q % 8) == BitOf(ByteAt(b, n), 7 - q % 8);
      }
    }
  }
}
