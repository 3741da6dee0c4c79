/** The numbers that a format reads from the bytes of a file. */
module Integers {
  import opened Bytes
  import opened Layout

  /** The weight of byte `i` of `n`: 256^i when the least one comes first, and 256^(n-1-i) otherwise. */
  ghost function WeightAt(i: nat, n: nat, little: bool): nat
    requires i < n
  {
    Power256(if little then i else n - 1 - i)
  }

  /** The first `k` bytes, each with its weight. */
  ghost function Weighed(b: seq<Byte>, little: bool, k: nat): nat
    requires k <= |b|
  {
    if k == 0 then 0 else Weighed(b, little, k - 1) + b[k - 1] * WeightAt(k - 1, |b|, little)
  }

  /** An unsigned integer is the sum of its bytes, each with its weight. */
  lemma {:induction false} UnsignedIsSum(b: seq<Byte>, little: bool)
    ensures Unsigned(b, little) == Weighed(b, little, |b|)
    decreases |b|
  {
    if b == [] {
    } else if little {
      UnsignedIsSum(b[1..], little);
      FirstLeast(b, |b|);
    } else {
      var n := |b| - 1;
      UnsignedIsSum(b[..n], little);
      LastLeast(b, n);
      assert WeightAt(n, |b|, false) == 1;
    }
  }

  lemma {:induction false} FirstLeast(b: seq<Byte>, k: nat)
    requires 0 < k <= |b|
    ensures Weighed(b, true, k) == b[0] + 256 * Weighed(b[1..], true, k - 1)
    decreases k
  {
    if k > 1 {
      FirstLeast(b, k - 1);
      Scaled(b[k - 1], Power256(k - 2));
    } else {
      assert WeightAt(0, |b|, true) == 1;
    }
  }

  lemma {:induction false} LastLeast(b: seq<Byte>, k: nat)
    requires k < |b|
    ensures Weighed(b, false, k) == 256 * Weighed(b[..|b| - 1], false, k)
    decreases k
  {
    if k > 0 {
      LastLeast(b, k - 1);
      Scaled(b[k - 1], Power256(|b| - 1 - k));
    }
  }

  lemma Scaled(x: nat, p: nat)
    ensures x * (256 * p) == 256 * (x * p)
  {
  }

  /** Digit `i` of a number to the base 256. */
  function Digit(n: nat, i: nat): Byte {
    if i == 0 then n % 256 else Digit(n / 256, i - 1)
  }

  /** The bytes of a number. */
  function Written(n: nat, len: nat, little: bool): (b: seq<Byte>)
    ensures |b| == len
  {
    seq(len, i requires 0 <= i < len => Digit(n, if little then i else len - 1 - i))
  }

  /** A number written out is read back, in either order. */
  lemma {:induction false} ReadsWritten(n: nat, len: nat, little: bool)
    requires n < Power256(len)
    ensures Unsigned(Written(n, len, little), little) == n
    decreases len
  {
    if len > 0 {
      ReadsWritten(n / 256, len - 1, little);
      WrittenMore(n, len, little);
    }
  }

  lemma WrittenMore(n: nat, len: nat, little: bool)
    requires len > 0
    ensures Written(n, len, little) ==
      if little then [n % 256] + Written(n / 256, len - 1, true) else Written(n / 256, len - 1, false) + [n % 256]
  {
    var b, c := Written(n, len, little), Written(n / 256, len - 1, little);
    var d := if little then [n % 256] + c else c + [n % 256];
    forall i | 0 <= i < len ensures b[i] == d[i] {
      assert Digit(n, 0) == n % 256;
      assert i > 0 ==> Digit(n, i) == Digit(n / 256, i - 1);
    }
  }

  /** The bytes of a number in two's complement. */
  function Complement(n: int, len: nat): (r: nat)
    requires var p: int := Power256(len); -p <= 2 * n < p
  {
    if n < 0 then n + Power256(len) else n
  }

  /** The bytes of a number that fits are read as that number: in the byte order they are written in,
      and, when it is a signed one, with its sign; past the end of the file there is none. */
  lemma ReadsBack(file: seq<Byte>, at: nat, n: int, len: nat, signed: bool, little: bool)
    requires var p: int := Power256(len); if signed then -p <= 2 * n < p else 0 <= n < p
    ensures at + len > |file| ==> ReadValue(file, at, len, signed, little) == Null
    ensures var b := Written(if signed then Complement(n, len) else n, len, little);
      at + len <= |file| && file[at..at + len] == b ==> ReadValue(file, at, len, signed, little) == Number(n)
  {
    if at + len <= |file| {
      ReadsWritten(if signed then Complement(n, len) else n, len, little);
    }
  }
}
