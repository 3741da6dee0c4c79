/** Bytes and the two splices every editing operation is measured against. */
module Bytes {
  type Byte = n: nat | n < 256

  function Min(a: int, b: int): int { if a < b then a else b }

  /** `data` put in front of position `at`. */
  function Inserted(s: seq<Byte>, at: nat, data: seq<Byte>): (r: seq<Byte>)
    requires at <= |s|
  {
    s[..at] + data + s[at..]
  }

  /** The range [at, at+len) taken out, as far as it lies inside `s`. */
  function Deleted(s: seq<Byte>, at: nat, len: nat): (r: seq<Byte>)
    requires at <= |s|
  {
    s[..at] + s[Min(at + len, |s|)..]
  }

  /** Everything before position `q` is the same in both. */
  ghost predicate Agree(a: seq<Byte>, b: seq<Byte>, q: nat) {
    q <= |a| && q <= |b| && a[..q] == b[..q]
  }

  lemma AgreeTrans(a: seq<Byte>, b: seq<Byte>, c: seq<Byte>, p: nat, q: nat)
    requires Agree(a, b, p) && Agree(b, c, q)
    ensures Agree(a, c, Min(p, q))
  {
    var k := Min(p, q);
    assert a[..k] == a[..p][..k] == b[..p][..k] == b[..k] == b[..q][..k] == c[..q][..k];
  }
}
