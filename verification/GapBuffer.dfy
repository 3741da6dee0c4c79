/** The gap buffer of `src/util/buffer.c`: a text with a cursor, kept around a movable gap. */
module GapBuffer {
  /** What the buffer stands for. */
  datatype Line = Line(text: string, cursor: nat)
  {
    predicate Inside() { cursor <= |text| }

    /** The cursor moves as far as the text goes. */
    function Moved(offset: int): (r: Line) {
      var c := cursor + offset;
      this.(cursor := if c < 0 then 0 else if c > |text| then |text| else c)
    }

    /** `s` before the cursor. */
    function Put(s: string): (r: Line)
      requires Inside()
    {
      Line(text[..cursor] + s + text[cursor..], cursor + |s|)
    }

    /** Deletes to the left, or to the right when `count` is negative, as far as the text goes. */
    function Del(count: int): (r: Line)
      requires Inside()
    {
      if count >= 0 then
        var n := if count < cursor then count else cursor;
        Line(text[..cursor - n] + text[cursor..], cursor - n)
      else
        var n := if -count < |text| - cursor then -count else |text| - cursor;
        Line(text[..cursor] + text[cursor + n..], cursor)
    }
  }

  /** Deleting to the right takes the first characters behind the cursor, as many as asked for and as
      there are; everything else stays, and so does the cursor. */
  lemma DelRight(l: Line, n: nat)
    requires l.Inside()
    ensures var r, k := l.Del(-(n as int)), Min(n, |l.text| - l.cursor);
      && r.cursor == l.cursor && |r.text| == |l.text| - k
      && (forall i :: 0 <= i < l.cursor ==> r.text[i] == l.text[i])
      && (forall i :: l.cursor <= i < |r.text| ==> r.text[i] == l.text[i + k])
  {
  }

  /** To the left the last ones in front of it. */
  lemma DelLeft(l: Line, n: nat)
    requires l.Inside()
    ensures var r, k := l.Del(n), Min(n, l.cursor);
      && r.cursor == l.cursor - k && |r.text| == |l.text| - k
      && (forall i :: 0 <= i < r.cursor ==> r.text[i] == l.text[i])
      && (forall i :: r.cursor <= i < |r.text| ==> r.text[i] == l.text[i + k])
  {
  }

  /** Deleting to the right is moving to the right and deleting to the left what was passed. */
  lemma DelRightIsLeft(l: Line, n: nat)
    requires l.Inside()
    ensures l.Moved(n).Inside() && l.Moved(n).cursor >= l.cursor
    ensures l.Del(-(n as int)) == l.Moved(n).Del(l.Moved(n).cursor - l.cursor)
  {
    if n == 0 {
      assert l.text[..l.cursor] + l.text[l.cursor..] == l.text;
    }
  }

  /** Characters are put between those in front of the cursor and those behind it. */
  lemma PutBetween(l: Line, s: string)
    requires l.Inside()
    ensures var r := l.Put(s);
      && r.cursor == l.cursor + |s| && |r.text| == |l.text| + |s|
      && (forall i :: 0 <= i < l.cursor ==> r.text[i] == l.text[i])
      && (forall i :: 0 <= i < |s| ==> r.text[l.cursor + i] == s[i])
      && (forall i :: r.cursor <= i < |r.text| ==> r.text[i] == l.text[i - |s|])
  {
  }

  /** A movement keeps the text and stops at its ends; movements that do not come to an end add up. */
  lemma MovedFar(l: Line, m: int, n: int)
    requires l.Inside()
    ensures l.Moved(m).text == l.text && l.Moved(m).Inside()
    ensures 0 <= l.cursor + m <= |l.text| ==> l.Moved(m).cursor - l.cursor == m && l.Moved(m).Moved(n) == l.Moved(m + n)
    ensures l.cursor + m < 0 ==> l.Moved(m).cursor == 0
    ensures l.cursor + m > |l.text| ==> l.Moved(m).cursor == |l.text|
  {
  }

  /** Moving the last `n` characters in front of the gap behind it keeps the text. */
  lemma Shifted(a: seq<char>, d: seq<char>, g: nat, e: nat, n: nat)
    requires n <= g <= e <= |a| && d == a[..e - n] + a[g - n..g] + a[e..]
    ensures |d| == |a| && d[..g - n] + d[e - n..] == a[..g] + a[e..]
  {
    assert d[..g - n] == a[..g - n] && d[e - n..] == a[g - n..g] + a[e..] && a[..g] == a[..g - n] + a[g - n..g];
  }

  /** And the first `n` behind it in front of it. */
  lemma ShiftedBack(a: seq<char>, d: seq<char>, g: nat, e: nat, n: nat)
    requires g <= e && e + n <= |a| && d == a[..g] + a[e..e + n] + a[g + n..]
    ensures |d| == |a| && d[..g + n] + d[e + n..] == a[..g] + a[e..]
  {
    assert d[..g + n] == a[..g] + a[e..e + n] && d[e + n..] == a[e + n..] && a[e..] == a[e..e + n] + a[e + n..];
  }

  /** Characters at the start of the gap stand between what is in front of it and what is behind. */
  lemma Filled(a: seq<char>, d: seq<char>, g: nat, e: nat, s: string)
    requires g + |s| <= e <= |a| && d == a[..g] + s + a[g + |s|..]
    ensures |d| == |a| && d[..g + |s|] == a[..g] + s && d[e..] == a[e..]
    ensures Line(d[..g + |s|] + d[e..], g + |s|) == Line(a[..g] + a[e..], g).Put(s)
  {
    assert (a[..g] + a[e..])[..g] == a[..g] && (a[..g] + a[e..])[g..] == a[e..];
  }

  lemma Slices(a: array<char>, i: nat, j: nat)
    requires i <= a.Length && j <= a.Length
    ensures a[..i] == a[..][..i] && a[j..] == a[..][j..]
  {
  }

  const DEFAULT_CAPACITY := 1024

  function Min(a: int, b: int): int { if a < b then a else b }

  function Distance(a: int, b: int): nat { if a < b then b - a else a - b }

  /** Place `i` is one of the `n` from `from` on. */
  ghost predicate Among(i: int, from: nat, n: nat) { from <= i < from + n }

  /** No place is read and written by the same copy. */
  ghost predicate Apart(from: nat, to: nat, n: nat) {
    forall i :: Among(i, from, n) ==> !Among(i, to, n)
  }

  lemma RangesApart(from: nat, to: nat, n: nat)
    ensures Apart(from, to, n) <==> (to + n <= from || from + n <= to)
  {
    if !(to + n <= from || from + n <= to) {
      var i := if to <= from then from else to;
      assert Among(i, from, n) && Among(i, to, n);
    }
  }

  /** A capacity, doubled until it is at least `need`. */
  ghost function Enough(capacity: nat, need: nat): (r: nat)
    requires 0 < capacity
    ensures need <= r && capacity <= r && (r == capacity || r < 2 * need)
    decreases need - capacity
  {
    if capacity >= need then capacity else Enough(2 * capacity, need)
  }

  function Doubled(capacity: nat, times: nat): nat
    decreases times
  {
    if times == 0 then capacity else Doubled(2 * capacity, times - 1)
  }

  /** The doubling stops as soon as it can. */
  lemma {:induction false} EnoughDoubles(capacity: nat, need: nat) returns (k: nat)
    requires 0 < capacity
    ensures Enough(capacity, need) == Doubled(capacity, k) >= need
    ensures k > 0 ==> Doubled(capacity, k - 1) < need
    decreases need - capacity
  {
    if capacity >= need {
      k := 0;
    } else {
      var j := EnoughDoubles(2 * capacity, need);
      k := j + 1;
    }
  }

  class Buffer {
    var data: array<char>       // `start` up to `end`
    var gapStart: nat
    var gapEnd: nat

    ghost predicate Valid()
      reads this
    {
      gapStart <= gapEnd <= data.Length && 0 < data.Length
    }

    ghost function Contents(): Line
      reads this, data
      requires Valid()
    {
      Line(data[..gapStart] + data[gapEnd..], gapStart)
    }

    constructor ()
      ensures Valid() && fresh(data) && Contents() == Line("", 0) && data.Length == 1024
    {
      data := new char[DEFAULT_CAPACITY];
      gapStart, gapEnd := 0, DEFAULT_CAPACITY;
    }

    method Len() returns (n: nat)
      requires Valid()
      ensures n == |Contents().text|
    {
      n := gapStart + (data.Length - gapEnd);
    }

    method Cursor() returns (n: nat)
      requires Valid()
      ensures n == Contents().cursor
    {
      n := gapStart;
    }

    /** `buffer_move_cursor`: the bytes between the old and the new place change sides.  The program
        has `memcpy` move them, which needs `apart` ranges: they overlap exactly when more bytes move
        than the gap holds. */
    method MoveCursor(offset: int) returns (apart: bool)
      requires Valid()
      modifies this, data
      ensures Valid() && data == old(data) && Contents() == old(Contents()).Moved(offset)
      ensures apart <==> Distance(Contents().cursor, old(Contents()).cursor) <= old(gapEnd - gapStart)
    {
      apart := true;
      if offset <= 0 {
        var n := Min(-offset, gapStart);
        if n == 0 {
          return;
        }
        apart := ShiftRight(n);
      } else {
        var n := Min(offset, data.Length - gapEnd);
        if n == 0 {
          return;
        }
        apart := ShiftLeft(n);
      }
    }

    /** `memcpy` of the `n` bytes in front of the gap to its other side. */
    method ShiftRight(n: nat) returns (apart: bool)
      requires Valid() && n <= gapStart
      modifies this, data
      ensures apart <==> n <= old(gapEnd - gapStart)
      ensures Valid() && data == old(data) && gapStart == old(gapStart) - n && Contents().text == old(Contents().text)
    {
      hide Apart;
      RangesApart(gapStart - n, gapEnd - n, n);
      ghost var a := data[..];
      apart := Copy(gapEnd - n, gapStart - n, n);
      Shifted(a, data[..], gapStart, gapEnd, n);
      gapStart, gapEnd := gapStart - n, gapEnd - n;
    }

    /** A copy inside the buffer, all at once; `apart` tells whether no byte is read and written. */
    method Copy(to: nat, from: nat, n: nat) returns (apart: bool)
      requires to + n <= data.Length && from + n <= data.Length
      modifies data
      ensures apart <==> Apart(from, to, n)
      ensures data[..] == old(data[..])[..to] + old(data[..])[from..from + n] + old(data[..])[to + n..]
    {
      apart := to + n <= from || from + n <= to;
      RangesApart(from, to, n);
      ghost var a := data[..];
      forall i | 0 <= i < n {
        data[to + i] := data[from + i];
      }
      assert data[..to] == a[..to] && data[to..to + n] == a[from..from + n] && data[to + n..] == a[to + n..];
      assert data[..] == data[..to] + data[to..to + n] + data[to + n..];
    }

    method ShiftLeft(n: nat) returns (apart: bool)
      requires Valid() && n <= data.Length - gapEnd
      modifies this, data
      ensures apart <==> n <= old(gapEnd - gapStart)
      ensures Valid() && data == old(data) && gapStart == old(gapStart) + n && Contents().text == old(Contents().text)
    {
      hide Apart;
      RangesApart(gapEnd, gapStart, n);
      ghost var a := data[..];
      Slices(data, gapStart, gapEnd);
      apart := Copy(gapStart, gapEnd, n);
      ShiftedBack(a, data[..], gapStart, gapEnd, n);
      Slices(data, gapStart + n, gapEnd + n);
      gapStart, gapEnd := gapStart + n, gapEnd + n;
    }

    /** `buffer_set_cursor` */
    method SetCursor(offset: nat) returns (apart: bool)
      requires Valid()
      modifies this, data
      ensures Valid() && data == old(data)
      ensures Contents() == Line(old(Contents()).text, Min(offset, |old(Contents()).text|))
      ensures apart <==> Distance(Contents().cursor, old(Contents()).cursor) <= old(gapEnd - gapStart)
    {
      var c := Cursor();
      apart := MoveCursor(offset - c);
    }

    /** `ensure_gap_size`: room for `desired` more characters, the text as it was. */
    method EnsureGapSize(desired: nat)
      requires Valid()
      modifies this
      ensures Valid() && Contents() == old(Contents()) && gapEnd - gapStart >= desired
      ensures if old(gapEnd - gapStart) >= desired then data == old(data)
        else fresh(data) && data.Length == Enough(2 * old(data.Length), desired + |Contents().text|)
    {
      if gapEnd - gapStart >= desired {
        return;
      }
      var occupied := Len();
      var capacity := data.Length * 2;
      while capacity < desired + occupied
        invariant 0 < data.Length < capacity
        invariant Enough(capacity, desired + occupied) == Enough(2 * data.Length, desired + occupied)
        decreases desired + occupied - capacity
      {
        capacity := capacity * 2;
      }
      Regrow(capacity);
    }

    method Regrow(capacity: nat)
      requires Valid() && capacity > data.Length
      modifies this
      ensures Valid() && Contents() == old(Contents()) && fresh(data) && data.Length == capacity
    {
      var first, second := gapStart, data.Length - gapEnd;
      var grown := new char[capacity];
      forall i | 0 <= i < first {
        grown[i] := data[i];
      }
      forall i | 0 <= i < second {
        grown[capacity - second + i] := data[gapEnd + i];
      }
      assert grown[..first] == data[..first];
      assert grown[capacity - second..] == data[gapEnd..];
      data := grown;
      gapStart, gapEnd := first, capacity - second;
    }

    /** `buffer_put_char` and `buffer_put_string` */
    method Put(s: string)
      requires Valid()
      modifies this, data
      ensures Valid() && Contents() == old(Contents()).Put(s) && (data == old(data) || fresh(data))
    {
      EnsureGapSize(|s|);
      ghost var a := data[..];
      Slices(data, gapStart, gapEnd);
      CopyIn(s);
      Filled(a, data[..], gapStart, gapEnd, s);
      gapStart := gapStart + |s|;
      Slices(data, gapStart, gapEnd);
    }

    /** The bytes go to the start of the gap. */
    method CopyIn(s: string)
      requires Valid() && gapStart + |s| <= gapEnd
      modifies data
      ensures data[..] == old(data[..])[..gapStart] + s + old(data[..])[gapStart + |s|..]
    {
      ghost var a, n := data[..], gapStart + |s|;
      forall i | 0 <= i < |s| {
        data[gapStart + i] := s[i];
      }
      assert data[..gapStart] == a[..gapStart] && data[gapStart..n] == s && data[n..] == a[n..];
      assert data[..] == data[..gapStart] + data[gapStart..n] + data[n..];
    }

    /** `buffer_del` */
    method Del(count: int)
      requires Valid()
      modifies this
      ensures Valid() && data == old(data) && Contents() == old(Contents()).Del(count)
    {
      ghost var was := Contents();
      if count == 0 {
        assert was.text[..was.cursor] + was.text[was.cursor..] == was.text;
        return;
      } else if count < 0 {
        gapEnd := gapEnd + Min(-count, data.Length - gapEnd);
      } else {
        gapStart := gapStart - Min(count, gapStart);
      }
      assert Contents().text == was.Del(count).text;
    }

    /** `buffer_copy_to`: the text and a terminating NUL. */
    method CopyTo(dest: array<char>)
      requires Valid() && dest != data && dest.Length > |Contents().text|
      modifies dest
      ensures dest[..|Contents().text| + 1] == Contents().text + ['\0']
      ensures forall i :: |Contents().text| < i < dest.Length ==> dest[i] == old(dest[i])
    {
      var first, second := gapStart, data.Length - gapEnd;
      forall i | 0 <= i < first {
        dest[i] := data[i];
      }
      assert dest[..first] == data[..first];
      forall i | 0 <= i < second {
        dest[first + i] := data[gapEnd + i];
      }
      assert dest[..first] == data[..first] && dest[first..first + second] == data[gapEnd..];
      dest[first + second] := '\0';
      assert dest[..first] == data[..first] && dest[first..first + second] == data[gapEnd..];
      assert dest[..first + second + 1] == dest[..first] + dest[first..first + second] + [dest[first + second]];
    }
  }

  // ------------------------------------------------------------------ any sequence of calls

  datatype Op = Move(offset: int) | Set(at: nat) | Write(s: string) | Erase(count: int)

  function Step(l: Line, op: Op): (r: Line)
    requires l.Inside()
    ensures r.Inside()
  {
    match op
    case Move(offset) => l.Moved(offset)
    case Set(at) => Line(l.text, Min(at, |l.text|))
    case Write(s) => l.Put(s)
    case Erase(count) => l.Del(count)
  }

  /** The line after a sequence of calls; the cursor never leaves the text. */
  function Run(l: Line, ops: seq<Op>): (r: Line)
    requires l.Inside()
    ensures r.Inside()
    decreases |ops|
  {
    if ops == [] then l else Run(Step(l, ops[0]), ops[1..])
  }

  method Perform(b: Buffer, ops: seq<Op>)
    requires b.Valid()
    modifies b, b.data
    ensures b.Valid() && (b.data == old(b.data) || fresh(b.data))
    ensures old(b.Contents()).Inside() && b.Contents() == Run(old(b.Contents()), ops)
    decreases |ops|
  {
    if ops != [] {
      PerformOne(b, ops[0]);
      Perform(b, ops[1..]);
    }
  }

  method PerformOne(b: Buffer, op: Op)
    requires b.Valid()
    modifies b, b.data
    ensures b.Valid() && (b.data == old(b.data) || fresh(b.data))
    ensures old(b.Contents()).Inside() && b.Contents() == Step(old(b.Contents()), op)
  {
    hide Line.Moved, Line.Put, Line.Del;
    match op
    case Move(offset) =>
      var apart := b.MoveCursor(offset);
    case Set(at) =>
      var apart := b.SetCursor(at);
    case Write(s) => b.Put(s);
    case Erase(count) => b.Del(count);
  }

  /** Deleting what was just written brings back text and cursor. */
  lemma DelUndoesPut(l: Line, s: string)
    requires l.Inside()
    ensures l.Put(s).Inside() && l.Put(s).Del(|s|) == l
  {
    var p := l.Put(s);
    assert p.text[..p.cursor - |s|] == l.text[..l.cursor] && p.text[p.cursor..] == l.text[l.cursor..];
  }
}
