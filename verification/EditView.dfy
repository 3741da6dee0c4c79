/** The hex editing view (`src/views/edit.c`): a cursor on one of the two digits of a byte. */
module EditView {
  import opened Bytes
  import opened State
  import opened File
  import opened Effect
  import opened Outcome
  import opened Reading
  import E = Editor

  datatype Movement = Left | Right | Up | Down | LineStart | LineEnd | PageUp | PageDown | Absolute(arg: nat)

  type Digit = d: nat | d < 16

  datatype Key = Hex(digit: Digit) | Other

  /** What the view stands for: the text, and the digit under the cursor. */
  datatype Screen = Screen(text: seq<Byte>, cursor: nat, left: bool)
  {
    /** Behind the last byte there is only the left digit. */
    predicate Inside() { cursor <= |text| && (cursor == |text| ==> left) }
  }

  /** Where a movement leads inside the file.  One step to the left or right is one digit; the place
      behind the last byte has only its left digit. */
  ghost function Target(m: Movement, cursor: nat, left: bool, size: nat, cols: nat, page: nat): (nat, bool)
    requires 0 < cols && cursor <= size
  {
    var digit := 2 * cursor + if left then 0 else 1;
    var (c, l) := match m
      case Left => if digit == 0 then (0, true) else ((digit - 1) / 2, (digit - 1) % 2 == 0)
      case Right => ((digit + 1) / 2, (digit + 1) % 2 == 0)
      case Up => (if cursor < cols then cursor else cursor - cols, left)
      case Down => (if cursor + cols <= size then cursor + cols else cursor, left)
      case LineStart => (cursor - Column(cursor, cols), true)
      case LineEnd => (Min(cursor - Column(cursor, cols) + cols - 1, size), false)
      case PageUp => (if cursor < page then 0 else cursor - page, left)
      case PageDown => (Min(cursor + page, size), left)
      case Absolute(arg) => (Min(arg, size), true);
    if c >= size then (size, true) else (c, l)
  }

  /** Where it leads from behind the end: forwards back to the end or nowhere. */
  ghost function Return(m: Movement, cursor: nat, left: bool, size: nat, cols: nat, page: nat): (nat, bool)
    requires 0 < cols && cursor > size
  {
    var (c, l) := match m
      case Left => if left then (cursor - 1, false) else (cursor, true)
      case Right => (cursor, false)
      case Up => (if cursor < cols then cursor else cursor - cols, left)
      case Down => (cursor, left)
      case LineStart => (cursor - Column(cursor, cols), true)
      case LineEnd => (Min(cursor - Column(cursor, cols) + cols - 1, size), false)
      case PageUp => (if cursor < page then 0 else cursor - page, left)
      case PageDown => (size, left)
      case Absolute(arg) => (Min(arg, size), true);
    (c, l || c == size)
  }

  ghost function Moved(s: Screen, m: Movement, cols: nat, page: nat): Screen
    requires 0 < cols
  {
    var size := |s.text|;
    var (c, l) :=
      if s.cursor <= size then Target(m, s.cursor, s.left, size, cols, page)
      else Return(m, s.cursor, s.left, size, cols, page);
    s.(cursor := c, left := l)
  }

  /** The assignments of the source lead there. */
  lemma Arrived(m: Movement, s: Screen, cols: nat, page: nat, cursor: nat, left: bool)
    requires 0 < cols
    requires var (was, side, size) := (s.cursor, s.left, |s.text|);
      var (c, l) := match m
        case Left => if !side then (was, true) else if was > 0 then (was - 1, false) else (was, side)
        case Right => if side then (was, false) else if was < size then (was + 1, true) else (was, side)
        case Up => (if was > cols - 1 then was - cols else was, side)
        case Down => (if was + cols <= size then was + cols else was, side)
        case LineStart => (was - Column(was, cols), true)
        case LineEnd => (Min(was + cols - Column(was, cols) - 1, size), false)
        case PageUp => (if was >= page then was - page else 0, side)
        case PageDown => (if was + page < size then was + page else size, side)
        case Absolute(arg) => (Min(arg, size), true);
      cursor == c && left == (l || c == size)
    ensures s.(cursor := cursor, left := left) == Moved(s, m, cols, page)
  {
    Division(s.cursor, cols);
    hide Column;
    if s.cursor <= |s.text| {
      assert (cursor, left) == Target(m, s.cursor, s.left, |s.text|, cols, page);
    } else {
      assert (cursor, left) == Return(m, s.cursor, s.left, |s.text|, cols, page);
    }
  }

  /** How many bytes of its line are before the cursor. */
  function Column(c: nat, n: nat): (r: nat)
    requires 0 < n
    ensures r <= c && r < n
  {
    Division(c, n);
    c % n
  }

  function Page(cols: nat, lines: nat): nat {
    cols * lines
  }

  /** To the left and right: one digit at a time, for any cursor, also behind the end. */
  lemma MovedAcross(s: Screen, right: bool, cols: nat, page: nat)
    requires 0 < cols
    ensures var t, size := Moved(s, if right then Right else Left, cols, page), |s.text|;
      && t.text == s.text && (t.cursor == size ==> t.left)
      && if right then
           && t.cursor == (if !s.left && s.cursor < size then s.cursor + 1 else s.cursor)
           && (t.cursor < size ==> Place(t) == Place(s) + 1)
         else
           && t.cursor == (if s.left && s.cursor > 0 then s.cursor - 1 else s.cursor)
           && (t.cursor != size ==> Place(t) == if Place(s) == 0 then 0 else Place(s) - 1)
  {
    hide Column;
  }

  /** Upwards by one line or by a page: the column stays, unless there are not as many lines above. */
  lemma MovedUp(s: Screen, cols: nat, lines: nat, page: bool)
    requires 0 < cols
    ensures var t, n := Moved(s, if page then PageUp else Up, cols, Page(cols, lines)), if page then lines else 1;
      && t.text == s.text && (t.left == if t.cursor == |s.text| then true else s.left)
      && if n <= s.cursor / cols then t.cursor / cols == s.cursor / cols - n && t.cursor % cols == s.cursor % cols
         else t.cursor == if page then 0 else s.cursor
  {
    Upwards(s.cursor, cols, if page then lines else 1);
    Division(s.cursor, cols);
    hide Column;
  }

  /** Downwards: the column stays.  A line that is not in the file is not entered; a page that is not
      leads to the end. */
  lemma MovedDown(s: Screen, cols: nat, lines: nat, page: bool)
    requires 0 < cols
    ensures var t, n := Moved(s, if page then PageDown else Down, cols, Page(cols, lines)), if page then lines else 1;
      && t.text == s.text && (t.left == if t.cursor == |s.text| then true else s.left)
      && if s.cursor + cols * n <= |s.text| then
           t.cursor / cols == s.cursor / cols + n && t.cursor % cols == s.cursor % cols
         else t.cursor == if page then |s.text| else s.cursor
  {
    Downwards(s.cursor, cols, if page then lines else 1);
    hide Column;
  }

  /** To the first digit of the line and to the last one of it or of the file. */
  lemma MovedOnLine(s: Screen, cols: nat, page: nat, end: bool)
    requires 0 < cols
    ensures var t := Moved(s, if end then LineEnd else LineStart, cols, page);
      && t.text == s.text && (t.left <==> !end || t.cursor == |s.text|)
      && if end && s.cursor - s.cursor % cols + cols > |s.text| then t.cursor == |s.text|
         else t.cursor / cols == s.cursor / cols && t.cursor % cols == if end then cols - 1 else 0
  {
    OnLine(s.cursor, cols);
  }

  lemma MovedTo(s: Screen, arg: nat, cols: nat, page: nat)
    requires 0 < cols
    ensures Moved(s, Absolute(arg), cols, page) == s.(cursor := Min(arg, |s.text|), left := true)
  {
  }

  /** The place `k` lines further up. */
  lemma Upwards(c: nat, n: nat, k: nat)
    requires 0 < n
    ensures n * k <= c <==> k <= c / n
    ensures k <= c / n ==> n * k <= c && (c - n * k) / n == c / n - k && (c - n * k) % n == c % n
  {
    var q := c / n;
    assert c == n * q + c % n;
    Multiple(n, q - k);
    assert n * (q - k) == n * q - n * k;
    if k <= q {
      Quotient(c - n * k, n, q - k, c % n);
    }
  }

  /** The place `k` lines further down. */
  lemma Downwards(c: nat, n: nat, k: nat)
    requires 0 < n
    ensures (c + n * k) / n == c / n + k && (c + n * k) % n == c % n
  {
    var q := c / n;
    assert n * (q + k) == n * q + n * k;
    Quotient(c + n * k, n, q + k, c % n);
  }

  /** The ends of a line. */
  lemma OnLine(c: nat, n: nat)
    requires 0 < n
    ensures c % n <= c && (c - c % n) / n == c / n && (c - c % n) % n == 0
    ensures (c - c % n + n - 1) / n == c / n && (c - c % n + n - 1) % n == n - 1
  {
    assert c == n * (c / n) + c % n && 0 <= n * (c / n);
    Quotient(c - c % n, n, c / n, 0);
    Quotient(c - c % n + n - 1, n, c / n, n - 1);
  }

  lemma Quotient(v: int, n: nat, q: int, r: nat)
    requires r < n && v == n * q + r
    ensures v / n == q && v % n == r
  {
    var d := v / n - q;
    assert n * d == n * (v / n) - n * q;
    Multiple(n, d);
  }

  lemma Multiple(n: nat, d: int)
    ensures d >= 1 ==> n * d >= n
    ensures d <= -1 ==> n * d + n <= 0
    ensures d >= 0 ==> n * d >= 0
  {
    if d >= 1 {
      assert n * d == n * (d - 1) + n;
    } else if d <= -1 {
      assert n * d + n == -(n * (-d - 1));
    }
  }

  lemma Division(c: nat, n: nat)
    requires 0 < n
    ensures c == c / n * n + c % n && c % n < n && (c / n == 0 <==> c < n) && 0 <= c / n * n <= c
  {
  }

  /** A key changes the file if it is a digit, and neither replaces one behind the last byte nor adds
      a byte behind the end. */
  predicate Accepts(s: Screen, key: Key, replace: bool) {
    key.Hex? && if replace || !s.left then s.cursor < |s.text| else s.cursor <= |s.text|
  }

  function Pair(high: Digit, low: Digit): Byte {
    16 * (high as int) + low
  }

  /** A byte with one of its digits replaced. */
  function WithDigit(byte: Byte, left: bool, d: Digit): Byte {
    if left then Pair(d, byte % 16) else byte - byte % 16 + d
  }

  /** What a key makes of the screen. */
  ghost function Typed(s: Screen, key: Key, replace: bool): Screen {
    if !Accepts(s, key, replace) then s
    else
      var t := if replace || !s.left then s.text[s.cursor := WithDigit(s.text[s.cursor], s.left, key.digit)]
               else Inserted(s.text, s.cursor, [Pair(key.digit, 0)]);
      if s.left then Screen(t, s.cursor, false) else Screen(t, s.cursor + 1, true)
  }

  /** What a deletion makes of it.  A negative count deletes to the right.  To the left, a single
      deletion on the right digit clears the left one; any other takes `count` bytes, or none if
      there are fewer, and moves the cursor back by one byte at most. */
  ghost function Erased(s: Screen, count: int): Screen {
    var c, size := s.cursor, |s.text|;
    if count < 0 && c < size then s.(text := Deleted(s.text, c, -count))
    else if count == 1 && !s.left then
      if c < size then Screen(s.text[c := s.text[c] % 16], c, true) else s
    else if 0 < count <= c && c - count < size then
      Screen(Deleted(s.text, c - count, count), if s.left then c - 1 else c, true)
    else if count > 0 && c == 0 then s.(left := true)
    else s
  }

  /** What the cursor is on, counted in digits. */
  function Place(s: Screen): nat { 2 * s.cursor + if s.left then 0 else 1 }

  /** One digit of a byte is replaced and the other one stays. */
  lemma DigitReplaced(byte: Byte, left: bool, d: Digit)
    ensures WithDigit(byte, left, d) / 16 == if left then d else byte / 16
    ensures WithDigit(byte, left, d) % 16 == if left then byte % 16 else d
  {
  }

  lemma PairDigits(high: Digit, low: Digit)
    ensures Pair(high, low) / 16 == high && Pair(high, low) % 16 == low
  {
  }

  /** A digit on the left is the high one of its byte, one on the right the low one.  It replaces the
      one under the cursor, or, in insert mode on the left, comes with a new byte whose low digit is 0;
      nothing else changes, and the cursor is one digit further. */
  lemma TypedDigit(s: Screen, d: Digit, replace: bool)
    ensures var t, c := Typed(s, Hex(d), replace), s.cursor;
      if replace || !s.left then
        if c >= |s.text| then t == s
        else
          && |t.text| == |s.text| && (forall i :: 0 <= i < |s.text| && i != c ==> t.text[i] == s.text[i])
          && t.text[c] / 16 == (if s.left then d else s.text[c] / 16)
          && t.text[c] % 16 == (if s.left then s.text[c] % 16 else d)
          && Place(t) == Place(s) + 1
      else if c > |s.text| then t == s
      else
        && |t.text| == |s.text| + 1 && t.text[c] / 16 == d && t.text[c] % 16 == 0
        && (forall i :: 0 <= i < c ==> t.text[i] == s.text[i])
        && (forall i :: c <= i < |s.text| ==> t.text[i + 1] == s.text[i])
        && Place(t) == Place(s) + 1
    ensures Typed(s, Other, replace) == s
  {
    hide WithDigit, Pair;
    PairDigits(d, 0);
    if s.cursor < |s.text| {
      DigitReplaced(s.text[s.cursor], s.left, d);
    }
  }

  /** A deletion to the right takes bytes from the cursor on, as many as there are, and the cursor stays;
      without a byte under it nothing happens. */
  lemma ErasedRight(s: Screen, n: nat)
    requires 0 < n
    ensures var t, k := Erased(s, -(n as int)), Min(n, |s.text| - s.cursor);
      && t.cursor == s.cursor && t.left == s.left
      && if s.cursor >= |s.text| then t.text == s.text
         else
           && |t.text| == |s.text| - k && (forall i :: 0 <= i < s.cursor ==> t.text[i] == s.text[i])
           && (forall i :: s.cursor <= i < |t.text| ==> t.text[i] == s.text[i + k])
  {
  }

  /** To the left, one deletion on the right digit makes the left digit 0 and goes there. */
  lemma ErasedDigit(s: Screen)
    requires !s.left && s.cursor < |s.text|
    ensures var t := Erased(s, 1);
      && Place(t) == Place(s) - 1 && |t.text| == |s.text|
      && t.text[s.cursor] / 16 == 0 && t.text[s.cursor] % 16 == s.text[s.cursor] % 16
      && forall i :: 0 <= i < |s.text| && i != s.cursor ==> t.text[i] == s.text[i]
  {
  }

  /** Any other takes exactly the `n` bytes in front of the cursor, as far as they lie in the file, and
      nothing if there are fewer in front of it; the cursor goes to the left digit, one byte back if it
      was there already. */
  lemma ErasedLeft(s: Screen, n: nat)
    requires 0 < n && !(n == 1 && !s.left)
    ensures var t := Erased(s, n);
      if n > s.cursor then t.text == s.text && t.cursor == s.cursor && (t.left <==> s.left || s.cursor == 0)
      else if s.cursor - n >= |s.text| then t == s
      else
        var to := Min(s.cursor, |s.text|);
        && t.left && t.cursor == (if s.left then s.cursor - 1 else s.cursor)
        && |t.text| == |s.text| - (to - (s.cursor - n))
        && (forall i :: 0 <= i < s.cursor - n ==> t.text[i] == s.text[i])
        && (forall i :: to <= i < |s.text| ==> t.text[i - (to - (s.cursor - n))] == s.text[i])
  {
  }

  /** A deletion to the left that takes more bytes than the cursor has before the end, and one. */
  predicate Overshoots(s: Screen, count: int) {
    0 < count <= s.cursor && !(count == 1 && !s.left) && s.cursor + count > |s.text| + if s.left then 1 else 0
  }

  /** A deletion takes the cursor out of the file exactly when it overshoots. */
  lemma ErasedInside(s: Screen, count: int)
    requires s.cursor <= |s.text|
    ensures Erased(s, count).cursor > |Erased(s, count).text| <==> Overshoots(s, count)
  {
  }

  /** Movements and keys never do, and they keep it off the right digit behind the last byte. */
  lemma KeptInside(s: Screen, m: Movement, key: Key, replace: bool, cols: nat, page: nat)
    requires s.cursor <= |s.text| && 0 < cols
    ensures Moved(s, m, cols, page).Inside()
    ensures s.Inside() ==> Typed(s, key, replace).Inside()
    ensures Typed(s, key, replace).cursor <= |Typed(s, key, replace).text|
  {
    Division(s.cursor, cols);
  }

  class EditView {
    const file: File
    var cursorPos: nat
    var left: bool
    var scrollLines: nat

    constructor (file: File)
      ensures this.file == file && cursorPos == 0 && left && scrollLines == 0
    {
      this.file, cursorPos, left, scrollLines := file, 0, true, 0;
    }

    ghost function Now(): Screen
      reads this, file
    {
      Screen(file.Abs().text, cursorPos, left)
    }

    /** The line of the cursor is in the window. */
    ghost predicate Shows(cols: nat, lines: nat)
      requires 0 < cols
      reads this
    {
      scrollLines <= cursorPos / cols < scrollLines + lines
    }

    /** `on_movement`, for a window of `lines` lines of `cols` bytes. */
    method OnMovement(m: Movement, cols: nat, lines: nat)
      requires file.Valid() && 0 < cols && 0 < lines
      modifies this
      ensures file.Valid() && file.View() == old(file.View())
      ensures Now() == Moved(old(Now()), m, cols, Page(cols, lines)) && Shows(cols, lines)
    {
      hide State.Tidy, State.Abs, EditView.Shows, Page, Moved;
      var size := FileSize();
      MoveCursor(m, size, cols, Page(cols, lines), Now());
      Scroll(cols, lines);
    }

    /** The cursor's part of a movement. */
    method MoveCursor(m: Movement, size: nat, cols: nat, pagesize: nat, ghost s: Screen)
      requires 0 < cols && s == Screen(s.text, cursorPos, left) && size == |s.text|
      modifies `cursorPos, `left
      ensures s.(cursor := cursorPos, left := left) == Moved(s, m, cols, pagesize)
    {
      hide Moved, Column;
      match m {
        case Left =>
          if !left {
            left := true;
          } else if cursorPos > 0 {
            cursorPos := cursorPos - 1;
            left := false;
          }
        case Right =>
          if left {
            left := false;
          } else if cursorPos < size {
            cursorPos := cursorPos + 1;
            left := true;
          }
        case Up =>
          if cursorPos > cols - 1 {
            cursorPos := cursorPos - cols;
          }
        case Down =>
          if cursorPos + cols <= size {
            cursorPos := cursorPos + cols;
          }
        case LineStart =>
          cursorPos := cursorPos - Column(cursorPos, cols);
          left := true;
        case LineEnd =>
          cursorPos := Min(cursorPos + cols - Column(cursorPos, cols) - 1, size);
          left := false;
        case PageUp =>
          cursorPos := if cursorPos >= pagesize then cursorPos - pagesize else 0;
        case PageDown =>
          cursorPos := if cursorPos + pagesize < size then cursorPos + pagesize else size;
        case Absolute(arg) =>
          cursorPos := Min(arg, size);
          left := true;
      }
      // behind the last byte the cursor is always on the left digit
      if cursorPos == size {
        left := true;
      }
      Arrived(m, s, cols, pagesize, cursorPos, left);
    }

    /** The window follows the cursor. */
    method Scroll(cols: nat, lines: nat)
      requires 0 < cols && 0 < lines
      modifies `scrollLines
      ensures Shows(cols, lines)
      ensures old(scrollLines) <= cursorPos / cols < old(scrollLines) + lines ==> scrollLines == old(scrollLines)
      ensures cursorPos / cols < old(scrollLines) ==> scrollLines == cursorPos / cols
      ensures cursorPos / cols >= old(scrollLines) + lines ==> scrollLines + lines == cursorPos / cols + 1
    {
      var line := cursorPos / cols;
      if line < scrollLines {
        scrollLines := line;
      } else if line > scrollLines + lines - 1 {
        scrollLines := line - lines + 1;
      }
    }

    method FileSize() returns (size: nat)
      requires file.Valid()
      ensures file.Valid() && file.View() == old(file.View()) && size == |file.Abs().text|
    {
      hide State.Tidy;
      SizeTrue(file.View());
      size := file.size;
    }

    /** `on_input`: a hex digit replaces the one under the cursor, or starts a new byte. */
    method OnInput(key: Key, replace: bool, cols: nat, lines: nat)
      requires file.Valid() && 0 < cols && 0 < lines && this !in file.Footprint()
      modifies this, file.Footprint()
      ensures file.Valid() && fresh(file.Footprint() - old(file.Footprint()))
      ensures Now() == Typed(old(Now()), key, replace)
      ensures if Accepts(old(Now()), key, replace) then Shows(cols, lines) else scrollLines == old(scrollLines)
    {
      hide State.Tidy, State.Abs, File.Shown, File.Valid, Moved, Page, EditView.Shows, Inserted, Deleted;
      if key.Other? {
        return;
      }
      ghost var s := Now();
      var ok;
      if replace || left == false {
        ok := Overtype(key.digit);
      } else {
        ok := InsertByte(Pair(key.digit, 0));
      }
      if !ok {
        return;
      }
      RightAfter(s, key, replace, Now(), cols, Page(cols, lines));
      OnMovement(Right, cols, lines);
    }

    /** The digit under the cursor is replaced. */
    method Overtype(d: Digit) returns (ok: bool)
      requires file.Valid() && this !in file.Footprint()
      modifies file.Footprint()
      ensures file.Valid() && fresh(file.Footprint() - old(file.Footprint()))
      ensures ok == (cursorPos < |old(file.Abs().text)|)
      ensures var t, c := old(file.Abs().text), old(cursorPos);
        file.Abs().text == if ok then t[c := WithDigit(t[c], old(left), d)] else t
    {
      hide State.Tidy, State.Abs, File.Shown, File.Valid;
      var byte;
      ok, byte := ReadByte(file, cursorPos);
      if !ok {
        return;
      }
      if left {
        byte := 16 * d + byte % 16;
      } else {
        byte := byte - byte % 16 + d;
      }
      ok := Overwrite(byte);
    }

    method Overwrite(byte: Byte) returns (ok: bool)
      requires file.Valid() && this !in file.Footprint()
      modifies file.Footprint()
      ensures file.Valid() && fresh(file.Footprint() - old(file.Footprint()))
      ensures ok == (cursorPos < |old(file.Abs().text)|)
      ensures file.Abs().text == if ok then old(file.Abs().text)[old(cursorPos) := byte] else old(file.Abs().text)
    {
      hide State.Tidy, State.Abs, File.Shown, File.Valid, E.Told, DeletePaid, InsertPaid, Lands, Growing, Fits,
           Shrinking, Leaves, Deleted;
      ghost var cut, i, mid, grown, k;
      var first, second;
      ok, first, second, cut, i, mid, grown, k := file.Replace(cursorPos, [byte]);
    }

    method InsertByte(byte: Byte) returns (ok: bool)
      requires file.Valid() && this !in file.Footprint()
      modifies file.Footprint()
      ensures file.Valid() && fresh(file.Footprint() - old(file.Footprint()))
      ensures ok == (cursorPos <= |old(file.Abs().text)|)
      ensures file.Abs().text == if ok then Inserted(old(file.Abs().text), old(cursorPos), [byte])
        else old(file.Abs().text)
    {
      hide State.Tidy, State.Abs, File.Shown, File.Valid;
      ghost var hit, k;
      var event;
      ok, event, hit, k := file.Insert(cursorPos, [byte]);
    }

    /** `on_delete` */
    method OnDelete(count: int, cols: nat, lines: nat)
      requires file.Valid() && 0 < cols && 0 < lines && this !in file.Footprint()
      modifies this, file.Footprint()
      ensures file.Valid() && fresh(file.Footprint() - old(file.Footprint()))
      ensures Now() == Erased(old(Now()), count)
    {
      hide State.Tidy, State.Abs, File.Shown, File.Valid, Moved, Page, EditView.Shows, Inserted, Deleted;
      var size := FileSize();
      if count == 0 {
        return;
      } else if count < 0 && cursorPos < size {
        var ok := Cut(cursorPos, -count);
      } else if count == 1 && left == false {
        ClearLeft(cols, lines);
      } else {
        DeleteLeft(count, cols, lines);
      }
    }

    /** `count` bytes before the cursor. */
    method DeleteLeft(count: int, cols: nat, lines: nat)
      requires file.Valid() && 0 < cols && 0 < lines && this !in file.Footprint()
      requires count != 0 && (count < 0 ==> cursorPos >= |file.Abs().text|) && !(count == 1 && !left)
      modifies this, file.Footprint()
      ensures file.Valid() && fresh(file.Footprint() - old(file.Footprint()))
      ensures Now() == Erased(old(Now()), count)
    {
      hide State.Tidy, State.Abs, File.Shown, File.Valid, Moved, Page, EditView.Shows, Inserted, Deleted;
      ghost var s := Now();
      var start, len := cursorPos - count, count;
      if start < 0 {
        len := len + start;
      }
      var ok := DeleteAt(start, len);
      if ok {
        LeftAfter(Now(), cols, Page(cols, lines));
        OnMovement(Left, cols, lines);
        left := true;
      }
    }

    /** The left digit of the byte under the cursor becomes 0. */
    method ClearLeft(cols: nat, lines: nat)
      requires file.Valid() && 0 < cols && 0 < lines && this !in file.Footprint() && !left
      modifies this, file.Footprint()
      ensures file.Valid() && fresh(file.Footprint() - old(file.Footprint()))
      ensures Now() == Erased(old(Now()), 1)
    {
      hide State.Tidy, State.Abs, File.Shown, File.Valid, Page, EditView.Shows, Moved;
      var found, byte := ReadByte(file, cursorPos);
      byte := if found then byte % 16 else 0;
      var ok := Overwrite(byte);
      if ok {
        LeftAfter(Now(), cols, Page(cols, lines));
        OnMovement(Left, cols, lines);
      }
    }

    /** `hedit_file_delete` with arguments that are converted to unsigned numbers: a negative one
        is then greater than the size of any file. */
    method DeleteAt(start: int, len: int) returns (ok: bool)
      requires file.Valid() && this !in file.Footprint()
      requires len < 0 ==> start > |file.Abs().text|
      modifies file.Footprint()
      ensures file.Valid() && fresh(file.Footprint() - old(file.Footprint()))
      ensures var t := old(file.Abs().text);
        && ok == (len == 0 || (0 < len && 0 <= start < |t|))
        && file.Abs().text == if ok && len != 0 then Deleted(t, start, len) else t
    {
      hide State.Tidy, State.Abs, File.Shown, File.Valid;
      if len == 0 {
        return true;
      } else if len < 0 || start < 0 {
        return false;
      }
      ok := Cut(start, len);
    }

    method Cut(start: nat, len: nat) returns (ok: bool)
      requires file.Valid() && this !in file.Footprint()
      modifies file.Footprint()
      ensures file.Valid() && fresh(file.Footprint() - old(file.Footprint()))
      ensures ok == (len == 0 || start < |old(file.Abs().text)|)
      ensures file.Abs().text == if start < |old(file.Abs().text)| then Deleted(old(file.Abs().text), start, len)
        else old(file.Abs().text)
    {
      hide State.Tidy, State.Abs, File.Shown, File.Valid;
      ghost var hit, k;
      var event;
      ok, event, hit, k := file.Delete(start, len);
    }
  }

  /** The step to the right that follows a digit. */
  lemma RightAfter(s: Screen, key: Key, replace: bool, t: Screen, cols: nat, page: nat)
    requires 0 < cols && Accepts(s, key, replace) && t == Typed(s, key, replace).(cursor := s.cursor, left := s.left)
    ensures Moved(t, Right, cols, page) == Typed(s, key, replace)
  {
    hide Inserted;
    assert !replace && s.left ==> |Inserted(s.text, s.cursor, [Pair(key.digit, 0)])| == |s.text| + 1 by {
      if !replace && s.left {
        InsertedLength(s.text, s.cursor, [Pair(key.digit, 0)]);
      }
    }
  }

  /** The step to the left that follows a deletion. */
  lemma LeftAfter(s: Screen, cols: nat, page: nat)
    requires 0 < cols
    ensures var t := Moved(s, Left, cols, page);
      && t.text == s.text && t.cursor == (if s.left && s.cursor > 0 then s.cursor - 1 else s.cursor)
      && (!s.left ==> t.left)
  {
  }

  // ------------------------------------------------------------------ whole runs

  datatype Gesture = Moving(m: Movement) | Typing(key: Key, replace: bool) | Deleting(count: int)

  ghost function Answer(s: Screen, g: Gesture, cols: nat, page: nat): Screen
    requires 0 < cols
  {
    match g
    case Moving(m) => Moved(s, m, cols, page)
    case Typing(key, replace) => Typed(s, key, replace)
    case Deleting(count) => Erased(s, count)
  }

  ghost function Screens(s: Screen, gs: seq<Gesture>, cols: nat, page: nat): Screen
    requires 0 < cols
    decreases |gs|
  {
    if gs == [] then s else Screens(Answer(s, gs[0], cols, page), gs[1..], cols, page)
  }

  /** After any gestures, from any cursor, the view shows the screen they make. */
  method Handle(v: EditView, gs: seq<Gesture>, cols: nat, lines: nat)
    requires v.file.Valid() && 0 < cols && 0 < lines && v !in v.file.Footprint()
    modifies v, v.file.Footprint()
    ensures v.file.Valid() && v.Now() == Screens(old(v.Now()), gs, cols, Page(cols, lines))
    decreases |gs|
  {
    hide State.Tidy, File.Valid, State.Abs, Moved, Typed, Erased, Page, EditView.Shows, Accepts, Cells;
    if gs != [] {
      match gs[0] {
        case Moving(m) => v.OnMovement(m, cols, lines);
        case Typing(key, replace) => v.OnInput(key, replace, cols, lines);
        case Deleting(count) => v.OnDelete(count, cols, lines);
      }
      Handle(v, gs[1..], cols, lines);
    }
  }

  /** As long as no deletion takes more than one byte to the left, the cursor stays in the file. */
  lemma {:induction false} StaysInside(s: Screen, gs: seq<Gesture>, cols: nat, page: nat)
    requires 0 < cols && s.cursor <= |s.text| && forall g :: g in gs && g.Deleting? ==> g.count <= 1
    ensures var t := Screens(s, gs, cols, page); t.cursor <= |t.text|
    decreases |gs|
  {
    hide Moved, Typed, Erased;
    if gs != [] {
      var t := Answer(s, gs[0], cols, page);
      match gs[0] {
        case Moving(m) => KeptInside(s, m, Other, false, cols, page);
        case Typing(key, replace) => KeptInside(s, Left, key, replace, cols, page);
        case Deleting(count) =>
          assert gs[0] in gs;
          ErasedInside(s, count);
      }
      StaysInside(t, gs[1..], cols, page);
    }
  }

  /** A larger one may take it out: three bytes deleted in front of the end leave the cursor two
      bytes behind it, where no digit is accepted. */
  lemma LeavesFile(x: Byte, y: Byte, z: Byte, key: Key)
    ensures var s := Erased(Screen([x, y, z], 3, true), 3); s == Screen([], 2, true) && Typed(s, key, false) == s
  {
  }

  /** The bytes that pairs of digits spell. */
  ghost function Spelled(digits: seq<Digit>): (r: seq<Byte>)
    requires |digits| % 2 == 0
    ensures |r| == |digits| / 2
  {
    seq(|digits| / 2, i requires 0 <= i < |digits| / 2 => Pair(digits[2 * i], digits[2 * i + 1]))
  }

  /** The digits come in order, the high one of each byte first. */
  lemma SpelledDigits(digits: seq<Digit>, i: nat)
    requires |digits| % 2 == 0 && i < |digits| / 2
    ensures Spelled(digits)[i] / 16 == digits[2 * i] && Spelled(digits)[i] % 16 == digits[2 * i + 1]
  {
    PairDigits(digits[2 * i], digits[2 * i + 1]);
  }

  /** Two digits in insert mode make one byte. */
  method TypeByte(v: EditView, high: Digit, low: Digit, cols: nat, lines: nat)
    requires v.file.Valid() && 0 < cols && 0 < lines && v !in v.file.Footprint()
    requires v.left && v.cursorPos <= |v.file.Abs().text|
    modifies v, v.file.Footprint()
    ensures v.file.Valid() && fresh(v.file.Footprint() - old(v.file.Footprint()))
    ensures v.left && v.cursorPos == old(v.cursorPos) + 1 <= |v.file.Abs().text|
    ensures v.file.Abs().text == Inserted(old(v.file.Abs().text), old(v.cursorPos), [Pair(high, low)])
  {
    hide State.Tidy, State.Abs, File.Shown, File.Valid, Inserted, Pair;
    TwoDigits(v.file.Abs().text, v.cursorPos, high, low);
    v.OnInput(Hex(high), false, cols, lines);
    v.OnInput(Hex(low), false, cols, lines);
  }

  lemma TwoDigits(t: seq<Byte>, c: nat, high: Digit, low: Digit)
    requires c <= |t|
    ensures var w := Inserted(t, c, [Pair(high, 0)]);
      && |w| == |t| + 1
      && w[c := WithDigit(w[c], false, low)] == Inserted(t, c, [Pair(high, low)])
    ensures |Inserted(t, c, [Pair(high, low)])| == |t| + 1
  {
  }

  /** Typing 2n digits in insert mode inserts exactly the n bytes they spell, and leaves the cursor
      behind them. */
  method Type(v: EditView, digits: seq<Digit>, cols: nat, lines: nat)
    requires v.file.Valid() && 0 < cols && 0 < lines && v !in v.file.Footprint()
    requires |digits| % 2 == 0 && v.left && v.cursorPos <= |v.file.Abs().text|
    modifies v, v.file.Footprint()
    ensures v.file.Valid() && v.left && v.cursorPos == old(v.cursorPos) + |digits| / 2
    ensures v.file.Abs().text == Inserted(old(v.file.Abs().text), old(v.cursorPos), Spelled(digits))
  {
    hide State.Tidy, State.Abs, File.Shown, File.Valid, Spelled, Inserted;
    ghost var t, p := v.file.Abs().text, v.cursorPos;
    var i := 0;
    SpelledNone(digits, t, p);
    while i < |digits|
      invariant 0 <= i <= |digits| && i % 2 == 0
      invariant v.file.Valid() && v !in v.file.Footprint() && fresh(v.file.Footprint() - old(v.file.Footprint()))
      invariant v.left && v.cursorPos == p + i / 2 <= |v.file.Abs().text|
      invariant v.file.Abs().text == Inserted(t, p, Spelled(digits[..i]))
    {
      SpelledMore(digits, i, t, p);
      TypeByte(v, digits[i], digits[i + 1], cols, lines);
      i := i + 2;
    }
    assert digits[..i] == digits;
  }

  lemma SpelledNone(digits: seq<Digit>, t: seq<Byte>, p: nat)
    requires p <= |t|
    ensures Inserted(t, p, Spelled(digits[..0])) == t
  {
  }

  /** One more byte. */
  lemma SpelledMore(digits: seq<Digit>, i: nat, t: seq<Byte>, p: nat)
    requires i + 1 < |digits| && i % 2 == 0 && p <= |t|
    ensures var u := Inserted(t, p, Spelled(digits[..i])); var c := p + i / 2;
      && c <= |u|
      && Inserted(u, c, [Pair(digits[i], digits[i + 1])]) == Inserted(t, p, Spelled(digits[..i + 2]))
  {
    hide Spelled, Pair;
    SpelledTwo(digits, i);
    InsertedTwice(t, p, Spelled(digits[..i]), Pair(digits[i], digits[i + 1]));
  }

  lemma SpelledTwo(digits: seq<Digit>, i: nat)
    requires i + 1 < |digits| && i % 2 == 0
    ensures Spelled(digits[..i + 2]) == Spelled(digits[..i]) + [Pair(digits[i], digits[i + 1])]
  {
    hide Pair;
    var x, y := Spelled(digits[..i + 2]), Spelled(digits[..i]) + [Pair(digits[i], digits[i + 1])];
    assert forall k :: 0 <= k < |x| ==> x[k] == y[k];
    assert x == y;
  }

  lemma InsertedTwice(t: seq<Byte>, p: nat, x: seq<Byte>, b: Byte)
    requires p <= |t|
    ensures p + |x| <= |Inserted(t, p, x)| && Inserted(Inserted(t, p, x), p + |x|, [b]) == Inserted(t, p, x + [b])
  {
    var u := Inserted(t, p, x);
    assert u[..p + |x|] == t[..p] + x && u[p + |x|..] == t[p..];
    assert t[..p] + x + [b] == t[..p] + (x + [b]);
  }
}
