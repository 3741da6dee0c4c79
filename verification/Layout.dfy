/** File formats (`src/js/format.js`): a layout that depends on the bytes of the file, turned into
    a list of spans by nested generators. */
module Layout {
  import opened Bytes

  /** A format: the segments pushed so far, and whether it is a group that was not ended. */
  datatype Format = Format(segments: seq<Segment>, open: bool)

  /** An integer of fixed length whose value may get a name; a repeated child format; a child format
      repeated without end; a run of bytes. */
  datatype Segment =
    | Field(name: string, color: string, length: nat, id: string, signed: bool, little: bool)
    | Array(name: string, count: Count, child: Format)
    | Sequence(name: string, child: Format)
    | Raw(name: string, count: Count, color: string)

  /** How often to repeat: a number, the value of a variable, or a function of all variables. */
  datatype Count = Times(n: int) | Variable(id: string) | Computed(f: seq<Scope> -> int)

  /** The variables bound in one scope; a value is null when the file was too short for it. */
  type Scope = map<string, Value>

  datatype Value = Null | Number(n: int)

  datatype Span = Span(name: string, color: int, from: nat, to: nat)

  const COLORS: map<string, int> :=
    map["white" := 0, "gray" := 1, "blue" := 2, "red" := 3, "pink" := 4, "green" := 5, "purple" := 6, "orange" := 7]

  function ColorOf(name: string): int { if name in COLORS then COLORS[name] else -1 }

  /** The names a format may give its colours, numbered in this order. */
  lemma ColorNumbers()
    ensures ColorOf("white") == 0 && ColorOf("gray") == 1 && ColorOf("blue") == 2 && ColorOf("red") == 3
    ensures ColorOf("pink") == 4 && ColorOf("green") == 5 && ColorOf("purple") == 6 && ColorOf("orange") == 7
  {
  }

  /** `join`; the missing name is empty. */
  function Join(a: string, b: string): string {
    if a != "" && b != "" then a + " > " + b else if a != "" then a else b
  }

  // ------------------------------------------------------------------ variables

  /** A variable is looked for from the innermost scope outwards, as along a prototype chain. */
  function Lookup(scopes: seq<Scope>, id: string): Value
    decreases |scopes|
  {
    if scopes == [] then Null
    else
      var n := |scopes| - 1;
      if id in scopes[n] then scopes[n][id] else Lookup(scopes[..n], id)
  }

  /** The number of repetitions; what is not a positive number repeats nothing. */
  function Repeats(count: Count, scopes: seq<Scope>): nat {
    var n := match count
      case Times(k) => k
      case Variable(id) => (match Lookup(scopes, id) case Null => 0 case Number(k) => k)
      case Computed(f) => f(scopes);
    if n > 0 then n else 0
  }

  // ------------------------------------------------------------------ reading

  /** `FileProxy.read`: null when the file ends before the range does. */
  function ReadBytes(file: seq<Byte>, offset: nat, len: nat): (bool, seq<Byte>) {
    if offset + len <= |file| then (true, file[offset..offset + len]) else (false, [])
  }

  function Unsigned(b: seq<Byte>, little: bool): nat
    decreases |b|
  {
    if b == [] then 0
    else if little then b[0] + 256 * Unsigned(b[1..], little)
    else 256 * Unsigned(b[..|b| - 1], little) + b[|b| - 1]
  }

  function Power256(n: nat): nat { if n == 0 then 1 else 256 * Power256(n - 1) }

  /** The reads of `DataView`: two's complement, in the given byte order. */
  function Decode(b: seq<Byte>, signed: bool, little: bool): int {
    var u := Unsigned(b, little);
    if signed && 2 * u >= Power256(|b|) then u - Power256(|b|) else u
  }

  function ReadValue(file: seq<Byte>, offset: nat, len: nat, signed: bool, little: bool): Value {
    var (ok, b) := ReadBytes(file, offset, len);
    if ok then Number(Decode(b, signed, little)) else Null
  }

  // ------------------------------------------------------------------ the generators

  /** One suspended generator: the rest of a format, or the rest of a repetition.  Each keeps its own
      offset, starts from that of the generator it was called by, and tells that one nothing when it
      ends. */
  datatype Frame =
    | Items(segments: seq<Segment>, base: string, offset: nat)
    | Loop(child: Format, endless: bool, left: nat, base: string, offset: nat)

  /** The nested generators, and the scope of each. */
  datatype Machine = Machine(stack: seq<Frame>, scopes: seq<Scope>, failed: bool)
  {
    predicate Done() { stack == [] }
  }

  /** `offset = childseg.to + 1`, in each generator that a span passes on its way out. */
  function Handed(stack: seq<Frame>, span: Span): (r: seq<Frame>)
    ensures |r| == |stack|
  {
    seq(|stack|, i requires 0 <= i < |stack| => stack[i].(offset := span.to + 1))
  }

  datatype Range = Range(low: nat, high: nat)

  /** What happened in one step: nothing to see, or a span yielded; and the read before it. */
  datatype Happening = Quiet | Yielded(span: Span)

  datatype Turn = Turn(m: Machine, seen: Happening, read: seq<Range>)

  function Start(f: Format): Machine { Machine([Items(f.segments, "", 0)], [map[]], f.open) }

  function Push(m: Machine, rest: Frame, frame: Frame): Machine
    requires m.stack != []
  {
    m.(stack := m.stack[..|m.stack| - 1] + [rest, frame], scopes := m.scopes + [map[]])
  }

  function Pop(m: Machine): Machine
    requires m.stack != [] && |m.stack| == |m.scopes|
  {
    m.(stack := m.stack[..|m.stack| - 1], scopes := m.scopes[..|m.scopes| - 1])
  }

  predicate Matched(m: Machine) { |m.stack| == |m.scopes| }

  /** The next thing the innermost generator does. */
  function Step(m: Machine, file: seq<Byte>): (r: Turn)
    requires Matched(m)
    ensures Matched(r.m)
  {
    if m.stack == [] || m.failed then Turn(m, Quiet, [])
    else
      var n := |m.stack| - 1;
      match m.stack[n]
      case Items(segs, base, offset) =>
        if segs == [] then Turn(Pop(m), Quiet, [])
        else Segmented(m, segs[0], Items(segs[1..], base, offset), base, offset, file)
      case Loop(child, endless, left, base, offset) =>
        if !endless && left == 0 then Turn(Pop(m), Quiet, [])
        else if child.open then Turn(m.(failed := true), Quiet, [])
        else
          var next := Loop(child, endless, if endless then 0 else left - 1, base, offset);
          Turn(Push(m, next, Items(child.segments, base, offset)), Quiet, [])
  }

  /** One segment of a format, with the innermost generator at `offset`. */
  function Segmented(m: Machine, seg: Segment, rest: Frame, base: string, offset: nat, file: seq<Byte>): (r: Turn)
    requires Matched(m) && m.stack != []
    ensures Matched(r.m)
  {
    var n := |m.stack| - 1;
    var after := m.(stack := m.stack[n := rest]);
    match seg
    case Field(name, color, length, id, signed, little) =>
      if length == 0 then Turn(after, Quiet, [])
      else
        var span := Span(Join(base, name), ColorOf(color), offset, offset + length - 1);
        var next := m.(stack := Handed(m.stack[..n], span) + [rest.(offset := offset + length)]);
        if id == "" then Turn(next, Yielded(span), [])
        else
          var v := ReadValue(file, offset, length, signed, little);
          Turn(next.(scopes := m.scopes[n := m.scopes[n][id := v]]), Yielded(span),
            [Range(offset, offset + length - 1)])
    case Array(name, count, child) =>
      Turn(Push(m, rest, Loop(child, false, Repeats(count, m.scopes), Join(base, name), offset)), Quiet, [])
    case Sequence(name, child) =>
      Turn(Push(m, rest, Loop(child, true, 0, Join(base, name), offset)), Quiet, [])
    case Raw(name, count, color) =>
      var k := Repeats(count, m.scopes);
      if k == 0 then Turn(after, Quiet, [])
      else
        var span := Span(Join(base, name), ColorOf(color), offset, offset + k - 1);
        Turn(m.(stack := Handed(m.stack[..n] + [rest], span)), Yielded(span), [])
  }

  // ------------------------------------------------------------------ runs

  /** A run so far: where it stands, and all spans and reads up to there. */
  datatype Run = Run(m: Machine, spans: seq<Span>, read: seq<Range>)

  function Extended(r: Run, t: Turn): Run {
    Run(t.m, if t.seen.Yielded? then r.spans + [t.seen.span] else r.spans, r.read + t.read)
  }

  ghost function After(f: Format, file: seq<Byte>, k: nat): (r: Run)
    ensures Matched(r.m)
  {
    if k == 0 then Run(Start(f), [], []) else Extended(After(f, file, k - 1), Step(After(f, file, k - 1).m, file))
  }

  // ------------------------------------------------------------------ the spans tile the file

  ghost predicate Tiles(spans: seq<Span>, end: nat) {
    && (forall i :: 0 <= i < |spans| ==> spans[i].from <= spans[i].to)
    && (forall i, j :: 0 <= i && j == i + 1 && j < |spans| ==> spans[j].from == spans[i].to + 1)
    && (if spans == [] then end == 0 else spans[0].from == 0 && end == spans[|spans| - 1].to + 1)
  }

  /** Where the spans end. */
  ghost function EndOf(spans: seq<Span>): nat { if spans == [] then 0 else spans[|spans| - 1].to + 1 }

  /** All generators have come to the same offset. */
  ghost predicate AllAt(stack: seq<Frame>, offset: nat) {
    forall i :: 0 <= i < |stack| ==> stack[i].offset == offset
  }

  /** At every moment of every run the spans yielded so far tile the file from its start, and every
      suspended generator, however deep, has been handed the offset where they end. */
  lemma {:induction false} AlwaysTiles(f: Format, file: seq<Byte>, k: nat)
    ensures var r := After(f, file, k); Tiles(r.spans, EndOf(r.spans)) && AllAt(r.m.stack, EndOf(r.spans))
  {
    hide Step, AllAt, Tiles, Start, EndOf;
    if k > 0 {
      AlwaysTiles(f, file, k - 1);
      var r := After(f, file, k - 1);
      StepHands(r.m, file, EndOf(r.spans));
      var t := Step(r.m, file);
      if t.seen.Yielded? {
        TilesMore(r.spans, t.seen.span);
      }
    } else {
      StartsAt(f);
    }
  }

  lemma StartsAt(f: Format)
    ensures AllAt(Start(f).stack, EndOf([])) && Tiles([], EndOf([]))
  {
  }

  lemma TilesMore(spans: seq<Span>, span: Span)
    requires Tiles(spans, EndOf(spans)) && span.from == EndOf(spans) <= span.to
    ensures Tiles(spans + [span], EndOf(spans + [span])) && EndOf(spans + [span]) == span.to + 1
  {
    var all := spans + [span];
    forall i, j | 0 <= i && j == i + 1 && j < |all| ensures all[j].from == all[i].to + 1 {
      assert i < |spans| && all[i] == spans[i];
    }
  }

  /** When all generators are at one offset, a span starts there and takes all of them to its end;
      children that are called, repeat or end without a span leave all of them there. */
  lemma StepHands(m: Machine, file: seq<Byte>, offset: nat)
    requires Matched(m) && AllAt(m.stack, offset)
    ensures var t := Step(m, file);
      if t.seen.Yielded? then
        t.seen.span.from == offset && offset <= t.seen.span.to && AllAt(t.m.stack, t.seen.span.to + 1)
      else AllAt(t.m.stack, offset)
  {
    hide AllAt;
    if m.stack != [] && !m.failed {
      var n := |m.stack| - 1;
      TopAt(m.stack, offset);
      var f := m.stack[n];
      if f.Items? && f.segments != [] {
        SegmentHands(m, f.segments[0], Items(f.segments[1..], f.base, offset), f.base, offset, file);
      } else if f.Loop? {
        AtMore(m.stack[..n],
          [Loop(f.child, f.endless, if f.endless || f.left == 0 then 0 else f.left - 1, f.base, offset),
                              Items(f.child.segments, f.base, offset)], offset);
      }
    }
  }

  lemma TopAt(stack: seq<Frame>, offset: nat)
    requires AllAt(stack, offset) && stack != []
    ensures stack[|stack| - 1].offset == offset && AllAt(stack[..|stack| - 1], offset)
  {
  }

  lemma AtMore(stack: seq<Frame>, more: seq<Frame>, offset: nat)
    requires AllAt(stack, offset) && forall f :: f in more ==> f.offset == offset
    ensures AllAt(stack + more, offset)
  {
  }

  lemma HandedAt(stack: seq<Frame>, span: Span)
    ensures AllAt(Handed(stack, span), span.to + 1)
  {
  }

  lemma SegmentHands(m: Machine, seg: Segment, rest: Frame, base: string, offset: nat, file: seq<Byte>)
    requires Matched(m) && m.stack != [] && AllAt(m.stack[..|m.stack| - 1], offset) && rest.offset == offset
    ensures var t := Segmented(m, seg, rest, base, offset, file);
      if t.seen.Yielded? then
        t.seen.span.from == offset && offset <= t.seen.span.to && AllAt(t.m.stack, t.seen.span.to + 1)
      else AllAt(t.m.stack, offset)
  {
    hide AllAt, Handed, ReadValue, Repeats;
    var n := |m.stack| - 1;
    var t := Segmented(m, seg, rest, base, offset, file);
    assert m.stack[n := rest] == m.stack[..n] + [rest];
    if t.seen.Yielded? {
      HandedAt(m.stack[..n], t.seen.span);
      HandedAt(m.stack[..n] + [rest], t.seen.span);
      if seg.Field? {
        AtMore(Handed(m.stack[..n], t.seen.span), [rest.(offset := offset + seg.length)], t.seen.span.to + 1);
      }
    } else {
      AtMore(m.stack[..n], [rest], offset);
      AtMore(m.stack[..n], t.m.stack[n..], offset);
    }
  }

  /** In a tiling every position is in at most one span, and in one if it lies before the end. */
  lemma {:induction false} TileCovers(spans: seq<Span>, end: nat, pos: nat)
    requires Tiles(spans, end)
    ensures pos < end <==> exists i :: 0 <= i < |spans| && spans[i].from <= pos <= spans[i].to
    decreases |spans|
  {
    if spans != [] {
      var n := |spans| - 1;
      var last := spans[n];
      if n > 0 {
        assert spans[..n][n - 1].to + 1 == last.from;
      }
      TileCovers(spans[..n], last.from, pos);
      if pos < last.from {
        var i :| 0 <= i < n && spans[..n][i].from <= pos <= spans[..n][i].to;
        assert spans[i].from <= pos <= spans[i].to;
      } else if pos < end {
        assert spans[n].from <= pos <= spans[n].to;
      } else {
        TileBound(spans, end);
      }
    }
  }

  lemma {:induction false} TileBound(spans: seq<Span>, end: nat)
    requires Tiles(spans, end)
    ensures forall i :: 0 <= i < |spans| ==> spans[i].to < end
    ensures forall i, j :: 0 <= i < j < |spans| ==> spans[i].to < spans[j].from
    decreases |spans|
  {
    if spans != [] {
      var n := |spans| - 1;
      if n > 0 {
        assert spans[..n][n - 1].to + 1 == spans[n].from;
      }
      TileBound(spans[..n], spans[n].from);
      forall i | 0 <= i < |spans| ensures spans[i].to < end {
        if i < n {
          assert spans[..n][i] == spans[i];
        }
      }
      forall i, j | 0 <= i < j < |spans| ensures spans[i].to < spans[j].from {
        assert spans[..n][i] == spans[i];
        if j < n {
          assert spans[..n][j] == spans[j];
        }
      }
    }
  }

  lemma DoneStays(m: Machine, file: seq<Byte>)
    requires Matched(m) && (m.Done() || m.failed)
    ensures Step(m, file) == Turn(m, Quiet, [])
  {
  }

  /** A longer run has more spans behind those of a shorter one. */
  lemma {:induction false} SpansGrow(f: Format, file: seq<Byte>, j: nat, k: nat)
    requires j <= k
    ensures After(f, file, j).spans <= After(f, file, k).spans
    ensures After(f, file, j).m.Done() || After(f, file, j).m.failed ==> After(f, file, k) == After(f, file, j)
    decreases k
  {
    hide Step;
    if After(f, file, j).m.Done() || After(f, file, j).m.failed {
      DoneStays(After(f, file, j).m, file);
    }
    if j < k {
      SpansGrow(f, file, j, k - 1);
    }
  }

  /** However far the format was linearized, only one of its spans covers a position. */
  lemma SpanUnique(f: Format, file: seq<Byte>, j: nat, k: nat, s: Span, t: Span, pos: nat)
    requires s in After(f, file, j).spans && t in After(f, file, k).spans
    requires s.from <= pos <= s.to && t.from <= pos <= t.to
    ensures s == t
  {
    var n := if j < k then k else j;
    SpansGrow(f, file, j, n);
    SpansGrow(f, file, k, n);
    var spans := After(f, file, n).spans;
    AlwaysTiles(f, file, n);
    TileBound(spans, EndOf(spans));
    assert s in spans && t in spans;
    var x :| 0 <= x < |spans| && spans[x] == s;
    var y :| 0 <= y < |spans| && spans[y] == t;
  }

  // ------------------------------------------------------------------ scopes

  /** One step writes at most to the innermost scope, opens a new one or closes it. */
  lemma StepScopes(m: Machine, file: seq<Byte>)
    requires Matched(m) && m.stack != []
    ensures var t, n := Step(m, file).m, |m.stack| - 1;
      && n <= |t.stack| <= n + 2 && t.scopes[..n] == m.scopes[..n]
      && (|t.stack| == n + 2 ==> t.scopes[n] == m.scopes[n])
  {
  }

  ghost function Steps(m: Machine, file: seq<Byte>, k: nat): (r: Machine)
    requires Matched(m)
    ensures Matched(r)
  {
    if k == 0 then m else Step(Steps(m, file, k - 1), file).m
  }

  /** While the generator at depth `n` and those inside it run, the scopes outside stay what they
      were: no binding of a child reaches a parent or a sibling. */
  lemma {:induction false} NoLeak(m: Machine, file: seq<Byte>, n: nat, k: nat)
    requires Matched(m) && n <= |m.stack|
    requires forall i :: 0 <= i <= k ==> n <= |Steps(m, file, i).stack|
    requires forall i :: 0 <= i < k ==> n < |Steps(m, file, i).stack|
    ensures Steps(m, file, k).scopes[..n] == m.scopes[..n]
  {
    hide Step;
    if k > 0 {
      NoLeak(m, file, n, k - 1);
      var p := Steps(m, file, k - 1);
      StepScopes(p, file);
      var q := Steps(m, file, k);
      assert q == Step(p, file).m;
      var d := |p.stack| - 1;
      assert n <= d && q.scopes[..d] == p.scopes[..d];
      assert q.scopes[..d][..n] == p.scopes[..d][..n];
      assert q.scopes[..d][..n] == q.scopes[..n] && p.scopes[..d][..n] == p.scopes[..n];
    }
  }

  // ------------------------------------------------------------------ only the bytes read matter

  /** A read range gives the same bytes, or none, in both files. */
  ghost predicate SameRead(a: seq<Byte>, b: seq<Byte>, r: Range) {
    r.low <= r.high && ReadBytes(a, r.low, r.high - r.low + 1) == ReadBytes(b, r.low, r.high - r.low + 1)
  }

  lemma StepReads(m: Machine, a: seq<Byte>, b: seq<Byte>)
    requires Matched(m) && forall r :: r in Step(m, a).read ==> SameRead(a, b, r)
    ensures Step(m, a) == Step(m, b)
  {
    if Step(m, a).read != [] {
      assert Step(m, a).read[0] in Step(m, a).read;
    }
  }

  /** Two files that give the same bytes for every range read so far give the same run so far. */
  lemma {:induction false} RunReads(f: Format, a: seq<Byte>, b: seq<Byte>, k: nat)
    requires forall r :: r in After(f, a, k).read ==> SameRead(a, b, r)
    ensures After(f, a, k) == After(f, b, k)
  {
    hide Step;
    if k > 0 {
      var p := After(f, a, k - 1);
      assert forall r :: r in p.read ==> r in After(f, a, k).read;
      RunReads(f, a, b, k - 1);
      assert forall r :: r in Step(p.m, a).read ==> r in After(f, a, k).read;
      StepReads(p.m, a, b);
    }
  }

  /** A read in front of the place where two files start to differ is the same in both. */
  lemma ReadBefore(a: seq<Byte>, b: seq<Byte>, r: Range, q: nat)
    requires Agree(a, b, q) && r.low <= r.high < q
    ensures SameRead(a, b, r)
  {
    var n := r.high - r.low + 1;
    assert a[r.low..r.low + n] == a[..q][r.low..r.low + n];
    assert b[r.low..r.low + n] == b[..q][r.low..r.low + n];
  }

  // ------------------------------------------------------------------ integers

  lemma {:induction false} UnsignedBound(b: seq<Byte>, little: bool)
    ensures Unsigned(b, little) < Power256(|b|)
    decreases |b|
  {
    if b != [] {
      UnsignedBound(if little then b[1..] else b[..|b| - 1], little);
    }
  }

  /** Both byte orders read the same number from mirrored bytes. */
  lemma {:induction false} OrdersMirror(b: seq<Byte>, c: seq<Byte>)
    requires |b| == |c| && forall i :: 0 <= i < |b| ==> c[i] == b[|b| - 1 - i]
    ensures Unsigned(b, true) == Unsigned(c, false)
    decreases |b|
  {
    if b != [] {
      OrdersMirror(b[1..], c[..|c| - 1]);
    }
  }

  /** Signed and unsigned reads agree up to a multiple of the range, and signed ones lie around 0. */
  lemma DecodeRange(b: seq<Byte>, little: bool)
    ensures 0 <= Decode(b, false, little) < Power256(|b|)
    ensures var p: int := Power256(|b|); -p <= 2 * Decode(b, true, little) < p
    ensures Decode(b, true, little) == Decode(b, false, little) || Decode(b, true, little)
      == Decode(b, false, little) - Power256(|b|)
  {
    UnsignedBound(b, little);
  }

  // ------------------------------------------------------------------ a generator always answers

  /** Whatever the file holds, the format yields a span. */
  ghost predicate Solid(f: Format) {
    SolidAll(f.segments)
  }

  ghost predicate SolidAll(segs: seq<Segment>) {
    exists i :: 0 <= i < |segs| && SolidOne(segs[i])
  }

  ghost predicate SolidOne(s: Segment) {
    match s
    case Field(_, _, length, _, _, _) => length > 0
    case Array(_, count, child) => count.Times? && count.n > 0 && Solid(child)
    case Sequence(_, child) => Solid(child)
    case Raw(_, count, _) => count.Times? && count.n > 0
  }

  /** Endless repetition is only of formats that yield something. */
  ghost predicate Lively(f: Format) {
    LivelyAll(f.segments)
  }

  ghost predicate LivelyAll(segs: seq<Segment>) {
    forall i :: 0 <= i < |segs| ==> LivelyOne(segs[i])
  }

  ghost predicate LivelyOne(s: Segment) {
    match s
    case Array(_, _, child) => Lively(child)
    case Sequence(_, child) => Lively(child) && Solid(child)
    case _ => true
  }

  ghost function Weight(f: Format): nat { 1 + WeightAll(f.segments) }

  ghost function WeightAll(segs: seq<Segment>): nat {
    if segs == [] then 0 else WeightOne(segs[0]) + WeightAll(segs[1..])
  }

  ghost function WeightOne(s: Segment): nat {
    match s
    case Array(_, _, child) => 1 + Weight(child)
    case Sequence(_, child) => 1 + Weight(child)
    case _ => 1
  }

  lemma {:induction false} StepsMore(m: Machine, file: seq<Byte>, a: nat, b: nat)
    requires Matched(m)
    ensures Steps(m, file, a + b) == Steps(Steps(m, file, a), file, b)
    decreases b
  {
    hide Step;
    if b > 0 {
      StepsMore(m, file, a, b - 1);
      assert a + b - 1 == a + (b - 1);
    }
  }

  /** A span is yielded within `k` steps. */
  ghost predicate Told(m: Machine, file: seq<Byte>, k: nat)
    requires Matched(m)
  {
    exists j: nat :: j < k && Step(Steps(m, file, j), file).seen.Yielded?
  }

  /** Within `k` steps a span is yielded or the generator fails. */
  ghost predicate Loud(m: Machine, file: seq<Byte>, k: nat)
    requires Matched(m)
  {
    Steps(m, file, k).failed || Told(m, file, k)
  }

  /** After `k` steps the innermost generator has ended, and nothing else has changed. */
  ghost predicate Left(m: Machine, file: seq<Byte>, k: nat)
    requires Matched(m) && m.stack != []
  {
    !m.failed && Steps(m, file, k) == Pop(m)
  }

  /** After `k` steps the innermost generator is an endless repetition, and all generators and scopes
      are as they have been before. */
  ghost predicate Circles(m: Machine, file: seq<Byte>, k: nat)
    requires Matched(m)
  {
    var n := Steps(m, file, k);
    && !n.failed && n.stack != [] && n.stack[|n.stack| - 1].Loop? && n.stack[|n.stack| - 1].endless
    && exists i: nat :: i < k && Steps(m, file, i) == n
  }

  lemma LoudLater(m: Machine, file: seq<Byte>, a: nat, b: nat)
    requires Matched(m)
    ensures Loud(Steps(m, file, a), file, b) ==> Loud(m, file, a + b)
    ensures Circles(Steps(m, file, a), file, b) ==> Circles(m, file, a + b)
  {
    StepsMore(m, file, a, b);
    var n := Steps(m, file, a);
    if Loud(n, file, b) && !Steps(n, file, b).failed {
      var j: nat :| j < b && Step(Steps(n, file, j), file).seen.Yielded?;
      StepsMore(m, file, a, j);
      assert Step(Steps(m, file, a + j), file).seen.Yielded?;
    }
    if Circles(n, file, b) {
      var i: nat :| i < b && Steps(n, file, i) == Steps(n, file, b);
      StepsMore(m, file, a, i);
      assert Steps(m, file, a + i) == Steps(m, file, a + b);
    }
  }

  lemma OneStep(m: Machine, file: seq<Byte>)
    requires Matched(m)
    ensures Steps(m, file, 1) == Step(m, file).m && Steps(m, file, 0) == m
    ensures Step(m, file).seen.Yielded? || Step(m, file).m.failed ==> Loud(m, file, 1)
  {
    assert Steps(m, file, 0) == m;
  }

  ghost predicate Top(m: Machine, f: Frame) {
    Matched(m) && !m.failed && m.stack != [] && m.stack[|m.stack| - 1] == f
  }

  /** The same generators with `f` as the innermost one. */
  ghost function Turned(m: Machine, f: Frame): Machine
    requires m.stack != []
  {
    m.(stack := m.stack[|m.stack| - 1 := f])
  }

  /** One segment, and what is on the stack after it. */
  lemma ItemStep(m: Machine, file: seq<Byte>, segs: seq<Segment>, base: string, o: nat)
    requires Top(m, Items(segs, base, o))
    ensures var t := Step(m, file);
      && !t.m.failed
      && (segs == [] ==> t.seen.Quiet? && t.m == Pop(m))
      && (segs != [] && t.seen.Quiet? ==>
            var rest := Items(segs[1..], base, o);
            if segs[0].Array? || segs[0].Sequence? then
              |t.m.stack| == |m.stack| + 1 && Pop(t.m) == Turned(m, rest)
              && var loop := t.m.stack[|m.stack|];
                && loop.Loop? && loop.child == segs[0].child && loop.endless == segs[0].Sequence?
                && (SolidOne(segs[0]) ==> loop.endless || loop.left > 0)
            else !SolidOne(segs[0]) && t.m == Turned(m, rest))
  {
    if segs != [] && (segs[0].Array? || segs[0].Sequence?) {
      var t := Step(m, file).m;
      assert t.scopes[..|m.scopes|] == m.scopes;
      assert t.stack[..|m.stack|] == m.stack[|m.stack| - 1 := Items(segs[1..], base, o)];
    }
  }

  /** The rest of a format: a span, its end, or the same place again and again. */
  lemma {:induction false} ItemsEnd(m: Machine, file: seq<Byte>, segs: seq<Segment>, base: string, o: nat)
    returns (k: nat)
    requires Top(m, Items(segs, base, o))
    ensures Loud(m, file, k) || Left(m, file, k) || Circles(m, file, k)
    ensures LivelyAll(segs) ==> (Loud(m, file, k) || Left(m, file, k)) && (SolidAll(segs) ==> Loud(m, file, k))
    decreases WeightAll(segs), 0
  {
    hide Step, Steps, Loud, Circles, LivelyAll, SolidAll, Pop;
    OneStep(m, file);
    ItemStep(m, file, segs, base, o);
    NothingSolid();
    k := 1;
    if segs != [] {
      var t, s, rest := Step(m, file).m, segs[0], segs[1..];
      RestSolid(segs);
      assert WeightAll(segs) == WeightOne(s) + WeightAll(rest);
      if Step(m, file).seen.Quiet? {
        var u := Turned(m, Items(rest, base, o));
        PopTurned(m, Items(rest, base, o));
        var a := 0;
        if s.Array? || s.Sequence? {
          var loop := t.stack[|m.stack|];
          a := LoopEnd(t, file, s.child, loop.endless, loop.left, loop.base, loop.offset);
          LoudLater(m, file, 1, a);
          StepsMore(m, file, 1, a);
          k := 1 + a;
        }
        if !Loud(m, file, k) && Steps(m, file, k) == u {
          var b := ItemsEnd(u, file, rest, base, o);
          LoudLater(m, file, k, b);
          StepsMore(m, file, k, b);
          k := k + b;
        }
      }
    }
  }

  lemma PopTurned(m: Machine, f: Frame)
    requires Matched(m) && m.stack != []
    ensures Pop(Turned(m, f)) == Pop(m) && Matched(Turned(m, f))
  {
  }

  lemma NothingSolid()
    ensures !SolidAll([])
  {
  }

  lemma RestSolid(segs: seq<Segment>)
    requires segs != []
    ensures SolidAll(segs) ==> SolidOne(segs[0]) || SolidAll(segs[1..])
    ensures LivelyAll(segs) ==> LivelyAll(segs[1..]) && LivelyOne(segs[0])
  {
    if SolidAll(segs) && !SolidOne(segs[0]) {
      var i :| 0 <= i < |segs| && SolidOne(segs[i]);
      assert segs[1..][i - 1] == segs[i];
    }
  }

  lemma LoopStep(m: Machine, file: seq<Byte>, child: Format, endless: bool, left: nat, base: string, o: nat)
    requires Top(m, Loop(child, endless, left, base, o))
    ensures var t := Step(m, file).m;
      if !endless && left == 0 then t == Pop(m)
      else if child.open then t.failed
      else Top(t, Items(child.segments, base, o)) && Pop(t) == Turned(m, Again(child, endless, left, base, o))
  {
    if (endless || left > 0) && !child.open {
      var t := Step(m, file).m;
      assert t.scopes[..|m.scopes|] == m.scopes;
      assert t.stack[..|m.stack|] == m.stack[|m.stack| - 1 := Again(child, endless, left, base, o)];
    }
  }

  ghost function Again(child: Format, endless: bool, left: nat, base: string, o: nat): Frame
    requires endless || left > 0
  {
    Loop(child, endless, if endless then 0 else left - 1, base, o)
  }

  /** A round of an endless repetition that yields nothing ends where it started. */
  lemma Around(m: Machine, file: seq<Byte>, f: Frame, k: nat)
    requires Top(m, f) && f.Loop? && f.endless && Turned(m, f) == Steps(m, file, k) && 0 < k
    ensures Circles(m, file, k)
  {
    assert Turned(m, f) == m;
    assert Steps(m, file, 0) == m;
  }

  lemma {:induction false} LoopEnd(m: Machine, file: seq<Byte>, child: Format, endless: bool, left: nat, base: string,
                                   o: nat) returns (k: nat)
    requires Top(m, Loop(child, endless, left, base, o))
    ensures Loud(m, file, k) || Left(m, file, k) || Circles(m, file, k)
    ensures Lively(child) && (endless ==> Solid(child)) ==> Loud(m, file, k) || Left(m, file, k)
    ensures Lively(child) && (endless || left > 0) && Solid(child) ==> Loud(m, file, k)
    decreases Weight(child), left
  {
    hide Step, Steps, Loud, Circles, LivelyAll, SolidAll, Pop;
    OneStep(m, file);
    LoopStep(m, file, child, endless, left, base, o);
    k := 1;
    var t := Step(m, file).m;
    if (endless || left > 0) && !t.failed {
      var next := Again(child, endless, left, base, o);
      var u := Turned(m, next);
      PopTurned(m, next);
      var a := ItemsEnd(t, file, child.segments, base, o);
      LoudLater(m, file, 1, a);
      StepsMore(m, file, 1, a);
      k := 1 + a;
      if !Loud(m, file, k) && Steps(m, file, k) == u {
        if endless && left == 0 {
          Around(m, file, next, k);
        } else {
          var b := LoopEnd(u, file, child, endless, if endless then 0 else left - 1, base, o);
          LoudLater(m, file, k, b);
          StepsMore(m, file, k, b);
          k := k + b;
        }
      }
    }
  }

  // ------------------------------------------------------------------ lively machines

  ghost predicate LivelyFrame(f: Frame) {
    match f
    case Items(segs, _, _) => LivelyAll(segs)
    case Loop(child, endless, _, _, _) => Lively(child) && (endless ==> Solid(child))
  }

  ghost predicate LivelyMachine(m: Machine) {
    Matched(m) && forall i :: 0 <= i < |m.stack| ==> LivelyFrame(m.stack[i])
  }

  lemma StepLively(m: Machine, file: seq<Byte>)
    requires LivelyMachine(m)
    ensures LivelyMachine(Step(m, file).m)
  {
    if m.stack != [] {
      var f := m.stack[|m.stack| - 1];
      assert LivelyFrame(f);
      if f.Items? && f.segments != [] {
        RestSolid(f.segments);
      }
    }
  }

  /** Asked for the next span, a generator yields one, ends or fails, or repeats something endlessly
      and is where it has been a round before; a lively one always does one of the first three. */
  lemma {:induction false} Answers(m: Machine, file: seq<Byte>) returns (k: nat)
    requires Matched(m)
    ensures Loud(m, file, k) || Steps(m, file, k).Done() || Circles(m, file, k)
    ensures LivelyMachine(m) ==> Loud(m, file, k) || Steps(m, file, k).Done()
    decreases |m.stack|
  {
    hide Step, Steps, Loud, Circles, Lively, Solid, LivelyMachine, Left;
    k := 0;
    NoSteps(m, file);
    if m.stack != [] && !m.failed {
      k := TopEnd(m, file);
      if !Loud(m, file, k) && Steps(m, file, k) == Pop(m) {
        var j := Answers(Pop(m), file);
        StepsMore(m, file, k, j);
        LoudLater(m, file, k, j);
        PopLively(m);
        k := k + j;
      }
    }
  }

  lemma TopEnd(m: Machine, file: seq<Byte>) returns (k: nat)
    requires Matched(m) && m.stack != [] && !m.failed
    ensures Loud(m, file, k) || Circles(m, file, k) || Steps(m, file, k) == Pop(m)
    ensures LivelyMachine(m) && !Loud(m, file, k) ==> Steps(m, file, k) == Pop(m)
  {
    hide Step, Steps, Loud, Circles, Lively, Solid;
    var f := m.stack[|m.stack| - 1];
    assert LivelyMachine(m) ==> LivelyFrame(f);
    if f.Items? {
      k := ItemsEnd(m, file, f.segments, f.base, f.offset);
    } else {
      k := LoopEnd(m, file, f.child, f.endless, f.left, f.base, f.offset);
    }
  }

  lemma PopLively(m: Machine)
    requires Matched(m) && m.stack != []
    ensures LivelyMachine(m) ==> LivelyMachine(Pop(m))
  {
    hide LivelyFrame;
  }

  lemma NoSteps(m: Machine, file: seq<Byte>)
    requires Matched(m)
    ensures Steps(m, file, 0) == m && (m.failed ==> Loud(m, file, 0))
  {
  }

  lemma {:induction false} AfterLively(f: Format, file: seq<Byte>, k: nat)
    requires Lively(f)
    ensures LivelyMachine(After(f, file, k).m)
  {
    if k > 0 {
      AfterLively(f, file, k - 1);
      StepLively(After(f, file, k - 1).m, file);
    } else {
      assert LivelyFrame(Start(f).stack[0]);
    }
  }

  /** Asked for the next span, the generator yields one, ends, or fails; otherwise the program hangs. */
  ghost predicate Answering(m: Machine, file: seq<Byte>)
    requires Matched(m)
  {
    exists k: nat :: Loud(m, file, k) || Steps(m, file, k).Done()
  }

  /** Without a span so far, an endless repetition is where it has been before. */
  ghost predicate Turns(m: Machine, file: seq<Byte>, k: nat)
    requires Matched(m)
  {
    !Loud(m, file, k) && Circles(m, file, k)
  }

  /** What has ended or failed stays so, and what has been yielded has been yielded. */
  lemma {:induction false} EndsStay(m: Machine, file: seq<Byte>, j: nat, k: nat)
    requires Matched(m) && j <= k
    ensures Steps(m, file, j).Done() ==> Steps(m, file, k).Done()
    ensures Loud(m, file, j) ==> Loud(m, file, k)
    decreases k
  {
    if j < k {
      EndsStay(m, file, j, k - 1);
    }
  }

  lemma Periodic(m: Machine, file: seq<Byte>, i: nat, n: nat, k: nat)
    requires Matched(m) && Steps(m, file, i) == Steps(m, file, n)
    ensures Steps(m, file, i + k) == Steps(m, file, n + k)
  {
    StepsMore(m, file, i, k);
    StepsMore(m, file, n, k);
  }

  /** A run becomes loud with the step that yields or fails. */
  lemma LoudNow(m: Machine, file: seq<Byte>, j: nat)
    requires Matched(m)
    ensures var t := Step(Steps(m, file, j), file);
      Loud(m, file, j + 1) <==> t.m.failed || t.seen.Yielded? || Told(m, file, j)
  {
    hide Step, Told;
    ToldNow(m, file, j);
  }

  lemma ToldNow(m: Machine, file: seq<Byte>, j: nat)
    requires Matched(m)
    ensures Told(m, file, j + 1) <==> Told(m, file, j) || Step(Steps(m, file, j), file).seen.Yielded?
  {
    hide Step, Steps;
    if Told(m, file, j + 1) {
      var x: nat :| x < j + 1 && Step(Steps(m, file, x), file).seen.Yielded?;
    }
  }

  /** What was quiet from one state is quiet from the same state later. */
  lemma QuietStep(m: Machine, file: seq<Byte>, i: nat, j: nat)
    requires Matched(m) && Steps(m, file, i) == Steps(m, file, j)
    requires !Loud(m, file, i + 1) && !Loud(m, file, j)
    ensures !Loud(m, file, j + 1)
  {
    hide Step, Steps;
    LoudNow(m, file, i);
    LoudNow(m, file, j);
  }

  /** Generators that are where they have been go on in the same way for ever. */
  lemma {:induction false} TurnsStay(m: Machine, file: seq<Byte>, n: nat, j: nat)
    requires Matched(m) && Turns(m, file, n)
    ensures !Loud(m, file, j) && !Steps(m, file, j).Done()
    decreases j
  {
    hide Step, Steps, Loud;
    if j <= n {
      EndsStay(m, file, j, n);
    } else {
      var i: nat :| i < n && Steps(m, file, i) == Steps(m, file, n);
      var p := n - i;
      Periodic(m, file, i, n, j - n);
      Periodic(m, file, i, n, j - 1 - n);
      TurnsStay(m, file, n, j - 1);
      TurnsStay(m, file, n, j - p);
      QuietStep(m, file, j - 1 - p, j - 1);
    }
  }

  /** The program hangs if and only if it comes to an endless repetition of which a round yields
      nothing. */
  lemma AnswersIff(m: Machine, file: seq<Byte>)
    requires Matched(m)
    ensures Answering(m, file) <==> forall k: nat :: !Turns(m, file, k)
  {
    hide Step, Steps, Loud, Circles;
    var k := Answers(m, file);
    assert Loud(m, file, k) || Steps(m, file, k).Done() || Turns(m, file, k);
    if n: nat :| Turns(m, file, n) {
      forall j: nat ensures !Loud(m, file, j) && !Steps(m, file, j).Done() {
        TurnsStay(m, file, n, j);
      }
    }
  }

  /** It does so as long as the spans end at `pos` or in front of it. */
  ghost predicate AnswersUpTo(f: Format, file: seq<Byte>, pos: nat) {
    forall n: nat :: EndOf(After(f, file, n).spans) <= pos ==> Answering(After(f, file, n).m, file)
  }

  /** A format whose endless repetitions always yield something never hangs. */
  lemma LivelyAnswers(f: Format, file: seq<Byte>, pos: nat)
    requires Lively(f)
    ensures AnswersUpTo(f, file, pos)
  {
    hide Step, Loud, LivelyMachine, After, Lively;
    forall n: nat ensures Answering(After(f, file, n).m, file) {
      AfterLively(f, file, n);
      var k := Answers(After(f, file, n).m, file);
    }
  }

  /** One that repeats a format without segments does hang, whatever the file. */
  lemma EmptyHangs(file: seq<Byte>, k: nat)
    ensures var f := Format([Sequence("", Format([], false))], false);
      After(f, file, k).spans == [] && !After(f, file, k).m.failed && !After(f, file, k).m.Done()
  {
    EmptyTurns(file, k);
  }

  /** The three states it goes through. */
  ghost predicate Turning(m: Machine) {
    var e := Format([], false);
    && Matched(m) && !m.failed
    && (m.stack == [Items([Sequence("", e)], "", 0)] || m.stack == [Items([], "", 0), Loop(e, true, 0, "", 0)]
        || m.stack == [Items([], "", 0), Loop(e, true, 0, "", 0), Items([], "", 0)])
  }

  lemma TurnsOn(m: Machine, file: seq<Byte>)
    requires Turning(m)
    ensures Step(m, file).seen.Quiet? && Turning(Step(m, file).m)
  {
    var e, t := Format([], false), Step(m, file).m;
    if |m.stack| == 1 {
      assert m.stack[0].segments[1..] == [] && m.stack[..0] == [];
      assert t.stack == [Items([], "", 0), Loop(e, true, 0, "", 0)];
    } else if |m.stack| == 2 {
      assert t.stack == [Items([], "", 0), Loop(e, true, 0, "", 0), Items([], "", 0)];
    } else {
      assert t.stack == [Items([], "", 0), Loop(e, true, 0, "", 0)];
    }
  }

  lemma StartsTurning()
    ensures Turning(Start(Format([Sequence("", Format([], false))], false)))
  {
  }

  lemma {:induction false} EmptyTurns(file: seq<Byte>, k: nat)
    ensures var r := After(Format([Sequence("", Format([], false))], false), file, k); r.spans == [] && Turning(r.m)
  {
    hide Step, Turning;
    var f := Format([Sequence("", Format([], false))], false);
    if k > 0 {
      EmptyTurns(file, k - 1);
      TurnsOn(After(f, file, k - 1).m, file);
    } else {
      StartsTurning();
    }
  }
}
