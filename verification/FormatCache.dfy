/** The cache of a linearized format (`src/js/private/format.js`): spans are computed on demand,
    and thrown away when bytes they depend on may have changed. */
module FormatCache {
  import opened Bytes
  import opened Layout
  import opened Intervals
  import E = Editor
  import N = Linear
  import T = IntervalTree

  datatype Found = At(span: Span) | Nowhere | Threw

  // ------------------------------------------------------------------ what the two trees hold

  /** On record are the ranges that were read, and no others. */
  ghost predicate Recorded(s: seq<Record>, read: seq<Range>) {
    && (forall r :: r in read ==> Record(r.low, r.high, Nothing) in s)
    && (forall x :: x in s ==> WasRead(x, read))
  }

  ghost predicate WasRead(x: Record, read: seq<Range>) {
    x.low >= 0 && x.high >= 0 && x.data == Nothing && Range(x.low, x.high) in read
  }

  ghost predicate Shows(r: Record, span: Span) {
    r.low == span.from && r.high == span.to && r.data.Entry? && r.data.name == span.name && r.data.color == span.color
  }

  ghost predicate Backed(r: Record, spans: seq<Span>) {
    exists i :: 0 <= i < |spans| && Shows(r, spans[i])
  }

  ghost predicate Listed(s: seq<Record>, span: Span) {
    exists r :: r in s && Shows(r, span)
  }

  /** The tree holds the cached spans and nothing else. */
  ghost predicate Holds(s: seq<Record>, spans: seq<Span>) {
    && (forall r :: r in s ==> Backed(r, spans))
    && (forall i :: 0 <= i < |spans| ==> Listed(s, spans[i]))
  }

  lemma RecordedMore(s: seq<Record>, read: seq<Range>, r: Range)
    requires Recorded(s, read)
    ensures Recorded(Placed(s, Record(r.low, r.high, Nothing)), read + [r])
    ensures Record(r.low, r.high, Nothing) in s ==> Recorded(s, read + [r])
  {
    PlacedHas(s, Record(r.low, r.high, Nothing));
  }

  lemma BackedMore(r: Record, spans: seq<Span>, span: Span)
    ensures Backed(r, spans) || Shows(r, span) ==> Backed(r, spans + [span])
  {
    var u := spans + [span];
    if Backed(r, spans) {
      var i :| 0 <= i < |spans| && Shows(r, spans[i]);
      assert Shows(r, u[i]);
    } else if Shows(r, span) {
      assert Shows(r, u[|spans|]);
    }
  }

  lemma ListedMore(s: seq<Record>, t: seq<Record>, span: Span)
    requires Listed(s, span) && forall r :: r in s ==> r in t
    ensures Listed(t, span)
  {
  }

  lemma HoldsMore(s: seq<Record>, spans: seq<Span>, r: Record, span: Span)
    requires Holds(s, spans) && Shows(r, span)
    ensures Holds(Placed(s, r), spans + [span])
  {
    hide Backed, Shows, Placed;
    PlacedHas(s, r);
    var all, u := Placed(s, r), spans + [span];
    forall x | x in all ensures Backed(x, u) {
      BackedMore(x, spans, span);
    }
    forall i | 0 <= i < |u| ensures Listed(all, u[i]) {
      if i < |spans| {
        ListedMore(s, all, spans[i]);
      } else {
        assert r in all;
      }
    }
  }

  /** A span that starts where the cached ones end is not in the tree. */
  lemma NewSpan(s: seq<Record>, spans: seq<Span>, end: nat, r: Record)
    requires Holds(s, spans) && Tiles(spans, end) && r.low == end
    ensures r !in s
  {
    TileBound(spans, end);
    forall x | x in s ensures x.low < end {
      assert Backed(x, spans);
    }
  }

  lemma TilesInit(spans: seq<Span>, span: Span, end: nat)
    requires Tiles(spans + [span], end)
    ensures Tiles(spans, span.from) && span.from <= span.to && end == span.to + 1
  {
    var u := spans + [span];
    assert u[|spans|] == span;
    if spans != [] {
      assert u[|spans| - 1] == spans[|spans| - 1];
    }
    assert forall i :: 0 <= i < |spans| ==> u[i] == spans[i];
  }

  /** Looking up a position finds the cached span that covers it, if there is one. */
  lemma LookupFinds(s: seq<Record>, spans: seq<Span>, end: nat, pos: nat)
    requires Holds(s, spans) && Tiles(spans, end)
    ensures pos < end <==> Filter(s, pos, pos) != []
    ensures Filter(s, pos, pos) != [] ==> Covering(Filter(s, pos, pos)[0], spans, pos)
  {
    hide Tiles, Filter;
    FilterFinds(s, pos, pos);
    TileCovers(spans, end, pos);
    var f := Filter(s, pos, pos);
    if pos < end {
      var i :| 0 <= i < |spans| && spans[i].from <= pos <= spans[i].to;
      assert Listed(s, spans[i]);
      var r :| r in s && Shows(r, spans[i]);
      assert r in f;
    }
    if f != [] {
      assert f[0] in f && Backed(f[0], spans);
      var i :| 0 <= i < |spans| && Shows(f[0], spans[i]);
      assert spans[i].from <= pos <= spans[i].to;
    }
  }

  /** The record stands for a cached span that covers the position. */
  ghost predicate Covering(r: Record, spans: seq<Span>, pos: nat) {
    && r.data.Entry? && 0 <= r.low <= pos <= r.high
    && Span(r.data.name, r.data.color, r.low, r.high) in spans
  }

  lemma CoveringIs(r: Record, spans: seq<Span>, pos: nat)
    requires Covering(r, spans, pos)
    ensures r.data.Entry? && 0 <= r.low <= pos <= r.high && Span(r.data.name, r.data.color, r.low, r.high) in spans
  {
  }

  lemma BeyondAll(spans: seq<Span>, end: nat, pos: nat)
    requires Tiles(spans, end) && end <= pos
    ensures forall s :: s in spans ==> !(s.from <= pos <= s.to)
  {
    TileBound(spans, end);
  }

  lemma EndIs(spans: seq<Span>, end: nat)
    requires Tiles(spans, end)
    ensures EndOf(spans) == end
  {
  }

  /** A tiling has one end. */
  lemma SameEnd(spans: seq<Span>, span: Span, end: nat, was: nat)
    requires Tiles(spans, span.from) && Tiles(spans, was) && end == span.to + 1
    ensures span.from == was && Tiles(spans, was)
  {
  }

  // ------------------------------------------------------------------ a change of the file

  /** A read that lay behind the end of the file, and found nothing, does not lie inside it now. */
  ghost predicate Settled(r: Range, before: nat, after: nat) { r.high < before || r.high >= after }

  ghost predicate AllSettled(read: seq<Range>, before: nat, after: nat) {
    forall r :: r in read ==> Settled(r, before, after)
  }

  /** Every read gives the same in both files. */
  ghost predicate AllSame(read: seq<Range>, a: seq<Byte>, b: seq<Byte>) {
    forall r :: r in read ==> SameRead(a, b, r)
  }

  /** The change is published from `offset` on, no read on record overlaps the range: then every
      read would give the same again if and only if all of them are settled. */
  lemma UntouchedReads(f: Format, a: seq<Byte>, b: seq<Byte>, k: nat, s: seq<Record>, offset: nat, len: int)
    requires Recorded(s, After(f, a, k).read) && Filter(s, offset, offset + len - 1) == []
    requires Agree(a, b, offset) && offset + len >= |a|
    ensures AllSame(After(f, a, k).read, a, b) <==> AllSettled(After(f, a, k).read, |a|, |b|)
  {
    hide After;
    FilterFinds(s, offset, offset + len - 1);
    ReadsOrdered(f, a, k);
    forall r | r in After(f, a, k).read ensures SameRead(a, b, r) <==> Settled(r, |a|, |b|) {
      assert Record(r.low, r.high, Nothing) in s;
      assert !Overlaps(Record(r.low, r.high, Nothing), offset, offset + len - 1);
      if r.high < offset {
        ReadBefore(a, b, r, offset);
      } else {
        ReadBehind(a, b, r);
      }
    }
  }

  lemma ReadBehind(a: seq<Byte>, b: seq<Byte>, r: Range)
    requires |a| <= r.low <= r.high
    ensures SameRead(a, b, r) <==> r.high >= |b|
  {
  }

  /** Then what has been linearized is the same. */
  lemma Untouched(f: Format, a: seq<Byte>, b: seq<Byte>, k: nat, s: seq<Record>, offset: nat, len: int)
    requires Recorded(s, After(f, a, k).read) && Filter(s, offset, offset + len - 1) == []
    requires Agree(a, b, offset) && offset + len >= |a| && AllSettled(After(f, a, k).read, |a|, |b|)
    ensures After(f, b, k) == After(f, a, k)
  {
    UntouchedReads(f, a, b, k, s, offset, len);
    RunReads(f, a, b, k);
  }

  /** What has been linearized and read, when the change is not one that the cache looks at. */
  lemma Unnoticed(f: Format, a: seq<Byte>, b: seq<Byte>, k: nat, r: Run, s: seq<Record>, offset: nat, len: int)
    requires After(f, a, k) == r && Recorded(s, r.read) && E.Told(E.Changed(offset, len), a, b)
    requires len >= 0 ==> Filter(s, offset, offset + len - 1) == []
    ensures AllSettled(r.read, |a|, |b|) <==> AllSame(r.read, a, b)
    ensures AllSettled(r.read, |a|, |b|) ==> After(f, b, k) == r
  {
    hide After, Recorded, Filter, AllSame, AllSettled, Agree;
    UntouchedReads(f, a, b, k, s, offset, len);
    if AllSettled(r.read, |a|, |b|) {
      Untouched(f, a, b, k, s, offset, len);
    }
  }

  /** A byte with a name, and as many bytes as it says. */
  function Counted(id: string): Format {
    Format([Field("", "white", 1, id, false, true), Raw("", Variable(id), "white")], false)
  }

  /** An unsettled read goes stale unnoticed.  In an empty file the byte that counts is looked for and
      not found, and one span is all there is.  Then the byte `x` is inserted: the range published is
      empty, nothing is thrown away, and the span of the `x` bytes that belong behind is missing. */
  lemma AppearsUnnoticed(id: string, x: Byte)
    requires id != "" && x > 0
    ensures var f := Counted(id); var was, now := After(f, [], 3), After(f, [x], 3);
      && was.m.Done() && was.read == [Range(0, 0)] && !AllSettled(was.read, 0, 1)
      && E.Told(E.Changed(0, 0), [], [x])
      && Recorded([Record(0, 0, Nothing)], was.read) && Filter([Record(0, 0, Nothing)], 0, -1) == []
      && was.spans == [Span("", 0, 0, 0)] && now.spans == [Span("", 0, 0, 0), Span("", 0, 1, x)]
  {
    CountedRuns(id, [], Null);
    assert [x][0..1] == [x] && [x][1..] == [];
    assert Unsigned([x], true) == x;
    CountedRuns(id, [x], Number(x));
    assert Range(0, 0) in After(Counted(id), [], 3).read;
  }

  /** The three steps of the run: the counting byte, the bytes counted, and the end. */
  lemma CountedRuns(id: string, file: seq<Byte>, v: Value)
    requires id != "" && v == ReadValue(file, 0, 1, false, true) && (v.Number? ==> v.n >= 0)
    ensures var r := After(Counted(id), file, 3); var n := if v.Number? then v.n else 0;
      && r.m.Done() && r.read == [Range(0, 0)]
      && r.spans == [Span("", 0, 0, 0)] + if n > 0 then [Span("", 0, 1, n)] else []
  {
    hide ReadValue;
    var f := Counted(id);
    var n := if v.Number? then v.n else 0;
    var raw := f.segments[1..];
    var a := Machine([Items(raw, "", 1)], [map[id := v]], false);
    assert After(f, file, 0) == Run(Start(f), [], []);
    FirstField(id, file, v);
    assert After(f, file, 1) == Run(a, [Span("", 0, 0, 0)], [Range(0, 0)]);
    CountedRaw(id, file, v, a);
    var b := Step(a, file).m;
    assert Step(b, file) == Turn(Pop(b), Quiet, []);
  }

  lemma FirstField(id: string, file: seq<Byte>, v: Value)
    requires id != "" && v == ReadValue(file, 0, 1, false, true)
    ensures var t := Step(Start(Counted(id)), file);
      && t.m == Machine([Items(Counted(id).segments[1..], "", 1)], [map[id := v]], false)
      && t.seen == Yielded(Span("", 0, 0, 0)) && t.read == [Range(0, 0)]
  {
    hide ReadValue;
    var t := Step(Start(Counted(id)), file);
    assert t.m.scopes == [map[id := v]];
  }

  lemma CountedRaw(id: string, file: seq<Byte>, v: Value, m: Machine)
    requires m == Machine([Items(Counted(id).segments[1..], "", 1)], [map[id := v]], false)
    requires v.Number? ==> v.n >= 0
    ensures var t := Step(m, file); var n := if v.Number? then v.n else 0;
      && t.m.stack == [Items([], "", 1 + n)] && !t.m.failed && t.read == []
      && t.seen == if n > 0 then Yielded(Span("", 0, 1, n)) else Quiet
  {
    var n := if v.Number? then v.n else 0;
    assert Counted(id).segments[1..][0] == Raw("", Variable(id), "white") && Counted(id).segments[1..][1..] == [];
    assert Repeats(Variable(id), m.scopes) == n;
  }

  lemma {:induction false} ReadsOrdered(f: Format, file: seq<Byte>, k: nat)
    ensures forall r :: r in After(f, file, k).read ==> r.low <= r.high
  {
    hide Step;
    if k > 0 {
      ReadsOrdered(f, file, k - 1);
      StepOrdered(After(f, file, k - 1).m, file);
    }
  }

  lemma StepOrdered(m: Machine, file: seq<Byte>)
    requires Matched(m)
    ensures forall r :: r in Step(m, file).read ==> r.low <= r.high
  {
  }

  /** One more step of a run that is `i` steps from `start`. */
  lemma Further(f: Format, file: seq<Byte>, n: nat, start: Machine, i: nat)
    requires Matched(start)
    ensures var r := After(f, file, n); var t := Step(r.m, file);
      && After(f, file, n + 1) == Extended(r, t) && (forall x :: x in t.read ==> x.low <= x.high)
      && Matched(t.m) && (Steps(start, file, i) == r.m ==> Steps(start, file, i + 1) == t.m)
  {
  }

  /** A generator that has been quiet so far, and neither ended nor failed, has not answered yet. */
  lemma NotYet(start: Machine, file: seq<Byte>, i: nat, k: nat)
    requires Matched(start) && i <= k && (Loud(start, file, k) || Steps(start, file, k).Done())
    requires forall j: nat :: j < i ==> Step(Steps(start, file, j), file).seen.Quiet?
    ensures i == k ==> Steps(start, file, i).failed || Steps(start, file, i).Done()
  {
  }

  /** At the start nothing has been read or cached, whatever the file holds. */
  lemma NothingRead(f: Format)
    ensures forall file :: After(f, file, 0) == Run(Start(f), [], [])
    ensures Recorded([], []) && Holds([], [])
  {
  }

  /** What is left of the reads on record when the cache has heard of a change. */
  ghost function Surviving(s: seq<Record>, event: E.Event): seq<Record> {
    if event.Changed? && event.len >= 0 && Filter(s, event.offset, event.offset + event.len - 1) != [] then [] else s
  }

  /** All reads on record lie in front of `n`. */
  ghost predicate AllBefore(s: seq<Record>, n: nat) { forall r :: r in s ==> r.low <= r.high < n }

  /** Reads that lay inside the contents, and survive a change, lie in front of all that it changed. */
  lemma SurvivorsBefore(s: seq<Record>, event: E.Event, before: seq<Byte>, after: seq<Byte>)
    requires AllBefore(s, |before|) && E.Fair(event, before, after)
    ensures AllBefore(Surviving(s, event), |after|)
  {
    if event.Changed? {
      FilterFinds(s, event.offset, event.offset + event.len - 1);
      forall r | r in Surviving(s, event) ensures r.low <= r.high < |after| {
        assert !Overlaps(r, event.offset, event.offset + event.len - 1);
      }
    }
  }

  /** No span that the format lays, however far it is carried, covers the position. */
  ghost predicate NeverCovered(f: Format, file: seq<Byte>, pos: nat) {
    forall s: Span :: N.Lies(f, file, s) ==> !(s.from <= pos <= s.to)
  }

  lemma EndedNeverCovers(f: Format, file: seq<Byte>, n: nat, pos: nat)
    requires After(f, file, n).m.Done() || After(f, file, n).m.failed
    requires forall s :: s in After(f, file, n).spans ==> !(s.from <= pos <= s.to)
    ensures NeverCovered(f, file, pos)
  {
    hide After, N.Lies;
    forall s: Span | N.Lies(f, file, s) ensures !(s.from <= pos <= s.to) {
      N.LiesIff(f, file, s);
      var k: nat :| s in After(f, file, k).spans;
      if k <= n {
        SpansGrow(f, file, k, n);
      } else {
        SpansGrow(f, file, n, k);
      }
    }
  }

  // ------------------------------------------------------------------ the cache

  class FormatCache {
    const format: Format
    var accessed: T.IntervalTree          // of the `FileProxy`
    var generator: Machine
    var thrown: bool                      // a generator that threw is finished
    var cachedSegments: seq<Span>
    var cachedTree: T.IntervalTree
    ghost var steps: nat
    ghost var read: seq<Range>

    ghost predicate Valid()
      reads this, accessed, accessed.mem.Keys, cachedTree, cachedTree.mem.Keys
    {
      && accessed.Valid() && cachedTree.Valid()
      && accessed.Footprint() !! cachedTree.Footprint() && this !in accessed.Footprint()
      && this !in cachedTree.Footprint() && (thrown ==> generator.failed)
    }

    ghost function Footprint(): set<object>
      reads this, accessed, cachedTree
    {
      {this} + accessed.Footprint() + cachedTree.Footprint()
    }

    /** Everything cached belongs to a run on the contents `file`. */
    ghost predicate Current(file: seq<Byte>)
      reads this, accessed, cachedTree
    {
      && After(format, file, steps) == Run(generator, cachedSegments, read)
      && Recorded(accessed.Contents(), read) && Holds(cachedTree.Contents(), cachedSegments)
    }

    lemma Linearized(file: seq<Byte>)
      requires Current(file)
      ensures After(format, file, steps).spans == cachedSegments && After(format, file, steps).m == generator
    {
      hide After, Recorded, Holds;
    }

    constructor (format: Format)
      ensures Valid() && fresh(Footprint()) && this.format == format
      ensures forall file :: Current(file)
    {
      hide T.Shape, T.Shown, T.IntervalTree.Valid, Sound, After, Recorded, Holds, Start;
      NothingRead(format);
      this.format := format;
      generator, thrown, cachedSegments, steps, read := Start(format), false, [], 0, [];
      accessed := new T.IntervalTree();
      cachedTree := new T.IntervalTree();
    }

    /** `invalidate` */
    method Invalidate()
      requires Valid()
      modifies this
      ensures Valid() && fresh(Footprint() - {this})
      ensures read == [] && accessed.Contents() == [] && forall file :: Current(file)
    {
      hide T.Shape, Sound, After, Recorded, Holds, Start, T.IntervalTree.Valid, T.IntervalTree.Footprint;
      NothingRead(format);
      NewTrees();
      generator, thrown, cachedSegments, steps, read := Start(format), false, [], 0, [];
    }

    method NewTrees()
      requires thrown ==> generator.failed
      modifies `accessed, `cachedTree
      ensures Valid() && fresh(Footprint() - {this}) && accessed.Contents() == [] && cachedTree.Contents() == []
    {
      hide T.Shape, Sound, T.IntervalTree.Valid;
      accessed := new T.IntervalTree();
      cachedTree := new T.IntervalTree();
    }

    /** `hasRead`: does a recorded read overlap the range? */
    method HasRead(offset: int, len: int) returns (r: bool)
      requires Valid()
      ensures r == (len >= 0 && Filter(accessed.Contents(), offset, offset + len - 1) != [])
    {
      if len < 0 {
        return false;
      }
      var found := accessed.Find(offset, offset + len - 1);
      r := found != [];
    }

    /** The handler of `file/change`.  Unless the cache is thrown away, what it holds is still the
        beginning of the linearized file, provided that nothing in front of the published range
        changed and that no read that found nothing would now find something. */
    method OnChange(offset: nat, len: int, ghost before: seq<Byte>, ghost after: seq<Byte>) returns (invalidated: bool)
      requires Valid() && Current(before)
      modifies Footprint()
      ensures Valid() && fresh(Footprint() - old(Footprint()))
      ensures invalidated == (len >= 0 && Filter(old(accessed.Contents()), offset, offset + len - 1) != [])
      ensures invalidated ==> read == [] && forall file :: Current(file)
      ensures accessed.Contents() == Surviving(old(accessed.Contents()), E.Changed(offset, len))
      ensures !invalidated ==> Current(before)
      ensures !invalidated ==>
        && cachedSegments == old(cachedSegments) && generator == old(generator) && read == old(read)
        && accessed == old(accessed) && accessed.Contents() == old(accessed.Contents())
      ensures !invalidated && E.Told(E.Changed(offset, len), before, after) ==>
        (AllSettled(read, |before|, |after|) <==> AllSame(read, before, after))
      ensures E.Told(E.Changed(offset, len), before, after) && AllSettled(read, |before|, |after|) ==> Current(after)
    {
      hide T.Shape, T.Shown, T.IntervalTree.Valid, Sound, Records, After, Recorded, Holds, Filter, AllSettled,
           AllSame, E.Told;
      invalidated := HasRead(offset, len);
      if invalidated {
        Invalidate();
      } else if E.Told(E.Changed(offset, len), before, after) {
        Unnoticed(format, before, after, steps, Run(generator, cachedSegments, read), accessed.Contents(), offset, len);
      }
    }

    /** `generator.next()`: runs to the next span, to the end, or into the exception for an
        unbalanced group.  A generator that does not answer makes the program hang. */
    method Next(file: seq<Byte>) returns (r: Found)
      requires Valid() && Current(file) && (!thrown ==> Answering(generator, file))
      modifies this`generator, this`thrown, this`steps, this`read, accessed.Footprint()
      ensures Valid() && fresh(Footprint() - old(Footprint())) && cachedTree.Footprint() == old(cachedTree.Footprint())
      ensures Recorded(accessed.Contents(), read) && Holds(cachedTree.Contents(), cachedSegments)
      ensures After(format, file, steps)
        == Run(generator, if r.At? then cachedSegments + [r.span] else cachedSegments, read)
      ensures r == Nowhere ==> generator.Done() || generator.failed
      ensures r != Threw ==> thrown == old(thrown)
      ensures r == Threw ==> generator.failed && thrown
    {
      hide Step, After, Recorded, Holds, Loud, Steps, T.Shown, T.Shape, Sound, Records;
      if thrown {
        return Nowhere;
      }
      ghost var start := generator;
      ghost var k: nat :| Loud(generator, file, k) || Steps(generator, file, k).Done();
      ghost var i := 0;
      OneStep(start, file);
      while true
        invariant Valid() && fresh(Footprint() - old(Footprint()))
          && cachedTree.Footprint() == old(cachedTree.Footprint())
        invariant Recorded(accessed.Contents(), read) && Holds(cachedTree.Contents(), cachedSegments)
        invariant After(format, file, steps) == Run(generator, cachedSegments, read)
        invariant thrown == old(thrown)
        invariant i <= k && Matched(generator) && generator == Steps(start, file, i)
        invariant forall j: nat :: j < i ==> Step(Steps(start, file, j), file).seen.Quiet?
        decreases k - i
      {
        NotYet(start, file, i, k);
        if generator.failed {
          thrown := true;
          return Threw;
        }
        if generator.Done() {
          return Nowhere;
        }
        var seen := Advance(file, start, i);
        if seen.Yielded? {
          return At(seen.span);
        }
        i := i + 1;
      }
    }

    /** One step of the generator. */
    method Advance(file: seq<Byte>, ghost start: Machine, ghost i: nat) returns (seen: Happening)
      requires Valid() && Recorded(accessed.Contents(), read) && Matched(generator) && Matched(start) && !thrown
      requires After(format, file, steps) == Run(generator, cachedSegments, read) && generator == Steps(start, file, i)
      modifies this`generator, this`steps, this`read, accessed.Footprint()
      ensures Valid() && fresh(accessed.Footprint() - old(accessed.Footprint()))
      ensures Recorded(accessed.Contents(), read) && Matched(generator) && generator == Steps(start, file, i + 1)
      ensures seen == Step(Steps(start, file, i), file).seen
      ensures After(format, file, steps) ==
        Run(generator, if seen.Yielded? then cachedSegments + [seen.span] else cachedSegments, read)
    {
      hide Step, After, Recorded, Holds, Steps, T.Shown, T.Shape, Sound, Records;
      Further(format, file, steps, start, i);
      var turn := Step(generator, file);
      Note(turn.read);
      generator := turn.m;
      steps := steps + 1;
      seen := turn.seen;
    }

    /** `_accessed.insert`, for what the generator read. */
    method Note(ranges: seq<Range>)
      requires Valid() && Recorded(accessed.Contents(), read) && forall r :: r in ranges ==> r.low <= r.high
      modifies this`read, accessed.Footprint()
      ensures Valid() && fresh(accessed.Footprint() - old(accessed.Footprint()))
      ensures Recorded(accessed.Contents(), read) && read == old(read) + ranges
    {
      hide T.Shown, T.Shape, Sound, Records, Recorded, Placed;
      var i := 0;
      ghost var was := read;
      while i < |ranges|
        invariant 0 <= i <= |ranges| && Valid() && fresh(accessed.Footprint() - old(accessed.Footprint()))
        invariant Recorded(accessed.Contents(), read) && read == was + ranges[..i]
      {
        RecordedMore(accessed.Contents(), read, ranges[i]);
        var ok, added := accessed.Insert(Record(ranges[i].low, ranges[i].high, Nothing));
        read := read + [ranges[i]];
        i := i + 1;
      }
    }

    /** Caches a span that the generator yielded, under the number `i` of the asking iterator. */
    method Keep(span: Span, i: int, ghost file: seq<Byte>)
      requires Valid() && Recorded(accessed.Contents(), read) && Holds(cachedTree.Contents(), cachedSegments)
      requires After(format, file, steps) == Run(generator, cachedSegments + [span], read)
      modifies this`cachedSegments, cachedTree.Footprint()
      ensures Valid() && Current(file) && fresh(cachedTree.Footprint() - old(cachedTree.Footprint()))
      ensures cachedSegments == old(cachedSegments) + [span]
      ensures cachedTree.Contents()
        == Placed(old(cachedTree.Contents()), Record(span.from, span.to, Entry(i, span.name, span.color)))
    {
      hide T.Shown, T.Shape, Sound, Records, After, Recorded, Holds, Placed, Tiles, Step;
      AlwaysTiles(format, file, steps);
      TilesInit(cachedSegments, span, EndOf(cachedSegments + [span]));
      var r := Record(span.from, span.to, Entry(i, span.name, span.color));
      NewSpan(cachedTree.Contents(), cachedSegments, span.from, r);
      HoldsMore(cachedTree.Contents(), cachedSegments, r, span);
      cachedSegments := cachedSegments + [span];
      var ok, added := cachedTree.Insert(r);
    }
  }

  lemma AnswersNow(f: Format, file: seq<Byte>, pos: nat, n: nat, thrown: bool)
    requires !thrown ==> AnswersUpTo(f, file, pos)
    ensures !thrown && EndOf(After(f, file, n).spans) <= pos ==> Answering(After(f, file, n).m, file)
  {
  }

  /** The iterator that `[Symbol.iterator]()` answers, with its own place and end. */
  class FormatIterator {
    const cache: FormatCache
    var i: int
    var ended: bool

    constructor (cache: FormatCache)
      ensures this.cache == cache && !ended
    {
      this.cache, i, ended := cache, 0, false;
    }

    /** The span that covers `pos`, if it is cached. */
    method Lookup(pos: nat, file: seq<Byte>) returns (r: Found)
      requires cache.Valid() && cache.Current(file)
      modifies `i
      ensures r.At? ==> r.span in cache.cachedSegments && r.span.from <= pos <= r.span.to
      ensures !r.At? ==> Tiles(cache.cachedSegments, EndOf(cache.cachedSegments)) && EndOf(cache.cachedSegments) <= pos
      ensures var found := Filter(cache.cachedTree.Contents(), pos, pos);
        if r.At? then found != [] && found[0].data.Entry? && i == found[0].data.index + 1 else i == old(i)
    {
      hide T.Shown, T.Shape, Sound, Records, After, Recorded, Holds, Tiles, Step, Filter, Covering;
      r := Nowhere;
      AlwaysTiles(cache.format, file, cache.steps);
      LookupFinds(cache.cachedTree.Contents(), cache.cachedSegments, EndOf(cache.cachedSegments), pos);
      var found := cache.cachedTree.Find(pos, pos);
      if found != [] {
        var e := found[0];
        CoveringIs(e, cache.cachedSegments, pos);
        i := e.data.index + 1;
        return At(Span(e.data.name, e.data.color, e.low, e.high));
      }
    }

    /** `seek`: the span that covers `pos`, whatever was cached before by whom; it ends even when
        the format does not. */
    method Seek(pos: nat, file: seq<Byte>) returns (r: Found)
      requires cache.Valid() && cache.Current(file) && this !in cache.Footprint()
      requires !cache.thrown ==> AnswersUpTo(cache.format, file, pos)
      modifies this, cache.Footprint()
      ensures cache.Valid() && cache.Current(file) && fresh(cache.Footprint() - old(cache.Footprint()))
      ensures old(ended) ==> r == Nowhere
      ensures r.At? ==> r.span in cache.cachedSegments && r.span.from <= pos <= r.span.to
      ensures r.At? ==> N.Lies(cache.format, file, r.span)
      ensures !old(ended) && !r.At? ==> NeverCovered(cache.format, file, pos)
      ensures !old(ended) && r == Nowhere ==> ended && (cache.generator.Done() || cache.generator.failed)
      ensures r == Threw ==> cache.generator.failed
    {
      hide T.Shown, T.Shape, T.IntervalTree.Valid, T.IntervalTree.Contents, Sound, Records, After, Recorded, Holds,
           Tiles, Step, Filter,
           Covering, EndOf, AnswersUpTo, Answering, FormatCache.Valid, FormatCache.Current, NeverCovered,
           N.Lies;
      if ended {
        return Nowhere;
      }
      r := Lookup(pos, file);
      if r.At? {
        cache.Linearized(file);
        N.LiesIff(cache.format, file, r.span);
        return;
      }
      ghost var end := EndOf(cache.cachedSegments);
      while true
        invariant cache.Valid() && cache.Current(file) && fresh(cache.Footprint() - old(cache.Footprint()))
          && this !in cache.Footprint()
        invariant Tiles(cache.cachedSegments, end) && EndOf(cache.cachedSegments) == end <= pos
        invariant cache.thrown == old(cache.thrown)
        decreases pos - end
      {
        r := Forward(file, end, pos);
        if r == Nowhere {
          ended := true;
        }
        if !r.At? || pos <= r.span.to {
          if r.At? {
            cache.Linearized(file);
            N.LiesIff(cache.format, file, r.span);
          }
          return;
        }
        end := r.span.to + 1;
      }
    }

    /** One more span into the cache. */
    method Forward(file: seq<Byte>, ghost end: nat, ghost pos: nat) returns (r: Found)
      requires cache.Valid() && cache.Current(file) && this !in cache.Footprint()
      requires Tiles(cache.cachedSegments, end) && EndOf(cache.cachedSegments) == end <= pos
      requires !cache.thrown ==> AnswersUpTo(cache.format, file, pos)
      modifies `i, cache.Footprint()
      ensures cache.Valid() && cache.Current(file) && fresh(cache.Footprint() - old(cache.Footprint()))
      ensures r.At? ==>
        && r.span in cache.cachedSegments && r.span.from == end <= r.span.to
        && Tiles(cache.cachedSegments, r.span.to + 1) && EndOf(cache.cachedSegments) == r.span.to + 1
      ensures !r.At? ==> NeverCovered(cache.format, file, pos)
      ensures i == if r.At? then old(i) + 1 else old(i)
      ensures r == Nowhere ==> cache.generator.Done() || cache.generator.failed
      ensures r == Threw ==> cache.generator.failed
      ensures r != Threw ==> cache.thrown == old(cache.thrown)
    {
      hide T.Shown, T.Shape, Sound, Records, After, Recorded, Holds, Tiles, Step, Answering, AnswersUpTo, NeverCovered,
           EndOf;
      AnswersNow(cache.format, file, pos, cache.steps, cache.thrown);
      r := cache.Next(file);
      if r.At? {
        ghost var spans := cache.cachedSegments;
        AlwaysTiles(cache.format, file, cache.steps);
        TilesInit(spans, r.span, EndOf(spans + [r.span]));
        SameEnd(spans, r.span, EndOf(spans + [r.span]), end);
        cache.Keep(r.span, i, file);
        EndIs(cache.cachedSegments, r.span.to + 1);
        i := i + 1;
      } else {
        BeyondAll(cache.cachedSegments, end, pos);
        EndedNeverCovers(cache.format, file, cache.steps, pos);
      }
    }
  }
}
