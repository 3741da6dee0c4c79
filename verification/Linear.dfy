/** What a format means: the spans it lays over a file, by recursion on the format. */
module Linear {
  import opened Bytes
  import opened Layout

  // ------------------------------------------------------------------ the meaning

  /** How a linearization goes on: it has ended; it was cut short in an endless repetition; or it has
      come to a group that was not ended. */
  datatype Fate = Ended | Cut | Thrown

  /** A span, and whether the program reads the bytes in it. */
  datatype Mark = Mark(span: Span, read: bool)

  /** What is laid, where it ends, what has been bound, and how it goes on. */
  datatype Laid = Laid(marks: seq<Mark>, end: nat, scope: Scope, fate: Fate)

  ghost function Spans(ms: seq<Mark>): seq<Span> {
    seq(|ms|, i requires 0 <= i < |ms| => ms[i].span)
  }

  ghost function Reads(ms: seq<Mark>): seq<Range> {
    if ms == [] then []
    else
      var m := ms[|ms| - 1];
      Reads(ms[..|ms| - 1]) + if m.read then [Range(m.span.from, m.span.to)] else []
  }

  /** A format laid from the start of the file, with endless repetitions cut after `rounds`. */
  ghost function Lay(f: Format, file: seq<Byte>, rounds: nat): Laid {
    if f.open then Laid([], 0, map[], Thrown) else LayAll(f.segments, file, "", [], map[], 0, rounds)
  }

  /** Segments one after the other, each from where the one before ended. */
  ghost function LayAll(segs: seq<Segment>, file: seq<Byte>, base: string, outer: seq<Scope>, scope: Scope, at: nat,
                        rounds: nat): Laid
    decreases WeightAll(segs), 1, 0
  {
    if segs == [] then Laid([], at, scope, Ended)
    else
      var a := LayOne(segs[0], file, base, outer, scope, at, rounds);
      if a.fate != Ended then a
      else
        var b := LayAll(segs[1..], file, base, outer, a.scope, a.end, rounds);
        b.(marks := a.marks + b.marks)
  }

  /** A field is one span; one with a variable is read, and bound in the scope of its format.  A child is
      laid in a scope of its own, which is gone behind it.  An endless repetition never ends. */
  ghost function LayOne(seg: Segment, file: seq<Byte>, base: string, outer: seq<Scope>, scope: Scope, at: nat,
                        rounds: nat): Laid
    decreases WeightOne(seg), 0, 0
  {
    match seg
    case Field(name, color, length, id, signed, little) =>
      if length == 0 then Laid([], at, scope, Ended)
      else
        Laid([Mark(Span(Join(base, name), ColorOf(color), at, at + length - 1), id != "")], at + length,
          if id == "" then scope else scope[id := ReadValue(file, at, length, signed, little)], Ended)
    case Array(name, count, child) =>
      var n := Repeats(count, outer + [scope]);
      LayTimes(child, n, file, Join(base, name), outer + [scope] + [map[]], at, rounds).(scope := scope)
    case Sequence(name, child) =>
      var r := LayTimes(child, rounds, file, Join(base, name), outer + [scope] + [map[]], at, rounds);
      r.(scope := scope, fate := if r.fate == Ended then Cut else r.fate)
    case Raw(name, count, color) =>
      var n := Repeats(count, outer + [scope]);
      if n == 0 then Laid([], at, scope, Ended)
      else Laid([Mark(Span(Join(base, name), ColorOf(color), at, at + n - 1), false)], at + n, scope, Ended)
  }

  /** A child format `n` times, each time with nothing bound. */
  ghost function LayTimes(child: Format, n: nat, file: seq<Byte>, base: string, outer: seq<Scope>, at: nat,
                          rounds: nat): Laid
    decreases Weight(child), 0, n
  {
    if n == 0 then Laid([], at, map[], Ended)
    else if child.open then Laid([], at, map[], Thrown)
    else
      var a := LayAll(child.segments, file, base, outer, map[], at, rounds);
      if a.fate != Ended then a
      else
        var b := LayTimes(child, n - 1, file, base, outer, a.end, rounds);
        b.(marks := a.marks + b.marks)
  }

  /** A span of the linearization, however far it has to be carried. */
  ghost predicate Lies(f: Format, file: seq<Byte>, s: Span) {
    exists rounds: nat :: s in Spans(Lay(f, file, rounds).marks)
  }

  // ------------------------------------------------------------------ variables and names

  /** A name means what the innermost scope that binds it says. */
  lemma {:induction false} LookupInnermost(scopes: seq<Scope>, id: string, i: nat)
    requires i < |scopes| && id in scopes[i] && forall j :: i < j < |scopes| ==> id !in scopes[j]
    ensures Lookup(scopes, id) == scopes[i][id]
    decreases |scopes|
  {
    var n := |scopes| - 1;
    if i < n {
      assert id !in scopes[n];
      assert forall j :: 0 <= j < n ==> scopes[..n][j] == scopes[j];
      LookupInnermost(scopes[..n], id, i);
    }
  }

  /** And nothing if none does. */
  lemma {:induction false} LookupNothing(scopes: seq<Scope>, id: string)
    requires forall i :: 0 <= i < |scopes| ==> id !in scopes[i]
    ensures Lookup(scopes, id) == Null
    decreases |scopes|
  {
    if scopes != [] {
      var n := |scopes| - 1;
      assert forall j :: 0 <= j < n ==> scopes[..n][j] == scopes[j];
      LookupNothing(scopes[..n], id);
    }
  }

  /** A number of repetitions, the value of a variable, or what the function says; at least none. */
  lemma RepeatsAtLeastNone(scopes: seq<Scope>, n: int, id: string, f: seq<Scope> -> int)
    ensures Repeats(Times(n), scopes) == if n < 0 then 0 else n
    ensures Repeats(Computed(f), scopes) == if f(scopes) < 0 then 0 else f(scopes)
    ensures Lookup(scopes, id) == Null ==> Repeats(Variable(id), scopes) == 0
    ensures Lookup(scopes, id) == Number(n) ==> Repeats(Variable(id), scopes) == Repeats(Times(n), scopes)
  {
  }

  /** Names are joined from the outside inwards, and a missing name leaves no trace. */
  lemma JoinedNames(a: string, b: string, c: string)
    ensures Join("", a) == a == Join(a, "")
    ensures a != "" && b != "" ==> Join(a, b) == a + " > " + b
    ensures Join(Join(a, b), c) == Join(a, Join(b, c))
  {
    if a != "" && b != "" && c != "" {
      assert a + " > " + b + " > " + c == a + " > " + (b + " > " + c);
    }
  }

  // ------------------------------------------------------------------ laws of formats

  /** `b` laid behind `a`. */
  ghost function Then(a: Laid, b: Laid): Laid {
    if a.fate != Ended then a else b.(marks := a.marks + b.marks)
  }

  /** To push more segments is to lay them behind the others, with what those have bound. */
  lemma {:induction false} AllBoth(xs: seq<Segment>, ys: seq<Segment>, file: seq<Byte>, base: string,
                                   outer: seq<Scope>, scope: Scope, at: nat, rounds: nat)
    ensures var a := LayAll(xs, file, base, outer, scope, at, rounds);
      LayAll(xs + ys, file, base, outer, scope, at, rounds)
      == Then(a, LayAll(ys, file, base, outer, a.scope, a.end, rounds))
    decreases |xs|
  {
    hide LayOne;
    if xs == [] {
      assert xs + ys == ys;
    } else {
      var a := LayOne(xs[0], file, base, outer, scope, at, rounds);
      assert (xs + ys)[1..] == xs[1..] + ys;
      AllBoth(xs[1..], ys, file, base, outer, a.scope, a.end, rounds);
      var b := LayAll(xs[1..], file, base, outer, a.scope, a.end, rounds);
      var c := LayAll(ys, file, base, outer, b.scope, b.end, rounds);
      assert a.marks + (b.marks + c.marks) == a.marks + b.marks + c.marks;
    }
  }

  /** A child `a` times and then `b` times is a child `a + b` times; no time lays nothing. */
  lemma {:induction false} TimesBoth(child: Format, a: nat, b: nat, file: seq<Byte>, base: string, outer: seq<Scope>,
                                     at: nat, rounds: nat)
    ensures var x := LayTimes(child, a, file, base, outer, at, rounds);
      LayTimes(child, a + b, file, base, outer, at, rounds)
      == Then(x, LayTimes(child, b, file, base, outer, x.end, rounds))
    ensures var none := LayTimes(child, 0, file, base, outer, at, rounds);
      none.marks == [] && none.end == at && none.fate == Ended
    decreases a
  {
    hide LayAll;
    if a > 0 && !child.open {
      var x := LayAll(child.segments, file, base, outer, map[], at, rounds);
      TimesBoth(child, a - 1, b, file, base, outer, x.end, rounds);
      var y := LayTimes(child, a - 1, file, base, outer, x.end, rounds);
      var z := LayTimes(child, b, file, base, outer, y.end, rounds);
      assert x.marks + (y.marks + z.marks) == x.marks + y.marks + z.marks;
      assert a + b - 1 == a - 1 + b;
    }
  }

  /** A child or a group that was ended lays its segments once, under its name, and leaves nothing bound. */
  lemma GroupOnce(name: string, child: Format, file: seq<Byte>, base: string, outer: seq<Scope>, scope: Scope, at: nat,
                  rounds: nat)
    requires !child.open
    ensures var l := LayOne(Array(name, Times(1), child), file, base, outer, scope, at, rounds);
      var c := LayAll(child.segments, file, Join(base, name), outer + [scope] + [map[]], map[], at, rounds);
      l.marks == c.marks && l.end == c.end && l.fate == c.fate && l.scope == scope
  {
    hide LayAll, Join;
    var c := LayAll(child.segments, file, Join(base, name), outer + [scope] + [map[]], map[], at, rounds);
    assert LayTimes(child, 0, file, Join(base, name), outer + [scope] + [map[]], c.end, rounds).marks == [];
    assert c.marks + [] == c.marks;
  }

  // ------------------------------------------------------------------ the generators do that

  /** The spans yielded in `k` steps. */
  ghost function Out(m: Machine, file: seq<Byte>, k: nat): seq<Mark>
    requires Matched(m)
  {
    if k == 0 then [] else Out(m, file, k - 1) + Shown(Step(Steps(m, file, k - 1), file))
  }

  ghost function Shown(t: Turn): seq<Mark> {
    if t.seen.Yielded? then [Mark(t.seen.span, t.read != [])] else []
  }

  lemma {:induction false} OutMore(m: Machine, file: seq<Byte>, a: nat, b: nat)
    requires Matched(m)
    ensures Out(m, file, a + b) == Out(m, file, a) + Out(Steps(m, file, a), file, b)
    decreases b
  {
    hide Step, Steps;
    if b > 0 {
      OutMore(m, file, a, b - 1);
      StepsMore(m, file, a, b - 1);
      assert a + b - 1 == a + (b - 1);
    }
  }

  lemma OutOne(m: Machine, file: seq<Byte>)
    requires Matched(m)
    ensures Steps(m, file, 1) == Step(m, file).m
    ensures Out(m, file, 1) == Shown(Step(m, file))
    ensures Out(m, file, 0) == [] && Steps(m, file, 0) == m
  {
    hide Step;
    assert Steps(m, file, 0) == m && Out(m, file, 0) == [];
  }

  /** All generators handed the offset `at`. */
  ghost function Shifted(m: Machine, at: nat): Machine {
    m.(stack := seq(|m.stack|, i requires 0 <= i < |m.stack| => m.stack[i].(offset := at)))
  }

  lemma ShiftSame(m: Machine, at: nat)
    requires AllAt(m.stack, at)
    ensures Shifted(m, at) == m
  {
    assert Shifted(m, at).stack == m.stack;
  }

  lemma ShiftTwice(m: Machine, a: nat, b: nat)
    ensures Shifted(Shifted(m, a), b) == Shifted(m, b) && AllAt(Shifted(m, a).stack, a)
  {
    assert Shifted(Shifted(m, a), b).stack == Shifted(m, b).stack;
  }

  lemma ShiftPop(m: Machine, at: nat)
    requires Matched(m) && m.stack != []
    ensures Matched(Shifted(m, at)) && Pop(Shifted(m, at)) == Shifted(Pop(m), at)
  {
    assert Pop(Shifted(m, at)).stack == Shifted(Pop(m), at).stack;
  }

  lemma ShiftTop(m: Machine, f: Frame, at: nat)
    requires Matched(m) && m.stack != [] && !m.failed
    ensures var u := Shifted(Turned(m, f), at);
      Top(u, f.(offset := at)) && u.scopes == m.scopes && Pop(u) == Pop(Shifted(m, at)) && AllAt(u.stack, at)
  {
    var u := Shifted(Turned(m, f), at);
    assert Pop(u).stack == Pop(Shifted(m, at)).stack;
  }

  /** The scope of the innermost generator, and those around it. */
  ghost function Inner(m: Machine): Scope
    requires m.scopes != []
  {
    m.scopes[|m.scopes| - 1]
  }

  ghost function Outer(m: Machine): seq<Scope>
    requires m.scopes != []
  {
    m.scopes[..|m.scopes| - 1]
  }

  /** Neither ended nor thrown. */
  ghost predicate Alive(m: Machine) { !m.failed && m.stack != [] }

  /** After `k` steps the generator has yielded what is laid; it has ended, with all others where the
      spans end, or has thrown, or has gone round at least `rounds` times. */
  ghost predicate Runs(m: Machine, file: seq<Byte>, k: nat, l: Laid, rounds: nat)
    requires Matched(m) && m.stack != []
  {
    && Out(m, file, k) == l.marks
    && (l.fate == Ended ==> Steps(m, file, k) == Pop(Shifted(m, l.end)))
    && (l.fate == Thrown ==> Steps(m, file, k).failed)
    && (l.fate == Cut ==> k >= rounds && Alive(Steps(m, file, k)))
  }

  /** `u` is `m` with one segment laid. */
  ghost predicate Past(m: Machine, u: Machine, rest: Frame, l: Laid)
    requires Matched(m) && m.stack != []
  {
    && Top(u, rest.(offset := l.end)) && AllAt(u.stack, l.end)
    && Outer(u) == Outer(m) && Inner(u) == l.scope && Pop(u) == Pop(Shifted(m, l.end))
  }

  /** The same for one segment of a format. */
  ghost predicate Advances(m: Machine, file: seq<Byte>, k: nat, rest: Frame, l: Laid, rounds: nat)
    requires Matched(m) && m.stack != []
  {
    && Out(m, file, k) == l.marks
    && (l.fate == Ended ==> Past(m, Steps(m, file, k), rest, l))
    && (l.fate == Thrown ==> Steps(m, file, k).failed)
    && (l.fate == Cut ==> k >= rounds && Alive(Steps(m, file, k)))
  }

  /** A segment without a child takes one step. */
  lemma PlainOne(m: Machine, file: seq<Byte>, segs: seq<Segment>, base: string, o: nat, rounds: nat)
    requires Top(m, Items(segs, base, o)) && AllAt(m.stack, o) && segs != [] && (segs[0].Field? || segs[0].Raw?)
    ensures Advances(m, file, 1, Items(segs[1..], base, o),
                     LayOne(segs[0], file, base, Outer(m), Inner(m), o, rounds), rounds)
  {
    hide ReadValue, Repeats, Join, ColorOf;
    OutOne(m, file);
    var l := LayOne(segs[0], file, base, Outer(m), Inner(m), o, rounds);
    var u := Step(m, file).m;
    assert m.scopes == Outer(m) + [Inner(m)];
    PlainStep(m, file, segs, base, o, l);
  }

  lemma PlainStep(m: Machine, file: seq<Byte>, segs: seq<Segment>, base: string, o: nat, l: Laid)
    requires Top(m, Items(segs, base, o)) && AllAt(m.stack, o) && segs != [] && (segs[0].Field? || segs[0].Raw?)
    requires l == LayOne(segs[0], file, base, Outer(m), Inner(m), o, 0)
    ensures var t := Step(m, file); var rest := Items(segs[1..], base, o);
      && Past(m, t.m, rest, l) && l.fate == Ended
      && l.marks == Shown(t)
  {
    hide ReadValue, Repeats, Join, ColorOf, Past, Handed, AllAt, Shifted;
    var t, rest := Step(m, file), Items(segs[1..], base, o);
    var n := |m.stack| - 1;
    assert m.scopes == Outer(m) + [Inner(m)];
    if t.seen.Yielded? {
      HandedShift(m, rest, t.seen.span);
    } else {
      QuietShift(m, rest, o);
    }
    PastIs(m, t.m, rest, l);
  }

  lemma HandedShift(m: Machine, rest: Frame, span: Span)
    requires m.stack != []
    ensures var n := |m.stack| - 1; var e := span.to + 1;
      && Handed(m.stack[..n], span) == Shifted(m, e).stack[..n]
      && Handed(m.stack[..n] + [rest], span) == Shifted(m, e).stack[..n] + [rest.(offset := e)]
  {
    var n, e := |m.stack| - 1, span.to + 1;
    assert Handed(m.stack[..n], span) == Shifted(m, e).stack[..n];
    assert Handed(m.stack[..n] + [rest], span) == Shifted(m, e).stack[..n] + [rest.(offset := e)];
  }

  lemma QuietShift(m: Machine, rest: Frame, o: nat)
    requires m.stack != [] && AllAt(m.stack, o) && rest.offset == o
    ensures var n := |m.stack| - 1; m.stack[n := rest] == Shifted(m, o).stack[..n] + [rest.(offset := o)]
  {
    var n := |m.stack| - 1;
    assert m.stack[..n] == Shifted(m, o).stack[..n];
  }

  lemma PastIs(m: Machine, u: Machine, rest: Frame, l: Laid)
    requires Matched(m) && m.stack != [] && !m.failed
    requires var n := |m.stack| - 1;
      u == Machine(Shifted(m, l.end).stack[..n] + [rest.(offset := l.end)], m.scopes[n := l.scope], false)
    ensures Past(m, u, rest, l)
  {
    assert Pop(u).stack == Pop(Shifted(m, l.end)).stack && Pop(u).scopes == Pop(Shifted(m, l.end)).scopes;
  }

  /** A suspended generator pops to the same machine, whatever has become of the innermost one. */
  lemma SamePop(m: Machine, u: Machine, a: nat, b: nat)
    requires Matched(m) && Matched(u) && m.stack != [] && u.stack != [] && Pop(u) == Pop(Shifted(m, a))
    ensures Pop(Shifted(u, b)) == Pop(Shifted(m, b))
  {
    hide Shifted, Pop;
    ShiftKeeps(m, a);
    ShiftPop(u, b);
    ShiftPop(Shifted(m, a), b);
    ShiftTwice(m, a, b);
  }

  lemma ShiftKeeps(m: Machine, a: nat)
    ensures |Shifted(m, a).stack| == |m.stack| && Shifted(m, a).scopes == m.scopes
  {
  }

  /** First one segment, then the rest. */
  lemma ThenRest(m: Machine, file: seq<Byte>, a: nat, rest: Frame, la: Laid, b: nat, lb: Laid, rounds: nat)
    requires Matched(m) && m.stack != [] && Advances(m, file, a, rest, la, rounds) && la.fate == Ended
    requires Matched(Steps(m, file, a)) && Steps(m, file, a).stack != [] && Runs(Steps(m, file, a), file, b, lb, rounds)
    ensures Runs(m, file, a + b, lb.(marks := la.marks + lb.marks), rounds)
  {
    hide Step, Steps, Out, Shifted, Pop, AllAt;
    OutMore(m, file, a, b);
    StepsMore(m, file, a, b);
    if lb.fate == Ended {
      SamePop(m, Steps(m, file, a), la.end, lb.end);
    }
  }

  /** The generator of a format with the segments `segs`. */
  lemma {:induction false} RunAll(m: Machine, file: seq<Byte>, segs: seq<Segment>, base: string, o: nat, rounds: nat)
    returns (k: nat)
    requires Top(m, Items(segs, base, o)) && AllAt(m.stack, o)
    ensures Runs(m, file, k, LayAll(segs, file, base, Outer(m), Inner(m), o, rounds), rounds)
    decreases WeightAll(segs), 1, 0
  {
    hide Step, Steps, Out, Shifted, Pop, AllAt, LayOne;
    if segs == [] {
      k := 1;
      AtEnd(m, file, base, o);
    } else {
      var rest := Items(segs[1..], base, o);
      var la := LayOne(segs[0], file, base, Outer(m), Inner(m), o, rounds);
      assert WeightAll(segs) == WeightOne(segs[0]) + WeightAll(segs[1..]);
      k := RunOne(m, file, segs, base, o, rounds);
      if la.fate == Ended {
        var b := RunAll(Steps(m, file, k), file, segs[1..], base, la.end, rounds);
        ThenRest(m, file, k, rest, la, b, LayAll(segs[1..], file, base, Outer(m), la.scope, la.end, rounds), rounds);
        k := k + b;
      }
    }
  }

  lemma AtEnd(m: Machine, file: seq<Byte>, base: string, o: nat)
    requires Top(m, Items([], base, o)) && AllAt(m.stack, o)
    ensures Out(m, file, 1) == [] && Steps(m, file, 1) == Pop(Shifted(m, o))
  {
    OutOne(m, file);
    ShiftSame(m, o);
  }

  /** The first segment. */
  lemma {:induction false} RunOne(m: Machine, file: seq<Byte>, segs: seq<Segment>, base: string, o: nat, rounds: nat)
    returns (k: nat)
    requires Top(m, Items(segs, base, o)) && AllAt(m.stack, o) && segs != []
    ensures Advances(m, file, k, Items(segs[1..], base, o),
                     LayOne(segs[0], file, base, Outer(m), Inner(m), o, rounds), rounds)
    decreases WeightOne(segs[0]), 0, 0
  {
    hide Step, Steps, Out, Shifted, Pop, AllAt, LayTimes, Repeats, Join, Advances, Rounds;
    var seg := segs[0];
    if seg.Field? || seg.Raw? {
      k := 1;
      PlainOne(m, file, segs, base, o, rounds);
    } else {
      var n, endless := if seg.Sequence? then rounds else Repeats(seg.count, Outer(m) + [Inner(m)]), seg.Sequence?;
      var t := Step(m, file).m;
      ChildStep(m, file, segs, base, o);
      var b := RunTimes(t, file, seg.child, endless, if endless then 0 else n, Join(base, seg.name), o, n, rounds);
      var l := LayTimes(seg.child, n, file, Join(base, seg.name), t.scopes, o, rounds);
      ChildDone(m, t, file, segs, base, o, b, l, n, rounds);
      k := 1 + b;
    }
  }

  /** The step that calls the generator of a child. */
  lemma ChildStep(m: Machine, file: seq<Byte>, segs: seq<Segment>, base: string, o: nat)
    requires Top(m, Items(segs, base, o)) && AllAt(m.stack, o) && segs != [] && (segs[0].Array? || segs[0].Sequence?)
    ensures var t, seg := Step(m, file), segs[0];
      && t.seen.Quiet? && AllAt(t.m.stack, o) && Pop(t.m) == Turned(m, Items(segs[1..], base, o))
      && t.m.scopes == Outer(m) + [Inner(m)] + [map[]]
      && Top(t.m, Loop(seg.child, seg.Sequence?,
                       if seg.Sequence? then 0 else Repeats(seg.count, Outer(m) + [Inner(m)]), Join(base, seg.name), o))
  {
    hide Repeats, Join;
    var t := Step(m, file).m;
    assert m.scopes == Outer(m) + [Inner(m)];
    assert t.scopes[..|m.scopes|] == m.scopes;
    assert t.stack[..|m.stack|] == m.stack[|m.stack| - 1 := Items(segs[1..], base, o)];
  }

  /** What the rounds of a child come to. */
  ghost predicate Rounds(m: Machine, file: seq<Byte>, k: nat, l: Laid, endless: bool, n: nat, rounds: nat)
    requires Matched(m) && m.stack != []
  {
    && Out(m, file, k) == l.marks
    && (l.fate == Ended ==>
          if endless then k >= n && Alive(Steps(m, file, k)) else Steps(m, file, k) == Pop(Shifted(m, l.end)))
    && (l.fate == Thrown ==> Steps(m, file, k).failed)
    && (l.fate == Cut ==> Alive(Steps(m, file, k)) && k >= if endless then n else rounds)
  }

  lemma ChildDone(m: Machine, t: Machine, file: seq<Byte>, segs: seq<Segment>, base: string, o: nat, b: nat, l: Laid,
                  n: nat, rounds: nat)
    requires Top(m, Items(segs, base, o)) && segs != [] && (segs[0].Array? || segs[0].Sequence?)
    requires Matched(t) && t.stack != [] && t == Step(m, file).m && Step(m, file).seen.Quiet?
    requires Pop(t) == Turned(m, Items(segs[1..], base, o))
    requires segs[0].Sequence? ==> n == rounds
    requires Rounds(t, file, b, l, segs[0].Sequence?, n, rounds)
    ensures var fate := if segs[0].Sequence? && l.fate == Ended then Cut else l.fate;
      Advances(m, file, 1 + b, Items(segs[1..], base, o), l.(scope := Inner(m), fate := fate), rounds)
  {
    hide Step, Steps, Out, Shifted, Pop, AllAt, Turned;
    var rest := Items(segs[1..], base, o);
    OutOne(m, file);
    OutMore(m, file, 1, b);
    StepsMore(m, file, 1, b);
    if l.fate == Ended && !segs[0].Sequence? {
      ShiftPop(t, l.end);
      ShiftTop(m, rest, l.end);
    }
  }

  /** The generator that repeats a child, `n` rounds of it. */
  lemma {:induction false} RunTimes(m: Machine, file: seq<Byte>, child: Format, endless: bool, left: nat, base: string,
                                    o: nat, n: nat, rounds: nat) returns (k: nat)
    requires Top(m, Loop(child, endless, left, base, o)) && AllAt(m.stack, o)
    requires if endless then n <= rounds else left == n
    ensures Rounds(m, file, k, LayTimes(child, n, file, base, m.scopes, o, rounds), endless, n, rounds)
    decreases Weight(child), 0, n
  {
    hide Step, Steps, Out, Shifted, Pop, AllAt, LayAll, Rounds;
    if n == 0 || child.open {
      k := if n == 0 && endless then 0 else 1;
      LastRound(m, file, child, endless, left, base, o, n, rounds);
    } else {
      var t := Step(m, file).m;
      var next := Again(child, endless, left, base, o);
      RoundStep(m, file, child, endless, left, base, o);
      var la := LayAll(child.segments, file, base, m.scopes, map[], o, rounds);
      var a := RunAll(t, file, child.segments, base, o, rounds);
      OneRound(m, t, file, next, a, la, endless, n, rounds);
      k := 1 + a;
      if la.fate == Ended {
        var u := Steps(m, file, k);
        var b := RunTimes(u, file, child, endless, next.left, base, la.end, n - 1, rounds);
        MoreRounds(m, file, k, la, b, LayTimes(child, n - 1, file, base, m.scopes, la.end, rounds), endless, n, rounds);
        k := k + b;
      }
    }
  }

  lemma LastRound(m: Machine, file: seq<Byte>, child: Format, endless: bool, left: nat, base: string, o: nat, n: nat,
                  rounds: nat)
    requires Top(m, Loop(child, endless, left, base, o)) && AllAt(m.stack, o)
    requires (if endless then n <= rounds else left == n) && (n == 0 || child.open)
    ensures var l := LayTimes(child, n, file, base, m.scopes, o, rounds);
      Rounds(m, file, if n == 0 && endless then 0 else 1, l, endless, n, rounds)
  {
    OutOne(m, file);
    ShiftSame(m, o);
  }

  lemma RoundStep(m: Machine, file: seq<Byte>, child: Format, endless: bool, left: nat, base: string, o: nat)
    requires Top(m, Loop(child, endless, left, base, o)) && AllAt(m.stack, o) && (endless || left > 0) && !child.open
    ensures var t := Step(m, file);
      && t.seen.Quiet? && Top(t.m, Items(child.segments, base, o)) && AllAt(t.m.stack, o)
      && Pop(t.m) == Turned(m, Again(child, endless, left, base, o))
      && Outer(t.m) == m.scopes && Inner(t.m) == map[]
  {
    LoopStep(m, file, child, endless, left, base, o);
    hide Turned, Pop;
  }

  /** One round: all that the child lays, and the repetition is where its spans end. */
  lemma OneRound(m: Machine, t: Machine, file: seq<Byte>, next: Frame, a: nat, la: Laid, endless: bool, n: nat,
                 rounds: nat)
    requires Matched(m) && m.stack != [] && !m.failed && Matched(t) && t.stack != []
    requires t == Step(m, file).m && Step(m, file).seen.Quiet? && Pop(t) == Turned(m, next)
    requires Runs(t, file, a, la, rounds) && (endless ==> n <= rounds)
    ensures Out(m, file, 1 + a) == la.marks
    ensures la.fate != Ended ==> Rounds(m, file, 1 + a, la, endless, n, rounds)
    ensures la.fate == Ended ==> var u := Steps(m, file, 1 + a);
      && Top(u, next.(offset := la.end)) && AllAt(u.stack, la.end)
      && u.scopes == m.scopes && Pop(u) == Pop(Shifted(m, la.end))
  {
    hide Step, Steps, Out, Shifted, Pop, AllAt, Turned;
    OutOne(m, file);
    OutMore(m, file, 1, a);
    StepsMore(m, file, 1, a);
    if la.fate == Ended {
      ShiftPop(t, la.end);
      ShiftTop(m, next, la.end);
    }
  }

  lemma MoreRounds(m: Machine, file: seq<Byte>, a: nat, la: Laid, b: nat, lb: Laid, endless: bool, n: nat, rounds: nat)
    requires Matched(m) && m.stack != [] && 0 < n && 0 < a && Out(m, file, a) == la.marks
    requires Steps(m, file, a).stack != [] && Pop(Steps(m, file, a)) == Pop(Shifted(m, la.end))
    requires Rounds(Steps(m, file, a), file, b, lb, endless, n - 1, rounds)
    ensures Rounds(m, file, a + b, lb.(marks := la.marks + lb.marks), endless, n, rounds)
  {
    hide Step, Steps, Out, Shifted, Pop;
    OutMore(m, file, a, b);
    StepsMore(m, file, a, b);
    if lb.fate == Ended && !endless {
      SamePop(m, Steps(m, file, a), la.end, lb.end);
    }
  }

  // ------------------------------------------------------------------ the linearization

  /** A step reads what it yields, or nothing. */
  lemma ReadsYielded(m: Machine, file: seq<Byte>)
    requires Matched(m)
    ensures var t := Step(m, file); t.read == Reads(Shown(t))
  {
    hide ReadValue, Repeats, Join, ColorOf, Handed;
    var t := Step(m, file);
    assert Reads([]) == [];
    if t.seen.Yielded? {
      assert Shown(t)[..0] == [];
    }
  }

  lemma {:induction false} MarksBoth(a: seq<Mark>, b: seq<Mark>)
    ensures Spans(a + b) == Spans(a) + Spans(b) && Reads(a + b) == Reads(a) + Reads(b)
    decreases |b|
  {
    if b == [] {
      assert a + b == a;
    } else {
      assert (a + b)[..|a + b| - 1] == a + b[..|b| - 1];
      MarksBoth(a, b[..|b| - 1]);
    }
  }

  /** A run is the steps of the generators, with the spans and the reads so far. */
  lemma {:induction false} RunIs(f: Format, file: seq<Byte>, k: nat)
    ensures var r, out := After(f, file, k), Out(Start(f), file, k);
      r.m == Steps(Start(f), file, k) && r.spans == Spans(out) && r.read == Reads(out)
  {
    hide Step, Start, Shown, Reads, Spans;
    StartMatched(f);
    if k > 0 {
      RunIs(f, file, k - 1);
      var t := Step(Steps(Start(f), file, k - 1), file);
      ReadsYielded(Steps(Start(f), file, k - 1), file);
      MarksBoth(Out(Start(f), file, k - 1), Shown(t));
      ShownSpans(t);
    } else {
      NoMarks();
    }
  }

  lemma StartMatched(f: Format)
    ensures Matched(Start(f))
  {
  }

  lemma ShownSpans(t: Turn)
    ensures Spans(Shown(t)) == if t.seen.Yielded? then [t.seen.span] else []
  {
  }

  lemma NoMarks()
    ensures Spans([]) == [] && Reads([]) == []
  {
  }

  /** What a format lays is what its generators yield and read: all of it when it ends, what came before
      when it throws, and any number of rounds of an endless repetition. */
  lemma Linearizes(f: Format, file: seq<Byte>, rounds: nat) returns (k: nat)
    ensures var l, r := Lay(f, file, rounds), After(f, file, k);
      && r.spans == Spans(l.marks) && r.read == Reads(l.marks)
      && (l.fate == Ended ==> r.m.Done() && !r.m.failed) && (l.fate == Thrown ==> r.m.failed)
      && (l.fate == Cut ==> k >= rounds && Alive(r.m))
  {
    k := Laying(f, file, rounds);
    hide Lay, Out, Steps, Start, Spans, Reads;
    RunIs(f, file, k);
  }

  lemma Laying(f: Format, file: seq<Byte>, rounds: nat) returns (k: nat)
    ensures var l, u := Lay(f, file, rounds), Steps(Start(f), file, k);
      && Out(Start(f), file, k) == l.marks
      && (l.fate == Ended ==> u.Done() && !u.failed) && (l.fate == Thrown ==> u.failed)
      && (l.fate == Cut ==> k >= rounds && Alive(u))
  {
    if f.open {
      k := 0;
    } else {
      k := RunAll(Start(f), file, f.segments, "", 0, rounds);
    }
  }

  /** And every run, wherever it is stopped, has yielded and read a beginning of what the format lays. */
  lemma EveryPrefix(f: Format, file: seq<Byte>, k: nat)
    ensures var l, r := Lay(f, file, k), After(f, file, k); var n := |r.spans|;
      && n <= |l.marks| && r.spans == Spans(l.marks[..n]) && r.read == Reads(l.marks[..n])
      && (r.m.Done() || r.m.failed ==> n == |l.marks|)
      && (r.m.Done() && !r.m.failed ==> l.fate == Ended) && (r.m.failed ==> l.fate == Thrown)
  {
    hide Lay, After, Out, Steps, Start, Reads;
    StartMatched(f);
    var j := Laying(f, file, k);
    RunIs(f, file, j);
    RunIs(f, file, k);
    if j < k {
      SpansGrow(f, file, j, k);
      OutMore(Start(f), file, j, k - j);
      assert |Out(Start(f), file, k)| == |After(f, file, k).spans| == |After(f, file, j).spans|;
      assert Out(Start(f), file, k) == Out(Start(f), file, j);
    } else {
      SpansGrow(f, file, k, j);
      OutMore(Start(f), file, k, j - k);
      assert Out(Start(f), file, j)[..|After(f, file, k).spans|] == Out(Start(f), file, k);
    }
  }

  lemma FirstSpans(ms: seq<Mark>, n: nat)
    requires n <= |ms|
    ensures Spans(ms[..n]) == Spans(ms)[..n]
  {
  }

  /** A span is of the linearization exactly when the generators come to yield it. */
  lemma LiesIff(f: Format, file: seq<Byte>, s: Span)
    ensures Lies(f, file, s) <==> exists k: nat :: s in After(f, file, k).spans
  {
    hide Lay, After;
    if Lies(f, file, s) {
      var rounds: nat :| s in Spans(Lay(f, file, rounds).marks);
      var k := Linearizes(f, file, rounds);
    }
    if k: nat :| s in After(f, file, k).spans {
      EveryPrefix(f, file, k);
      FirstSpans(Lay(f, file, k).marks, |After(f, file, k).spans|);
      assert s in Spans(Lay(f, file, k).marks);
    }
  }
}
