/** What a purge frees: `change_free` walks from the first piece that a change brought to the last,
    along the pointers as they are after the undos. */
module Freeing {
  import opened Links
  import opened History
  import opened Trace

  /** What the edits brought, those of the last edit first. */
  ghost function CameOf(es: seq<Edit>): seq<Piece>
    decreases |es|
  {
    if es == [] then [] else es[|es| - 1].came + CameOf(es[..|es| - 1])
  }

  lemma {:induction false} CameConcat(a: seq<Edit>, b: seq<Edit>)
    ensures CameOf(a + b) == CameOf(b) + CameOf(a)
    decreases |b|
  {
    if b == [] {
      assert a + b == a;
    } else {
      var n := |b| - 1;
      var x, y, z := b[n].came, CameOf(b[..n]), CameOf(a);
      CameConcat(a, b[..n]);
      assert (a + b)[..|a| + n] == a + b[..n] && (a + b)[|a| + n] == b[n];
      assert x + (y + z) == (x + y) + z;
    }
  }

  lemma {:induction false} CameBrought(es: seq<Edit>)
    ensures Brought(es) == set p | p in CameOf(es)
    decreases |es|
  {
    if es != [] {
      var n := |es| - 1;
      CameBrought(es[..n]);
      assert es == es[..n] + [es[n]];
      BothBrought(es[..n], [es[n]]);
      OneBrought(es[n]);
      hide Brought;
    }
  }

  lemma OneBrought(e: Edit)
    ensures Brought([e]) == set p | p in e.came
  {
    assert [e][0] == e;
  }

  /** The edits have brought each piece once. */
  lemma {:induction false} CameDistinct(es: seq<Edit>)
    requires Once(es) && forall k :: 0 <= k < |es| ==> Distinct(es[k].came)
    ensures Distinct(CameOf(es))
    decreases |es|
  {
    if es != [] {
      var n := |es| - 1;
      assert Once(es[..n]);
      CameDistinct(es[..n]);
      CameBrought(es[..n]);
      forall p | p in CameOf(es[..n]) ensures p !in es[n].came {
        BroughtBy(es[..n], p);
        var k :| 0 <= k < n && p in es[..n][k].came;
        assert es[..n][k] == es[k];
      }
      DistinctBoth(es[n].came, CameOf(es[..n]));
    }
  }

  lemma DistinctBoth(a: seq<Piece>, b: seq<Piece>)
    requires Distinct(a) && Distinct(b) && forall p :: p in b ==> p !in a
    ensures Distinct(a + b)
  {
    var s := a + b;
    forall i, j | 0 <= i < j < |s| ensures s[i] != s[j] {
      assert j >= |a| ==> b[j - |a|] in b;
    }
  }

  lemma BroughtBy(es: seq<Edit>, p: Piece)
    requires p in Brought(es)
    ensures exists k :: 0 <= k < |es| && p in es[k].came
  {
  }

  /** The run of an undone edit hangs together, and between its old neighbours. */
  ghost predicate Hung(m: Links, head: Piece, e: Edit) {
    Hangs(m, e.Left(head), e.came, e.Right(head)) && Distinct(e.came) && head !in e.came
  }

  /** All runs of undone edits do, although edits that came later have been applied in between. */
  lemma {:induction false} UndoneHang(m: Links, head: Piece, es: seq<Edit>, s: seq<Piece>)
    requires Future(m, head, es, s) && Once(es) && forall p :: p in Brought(es) ==> p !in s
    ensures forall k :: 0 <= k < |es| ==> Hung(m, head, es[k])
    decreases |es|
  {
    if es != [] {
      var e := es[0];
      FutureHung(m, head, e);
      RestNew(es, s);
      UndoneHang(Relink(m, head, e), head, es[1..], e.To());
      forall k | 0 <= k < |es| ensures Hung(m, head, es[k]) {
        if k > 0 {
          assert es[1..][k - 1] == es[k];
          assert forall p :: p in es[k].came ==> p in Brought(es);
          StillHung(m, head, e, es[k]);
        }
      }
    }
  }

  lemma FutureHung(m: Links, head: Piece, e: Edit)
    requires Ring(m, head, e.From()) && Ring(Relink(m, head, e), head, e.To())
    ensures Hung(m, head, e)
  {
    CameHangs(m, head, e);
    var t := [head] + e.To();
    assert forall i :: 0 <= i < |e.came| ==> e.came[i] == t[1 + |e.before| + i];
    assert t[0] == head;
  }

  lemma RestNew(es: seq<Edit>, s: seq<Piece>)
    requires es != [] && Once(es) && es[0].From() == s && forall p :: p in Brought(es) ==> p !in s
    ensures Once(es[1..]) && forall p :: p in Brought(es[1..]) ==> p !in es[0].To()
  {
    forall p | p in Brought(es[1..]) ensures p !in es[0].To() {
      var k :| 0 <= k < |es[1..]| && p in es[1..][k].came;
      assert p in es[k + 1].came && p in Brought(es);
    }
  }

  /** The pointers that an edit writes are not those of a run that it does not know. */
  lemma StillHung(m: Links, head: Piece, e: Edit, f: Edit)
    requires Hung(Relink(m, head, e), head, f) && Ring(m, head, e.From()) && forall p :: p in f.came ==> p !in e.From()
    ensures Hung(m, head, f)
  {
    var n := Relink(m, head, e);
    Neighbours(head, e);
    PathKept(n, m, f.came);
  }

  lemma Neighbours(head: Piece, e: Edit)
    ensures e.Left(head) == head || e.Left(head) in e.From()
    ensures e.Right(head) == head || e.Right(head) in e.From()
  {
  }

  // ------------------------------------------------------------------ the revisions after the current one

  lemma {:induction false} FlatOnce(g: Trace, cur: nat, n: nat)
    requires g.Novel() && |g.marks| == |g.edits| && cur < n <= |g.edits|
    ensures var es := Flat(g.edits[cur + 1..n]);
      && Once(es) && (forall p :: p in Brought(es) ==> p !in g.marks[cur])
      && forall i :: n <= i < |g.edits| ==> Brought(g.edits[i]) !! Mentioned(es)
    decreases n
  {
    if n == cur + 1 {
      assert g.edits[cur + 1..n] == [];
    } else {
      FlatOnce(g, cur, n - 1);
      var fs, bs := Flat(g.edits[cur + 1..n - 1]), g.edits[n - 1];
      assert g.edits[cur + 1..n] == g.edits[cur + 1..n - 1] + [bs];
      FlatSnoc(g.edits[cur + 1..n - 1], bs);
      assert NewTo(bs, g.marks[cur], g.edits[cur]);
      OnceConcat(fs, bs);
      hide Brought, Mentioned, Once;
      forall i | n <= i < |g.edits| ensures Brought(g.edits[i]) !! Mentioned(fs + bs) {
        assert NewTo(g.edits[i], g.marks[n - 1], g.edits[n - 1]);
      }
    }
  }

  lemma OnceConcat(a: seq<Edit>, b: seq<Edit>)
    requires Once(a) && Once(b) && Brought(b) !! Mentioned(a)
    ensures Once(a + b) && Brought(a + b) == Brought(a) + Brought(b) && Mentioned(a + b) == Mentioned(a) + Mentioned(b)
  {
    var s := a + b;
    forall k, l, p | 0 <= k < l < |s| && p in s[l].came ensures p !in s[k].came && p !in s[k].gone {
      if l >= |a| && k < |a| {
        assert p in b[l - |a|].came && p in Brought(b);
        assert p in a[k].came + a[k].gone ==> p in Mentioned(a);
      }
    }
    BothBrought(a, b);
  }

  lemma BothBrought(a: seq<Edit>, b: seq<Edit>)
    ensures Brought(a + b) == Brought(a) + Brought(b) && Mentioned(a + b) == Mentioned(a) + Mentioned(b)
  {
    var s := a + b;
    assert forall k :: 0 <= k < |a| ==> s[k] == a[k];
    assert forall k :: 0 <= k < |b| ==> s[|a| + k] == b[k];
    forall p ensures p in Brought(s) <==> p in Brought(a) || p in Brought(b) {
      if p in Brought(b) {
        var k :| 0 <= k < |b| && p in b[k].came;
        assert p in s[|a| + k].came;
      }
    }
    forall p ensures p in Mentioned(s) <==> p in Mentioned(a) || p in Mentioned(b) {
      if p in Mentioned(b) {
        var k :| 0 <= k < |b| && p in b[k].came + b[k].gone;
        assert p in s[|a| + k].came + s[|a| + k].gone;
      }
    }
  }

  /** Every run that the revisions after the current one had brought can be walked from its first to
      its last piece, and the walks meet each piece once; they meet the pieces to be freed. */
  lemma UndoneWalks(g: Trace, head: Piece, cur: nat)
    requires g.Sound(head, cur) && g.draft == []
    ensures forall k :: 0 <= k < |g.Undone(cur)| ==> Hung(g.links, head, g.Undone(cur)[k])
    ensures Distinct(CameOf(g.Undone(cur))) && Freed(g, cur) == set p | p in CameOf(g.Undone(cur))
  {
    var es := g.Undone(cur);
    assert g.edits[cur + 1..|g.edits|] == g.edits[cur + 1..];
    FlatOnce(g, cur, |g.edits|);
    assert g.chain == g.marks[cur];
    hide Trace.Novel, Trace.Covered, Trace.Applied, Brought, Past;
    UndoneHang(g.links, head, es, g.chain);
    CameDistinct(es);
    CameBrought(es);
    FlatFreed(g, cur, |g.edits|);
  }

  ghost function FreedTo(g: Trace, cur: nat, n: nat): set<Piece>
    requires n <= |g.edits|
  {
    set i, p | cur < i < n && p in Brought(g.edits[i]) :: p
  }

  lemma {:induction false} FlatFreed(g: Trace, cur: nat, n: nat)
    requires cur < n <= |g.edits|
    ensures Brought(Flat(g.edits[cur + 1..n])) == FreedTo(g, cur, n)
    decreases n
  {
    hide Brought;
    if n == cur + 1 {
      assert g.edits[cur + 1..n] == [];
      NothingMentioned([]);
    } else {
      FlatFreed(g, cur, n - 1);
      assert g.edits[cur + 1..n] == g.edits[cur + 1..n - 1] + [g.edits[n - 1]];
      FlatSnoc(g.edits[cur + 1..n - 1], g.edits[n - 1]);
      BothBrought(Flat(g.edits[cur + 1..n - 1]), g.edits[n - 1]);
    }
  }

  /** What one more edit, or one more revision, in front of the others brought is freed last. */
  lemma CameCons(es: seq<Edit>, i: nat)
    requires i < |es|
    ensures CameOf(es[i..]) == CameOf(es[i + 1..]) + es[i].came
  {
    assert es[i..] == [es[i]] + es[i + 1..];
    CameConcat([es[i]], es[i + 1..]);
    assert [es[i]][..0] == [];
    assert CameOf([es[i]]) == es[i].came;
  }

  lemma RevisionCame(ess: seq<seq<Edit>>, i: nat)
    requires i < |ess|
    ensures CameOf(Flat(ess[i..])) == CameOf(Flat(ess[i + 1..])) + CameOf(ess[i])
  {
    assert ess[i..][1..] == ess[i + 1..];
    CameConcat(ess[i], Flat(ess[i + 1..]));
  }

  lemma {:induction false} InFlat(ess: seq<seq<Edit>>, i: nat, e: Edit)
    requires i < |ess| && e in ess[i]
    ensures e in Flat(ess)
    decreases |ess|
  {
    if i > 0 {
      InFlat(ess[1..], i - 1, e);
    }
  }

  /** The runs of a revision after the current one. */
  lemma RevisionHangs(g: Trace, head: Piece, cur: nat, i: nat)
    requires g.Sound(head, cur) && cur < i < |g.edits|
    ensures forall k :: 0 <= k < |g.edits[i]| ==> Hung(g.links, head, g.edits[i][k])
  {
    hide Trace.Novel, Trace.Threaded, Trace.Windable, Hung;
    UndoneWalks(g, head, cur);
    var es := g.Undone(cur);
    forall k | 0 <= k < |g.edits[i]| ensures Hung(g.links, head, g.edits[i][k]) {
      InFlat(g.edits[cur + 1..], i - cur - 1, g.edits[i][k]);
      var j :| 0 <= j < |es| && es[j] == g.edits[i][k];
    }
  }

  lemma NoneCame(ess: seq<seq<Edit>>, n: nat)
    requires n == |ess|
    ensures CameOf(Flat(ess[n..])) == []
  {
    assert ess[n..] == [];
  }
}
