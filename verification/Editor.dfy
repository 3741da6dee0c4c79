/** The editor a file is meant to be: a text with a linear history of snapshots. */
module Editor {
  import opened Bytes

  /** What subscribers hear: the bytes from `offset` on may have changed. */
  datatype Event = Silent | Changed(offset: nat, len: int)

  /** The published range covers every byte that may differ, at least up to the old end. */
  ghost predicate Told(event: Event, before: seq<Byte>, after: seq<Byte>) {
    event.Changed? && event.len >= 0 && event.offset + event.len >= |before| && Agree(before, after, event.offset)
  }

  /** A subscriber hears all there is to know. */
  ghost predicate Fair(event: Event, before: seq<Byte>, after: seq<Byte>) {
    (event == Silent && before == after) || Told(event, before, after)
  }

  /** `snaps[i]` is the text of revision `i`; `pending` tells of uncommitted changes. */
  datatype Editor = Editor(text: seq<Byte>, snaps: seq<seq<Byte>>, cur: nat, pending: bool)
  {
    /** Pending changes exist only at the last revision; without any, the text is a snapshot. */
    ghost predicate Coherent() {
      && cur < |snaps|
      && (pending ==> cur == |snaps| - 1)
      && (!pending ==> text == snaps[cur])
    }

    /** Changing the text forgets the revisions that were undone. */
    function Edited(t: seq<Byte>): Editor
      requires cur < |snaps|
    {
      Editor(t, snaps[..cur + 1], cur, true)
    }

    function Insert(at: nat, data: seq<Byte>): Editor
      requires cur < |snaps|
    {
      if data == [] || at > |text| then this else Edited(Inserted(text, at, data))
    }

    function Delete(at: nat, len: nat): Editor
      requires cur < |snaps|
    {
      if len == 0 || at >= |text| then this else Edited(Deleted(text, at, len))
    }

    function Replace(at: nat, data: seq<Byte>): Editor
      requires cur < |snaps|
    {
      if data == [] || at >= |text| then this
      else Edited(text[..at] + data + text[Min(at + |data|, |text|)..])
    }

    function Commit(): Editor {
      if pending then Editor(text, snaps + [text], |snaps|, false) else this
    }

    function Undo(): Editor {
      var e := Commit();
      if 0 < e.cur <= |e.snaps| then e.(text := e.snaps[e.cur - 1], cur := e.cur - 1) else e
    }

    function Redo(): Editor {
      var e := Commit();
      if e.cur + 1 < |e.snaps| then e.(text := e.snaps[e.cur + 1], cur := e.cur + 1) else e
    }
  }

  /** Deleting and then inserting at the same place overwrites; bytes past the end are appended. */
  lemma ReplaceIsBoth(e: Editor, at: nat, data: seq<Byte>)
    requires e.cur < |e.snaps| && at < |e.text|
    ensures e.Delete(at, |data|).cur < |e.Delete(at, |data|).snaps|
    ensures e.Replace(at, data) == e.Delete(at, |data|).Insert(at, data)
    ensures at <= |e.Delete(at, |data|).text|
  {
    if data != [] {
      var d := Deleted(e.text, at, |data|);
      assert d[..at] == e.text[..at] && d[at..] == e.text[Min(at + |data|, |e.text|)..];
      assert e.snaps[..e.cur + 1][..e.cur + 1] == e.snaps[..e.cur + 1];
    }
  }

  /** What insertion and deletion publish is enough. */
  lemma InsertTold(e: Editor, at: nat, data: seq<Byte>)
    requires e.cur < |e.snaps| && at <= |e.text| && data != []
    ensures Told(Changed(at, |e.text| - at), e.text, e.Insert(at, data).text)
  {
  }

  lemma DeleteNothing(e: Editor, at: nat, len: nat)
    requires e.cur < |e.snaps|
    ensures len == 0 || at >= |e.text| ==> e.Delete(at, len) == e
  {
  }

  lemma DeleteTold(e: Editor, at: nat, len: nat)
    requires e.cur < |e.snaps| && at < |e.text| && len != 0
    ensures Told(Changed(at, |e.Delete(at, len).text| + len - at), e.text, e.Delete(at, len).text)
  {
  }

  /** Byte by byte: what an insertion, a deletion and an overwriting leave. */
  lemma InsertBytes(e: Editor, at: nat, data: seq<Byte>)
    requires e.cur < |e.snaps| && at <= |e.text|
    ensures var t, n := e.Insert(at, data).text, |data|;
      && |t| == |e.text| + n && (forall i :: 0 <= i < at ==> t[i] == e.text[i])
      && (forall i :: 0 <= i < n ==> t[at + i] == data[i]) && (forall i :: at <= i < |e.text| ==> t[n + i] == e.text[i])
  {
  }

  lemma DeleteBytes(e: Editor, at: nat, len: nat)
    requires e.cur < |e.snaps| && at <= |e.text|
    ensures var t, n := e.Delete(at, len).text, if at + len <= |e.text| then len else |e.text| - at;
      && |t| == |e.text| - n && (forall i :: 0 <= i < at ==> t[i] == e.text[i])
      && (forall i :: at <= i < |t| ==> t[i] == e.text[n + i])
  {
  }

  lemma ReplaceBytes(e: Editor, at: nat, data: seq<Byte>)
    requires e.cur < |e.snaps| && at < |e.text|
    ensures var t, n := e.Replace(at, data).text, |data|;
      && |t| == (if at + n <= |e.text| then |e.text| else at + n)
      && (forall i :: 0 <= i < n ==> t[at + i] == data[i])
      && (forall i :: 0 <= i < |e.text| && !(at <= i < at + n) ==> t[i] == e.text[i])
  {
  }

  // ------------------------------------------------------------------ runs

  datatype Op =
    | Insertion(at: nat, data: seq<Byte>)
    | Deletion(at: nat, len: nat)
    | Replacement(at: nat, data: seq<Byte>)
    | Committing
    | Undoing
    | Redoing

  function Step(e: Editor, op: Op): (r: Editor)
    requires e.Coherent()
    ensures r.Coherent()
  {
    match op
    case Insertion(at, data) => e.Insert(at, data)
    case Deletion(at, len) => e.Delete(at, len)
    case Replacement(at, data) => e.Replace(at, data)
    case Committing => e.Commit()
    case Undoing => e.Undo()
    case Redoing => e.Redo()
  }

  /** The text while an operation is half done: a replacement is a deletion and then an insertion. */
  function Halfway(text: seq<Byte>, op: Op): (r: seq<Byte>)
    ensures |r| <= |text|
  {
    if op.Replacement? && op.data != [] && op.at < |text| then Deleted(text, op.at, |op.data|) else text
  }

  /** What an edit publishes: a replacement for both of its halves, all others at most once. */
  ghost predicate Published(text: seq<Byte>, op: Op, first: Event, second: Event) {
    match op
    case Insertion(at, data) =>
      first == Silent && second == if data == [] || at > |text| then Silent else Changed(at, |text| - at)
    case Deletion(at, len) =>
      && first == Silent
      && second == if len == 0 || at >= |text| then Silent else Changed(at, |Deleted(text, at, len)| + len - at)
    case Replacement(at, data) =>
      if data == [] || at >= |text| then first == second == Silent
      else
        var d := Deleted(text, at, |data|);
        first == Changed(at, |d| + |data| - at) && second == Changed(at, |d| - at)
    case _ => first == Silent
  }

  lemma DeletePublishes(e: Editor, at: nat, len: nat, event: Event)
    requires e.cur < |e.snaps|
    requires event == if len == 0 || at >= |e.text| then Silent else Changed(at, |e.Delete(at, len).text| + len - at)
    ensures Published(e.text, Deletion(at, len), Silent, event)
  {
  }

  lemma InsertPublishes(e: Editor, at: nat, data: seq<Byte>, event: Event)
    requires event == if data == [] || at > |e.text| then Silent else Changed(at, |e.text| - at)
    ensures Published(e.text, Insertion(at, data), Silent, event)
  {
  }

  /** All operations of `ops`, one after the other. */
  function Run(e: Editor, ops: seq<Op>): (r: Editor)
    requires e.Coherent()
    ensures r.Coherent()
    decreases |ops|
  {
    if ops == [] then e else Run(Step(e, ops[0]), ops[1..])
  }

  /** Undo and redo are inverse: undo then redo leads back to the committed editor, and the
      other way round. */
  lemma UndoRedo(e: Editor)
    requires e.Coherent()
    ensures 0 < e.Commit().cur ==> e.Undo().Redo() == e.Commit()
    ensures e.Commit().cur + 1 < |e.Commit().snaps| ==> e.Redo().Undo() == e.Commit()
  {
  }

  /** `n` undos lead to the snapshot `n` revisions back and keep all of them. */
  lemma {:induction false} UndoFar(e: Editor, n: nat)
    requires e.Coherent() && !e.pending && n <= e.cur
    ensures Run(e, seq(n, i => Undoing)) == Editor(e.snaps[e.cur - n], e.snaps, e.cur - n, false)
    decreases n
  {
    if n > 0 {
      var ops := seq(n, i => Undoing);
      assert ops[1..] == seq(n - 1, i => Undoing) && ops[0] == Undoing;
      UndoFar(e.Undo(), n - 1);
    }
  }

  /** An edit that changes something forgets exactly the revisions after the current one:
      nothing is left to redo, and undoing it brings back the text it started from. */
  lemma EditForgets(e: Editor, t: seq<Byte>)
    requires e.Coherent() && !e.pending
    ensures var r := e.Edited(t);
      && r.Coherent() && r.snaps == e.snaps[..e.cur + 1] && r.Redo() == r.Commit()
      && r.Undo().text == e.text && r.Undo().cur == e.cur
  {
  }
}
