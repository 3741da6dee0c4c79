# hedit, modelled

hedit is a hex editor.  This project models the parts of it that carry its promises: the piece
chain behind an open file with its revisions (`src/file.c`), the crit-bit map that holds commands
and options (`src/util/map.c`), the cache of a linearized file format with its interval tree
(`src/js`), the gap buffer of the command line (`src/util/buffer.c`) and the editing view
(`src/views/edit.c`).  To check it: `dafny verify dfyconfig.toml`.

## How it is built

A file is a class `File` with the fields of the source: a circular list of `Piece` objects pointing
into `Block` objects, the list of all revisions, the pending changes and the cached piece.  Its
methods write those objects one by one, as the C code does.  Ghost fields mirror the objects as
values (`Links.Links` for the `next` and `prev` pointers, `Heap.Slices` and `Heap.Store` for the
bytes, `Trace.Trace` for how the chain came about), and `State.State` is the file as a value with
the invariant `Tidy`.  What a file stands for is `Editor.Editor`: a text, a linear list of
snapshots, the current one, and whether there are uncommitted changes.  Every operation is proved
to do to the file what the operation of the same name does to the editor.

| files | what they hold |
|---|---|
| `Bytes`, `Editor` | splices of byte sequences; the plain editor and what its events tell |
| `Links`, `Chain`, `History`, `Trace`, `Freeing` | the list as a value, the text it spells, undo and redo over stale pointers, whole histories and what a purge frees of them |
| `Ledger`, `Booking` | what recorded spans and lengths say, and how each operation keeps that |
| `Heap`, `State`, `Recording`, `Cases`, `Effect`, `Outcome`, `Moving` | objects and values, the invariant, and what each branch of an operation does to it |
| `File`, `Reading` | the operations on the objects |
| `Hazards`, `Runs`, `Steady`, `Places` | two sessions that end badly, whole runs, runs that are sure to come to their end, and the positions that undo and redo answer |
| `Bits`, `CritBit`, `RadixMap`, `Commands` | keys as bits, the tree as a value, the slots in memory, command lookup |
| `Intervals`, `IntervalTree` | the balanced tree as a value, and in memory with parent links |
| `Layout`, `Integers`, `Linear` | linearization as a machine, the numbers it reads, and what a format means by recursion on it |
| `FormatCache`, `Session` | the cache of a linearized format, and the cache listening to a file |
| `GapBuffer`, `EditView` | the gap buffer; the cursor of the editing view |

## Where the code departs from what it is for

The model follows the code.  Where the code does not keep a promise, a lemma shows it and the
contracts say exactly when it does.

- Undo and redo go by the recorded lengths (`src/file.c:413-430`).  Every swap does what it is for if
  and only if the lengths of that one revision are in order (`Moving.UndoFollows`,
  `Moving.RedoFollows`): for undo a run that came alone must not have the length 0, for redo no run
  that came, and a run without pieces must have it.  Then undo and redo land (`Moving.UndoLands`,
  `Moving.RedoLands`).  The list they form can also be right by luck (`History.HealedByDeletion`); it
  never is when only the change swapped last is wrong (`Moving.UndoLandsIff`, `Moving.RedoLandsIff`).
- Slow edits always record lengths in order; edits in place may not.  A deletion that takes the slow
  way leaves `file->cache` as it is (`src/file.c:1128-1179`), so a later edit of the cached piece charges
  the last pending change, which did not bring that piece (`src/file.c:362-363`); and `cache_delete` may
  empty the cached piece, which can leave both lengths 0 (`src/file.c:368-397`).  Whether an edit goes in
  place is settled before the call (contracts of `File.File.Insert` and `File.File.Delete`), and then
  whether the charge does harm (`Booking.ChargedSure`).  The lengths stay true if and only if the last
  change brought the piece (`Booking.RewriteTruthful`).  `Hazards.StraySession` ends in a null pointer,
  `Hazards.HollowUndo` in a list that is not that of any revision, and `Hazards.HollowSession` follows
  it to a list that spells a byte of an empty file.
- The constant `File.File.mended` stands for the two repairs: the slow deletion forgets the cached
  piece, and `cache_delete` declines to empty it.  Then no run goes wrong (`Runs.Perform`).  The program
  is the case `mended == false`; its runs stop where a length is not in order, and come to their end as
  long as every operation is careful (`Runs.Careful`).  Some are, whatever the file holds: insertions,
  commits, undos and redos in any order, and overtyping what was just inserted (`Steady.PerformSteady`,
  `Steady.TypeAndUndo`).
- The cache of a format does not notice bytes that appear where a read found none, behind the end of
  the file (`FormatCache.AppearsUnnoticed`); it is right after every other change
  (`FormatCache.FormatCache.OnChange`, `Session.Edit`), and reads inside the file never come to that
  (`Session.NeverLate`).
- `hedit_file_visit` has no upper cut-off, and the length of a chunk wraps around if and only if the
  range ends before the last piece starts (`Reading.Visit`).  Saving visits the full range.
- `check_unique` stops counting when the names no longer fit into 256 bytes, so a first candidate of
  more than 253 bytes is run although there are others (`Commands.Resolve`).
- In `on_delete` a count of more than 1 moves the cursor back by one byte only, a count that exceeds
  the bytes in front of the cursor deletes nothing, and a deletion to the right may leave the cursor
  behind the last byte on the right digit (`EditView.Erased`).
- `buffer_move_cursor` uses `memcpy` on ranges that overlap when more bytes move than the gap holds
  (`src/util/buffer.c:97`, `src/util/buffer.c:109`, `GapBuffer.Buffer.MoveCursor`).  The model copies all
  bytes at once.
- `isSame` is imported as a namespace (`src/js/private/intervaltree.js:12`) and then called.  The
  model compares records.

## Model

| member | source | states |
|---|---|---|
| Links.RingStep | src/util/list.h:101-117 | following `next` or `prev` once from any member of a well-linked list leads to its neighbour, and only the last step arrives back at the head; the iteration macros visit the chain in order |
| Links.RelinkRing | src/file.c:413-430 | re-linking two outer pointers turns a well-linked list over the old pieces into one over the new pieces, and leaves the displaced run hanging from the same two neighbours |
| Links.RelinkBack | src/file.c:413-430 | exchanging a run and exchanging it back restores every pointer, in both directions |
| Links.SwapIsRelink | src/file.c:413-430 | the pointer writes of `span_swap`, with its tests on the recorded lengths, are that exchange whenever a length is 0 exactly for an empty run |
| File.File.SpanSwap | src/file.c:413-430 | writes exactly the pointers of the exchange, keeps all pointers inside the known pieces, and changes the size by the difference of the two recorded lengths; two lengths of 0 do nothing |
| File.File.SpanInit | src/file.c:399-411 | records the two ends and the number of bytes of the run from `start` to `end` |
| File.File.PieceFind | src/file.c:302-319 | finds the piece with the byte at a position and the offset in it, and nothing exactly when the position is behind the last byte |
| File.File.AddPiece | src/file.c:281-295 | a new piece that no list, block or history knew before |
| History.UnswappedIsBackAll | src/file.c:1241-1246 | when each swap of the loop of undo takes back the edit it stands for, the whole loop takes the recorded edits back one by one, last one first, although it reads nothing but the stale outer pointers of removed pieces |
| History.SwappedIsForthAll | src/file.c:1272-1277 | when each swap of the loop of redo applies the edit it stands for, the whole loop applies the recorded edits again, first one first |
| History.BackStep | src/file.c:413-430 | `span_swap` with the two spans exchanged takes the last edit back, to every pointer, if and only if a run that came alone has a length other than 0 and, where no piece came, the length is 0 |
| History.ForthStep | src/file.c:413-430 | `span_swap` applies an edit, to every pointer, if and only if the length of the run that comes is 0 exactly for none |
| History.TakesBackIff | src/file.c:1241-1246 | every swap of the loop of undo takes its edit back if and only if all recorded lengths of the revision are as `span_swap` takes for granted; a length charged to the wrong change does no harm by itself |
| History.AppliesAllIff | src/file.c:1272-1277 | every swap of the loop of redo applies its edit if and only if every recorded length of what came is 0 exactly for none |
| History.UndoRestores | src/file.c:1241-1246 | taking a group of edits back leads to the chain before the group, well linked in both directions, from which older groups can still be taken back and this one and all later ones replayed |
| History.RedoRestores | src/file.c:1272-1277 | replaying a group leads to the chain after it, well linked, from which all groups can be taken back; taking it back again is the identity on all pointers |
| History.PastPush | src/file.c:1079-1081 | recording one more edit keeps the whole past reachable |
| Trace.RevertSound | src/file.c:1226-1253 | undo of a revision keeps the whole history sound: chains per revision, the edits between them, and that every one of them can be wound back or forth |
| Trace.ReplaySound | src/file.c:1255-1284 | redo of a revision keeps the whole history sound |
| Trace.RedoUndoesUndo | src/file.c:1226-1284 | redo after undo is the identity on the chain, on all pointers and on the history |
| Trace.PushSound | src/file.c:1047-1081 | a new pending change keeps the history sound, given that its new pieces were known nowhere and hang from the neighbours of the run they replace |
| Trace.PurgeSound | src/file.c:477-502 | forgetting the undone revisions keeps the rest of the history sound |
| Trace.PurgeFrees | src/file.c:477-502 | no piece that a purge frees is in the list, in the chain of a revision that is kept, or in a span of a change that is kept or pending |
| Trace.FreedOnce | src/file.c:437-475 | no two changes have brought the same piece, so none is freed twice |
| Freeing.UndoneHang | src/file.c:446-454 | after any undos the run that an undone edit had brought hangs together as it did when it was linked, between the same stale neighbours, although other edits were applied and taken back in between |
| Freeing.UndoneWalks | src/file.c:477-502 | so all undone runs can be walked, the walks meet each piece once, and what they meet is what the purge is to free |
| Trace.CommitSound | src/file.c:1202-1224 | turning the pending changes into a revision keeps the history sound |
| Ledger.GrowthTrue | src/file.c:428-429 | with true recorded lengths a revision changes the size of the text by the sum of its length differences |
| Ledger.TruthRecords | src/file.c:413-418 | if every recorded length is true and no recorded run has been emptied, every length is as `span_swap` takes for granted, for undo and for redo |
| Booking.RewriteTruthful | src/file.c:362-363 | growing or shrinking the cached piece in place charges the last pending change: the recorded lengths stay true if and only if that change is the one that brought the cached piece |
| Booking.RewriteSolid | src/file.c:368-397 | editing the cached piece in place empties no run but perhaps the last replacement, and not that one while bytes are left |
| Booking.ChargedSure | src/file.c:362-363 | which charge to the last pending change keeps its revision fit for undo, and which for redo, told from the lengths before the charge: a guard that a caller can check ahead of an edit in place |
| Links.Block.Insert | src/file.c:347-357 | opens a gap in the used bytes of a block and fills it |
| Links.Block.Delete | src/file.c:379-386 | closes a gap in the used bytes of a block |
| Heap.SpelledInsert | src/file.c:347-360 | bytes moved inside the last block by an insertion into the piece that owns its end show up in that piece only; every other piece, linked or kept for the history, reads what it read |
| Heap.SpelledDelete | src/file.c:379-390 | the same for a deletion in place |
| Heap.SpelledAppend | src/file.c:271-279 | appending to a block changes the bytes of no piece |
| State.NewCacheOk | src/file.c:1079-1081 | after an insertion the piece with the new bytes is alone at the end of the last block and no committed revision knows it |
| State.OldCacheOk | src/file.c:1128-1179 | a deletion in the slow way keeps the cached piece; while it stays linked it still owns the end of the last block alone, and no committed revision knows it |
| State.PurgeSpares | src/file.c:477-502 | what a purge frees is neither linked nor mentioned by what is kept; while a piece is cached a purge frees nothing |
| File.File.CacheInsert | src/file.c:334-366 | takes the bytes into the cached piece exactly when the piece asked for is the cached one and the last block has room, and keeps the invariant of the whole file |
| File.File.CacheDelete | src/file.c:368-397 | cuts the range out of the cached piece exactly when the piece asked for is the cached one and holds all of it; in a mended file only if bytes are left in it |
| File.File.New | src/file.c:520-541 | a file without a name is empty, has one revision and nothing to undo, and no block has room |
| File.File.Open | src/file.c:604-650 | a file with contents shows them from one piece over one full block; its first revision is where undo stops |
| File.File.RevisionPurge | src/file.c:477-502 | drops exactly the revisions after the current one, touches neither text nor chain, and frees exactly the pieces that they had brought, each once: none of them is linked, cached, or mentioned by a change or revision that is kept |
| File.File.ChangeFree | src/file.c:446-454 | the walk from the first to the last piece of a change, along the pointers as they are, meets exactly the pieces that the change had brought, in order |
| File.File.RevisionFree | src/file.c:470-475 | what is freed for a revision is what its changes had brought, those of the last change first |
| File.File.Insert | src/file.c:938-1093 | through every branch (no bytes, behind the end, empty file, cached piece, cached piece in front, edges of a piece, middle of a piece) the editor gains exactly the bytes at the position and loses the undone revisions; it fails exactly behind the end; what is published suffices; the pending changes gain one with exactly this position, which can be taken back and applied, or the last one is charged with the number of bytes; which of the two is settled before the call by where the position lies and by the room left; in place the cached piece and the last block grow by the bytes; otherwise the bytes get a piece of their own, between two pieces or two halves of one, which is cached then; and true lengths stay true if and only if the bytes did not go into a cached piece that the last change had not brought |
| File.File.Delete | src/file.c:1095-1191 | through every branch (empty range, range past the end, cached piece, one or many pieces, one or two remains) the editor loses exactly the range as far as there is text; it fails exactly from the end on; what is published suffices; the pending changes are told as for insertion; in place the cached piece and the last block shrink; otherwise the pieces from the one with the first byte to the one where the range ends give way to what is left of these two; lengths stay true under the same condition, and the last replacement stays non-empty exactly when bytes are left in it |
| File.File.Replace | src/file.c:1193-1200 | overwrites the bytes there, appending those past the end; it is a deletion and then an insertion at the same place, each with all that its contract says of text, pending changes, lengths and cached piece; two events, each sufficient; it fails exactly where there is no byte to replace |
| Editor.ReplaceIsBoth | src/file.c:1193-1200 | overwriting is the composition of deletion and insertion at one place |
| File.File.CommitRevision | src/file.c:1202-1224 | pending changes become the new last revision, none are left, and the cached piece is forgotten; without pending changes only the latter |
| File.File.Undo | src/file.c:1226-1253 | commits, and then, if the lengths of the revision are as the swaps take for granted, lands exactly on the text of the revision before, keeps all revisions for redo, and publishes a range in front of which nothing changed; it answers the position of the first change, and what it publishes runs from the least position of the revision, or from the end, to the old end; at the first revision it fails; it follows a null pointer exactly when a recorded length is not 0 for a run without pieces; true lengths without emptied runs meet the condition and stay |
| File.File.Redo | src/file.c:1255-1284 | commits, and then, under the condition for redo, lands exactly on the text of the revision after; it answers the position of the last change and publishes from the least; at the last revision it fails; the same for null pointers and true lengths |
| Booking.ChargedKeeps | src/file.c:362-363 | an edit in place changes one length of the last pending change and leaves its position and everything else of all changes |
| Ledger.LowLeast | src/file.c:1237-1245 | where the published range of undo and redo starts is the position of one of the changes, and no change has a smaller one |
| Places.StepNotes | src/file.c:938-1284 | one operation adds its offset to the positions of the pending changes exactly if it is an edit that does not go in place, a replacement for its deletion and for its insertion; drops the positions of undone revisions; a commit makes them those of a revision; undo and redo leave them |
| Places.RunNotes | src/file.c:938-1284 | after every run the positions of all revisions and of the pending changes are the offsets of the edits recorded in them, in their order, and the text is that of the plain editor |
| Places.RunTells | src/file.c:1226-1284 | in every run, undo answers the offset of the first edit recorded in the revision it takes back and redo that of the last one it applies; both publish from the least of these offsets, or from the end of a shorter text, up to the end; where nothing is to be undone or redone nothing is published |
| Places.TypesOn | src/file.c:330-366 | what is inserted into bytes just inserted, or at either end of them, goes in place as long as the last block has room, so the positions stay and one undo answers where the first bytes went |
| Places.InsertUndoRedo | src/file.c:938-1284 | an insertion at a position after a commit, its undo and its redo, in any file: both answer that position and publish all from there on, and the bytes are there again |
| File.File.SwapBack | src/file.c:1237-1246 | the loop of undo: pointers, size, position reported and least position |
| File.File.SwapForth | src/file.c:1267-1277 | the loop of redo: pointers, size, position reported and least position |
| Outcome.LandsOnce | src/file.c:302-319 | only one piece is the one an insertion turns to, so a caller can tell beforehand whether the cached piece will take the bytes |
| Effect.OnePlaced | src/file.c:1003-1047 | at the edge of a piece, or in an empty file, the bytes become one new piece at exactly that offset, and nothing else changes |
| Effect.ThreePlaced | src/file.c:1049-1079 | inside a piece they come between two new pieces with its front and its rest |
| Effect.CutRemoved | src/file.c:1128-1179 | the pieces of the range give way to at most two new ones, with the bytes in front of the range and behind it; a piece that the range only touches at its start is replaced by a copy |
| Outcome.InsertPays | src/file.c:938-1093 | what each way of inserting does to the text, to the history, to the recorded changes and to the truth of the lengths |
| Outcome.DeletePays | src/file.c:1095-1191 | what each way of deleting does to the text, to the history, to the recorded changes and to the truth of the lengths |
| Cases.CutContents | src/file.c:1136-1179 | what is linked after a deletion spells the text in front of the range and the text behind it, whichever remains there are |
| Cases.ThreeText | src/file.c:1047-1077 | splitting a piece around new bytes spells the text with the bytes inserted, and neither run is empty |
| Cases.OneText | src/file.c:1006-1045 | a new piece at an edge spells the text with the bytes inserted |
| Moving.UndoLands | src/file.c:1226-1253 | if the lengths of this one revision are as the swaps take for granted, the revision before is reached with its text, size and history, and the texts agree in front of the least position of the revision taken back; no other length matters, and this revision's need not be true |
| Moving.RedoLands | src/file.c:1255-1284 | the same for the revision after |
| Moving.UndoFollows | src/file.c:1226-1253 | each swap of undo takes back the edit it stands for if and only if the recorded lengths of the current revision are as the swaps take for granted |
| Moving.RedoFollows | src/file.c:1255-1284 | each swap of redo applies the edit it stands for if and only if every length recorded for what came is 0 exactly for none |
| Moving.UndoLandsIff | src/file.c:1226-1253 | when all changes of a revision but the first are in order, in particular when it is a single change, undo re-forms the recorded list if and only if the first one is in order too |
| Moving.RedoLandsIff | src/file.c:1255-1284 | when all changes but the last are in order, redo re-forms the recorded list if and only if the last one is too |
| Moving.HonestSure | src/file.c:413-430 | true lengths of runs with bytes are in order in every revision and in the pending changes |
| Moving.SureMoves | src/file.c:413-430 | when they are in order, both undo and redo land |
| Moving.StrayBreaksUndo | src/file.c:362-363 | when the last change left no piece and the cached piece grows or shrinks in place, undo of that change follows a null pointer, for every such file |
| History.EmptiedStaysLinked | src/file.c:414-415 | a change with both lengths 0 is not undone: the list still holds what it brought |
| History.HealedByDeletion | src/file.c:1241-1246 | why a wrong length need not show: a hollow run left at the gap of an earlier deletion of the same revision is skipped, yet the loop of undo ends with exactly the right pointers |
| Hazards.StraySession | src/file.c:1128-1179 | open two bytes, insert one in front of them, delete the two, insert one more in front, and undo: every text is right until then, yet the undo follows a null pointer |
| Hazards.HollowUndo | src/file.c:368-397 | open two bytes, delete the first; insert a byte and delete it; delete the other byte; with a commit after each; and undo twice: a piece that the revision does not know is still the first one in the list |
| Hazards.HollowSession | src/file.c:368-397 | what comes of it: three undos and three redos from the states of the same session lead to a list that holds a piece with a byte although the size is 0 and the text should be empty |
| Editor.UndoRedo | src/file.c:1226-1284 | redo after undo, and undo after redo, lead back to the committed editor |
| Editor.UndoFar | src/file.c:1226-1253 | n undos lead to the text n revisions back and keep all revisions |
| Editor.EditForgets | src/file.c:477-502 | an edit forgets exactly the revisions after the current one: nothing is left to redo, and undo brings back the text before it |
| Editor.InsertTold | src/file.c:1086-1089 | the published range starts where the text first changed and reaches the old end, for insertion |
| Editor.DeleteTold | src/file.c:1184-1187 | the same for deletion |
| Editor.InsertBytes | src/file.c:938-1093 | byte by byte: the bytes in front stay, then come the new ones, then the others |
| Editor.DeleteBytes | src/file.c:1095-1191 | byte by byte: the bytes in front stay, the range is gone as far as there is text, the others follow |
| Editor.ReplaceBytes | src/file.c:1193-1200 | byte by byte: the range holds the new bytes, also beyond the old end, and all others stay |
| Runs.Perform | src/file.c:938-1284 | every run of insertions, deletions, replacements, commits, undos and redos does to the text, the history and the current revision what it does to the plain editor, up to the first undo or redo whose revision is not in order, where it stops; each state of the run comes from the one before it by what the operation does and what undo and redo told on the way; a run that is careful in each state comes to its end, and so does every run of a mended file |
| Runs.PerformOne | src/file.c:938-1284 | one operation does to the editor what it is for, goes in place or not as its state settles, and publishes sufficient events, a replacement one for its deletion and one for its insertion, with exactly the text after the deletion in between |
| Runs.CutFirm | src/file.c:368-397 | with true lengths a cut in place that leaves a length leaves bytes, so it keeps the books in order |
| Runs.Regrows | src/file.c:1193-1200 | when a replacement empties the cached piece, its insertion goes into the same piece again, unless a piece without bytes follows |
| Steady.AddingSteady | src/file.c:938-1284 | runs of insertions, commits, undos and redos are steady |
| Steady.OvertypesSteady | src/file.c:1193-1200 | and so is overtyping bytes that were just inserted, any number of times, in front of a steady run |
| Steady.StepReady | src/file.c:334-397 | an operation that a steady run allows is careful, and after it what the run counts on holds again: true lengths, no piece without bytes, and the cached piece holds the bytes it is known to hold |
| Steady.PerformSteady | src/file.c:938-1284 | a steady run, told from its operations alone, comes to its end in the program as it is, and the file is ready for the next one |
| Steady.TypeAndUndo | src/file.c:1193-1253 | what was inserted and then overtyped any number of times is gone after one undo |
| Steady.StartsReady | src/file.c:520-650 | a new file and one just opened are ready for any steady run |
| Reading.ReadByte | src/file.c:1286-1295 | answers the byte at the position, and fails exactly behind the last one |
| Reading.FileIterator.constructor | src/file.c:1318-1332 | a range of the text, cut off at its end |
| Reading.FileIterator.Next | src/file.c:1334-1368 | each chunk is the text from the current offset on; the iterator ends exactly at the end of the range, and even a chunk of an emptied piece uses up a piece |
| Reading.ReadAll | src/file.c:1318-1368 | the chunks together are the range of the text, and they run out |
| Reading.Visit | src/file.c:1297-1316 | the chunks together are the range of the text, each handed over with the offset of its first byte; the length of a chunk wraps around if and only if the range ends before the last piece starts, which the full range that saving uses never does |
| Layout.AlwaysTiles | src/js/format.js:104-120 | at every moment of every run, for every format and every contents, the spans so far start at 0, follow each other without gap and are not empty, and every suspended generator, however deep, has been handed the offset where they end |
| Layout.StepHands | src/js/format.js:246-275 | when all nested generators have come to the same offset, the next span starts there and takes all of them to its end, and children that are called, repeat or end without a span leave all of them there |
| Layout.SpansGrow | src/js/format.js:246-275 | spans once yielded stay, and a generator that has ended or thrown yields no more |
| Layout.SpanUnique | src/js/format.js:246-275 | two spans of one linearization that cover the same position are the same span |
| Layout.NoLeak | src/js/format.js:112-120 | while a generator and those inside it run, the variables of the scopes outside stay what they were |
| Layout.RunReads | src/js/format.js:246-275 | linearization depends only on the bytes it has read: where two contents agree on them the whole runs are equal |
| Layout.ReadBefore | src/js/private/format.js:38-42 | a read inside the part that two contents share reads the same |
| Layout.OrdersMirror | src/js/format.js:284-320 | reading bytes in little endian is reading them the other way round in big endian; which is which says Integers.UnsignedIsSum |
| Layout.DecodeRange | src/js/format.js:280-345 | an integer read of n bytes lies in its unsigned or two's complement range, and the two differ by a multiple of the range only |
| Integers.UnsignedIsSum | src/js/format.js:284-320 | the value of n bytes is the sum of the bytes with their weights: byte i weighs 256 to the i in little endian, 256 to the n - 1 - i in big endian |
| Integers.ReadsWritten | src/js/format.js:284-320 | a number written out digit by digit to base 256, lowest digit first in little endian and last in big endian, reads as that number |
| Integers.ReadsBack | src/js/format.js:280-345 | the same for the read of a field at any place of a file, signed in two's complement or unsigned; null exactly when the file ends before |
| Linear.LookupInnermost | src/js/format.js:112-120 | a variable is that of the innermost scope that binds it |
| Linear.RepeatsAtLeastNone | src/js/format.js:104-120 | a child is repeated as often as the number, the variable or the function says, never for what is not positive and for what is not bound |
| Linear.JoinedNames | src/js/format.js:21-28 | names are joined from the outside inwards, in any grouping, and a missing one leaves no trace |
| Linear.AllBoth | src/js/format.js:246-275 | segments pushed later are laid behind the others, in the scope these have left |
| Linear.TimesBoth | src/js/format.js:104-120 | a child a + b times is the child a times and then b times; no time lays nothing |
| Linear.GroupOnce | src/js/format.js:112-120 | a child or group that was ended lays its segments exactly once, under its name, and leaves no variable behind |
| Linear.Linearizes | src/js/format.js:246-275 | what a format means, by recursion on the format (segments in order, a child n times, the beginnings of an endless repetition, names joined, variables bound in their scope), is what the nested generators yield and read: all of it when they end, all before the exception when they throw, and any number of rounds of an endless repetition |
| Linear.EveryPrefix | src/js/format.js:246-275 | wherever a run is stopped, it has yielded and read exactly a beginning of what the format means, and all of it if it has ended or thrown |
| Linear.LiesIff | src/js/format.js:246-275 | a span belongs to the meaning of a format exactly when the generators come to yield it |
| Layout.Answers | src/js/format.js:104-147 | asked for the next span, any generator yields one, ends, throws, or comes back to an endless repetition with all generators and scopes as they were a round before; the last never in a format whose endless repetitions always yield something |
| Layout.AnswersIff | src/js/format.js:104-147 | the request is answered if and only if no endless repetition is come back to without a span in between; so the program hangs in no other way |
| Layout.LivelyAnswers | src/js/format.js:104-147 | a format whose endless repetitions always yield something never hangs, whatever the file and however far it was linearized |
| Layout.EmptyHangs | src/js/format.js:104-147 | an endless repetition of an empty format does run on: after any number of steps it has neither yielded nor ended nor thrown |
| FormatCache.FormatCache.constructor | src/js/private/format.js:54-57 | an empty cache is right for every contents |
| FormatCache.FormatCache.Invalidate | src/js/private/format.js:60-65 | nothing is cached and nothing counts as read any more |
| FormatCache.FormatCache.HasRead | src/js/private/format.js:44-49 | tells exactly whether one of the ranges read by the linearization overlaps the given one; on record are these ranges and no others; a negative length overlaps nothing |
| FormatCache.FormatCache.OnChange | src/js/private/format.js:149-155 | after a change the cache is thrown away, with all its reads, exactly when a recorded read overlaps the published range; otherwise, provided that the range is sufficient, every recorded read would give the same again if and only if none that lay behind the old end lies inside the file now; and then what is cached is still the beginning of the linearized new contents |
| FormatCache.UntouchedReads | src/js/private/format.js:149-155 | when no recorded read overlaps a sufficient range, all reads give the same again if and only if none that found nothing behind the old end lies inside the file now |
| FormatCache.AppearsUnnoticed | src/js/private/format.js:44-49 | the input where that fails: a byte that counts, and as many bytes as it says. Linearized in an empty file that is one span; inserting the byte x publishes an empty range, and the span of the x bytes behind is missing from then on |
| FormatCache.FormatCache.Next | src/js/private/format.js:124-129 | takes a generator that answers at all to its next span, its end or its exception, recording every read |
| FormatCache.FormatCache.Keep | src/js/private/format.js:131-134 | the tree gets exactly one record, with the range, the name and the colour of the span and the number of the asking iterator; all others stay in place |
| FormatCache.Untouched | src/js/private/format.js:149-155 | when no recorded read overlaps the published range and none appears behind the old end, the run on the new contents is the run on the old |
| FormatCache.SurvivorsBefore | src/js/private/format.js:149-155 | reads that lay inside the file and survive a change lie inside it afterwards |
| FormatCache.LookupFinds | src/js/private/format.js:113-119 | the interval tree of the cache answers a span for a position exactly when the cached spans reach it, and then one that covers it |
| FormatCache.FormatIterator.Seek | src/js/private/format.js:106-142 | answers a span that the format means for these contents (Linear.Lies) and that covers the position, whatever was cached before by whichever iterator; an iterator that has not ended answers null or throws only when no span that the format means, however far it is carried, covers it; and it ends also for endless formats, as long as the generator answers up to the position |
| FormatCache.FormatIterator.Lookup | src/js/private/format.js:113-119 | a cached span is answered from the tree |
| Session.NeverLate | src/js/private/format.js:149-155 | when all reads lay inside the file none of them comes to lie inside it only by a change, so the cache is right after every operation |
| Session.Edit | src/js/private/format.js:149-155 | one operation on the file of which the cache hears: the reads that are left are those no published event overlaps; what is cached is then the beginning of the linearization of the text as it is, unless one of these reads had found nothing behind the end of the text before (for a replacement, of the text after its deletion) and lies inside the file now. That never happens when all reads lay inside the file, nor when the text becomes no longer |
| Session.Ask | src/js/private/format.js:106-142 | a view that asks for a position is told a span that the format means for the text as it is and that covers it, and that there is none exactly if none ever does; the file stays what it is |
| Session.Perform | src/js/private/format.js:106-155 | whole sessions of edits with questions in between: the text is that of the editor, and all that is cached is right for it, up to the first undo or redo that is not in order or the first change that brings bytes where a read had found none, behind the end of the text as the change found it; without questions, and with all reads inside the file at first, there is no such change; a mended file stops for the latter only |
| Intervals.RebalanceOrdered | src/js/private/intervaltree.js:230-259 | in all four cases of the rebalancing the keys stay in order and the records stay the same sequence |
| Intervals.RebalanceBalances | src/js/private/intervaltree.js:230-259 | in all four cases the heights are right and differ by at most one afterwards, and at most one level is lost |
| Intervals.RebalanceMarked | src/js/private/intervaltree.js:92-181 | in all four cases every maximum is the largest end below its node afterwards |
| Intervals.Inserted | src/js/private/intervaltree.js:260-290 | insertion of a new key keeps order, heights, balance and maxima, adds exactly the record at its place, and the height grows by at most one |
| Intervals.Pushed | src/js/private/intervaltree.js:446-466 | a record for a key that is there is appended to its node, and all maxima are right again |
| Intervals.PlacedBehind | src/js/private/intervaltree.js:260-290 | a new record comes behind all with the same or a smaller start and in front of the next larger one |
| Intervals.OverlapsMeets | src/js/private/intervaltree.js:304-334 | two ranges overlap exactly when some position is in both |
| Intervals.RecordsAscend | src/js/private/intervaltree.js:304-334 | the records of the tree are in the order of their starts |
| Intervals.FilterCounts | src/js/private/intervaltree.js:304-334 | the scan keeps exactly the overlapping records, each as often as it is there |
| Intervals.FilterAscends | src/js/private/intervaltree.js:304-334 | the scan keeps the order, so a search answers in the order of the starts |
| Intervals.SearchIsFilter | src/js/private/intervaltree.js:304-334 | despite both pruning tests the search answers exactly the overlapping records, in key order, as a linear scan does |
| Intervals.FibBound | src/js/private/intervaltree.js:230-259 | a tree of height h has at least Fib(h + 3) - 1 nodes |
| IntervalTree.LeftRotates | src/js/private/intervaltree.js:182-204 | after the pointer writes of a left rotation the memory holds the rotated tree, with every parent link |
| IntervalTree.RightRotates | src/js/private/intervaltree.js:205-227 | the same for a right rotation |
| IntervalTree.IntervalTree.LeftRotate | src/js/private/intervaltree.js:182-204 | rotates in place: links, parent links, heights, and the link or root above |
| IntervalTree.IntervalTree.RightRotate | src/js/private/intervaltree.js:205-227 | rotates in place: links, parent links, heights, and the link or root above |
| IntervalTree.IntervalTree.RebalanceAt | src/js/private/intervaltree.js:230-259 | rebalances the subtree of a node in place, as the pure rebalancing does, whatever tree hangs above |
| IntervalTree.IntervalTree.InsertBelow | src/js/private/intervaltree.js:260-290 | inserts below a node in place |
| IntervalTree.IntervalTree.SearchExisting | src/js/private/intervaltree.js:336-355 | finds the node with a key, and nothing exactly when no record has it |
| IntervalTree.IntervalTree.UpdateMaxOfParents | src/js/private/intervaltree.js:49-70 | makes the maxima right again from a node up to the root |
| IntervalTree.IntervalTree.Insert | src/js/private/intervaltree.js:433-474 | throws exactly for an interval that ends before it starts, does nothing exactly for a record that is there, and otherwise adds it at its place; the whole tree stays sound |
| IntervalTree.IntervalTree.Find | src/js/private/intervaltree.js:475-483 | answers exactly the stored records that overlap, in key order |
| Bits.HighestDifference | src/util/map.c:155-158 | the shifting loop finds the highest bit in which two bytes differ |
| Bits.FirstDifference | src/util/map.c:145-153 | the scanning loop finds the first byte in which two strings differ, the end of a string counting as a byte, or that they are equal |
| Bits.Critical | src/util/map.c:145-158 | two different keys have a first differing bit |
| Bits.BitOrder | src/util/map.c:251-258 | the first differing bit decides the order of two keys as strings of unsigned bytes |
| Bits.LessDecides | src/util/map.c:251-258 | where two keys differ first the smaller unsigned byte decides, and a key comes before its extensions |
| Bits.PrefixAgrees | src/util/map.c:315-320 | a key has a prefix exactly when it agrees with it on all its bits |
| CritBit.Progress | src/util/map.c:49-53 | along every path the byte number grows, or stays while the bit number falls |
| CritBit.ClosestFinds | src/util/map.c:56-72 | the descent by a key's bits ends at that key if it is in the tree |
| CritBit.GetIsLookup | src/util/map.c:74-83 | lookup in the tree is lookup in the map it stands for |
| CritBit.PutAdds | src/util/map.c:142-196 | splitting at the first node whose position lies behind the critical one adds exactly the key and keeps the invariant |
| CritBit.DeleteRemoves | src/util/map.c:213-246 | raising the sibling removes exactly the key and keeps the invariant |
| CritBit.PutRefines | src/util/map.c:115-197 | put on a possibly empty tree is put on the map it stands for, with the right answer |
| CritBit.DeleteRefines | src/util/map.c:199-249 | delete on a possibly empty tree is removal from the map it stands for, with the right answer |
| CritBit.Canonical | src/util/map.c:142-246 | two trees with the same bindings are the same tree |
| CritBit.SameRuns | src/util/map.c:115-249 | any two sequences of puts and deletes that end in the same bindings end in the same tree |
| CritBit.DeleteUndoesPut | src/util/map.c:115-249 | deleting a fresh key exactly undoes its put |
| CritBit.DeleteAbsent | src/util/map.c:228-232 | for a key that is not there nothing is raised |
| CritBit.ItemsAre | src/util/map.c:251-267 | iteration visits each binding exactly once |
| CritBit.ItemsAscend | src/util/map.c:251-267 | iteration visits the keys in strictly increasing order of unsigned bytes |
| CritBit.PrefixExact | src/util/map.c:291-323 | the prefix walk answers a subtree with exactly the bindings whose keys have the prefix, and nothing when there are none |
| RadixMap.Map.constructor | src/util/map.c:74-83 | a new map is empty |
| RadixMap.Map.FindClosest | src/util/map.c:56-72 | the loop arrives at the slot of the closest key |
| RadixMap.Map.Get | src/util/map.c:74-83 | answers the value of a key, and NULL exactly when it is not there |
| RadixMap.Map.Put | src/util/map.c:115-197 | binds a new key; refuses NULL and a key that is there, changing nothing |
| RadixMap.Map.FindPlace | src/util/map.c:175-190 | the loop arrives at the slot where the new node belongs |
| RadixMap.Map.Delete | src/util/map.c:199-249 | unbinds a key and answers its value; answers NULL for a key that is not there, changing nothing |
| RadixMap.Map.Prefix | src/util/map.c:291-323 | answers the slot of the subtree with exactly the keys that have the prefix |
| RadixMap.Map.Iterate | src/util/map.c:251-267 | hands the bindings to the visitor in order until it declines |
| RadixMap.VisitAll | src/util/map.c:251-267 | a visitor that never declines is handed every binding once and in order |
| RadixMap.VisitStops | src/util/map.c:251-267 | a binding that the visitor declines is the last it is handed |
| RadixMap.Map.First | src/util/map.c:282-289 | answers the first binding |
| Commands.FirstIsLeast | src/util/map.c:282-289 | the first binding has the least key |
| Commands.CountsTwo | src/commands.c:331-350 | the counting visitor tells one candidate from several, unless the first name has more than 253 bytes: then it stops after one |
| Commands.ExactIsLeast | src/commands.c:396-399 | a registered name is least among its extensions, so comparing it with the first candidate finds an exact match |
| Commands.Resolve | src/commands.c:387-413 | no candidate: not registered; an exact name: that command; one candidate: that command; several: ambiguous, except that a first candidate of more than 253 bytes is run |
| GapBuffer.Buffer.constructor | src/util/buffer.c:29-51 | a new buffer is empty |
| GapBuffer.Buffer.MoveCursor | src/util/buffer.c:84-112 | moves the cursor as far as the text goes and keeps the text; the copied ranges overlap exactly when more bytes move than the gap holds |
| GapBuffer.Buffer.SetCursor | src/util/buffer.c:79-82 | puts the cursor at a place, or at the end of a shorter text |
| GapBuffer.Buffer.EnsureGapSize | src/util/buffer.c:178-209 | if there is room the buffer stays; otherwise the capacity is doubled, at least once, until there is enough; text and cursor stay |
| GapBuffer.Buffer.Put | src/util/buffer.c:114-137 | the characters go before the cursor |
| GapBuffer.Buffer.Del | src/util/buffer.c:139-151 | deletes to the left, or to the right for a negative count, as far as the text goes |
| GapBuffer.Buffer.CopyTo | src/util/buffer.c:167-176 | writes the text and a terminator |
| GapBuffer.Perform | src/util/buffer.c:79-151 | every sequence of calls does to the buffer what it does to a text with a cursor |
| GapBuffer.DelUndoesPut | src/util/buffer.c:114-151 | deleting as many characters as were put restores text and cursor |
| GapBuffer.EnoughDoubles | src/util/buffer.c:178-209 | doubling stops the first time that the capacity is enough |
| GapBuffer.PutBetween | src/util/buffer.c:114-137 | what is put stands between the characters in front of the cursor, which is behind it then, and those behind |
| GapBuffer.DelRight | src/util/buffer.c:139-151 | n characters to the right: cursor and text in front of it stay, and exactly the first n behind it are gone, or all if there are fewer |
| GapBuffer.DelLeft | src/util/buffer.c:139-151 | n characters to the left: the text behind the cursor stays, and exactly the last n in front of it are gone, or all if there are fewer |
| GapBuffer.DelRightIsLeft | src/util/buffer.c:139-151 | n to the right is to move n to the right and to delete to the left as many as the cursor has moved |
| GapBuffer.MovedFar | src/util/buffer.c:84-112 | the text stays, the cursor goes as far as asked or to the end on that side, and two moves that stay inside add up |
| EditView.EditView.OnMovement | src/views/edit.c:203-282 | each movement leads where it should from any cursor, counted in digits inside the file, and its line is in the window afterwards |
| EditView.MovedAcross | src/views/edit.c:213-227 | left and right are one digit at a time, from any cursor |
| EditView.MovedUp | src/views/edit.c:228-252 | a line or a page up: as many lines less, in the same column, on the same digit; at the top nothing or the first byte |
| EditView.MovedDown | src/views/edit.c:233-259 | a line or a page down: as many lines more, in the same column; where the file is shorter nothing or its end |
| EditView.MovedOnLine | src/views/edit.c:238-245 | the first digit of the same line; the last byte of it, or the end of the file |
| EditView.EditView.Scroll | src/views/edit.c:275-282 | the window moves only if the line of the cursor is not in it, then no further than it has to, and then it is |
| EditView.EditView.OnInput | src/views/edit.c:305-344 | from any cursor a hex digit replaces the one under it or starts a new byte, and the cursor goes one digit further; other keys, replacing behind the last byte and inserting behind the end do nothing |
| EditView.TypedDigit | src/views/edit.c:305-344 | in numbers: on the left digit the byte divided by 16 is the key and its remainder stays, on the right digit the remainder is the key and the rest stays; a new byte is the key and a 0; all other bytes stay, and the cursor is one digit further |
| EditView.EditView.OnDelete | src/views/edit.c:346-381 | from any cursor, what each count does to text, cursor and digit |
| EditView.ErasedRight | src/views/edit.c:346-381 | a negative count takes the bytes from the cursor on, as many as there are, and the cursor stays |
| EditView.ErasedDigit | src/views/edit.c:346-381 | a single deletion on the right digit makes the left digit 0, keeps the right one and goes one digit back |
| EditView.ErasedLeft | src/views/edit.c:346-381 | any other takes exactly the bytes in front of the cursor, none if there are fewer, and moves it one byte back at most |
| EditView.ErasedInside | src/views/edit.c:346-381 | a deletion takes the cursor out of the file exactly when it takes more bytes to the left than the cursor has before the end, and one |
| EditView.KeptInside | src/views/edit.c:203-344 | movements and keys keep a cursor in the file there, and movements keep it off the right digit behind the last byte |
| EditView.Handle | src/views/edit.c:203-381 | any sequence of movements, keys and deletions, from any cursor, makes of the view what it makes of a text with a cursor |
| EditView.StaysInside | src/views/edit.c:203-381 | as long as no deletion takes more than one byte to the left, the cursor stays in the file over the whole sequence |
| EditView.LeavesFile | src/views/edit.c:367-375 | three bytes deleted at once in front of the end leave the cursor two bytes behind it, where no digit is accepted |
| EditView.Type | src/views/edit.c:305-344 | in insert mode on a left digit, 2n hex digits insert exactly the n bytes they spell and leave the cursor n bytes further on the left digit |
| EditView.SpelledDigits | src/views/edit.c:305-344 | byte i of what the digits spell has digit 2i as its high and digit 2i + 1 as its low one |

## Left out

- Moving.UndoLandsIff: with several changes out of order in one revision, whether the list is right in the end by luck is not characterised; that every swap is right is, by Moving.UndoFollows.
- Runs.Perform: where a revision is not in order the run stops; what the program makes of the list from there on is not followed, except in Hazards.HollowSession.
- File.File.ChangeFree: the iteration macro also reads a pointer of the piece behind the run before it stops; that read is not part of this model.
- Session.Perform: for formats that never hang; Layout.AnswersIff tells when a format does.
- Layout.DecodeRange: integer reads only; floating-point reads are not part of this model.
- Reading.FileIterator.constructor: a range that starts behind the end of the file gives no chunk; the source computes the same with unsigned numbers.
- EditView.EditView.OnInput: a key is a hex digit or none; how `str2int` reads longer strings is not part of this model.
- Opening, saving and closing: system calls, memory mapping, permissions, the name and the read-only flag. An opened file is a block with the bytes that were read.
- Running out of memory, the call of `free` itself, and the overflow of `size_t` in `start + len`; numbers are unbounded except where a wrap-around is stated.
- `FormatCache.next`, which skips a span when it answers from the cache, guessing and registering formats.
- The builder methods of `Format` beyond their result: a format is the list of its segments and whether a group was left open.
- `Node.remove` and the in-order and pre-order iterators of the interval tree; nothing here calls them.
- `map_closest`, `map_contains`, `map_leaf`, `map_copy`, `map_clear`; after `map_delete` of the last key the stale value that the source leaves in the empty map.
- Parsing a command line and running the handler; `Commands.Resolve` starts with the name.
- Modes, key bindings, options, themes, status bar, drawing, logging, and the binding of JavaScript to the core.
