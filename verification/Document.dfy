/**
  A document as it is stored: its text and two stacks of edits, each of which
  keeps only what it deleted and inserted.  Adjacent typing is merged into one
  edit.  `Timeline` replays the stacks into the snapshots of `History`.
 */
module Document {
  import opened Wrappers
  import opened Machine
  import opened Utf8
  import opened FileText
  import opened History

  datatype EditKind = Insert | Backspace | Delete | Paste | Replace
  {
    predicate IsTyping() { Insert? || Backspace? || Delete? }
  }

  datatype Edit = Edit(
    start: nat, deleted: string, inserted: string, cursorBefore: nat, cursorAfter: nat,
    stateBefore: nat, stateAfter: nat, kind: EditKind)

  // ---------------------------------------------------------------------------
  // Edits on text
  // ---------------------------------------------------------------------------

  predicate At(text: string, start: nat, piece: string) {
    start + |piece| <= |text| && text[start..start + |piece|] == piece
  }

  function Splice(text: string, start: nat, removed: string, added: string): string
    requires At(text, start, removed)
  {
    text[..start] + added + text[start + |removed|..]
  }

  /** Removing a range and inserting in its place, one after the other. */
  lemma RemoveInsert(text: string, start: nat, end: nat, added: string)
    requires start <= end <= |text|
    ensures At(text, start, text[start..end])
    ensures var cut := text[..start] + text[end..];
            cut[..start] + added + cut[start..] == Splice(text, start, text[start..end], added)
              == text[..start] + added + text[end..]
  {
    var cut := text[..start] + text[end..];
    assert cut[..start] == text[..start] && cut[start..] == text[end..];
  }

  lemma SpliceBack(text: string, start: nat, removed: string, added: string)
    requires At(text, start, removed)
    ensures At(Splice(text, start, removed, added), start, added)
    ensures Splice(Splice(text, start, removed, added), start, added, removed) == text
  {
    var t := Splice(text, start, removed, added);
    assert t[start..start + |added|] == added;
    assert t[start + |added|..] == text[start + |removed|..];
    assert text == text[..start] + removed + text[start + |removed|..];
  }

  /** The edit that does what `previous` and then `next` do, if they are one run of typing. */
  function Coalesced(previous: Edit, next: Edit): Option<Edit> {
    var merged := previous.(cursorAfter := next.cursorAfter, stateAfter := next.stateAfter);
    if previous.kind != next.kind || previous.cursorAfter != next.cursorBefore then None
    else if next.kind.Insert? && previous.deleted == "" && next.deleted == ""
            && next.start == previous.start + |previous.inserted|
    then Some(merged.(inserted := previous.inserted + next.inserted))
    else if next.kind.Backspace? && previous.inserted == "" && next.inserted == ""
            && next.start + |next.deleted| == previous.start
    then Some(merged.(start := next.start, deleted := next.deleted + previous.deleted))
    else if next.kind.Delete? && previous.inserted == "" && next.inserted == "" && next.start == previous.start
    then Some(merged.(deleted := previous.deleted + next.deleted))
    else None
  }

  /** A merged edit takes back in one step what the two took forward in two, and the other way round. */
  lemma MergedEdit(text: string, previous: Edit, next: Edit)
    requires Coalesced(previous, next).Some?
    requires At(text, previous.start, previous.deleted)
    requires At(Splice(text, previous.start, previous.deleted, previous.inserted), next.start, next.deleted)
    ensures var m := Coalesced(previous, next).value;
            var middle := Splice(text, previous.start, previous.deleted, previous.inserted);
            && At(text, m.start, m.deleted)
            && Splice(text, m.start, m.deleted, m.inserted) == Splice(middle, next.start, next.deleted, next.inserted)
  {
    hide Coalesced;
    MergeShapes(previous, next);
    if next.kind.Insert? {
      MergedInserts(text, previous.start, previous.inserted, next.inserted);
    } else if next.kind.Backspace? {
      MergedBackspaces(text, previous.start, previous.deleted, next.start, next.deleted);
    } else {
      MergedDeletes(text, previous.start, previous.deleted, next.deleted);
    }
  }

  lemma MergeShapes(previous: Edit, next: Edit)
    requires Coalesced(previous, next).Some?
    ensures var m := Coalesced(previous, next).value;
            if next.kind.Insert? then
              && previous.deleted == next.deleted == m.deleted == "" && m.start == previous.start
              && next.start == previous.start + |previous.inserted| && m.inserted == previous.inserted + next.inserted
            else if next.kind.Backspace? then
              && previous.inserted == next.inserted == m.inserted == "" && m.start == next.start
              && next.start + |next.deleted| == previous.start && m.deleted == next.deleted + previous.deleted
            else
              && previous.inserted == next.inserted == m.inserted == "" && m.start == previous.start == next.start
              && m.deleted == previous.deleted + next.deleted
  {
  }

  lemma MergedInserts(text: string, start: nat, a: string, b: string)
    requires start <= |text|
    ensures At(text, start, "") && At(Splice(text, start, "", a), start + |a|, "")
    ensures Splice(Splice(text, start, "", a), start + |a|, "", b) == Splice(text, start, "", a + b)
  {
    var middle := Splice(text, start, "", a);
    assert middle[..start + |a|] == text[..start] + a;
    assert middle[start + |a|..] == text[start..];
  }

  lemma MergedBackspaces(text: string, start: nat, a: string, next: nat, b: string)
    requires At(text, start, a) && next + |b| == start
    requires At(Splice(text, start, a, ""), next, b)
    ensures At(text, next, b + a)
    ensures Splice(Splice(text, start, a, ""), next, b, "") == Splice(text, next, b + a, "")
  {
    var middle := Splice(text, start, a, "");
    assert middle[next..start] == text[next..start];
    assert text[next..next + |b + a|] == text[next..start] + text[start..start + |a|];
    assert middle[..next] == text[..next];
    assert middle[start..] == text[start + |a|..];
  }

  lemma MergedDeletes(text: string, start: nat, a: string, b: string)
    requires At(text, start, a) && At(Splice(text, start, a, ""), start, b)
    ensures At(text, start, a + b)
    ensures Splice(Splice(text, start, a, ""), start, b, "") == Splice(text, start, a + b, "")
  {
    var middle := Splice(text, start, a, "");
    assert middle[start..] == text[start + |a|..];
    assert middle[start..start + |b|] == text[start + |a|..start + |a| + |b|];
    assert text[start..start + |a + b|] == text[start..start + |a|] + text[start + |a|..start + |a| + |b|];
    assert middle[start + |b|..] == text[start + |a + b|..];
    assert middle[..start] == text[..start];
  }

  // ---------------------------------------------------------------------------
  // The stacks as snapshots
  // ---------------------------------------------------------------------------

  /** The edits on the stack can be taken back one after the other, and their ids chain up to `id`. */
  ghost predicate UndoFits(text: string, id: nat, undo: seq<Edit>)
    decreases |undo|
  {
    undo == []
    || (var e := Top(undo);
        && e.stateAfter == id
        && At(text, e.start, e.inserted)
        && UndoFits(Splice(text, e.start, e.inserted, e.deleted), e.stateBefore, Pop(undo)))
  }

  ghost predicate RedoFits(text: string, id: nat, redo: seq<Edit>)
    decreases |redo|
  {
    redo == []
    || (var e := Top(redo);
        && e.stateBefore == id
        && At(text, e.start, e.deleted)
        && RedoFits(Splice(text, e.start, e.deleted, e.inserted), e.stateAfter, Pop(redo)))
  }

  function Past(text: string, id: nat, undo: seq<Edit>): (past: seq<Boundary>)
    requires UndoFits(text, id, undo)
    ensures |past| == |undo|
    decreases |undo|
  {
    if undo == [] then []
    else
      var e := Top(undo);
      var before := Splice(text, e.start, e.inserted, e.deleted);
      Past(before, e.stateBefore, Pop(undo))
      + [Boundary(Snapshot(before, e.stateBefore), e.cursorBefore, e.cursorAfter)]
  }

  function Future(text: string, id: nat, redo: seq<Edit>): (future: seq<Boundary>)
    requires RedoFits(text, id, redo)
    ensures |future| == |redo|
    decreases |redo|
  {
    if redo == [] then []
    else
      var e := Top(redo);
      var after := Splice(text, e.start, e.deleted, e.inserted);
      Future(after, e.stateAfter, Pop(redo)) + [Boundary(Snapshot(after, e.stateAfter), e.cursorBefore, e.cursorAfter)]
  }

  function Timeline(text: string, id: nat, undo: seq<Edit>, redo: seq<Edit>): History
    requires UndoFits(text, id, undo) && RedoFits(text, id, redo)
  {
    History(Past(text, id, undo), Snapshot(text, id), Future(text, id, redo))
  }

  /** Moving the top edit between the stacks while taking it back is an undo of the snapshots. */
  lemma MovingBack(text: string, id: nat, undo: seq<Edit>, redo: seq<Edit>)
    requires UndoFits(text, id, undo) && RedoFits(text, id, redo) && undo != []
    ensures var e := Top(undo);
            At(text, e.start, e.inserted)
            && var before := Splice(text, e.start, e.inserted, e.deleted);
               && UndoFits(before, e.stateBefore, Pop(undo)) && RedoFits(before, e.stateBefore, redo + [e])
               && Timeline(before, e.stateBefore, Pop(undo), redo + [e]) == Undo(Timeline(text, id, undo, redo))
  {
    var e := Top(undo);
    SpliceBack(text, e.start, e.inserted, e.deleted);
    assert Pop(redo + [e]) == redo;
  }

  lemma MovingForth(text: string, id: nat, undo: seq<Edit>, redo: seq<Edit>)
    requires UndoFits(text, id, undo) && RedoFits(text, id, redo) && redo != []
    ensures var e := Top(redo);
            At(text, e.start, e.deleted)
            && var after := Splice(text, e.start, e.deleted, e.inserted);
               && UndoFits(after, e.stateAfter, undo + [e]) && RedoFits(after, e.stateAfter, Pop(redo))
               && Timeline(after, e.stateAfter, undo + [e], Pop(redo)) == Redo(Timeline(text, id, undo, redo))
  {
    var e := Top(redo);
    SpliceBack(text, e.start, e.deleted, e.inserted);
    assert Pop(undo + [e]) == undo;
  }

  /** Pushing a new edit, or merging it into the top one, records its snapshot. */
  lemma Pushing(text: string, id: nat, undo: seq<Edit>, redo: seq<Edit>, e: Edit)
    requires UndoFits(text, id, undo) && RedoFits(text, id, redo)
    requires At(text, e.start, e.deleted) && e.stateBefore == id
    ensures var after := Splice(text, e.start, e.deleted, e.inserted);
            && UndoFits(after, e.stateAfter, undo + [e])
            && Timeline(after, e.stateAfter, undo + [e], [])
               == Record(Timeline(text, id, undo, redo), Snapshot(after, e.stateAfter),
                         e.cursorBefore, e.cursorAfter, false)
  {
    SpliceBack(text, e.start, e.deleted, e.inserted);
    assert Pop(undo + [e]) == undo;
  }

  lemma Merging(text: string, id: nat, undo: seq<Edit>, redo: seq<Edit>, e: Edit)
    requires UndoFits(text, id, undo) && RedoFits(text, id, redo)
    requires At(text, e.start, e.deleted) && e.stateBefore == id
    requires undo != [] && Coalesced(Top(undo), e).Some?
    ensures var after := Splice(text, e.start, e.deleted, e.inserted);
            var stack := Pop(undo) + [Coalesced(Top(undo), e).value];
            && UndoFits(after, e.stateAfter, stack)
            && Timeline(after, e.stateAfter, stack, [])
               == Record(Timeline(text, id, undo, redo), Snapshot(after, e.stateAfter),
                         e.cursorBefore, e.cursorAfter, true)
  {
    var p, m := Top(undo), Coalesced(Top(undo), e).value;
    var before := Splice(text, p.start, p.inserted, p.deleted);
    SpliceBack(text, p.start, p.inserted, p.deleted);
    MergedEdit(before, p, e);
    SpliceBack(before, m.start, m.deleted, m.inserted);
    MergeKeepsIds(p, e);
    assert Pop(Pop(undo) + [m]) == Pop(undo);
    hide Coalesced;
  }

  /** Whether a new edit joins the one on top instead of becoming a step of its own. */
  predicate Merges(undo: seq<Edit>, e: Edit, open: bool) {
    open && undo != [] && Coalesced(Top(undo), e).Some?
  }

  lemma Logging(text: string, id: nat, undo: seq<Edit>, redo: seq<Edit>, e: Edit, open: bool)
    requires UndoFits(text, id, undo) && RedoFits(text, id, redo)
    requires At(text, e.start, e.deleted) && e.stateBefore == id
    ensures var after := Splice(text, e.start, e.deleted, e.inserted);
            var stack := if Merges(undo, e, open) then Pop(undo) + [Coalesced(Top(undo), e).value] else undo + [e];
            && UndoFits(after, e.stateAfter, stack)
            && Timeline(after, e.stateAfter, stack, [])
               == Record(Timeline(text, id, undo, redo), Snapshot(after, e.stateAfter),
                         e.cursorBefore, e.cursorAfter, Merges(undo, e, open))
  {
    hide UndoFits, RedoFits, Timeline, Coalesced, Record, Splice, At;
    if Merges(undo, e, open) {
      Merging(text, id, undo, redo, e);
    } else {
      Pushing(text, id, undo, redo, e);
    }
  }

  lemma MergeKeepsIds(previous: Edit, next: Edit)
    requires Coalesced(previous, next).Some?
    ensures var m := Coalesced(previous, next).value;
            && m.stateBefore == previous.stateBefore && m.stateAfter == next.stateAfter
            && m.cursorBefore == previous.cursorBefore && m.cursorAfter == next.cursorAfter
            && next.kind.IsTyping()
  {
  }

  // ---------------------------------------------------------------------------
  // The document
  // ---------------------------------------------------------------------------

  datatype EditResult = Done | ReadOnly | InvalidRange(start: nat, end: nat, length: nat)

  datatype SaveResult = Written(bytes: seq<Byte>) | MissingPath | NotWritten

  datatype ReloadResult = Fresh | NoPath | Unreadable | Refused(reason: LoadResult)

  /** The arguments of an edit. */
  datatype Call = Call(start: nat, end: nat, inserted: string, cursorBefore: nat, cursorAfter: nat, kind: EditKind)

  /**
    The second call goes on typing where the first left off: same kind, same
    cursor, and its range adjoins what the first did.
   */
  predicate Continues(first: Call, second: Call) {
    && second.kind == first.kind && second.cursorBefore == first.cursorAfter
    && match second.kind
       case Insert =>
         && first.start == first.end && second.start == second.end
         && second.start == first.start + |first.inserted|
       case Backspace => first.inserted == "" && second.inserted == "" && second.end == first.start
       case Delete => first.inserted == "" && second.inserted == "" && second.start == first.start
       case _ => false
  }

  /** The edit on top ends as the call left it, alone or merged into what it continued. */
  predicate Ends(e: Edit, c: Call) {
    && e.kind == c.kind && e.cursorAfter == c.cursorAfter
    && match c.kind
       case Insert =>
         e.start + |e.inserted| == c.start + |c.inserted| && (e.deleted == "" <==> c.start == c.end)
       case Backspace => e.start == c.start && (e.inserted == "" <==> c.inserted == "")
       case Delete => e.start == c.start && (e.inserted == "" <==> c.inserted == "")
       case _ => true
  }

  /** For edits that go on from each other, merging is continuing. */
  lemma MergesIffContinues(undo: seq<Edit>, open: bool, e: Edit, first: Call, second: Call)
    requires undo != [] && Ends(Top(undo), first) && open == first.kind.IsTyping()
    requires e.kind == second.kind && e.start == second.start && e.cursorBefore == second.cursorBefore
    requires |e.deleted| == second.end - second.start && e.inserted == second.inserted
    ensures Merges(undo, e, open) <==> Continues(first, second)
  {
  }

  lemma EndsAfter(undo: seq<Edit>, open: bool, e: Edit, c: Call)
    requires e.kind == c.kind && e.start == c.start && e.cursorAfter == c.cursorAfter
    requires |e.deleted| == c.end - c.start && e.inserted == c.inserted
    ensures Ends(if Merges(undo, e, open) then Coalesced(Top(undo), e).value else e, c)
  {
  }

  class Document {
    var text: string
    var path: Option<string>
    var lineEnding: LineEnding
    var undoLog: seq<Edit>
    var redoLog: seq<Edit>
    var stateId: nat
    var savedStateId: Option<nat>
    var saveGeneration: nat
    var nextStateId: nat
    var undoGroupOpen: bool
    var readOnly: bool
    var utf8Bom: bool
    /** What the latest successful save, load or reload had in the file. */
    ghost var disk: Contents
    /** The latest edit, if nothing has closed its group since. */
    ghost var latest: Option<Call>

    /** What the log knows of the latest edit. */
    ghost predicate Grouped()
      reads this`latest, this`undoGroupOpen, this`undoLog
    {
      match latest
      case None => !undoGroupOpen
      case Some(c) => undoGroupOpen == c.kind.IsTyping() && undoLog != [] && Ends(Top(undoLog), c)
    }

    /** What taking back one step gives: text and cursor. */
    ghost function StepBack(): (string, nat)
      requires Fits() && undoLog != []
      reads this
    {
      var b := Top(View().history.past);
      (b.snapshot.text, b.back)
    }

    ghost predicate Fits()
      reads this
    {
      UndoFits(text, stateId, undoLog) && RedoFits(text, stateId, redoLog)
    }

    ghost function View(): Buffer
      requires Fits()
      reads this
    {
      Buffer(Timeline(text, stateId, undoLog, redoLog), undoGroupOpen, lineEnding, utf8Bom,
             savedStateId, nextStateId, saveGeneration, disk)
    }

    ghost predicate Valid()
      reads this
    {
      Fits() && Sound(View()) && Grouped()
    }

    constructor (contents: Contents, path: Option<string>, readOnly: bool)
      ensures Valid() && View() == Opened(contents) && this.path == path && this.readOnly == readOnly
    {
      text, lineEnding, utf8Bom := contents.text, contents.ending, contents.bom;
      this.path, this.readOnly := path, readOnly;
      undoLog, redoLog, undoGroupOpen := [], [], false;
      stateId, savedStateId, saveGeneration, nextStateId := 0, Some(0), 0, 1;
      disk, latest := contents, None;
    }

    method IsModified() returns (modified: bool)
      requires Valid()
      ensures modified == View().Modified()
      ensures !modified ==> Contents(text, lineEnding, utf8Bom) == disk
    {
      CleanOnDisk();
      modified := savedStateId != Some(stateId);
    }

    lemma CleanOnDisk()
      requires Valid()
      ensures !View().Modified() ==> Contents(text, lineEnding, utf8Bom) == disk
    {
      if !View().Modified() {
        CleanIsOnDisk(View());
      }
    }

    method SetLineEnding(ending: LineEnding)
      requires Valid()
      modifies this
      ensures Valid() && View() == EndingSet(old(View()), ending) && latest == old(latest)
    {
      hide Timeline;
      OthersAreSound(View(), Ending(ending));
      if lineEnding != ending {
        lineEnding := ending;
        savedStateId := None;
      }
    }

    method BreakUndoGroup()
      requires Valid()
      modifies this
      ensures Valid() && View() == Broken(old(View())) && latest.None?
    {
      hide Timeline;
      OthersAreSound(View(), Breaking);
      undoGroupOpen := false;
      latest := None;
    }

    /** The edit that replaces a range, from the state the document is in. */
    ghost function Incoming(start: nat, end: nat, inserted: string, cursorBefore: nat, cursorAfter: nat,
      kind: EditKind): Edit
      requires start <= end <= |text|
      reads this
    {
      Edit(start, text[start..end], inserted, cursorBefore, cursorAfter, stateId, nextStateId, kind)
    }

    /**
      Going on with the latest edit adds no step, so that taking one back gives
      text and cursor from before both; any other edit adds one.
     */
    method EditRange(start: nat, end: nat, inserted: string, cursorBefore: nat, cursorAfter: nat, kind: EditKind)
      returns (result: EditResult)
      requires Valid()
      modifies this
      ensures Valid() && readOnly == old(readOnly) && path == old(path)
      ensures !result.Done? ==> text == old(text)
      ensures result == if old(readOnly) then ReadOnly
                        else if start > end || end > |old(text)| then InvalidRange(start, end, |old(text)|) else Done
      ensures if result.Done? && (start < end || inserted != "") then
                var e := old(Incoming(start, end, inserted, cursorBefore, cursorAfter, kind));
                var merged := Merges(old(undoLog), e, old(undoGroupOpen));
                View() == Edited(old(View()), old(text)[..start] + inserted + old(text)[end..],
                               cursorBefore, cursorAfter, merged, kind.IsTyping())
              else View() == old(View()) && latest == old(latest)
      ensures var call := Call(start, end, inserted, cursorBefore, cursorAfter, kind);
              result.Done? && (start < end || inserted != "") ==>
                && latest == Some(call)
                && if old(latest).Some? && Continues(old(latest).value, call)
                   then |undoLog| == |old(undoLog)| && old(undoLog) != [] && StepBack() == old(StepBack())
                   else |undoLog| == |old(undoLog)| + 1 && StepBack() == (old(text), cursorBefore)
    {
      hide Timeline, Coalesced, UndoFits, RedoFits, Edited, Sound, Continues, Merges;
      if readOnly {
        return ReadOnly;
      }
      if start > end || end > |text| {
        return InvalidRange(start, end, |text|);
      }
      if start == end && inserted == "" {
        return Done;
      }
      ghost var e := Incoming(start, end, inserted, cursorBefore, cursorAfter, kind);
      ghost var merged := Merges(undoLog, e, undoGroupOpen);
      ShowsText(text, stateId, undoLog, redoLog);
      StepsCounted(text, stateId, undoLog, redoLog);
      EditedShows(View(), text[..start] + inserted + text[end..], cursorBefore, cursorAfter, merged, kind.IsTyping());
      Apply(start, end, inserted, cursorBefore, cursorAfter, kind);
      StepsCounted(text, stateId, undoLog, redoLog);
      result := Done;
    }

    method Apply(start: nat, end: nat, inserted: string, cursorBefore: nat, cursorAfter: nat, kind: EditKind)
      requires Valid() && start <= end <= |text|
      modifies this
      ensures Valid() && readOnly == old(readOnly) && path == old(path)
      ensures var e := old(Incoming(start, end, inserted, cursorBefore, cursorAfter, kind));
              var merged := Merges(old(undoLog), e, old(undoGroupOpen));
              View() == Edited(old(View()), old(text)[..start] + inserted + old(text)[end..],
                               cursorBefore, cursorAfter, merged, kind.IsTyping())
      ensures var call := Call(start, end, inserted, cursorBefore, cursorAfter, kind);
              var e := old(Incoming(start, end, inserted, cursorBefore, cursorAfter, kind));
              && latest == Some(call)
              && Merges(old(undoLog), e, old(undoGroupOpen))
                 == (old(latest).Some? && Continues(old(latest).value, call))
    {
      hide UndoFits, RedoFits, Timeline, Coalesced, Sound, Record, Splice, At, Merges, Ends, Continues, Grouped;
      ghost var before := View();
      var deleted := text[start..end];
      var e := Edit(start, deleted, inserted, cursorBefore, cursorAfter, stateId, nextStateId, kind);
      ghost var merged := Merges(undoLog, e, undoGroupOpen);
      RemoveInsert(text, start, end, inserted);
      Logging(text, stateId, undoLog, redoLog, e, undoGroupOpen);
      NothingToRedo(text[..start] + inserted + text[end..], nextStateId);
      text := text[..start] + text[end..];
      text := text[..start] + inserted + text[start..];
      stateId := nextStateId;
      nextStateId := nextStateId + 1;
      Log(e, Call(start, end, inserted, cursorBefore, cursorAfter, kind));
      EditedIsSound(before, text, cursorBefore, cursorAfter, merged, kind.IsTyping());
    }

    /** The edit joins the one on top of the log, or goes on top of it. */
    method Log(e: Edit, ghost call: Call)
      requires Grouped()
      requires e.kind == call.kind && e.start == call.start && e.inserted == call.inserted
      requires e.cursorBefore == call.cursorBefore && e.cursorAfter == call.cursorAfter
      requires |e.deleted| == call.end - call.start
      modifies this`undoLog, this`redoLog, this`undoGroupOpen, this`latest
      ensures var merged := Merges(old(undoLog), e, old(undoGroupOpen));
              && undoLog == (if merged then Pop(old(undoLog)) + [Coalesced(Top(old(undoLog)), e).value]
                             else old(undoLog) + [e])
              && (merged <==> old(latest).Some? && Continues(old(latest).value, call))
      ensures redoLog == [] && undoGroupOpen == e.kind.IsTyping() && latest == Some(call) && Grouped()
    {
      hide Coalesced, Continues, Ends, Merges;
      Grouping(e, call);
      var coalesced := if undoGroupOpen && undoLog != [] then Coalesced(Top(undoLog), e) else None;
      undoLog := if coalesced.Some? then Pop(undoLog) + [coalesced.value] else undoLog + [e];
      undoGroupOpen := e.kind.IsTyping();
      redoLog := [];
      latest := Some(call);
    }

    /** Whether an edit that is made now merges, by the arguments of the calls. */
    lemma Grouping(e: Edit, call: Call)
      requires Grouped()
      requires e.kind == call.kind && e.start == call.start && e.inserted == call.inserted
      requires e.cursorBefore == call.cursorBefore && e.cursorAfter == call.cursorAfter
      requires |e.deleted| == call.end - call.start
      ensures Merges(undoLog, e, undoGroupOpen) <==> latest.Some? && Continues(latest.value, call)
      ensures Merges(undoLog, e, undoGroupOpen)
         <==> undoGroupOpen && undoLog != [] && Coalesced(Top(undoLog), e).Some?
      ensures Ends(if Merges(undoLog, e, undoGroupOpen) then Coalesced(Top(undoLog), e).value else e, call)
    {
      hide Coalesced, Continues, Ends;
      EndsAfter(undoLog, undoGroupOpen, e, call);
      if latest.Some? {
        MergesIffContinues(undoLog, undoGroupOpen, e, latest.value, call);
      }
    }

    method TakeBack() returns (cursor: Option<nat>)
      requires Valid()
      modifies this
      ensures Valid() && View() == Undone(old(View()))
      ensures var past := old(View()).history.past;
              cursor == if past == [] then None else Some(Top(past).back)
      ensures latest.None? && (cursor.Some? <==> old(undoLog) != [])
      ensures cursor.Some? ==> (text, cursor.value) == old(StepBack())
    {
      hide UndoFits, RedoFits, Timeline, Sound, Splice, Undo;
      StepsCounted(text, stateId, undoLog, redoLog);
      UndoneShows(View());
      UndoneIsSound(View());
      NothingBack(text, stateId, undoLog, redoLog);
      undoGroupOpen, latest := false, None;
      if undoLog == [] {
        return None;
      }
      MovingBack(text, stateId, undoLog, redoLog);
      var e := Top(undoLog);
      RemoveInsert(text, e.start, e.start + |e.inserted|, e.deleted);
      undoLog := Pop(undoLog);
      text := text[..e.start] + text[e.start + |e.inserted|..];
      text := text[..e.start] + e.deleted + text[e.start..];
      stateId := e.stateBefore;
      redoLog := redoLog + [e];
      cursor := Some(e.cursorBefore);
      ShowsText(text, stateId, undoLog, redoLog);
    }

    method TakeAgain() returns (cursor: Option<nat>)
      requires Valid()
      modifies this
      ensures Valid() && View() == Redone(old(View()))
      ensures var future := old(View()).history.future;
              cursor == if future == [] then None else Some(Top(future).forth)
      ensures latest.None?
    {
      hide UndoFits, RedoFits, Timeline, Sound, Splice, Redo;
      RedoneIsSound(View());
      NothingForth(text, stateId, undoLog, redoLog);
      undoGroupOpen, latest := false, None;
      if redoLog == [] {
        return None;
      }
      MovingForth(text, stateId, undoLog, redoLog);
      var e := Top(redoLog);
      RemoveInsert(text, e.start, e.start + |e.deleted|, e.inserted);
      redoLog := Pop(redoLog);
      text := text[..e.start] + text[e.start + |e.deleted|..];
      text := text[..e.start] + e.inserted + text[e.start..];
      stateId := e.stateAfter;
      undoLog := undoLog + [e];
      cursor := Some(e.cursorAfter);
    }

    /** Saves to the document's own path; `written` is whether the file system's checks and the write succeed. */
    method Save(written: bool) returns (result: SaveResult)
      requires Valid()
      modifies this
      ensures Valid()
      ensures if old(path).None? then result == MissingPath && View() == old(View())
              else if written then result == Written(EncodedBytes(old(View()).Shown())) && View() == Saved(old(View()))
              else result == NotWritten && View() == Broken(old(View()))
      ensures result.MissingPath? || latest.None?
    {
      hide UndoFits, RedoFits, Timeline, Sound, EncodedBytes;
      ShowsText(text, stateId, undoLog, redoLog);
      if path.None? {
        return MissingPath;
      }
      SavedIsSound(View());
      OthersAreSound(View(), FailingSave);
      undoGroupOpen, latest := false, None;
      if !written {
        return NotWritten;
      }
      var bytes := EncodedBytes(Contents(text, lineEnding, utf8Bom));
      savedStateId := Some(stateId);
      saveGeneration := (saveGeneration + 1) % (U64_MAX + 1);
      disk := Contents(text, lineEnding, utf8Bom);
      result := Written(bytes);
    }

    /** A fresh buffer under the next state id. */
    method Install(contents: Contents)
      requires Fits()
      modifies this
      ensures Fits() && View() == Reloaded(old(View()), contents) && latest.None? && !undoGroupOpen
      ensures undoLog == [] && redoLog == []
    {
      hide UndoFits, RedoFits, Timeline;
      NoLogs(contents.text, nextStateId);
      text := contents.text;
      lineEnding := contents.ending;
      utf8Bom := contents.bom;
      undoLog, redoLog := [], [];
      undoGroupOpen, readOnly, latest := false, false, None;
      stateId := nextStateId;
      savedStateId := Some(stateId);
      nextStateId := stateId + 1;
      disk := contents;
    }

    /** Replaces the buffer by what the file holds; `bytes` is absent when it cannot be read. */
    method Reload(bytes: Option<seq<Byte>>) returns (result: ReloadResult)
      requires Valid()
      modifies this
      ensures Valid()
      ensures result == if old(path).None? then NoPath
                        else if bytes.None? then Unreadable
                        else if Load(bytes.value).Loaded? then Fresh else Refused(Load(bytes.value))
      ensures View() == if result.Fresh? then Reloaded(old(View()), Load(bytes.value).contents) else old(View())
      ensures result.Fresh? ==> latest.None? && undoLog == [] && redoLog == []
    {
      hide Load, Sound, UndoFits, RedoFits, Timeline, Splice;
      if path.None? {
        return NoPath;
      }
      if bytes.None? {
        return Unreadable;
      }
      var loaded := Load(bytes.value);
      if !loaded.Loaded? {
        return Refused(loaded);
      }
      ghost var before := View();
      Install(loaded.contents);
      ReloadedIsSound(before, loaded.contents);
      result := Fresh;
    }
  }

  lemma StepsCounted(text: string, id: nat, undo: seq<Edit>, redo: seq<Edit>)
    requires UndoFits(text, id, undo) && RedoFits(text, id, redo)
    ensures |Timeline(text, id, undo, redo).past| == |undo|
  {
    hide UndoFits, RedoFits;
  }

  /** The step on top after an edit: the one that was there, or a new one. */
  lemma EditedShows(b: Buffer, text: string, back: nat, forth: nat, merged: bool, typed: bool)
    ensures var past := Edited(b, text, back, forth, merged, typed).history.past;
            if merged && b.history.past != [] then
              && |past| == |b.history.past|
              && Top(past).snapshot == Top(b.history.past).snapshot && Top(past).back == Top(b.history.past).back
            else |past| == |b.history.past| + 1 && Top(past) == Boundary(b.history.now, back, forth)
  {
  }

  lemma UndoneShows(b: Buffer)
    ensures b.history.past != [] ==> Undone(b).history.now == Top(b.history.past).snapshot
  {
  }

  lemma NothingBack(text: string, id: nat, undo: seq<Edit>, redo: seq<Edit>)
    requires UndoFits(text, id, undo) && RedoFits(text, id, redo)
    ensures var h := Timeline(text, id, undo, redo);
            if undo == [] then h.past == [] && Undo(h) == h
            else h.past != [] && Top(h.past).back == Top(undo).cursorBefore
  {
  }

  lemma NothingForth(text: string, id: nat, undo: seq<Edit>, redo: seq<Edit>)
    requires UndoFits(text, id, undo) && RedoFits(text, id, redo)
    ensures var h := Timeline(text, id, undo, redo);
            if redo == [] then h.future == [] && Redo(h) == h
            else h.future != [] && Top(h.future).forth == Top(redo).cursorAfter
  {
  }

  lemma NoLogs(text: string, id: nat)
    ensures UndoFits(text, id, []) && RedoFits(text, id, [])
    ensures Timeline(text, id, [], []) == History([], Snapshot(text, id), [])
  {
  }

  lemma ShowsText(text: string, id: nat, undo: seq<Edit>, redo: seq<Edit>)
    requires UndoFits(text, id, undo) && RedoFits(text, id, redo)
    ensures Timeline(text, id, undo, redo).now == Snapshot(text, id)
  {
  }

  lemma NothingToRedo(text: string, id: nat)
    ensures RedoFits(text, id, []) && Future(text, id, []) == []
  {
  }
}
