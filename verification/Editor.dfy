/**
  The editor over a document: indenting and outdenting as loops over the
  selected lines that end in one edit of the document.
 */
module Editor {
  import opened Wrappers
  import opened Lines
  import opened LineEdits
  import History
  import Document

  datatype LineEditResult = ChangedLines(count: nat) | Failed(error: Document.EditResult)

  class Editor {
    const document: Document.Document
    /** The line breaks that the document's rope knows besides LF. */
    const extra: set<char>
    var cursor: nat
    var anchor: Option<nat>

    ghost predicate Valid()
      reads this, document
    {
      document.Valid() && extra <= UNICODE_BREAKS && Shown().InBounds()
    }

    function Shown(): View
      reads this, document
    {
      View(document.text, cursor, anchor)
    }

    constructor (document: Document.Document, extra: set<char>)
      requires document.Valid() && extra <= UNICODE_BREAKS
      ensures Valid() && this.document == document && this.extra == extra && cursor == 0 && anchor == None
    {
      this.document, this.extra := document, extra;
      cursor, anchor := 0, None;
    }

    /** Puts a block in place of some lines, as one step of the undo history, and moves cursor and anchor along. */
    method ReplaceLines(first: nat, last: nat, block: string, changes: seq<Change>)
      requires Valid() && !document.readOnly && first <= last < LineCount(document.text, extra)
      requires Changed(Shown(), extra, first, last, block, changes).InBounds()
      requires LineStart(document.text, extra, first) <= LineLimit(document.text, extra, last)
      requires block != document.text[LineStart(document.text, extra, first)..LineLimit(document.text, extra, last)]
      modifies this, document
      ensures Valid() && Shown() == Changed(old(Shown()), extra, first, last, block, changes)
      ensures OneStep(old(document.View()), document.View(), old(cursor), cursor)
    {
      hide Adjusted, LineStart, LineLimit, LineOf;
      hide History.Sound, Document.UndoFits, Document.RedoFits, Document.Timeline, Document.Coalesced;
      var rangeStart := LineStart(document.text, extra, first);
      var rangeEnd := LineLimit(document.text, extra, last);
      var before := cursor;
      var afterCursor := Adjusted(document.text, extra, cursor, changes);
      var afterAnchor := if anchor.None? then None else Some(Adjusted(document.text, extra, anchor.value, changes));
      ghost var e := document.Incoming(rangeStart, rangeEnd, block, before, afterCursor, Document.Replace);
      NeverMerges(document.undoLog, e, document.undoGroupOpen);
      Document.ShowsText(document.text, document.stateId, document.undoLog, document.redoLog);
      var _ := document.EditRange(rangeStart, rangeEnd, block, before, afterCursor, Document.Replace);
      Document.ShowsText(document.text, document.stateId, document.undoLog, document.redoLog);
      cursor := afterCursor;
      anchor := if afterAnchor == Some(cursor) then None else afterAnchor;
      document.BreakUndoGroup();
      Document.ShowsText(document.text, document.stateId, document.undoLog, document.redoLog);
    }

    method IndentLines(tabWidth: nat, insertSpaces: bool) returns (result: LineEditResult)
      requires Valid()
      modifies this, document
      ensures Valid()
      ensures if old(document.readOnly) then
                && result == Failed(Document.ReadOnly)
                && Shown() == old(Shown()) && document.View() == old(document.View())
              else
                && result == ChangedLines(Touched(old(Shown()), extra))
                && Shown() == Indent(old(Shown()), extra, Unit(tabWidth, insertSpaces))
                && OneStep(old(document.View()), document.View(), old(cursor), cursor)
    {
      hide Adjusted, LineStart, LineLimit, LineOf, Line, PlainBlock, Selected;
      hide History.Sound, Document.UndoFits, Document.RedoFits, Document.Timeline;
      if document.readOnly {
        var refused := document.EditRange(cursor, cursor, "", cursor, cursor, Document.Replace);
        return Failed(refused);
      }
      SelectedExists(Shown(), extra);
      var (startLine, endLine) := Selected(Shown(), extra);
      var unit := Unit(tabWidth, insertSpaces);
      UnitIsBlank(tabWidth, insertSpaces);
      var replacement := "";
      var changes: seq<Change> := [];
      for line := startLine to endLine + 1
        invariant replacement == IndentBlock(document.text, extra, startLine, line, unit)
        invariant changes == EvenChanges(startLine, line, |unit|)
      {
        replacement := replacement + unit + Line(document.text, extra, line);
        changes := changes + [Change(line, 0, |unit|)];
      }
      IndentGrowsText(document.text, extra, startLine, endLine + 1, unit);
      PlainBlockIsText(document.text, extra, startLine, endLine + 1);
      SelectedWhole(Shown(), extra, unit);
      ReplaceLines(startLine, endLine, replacement, changes);
      result := ChangedLines(endLine - startLine + 1);
    }

    method OutdentLines(tabWidth: nat) returns (result: LineEditResult)
      requires Valid()
      modifies this, document
      ensures Valid()
      ensures if old(document.readOnly) then
                && result == Failed(Document.ReadOnly)
                && Shown() == old(Shown()) && document.View() == old(document.View())
              else
                && Shown() == Outdent(old(Shown()), extra, tabWidth)
                && (if Losing(old(Shown()), extra, tabWidth) == 0 then document.View() == old(document.View())
                    else OneStep(old(document.View()), document.View(), old(cursor), cursor))
                && result == ChangedLines(Losing(old(Shown()), extra, tabWidth))
    {
      hide Adjusted, LineStart, LineLimit, LineOf, Line, PlainBlock, Selected, Removal;
      hide History.Sound, Document.UndoFits, Document.RedoFits, Document.Timeline;
      if document.readOnly {
        var refused := document.EditRange(cursor, cursor, "", cursor, cursor, Document.Replace);
        return Failed(refused);
      }
      SelectedExists(Shown(), extra);
      var (startLine, endLine) := Selected(Shown(), extra);
      var replacement := "";
      var changes: seq<Change> := [];
      for line := startLine to endLine + 1
        invariant replacement == OutdentBlock(document.text, extra, startLine, line, tabWidth)
        invariant changes == OutdentChanges(document.text, extra, startLine, line, tabWidth)
      {
        var text := Line(document.text, extra, line);
        var removal := Removal(text, tabWidth);
        if removal == 0 {
          assert text[0..] == text;
          replacement := replacement + text;
        } else {
          replacement := replacement + text[removal..];
          changes := changes + [Change(line, 0, -(removal as int))];
        }
      }
      OutdentChangesText(document.text, extra, startLine, endLine + 1, tabWidth);
      PlainBlockIsText(document.text, extra, startLine, endLine + 1);
      OutdentIsWhole(Shown(), extra, tabWidth);
      if replacement
         == document.text[LineStart(document.text, extra, startLine)..LineLimit(document.text, extra, endLine)] {
        return ChangedLines(0);
      }
      ReplaceLines(startLine, endLine, replacement, changes);
      result := ChangedLines(|changes|);
    }
  }

  /** How many lines are selected. */
  function Touched(v: View, extra: set<char>): nat
    requires v.InBounds()
  {
    SelectedExists(v, extra);
    Selected(v, extra).1 - Selected(v, extra).0 + 1
  }

  /** How many of the selected lines lose indentation. */
  function Losing(v: View, extra: set<char>, width: nat): nat
    requires v.InBounds()
  {
    SelectedExists(v, extra);
    |OutdentChanges(v.text, extra, Selected(v, extra).0, Selected(v, extra).1 + 1, width)|
  }

  /** One more step of the history, which undoing takes back. */
  ghost predicate OneStep(before: History.Buffer, after: History.Buffer, back: nat, forth: nat) {
    after == History.Edited(before, after.history.now.text, back, forth, false, false)
  }

  lemma NeverMerges(undo: seq<Document.Edit>, e: Document.Edit, open: bool)
    requires e.kind.Replace?
    ensures !Document.Merges(undo, e, open)
  {
  }

  /** Undoing a line edit shows the text from before it. */
  lemma LineEditUndone(before: History.Buffer, after: History.Buffer, back: nat, forth: nat)
    requires OneStep(before, after, back, forth)
    ensures History.Undone(after).history.now == before.history.now
         && History.Undone(after).history.past == before.history.past
  {
  }
}
