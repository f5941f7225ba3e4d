/**
  Undo and redo as whole snapshots: what a document's log has to amount to.

  A boundary is the snapshot on the far side of one undo step, with the cursors
  to restore when the step is taken back or taken again.  Both lists of
  boundaries are stacks whose top is last.
 */
module History {
  import opened Wrappers
  import opened Machine
  import opened FileText

  datatype Snapshot = Snapshot(text: string, id: nat)

  datatype Boundary = Boundary(snapshot: Snapshot, back: nat, forth: nat)

  datatype History = History(past: seq<Boundary>, now: Snapshot, future: seq<Boundary>)

  function Top<T>(s: seq<T>): T
    requires s != []
  {
    s[|s| - 1]
  }

  function Pop<T>(s: seq<T>): seq<T>
    requires s != []
  {
    s[..|s| - 1]
  }

  function Undo(h: History): History {
    if h.past == [] then h
    else
      var b := Top(h.past);
      History(Pop(h.past), b.snapshot, h.future + [b.(snapshot := h.now)])
  }

  function Redo(h: History): History {
    if h.future == [] then h
    else
      var b := Top(h.future);
      History(h.past + [b.(snapshot := h.now)], b.snapshot, Pop(h.future))
  }

  /** A new snapshot: behind a boundary of its own, or merged into the step on top, whose far side stays. */
  function Record(h: History, s: Snapshot, back: nat, forth: nat, merged: bool): History {
    if merged && h.past != [] then History(Pop(h.past) + [Top(h.past).(forth := forth)], s, [])
    else History(h.past + [Boundary(h.now, back, forth)], s, [])
  }

  function UndoMany(h: History, n: nat): History
    decreases n
  {
    if n == 0 then h else UndoMany(Undo(h), n - 1)
  }

  function RedoMany(h: History, n: nat): History
    decreases n
  {
    if n == 0 then h else RedoMany(Redo(h), n - 1)
  }

  lemma RedoUndoes(h: History)
    ensures h.past != [] ==> Redo(Undo(h)) == h
    ensures h.future != [] ==> Undo(Redo(h)) == h
  {
  }

  lemma {:induction false} RedoOneMore(h: History, n: nat)
    ensures RedoMany(h, n + 1) == Redo(RedoMany(h, n))
    decreases n
  {
    hide Redo;
    if n > 0 {
      RedoOneMore(Redo(h), n - 1);
    }
  }

  /** Undoing a number of steps and redoing as many changes nothing. */
  lemma {:induction false} UndoRedoMany(h: History, n: nat)
    requires n <= |h.past|
    ensures RedoMany(UndoMany(h, n), n) == h
    decreases n
  {
    if n > 0 {
      UndoRedoMany(Undo(h), n - 1);
      RedoOneMore(UndoMany(Undo(h), n - 1), n - 1);
      RedoUndoes(h);
    }
  }

  /** Each undo lands on the next boundary. */
  lemma {:induction false} UndoReaches(h: History, n: nat)
    requires n <= |h.past|
    ensures UndoMany(h, n).past == h.past[..|h.past| - n]
    ensures n > 0 ==> UndoMany(h, n).now == h.past[|h.past| - n].snapshot
    decreases n
  {
    if n == 0 {
      assert h.past[..|h.past|] == h.past;
    } else {
      UndoReaches(Undo(h), n - 1);
      assert Pop(h.past)[..|h.past| - n] == h.past[..|h.past| - n];
    }
  }

  /** One edit of a run of typing, with the cursors before and after it. */
  datatype Keystroke = Keystroke(snapshot: Snapshot, back: nat, forth: nat)

  /** A run of merged edits on top of a step of its own. */
  function Typed(h: History, typed: seq<Keystroke>): History {
    if typed == [] then h
    else Record(Typed(h, Pop(typed)), Top(typed).snapshot, Top(typed).back, Top(typed).forth, true)
  }

  /**
    However long a run of typing is and wherever its cursor goes, one undo goes
    back to before all of it, with the cursor of its beginning, and one redo to
    its end, with the cursor of its end.
   */
  lemma {:induction false} TypingIsOneStep(h: History, first: Keystroke, typed: seq<Keystroke>)
    ensures var after := Typed(Record(h, first.snapshot, first.back, first.forth, false), typed);
            var last := if typed == [] then first else Top(typed);
            && after.now == last.snapshot
            && Undo(after) == History(h.past, h.now, [Boundary(last.snapshot, first.back, last.forth)])
            && Redo(Undo(after)) == after
  {
    TypedKeepsStep(h, first, typed);
  }

  lemma {:induction false} TypedKeepsStep(h: History, first: Keystroke, typed: seq<Keystroke>)
    ensures var last := if typed == [] then first else Top(typed);
            Typed(Record(h, first.snapshot, first.back, first.forth, false), typed)
            == History(h.past + [Boundary(h.now, first.back, last.forth)], last.snapshot, [])
  {
    if typed != [] {
      TypedKeepsStep(h, first, Pop(typed));
    }
  }

  // ---------------------------------------------------------------------------
  // A buffer with its dirty flag
  // ---------------------------------------------------------------------------

  /** `disk` is what the latest successful save, load or reload had in the file. */
  datatype Buffer = Buffer(
    history: History, open: bool, ending: LineEnding, bom: bool,
    saved: Option<nat>, next: nat, generation: nat, disk: Contents)
  {
    function Shown(): Contents { Contents(history.now.text, ending, bom) }

    predicate Modified() { saved != Some(history.now.id) }
  }

  function Edited(b: Buffer, text: string, back: nat, forth: nat, merged: bool, typed: bool): Buffer {
    b.(history := Record(b.history, Snapshot(text, b.next), back, forth, merged), open := typed, next := b.next + 1)
  }

  function Undone(b: Buffer): Buffer { b.(history := Undo(b.history), open := false) }

  function Redone(b: Buffer): Buffer { b.(history := Redo(b.history), open := false) }

  function Broken(b: Buffer): Buffer { b.(open := false) }

  function EndingSet(b: Buffer, ending: LineEnding): Buffer {
    if b.ending == ending then b else b.(ending := ending, saved := None)
  }

  function Saved(b: Buffer): Buffer {
    b.(open := false, saved := Some(b.history.now.id), generation := (b.generation + 1) % (U64_MAX + 1),
       disk := b.Shown())
  }

  function Reloaded(b: Buffer, c: Contents): Buffer {
    Buffer(History([], Snapshot(c.text, b.next), []), false, c.ending, c.bom, Some(b.next), b.next + 1, b.generation, c)
  }

  function Opened(c: Contents): Buffer {
    Buffer(History([], Snapshot(c.text, 0), []), false, c.ending, c.bom, Some(0), 1, 0, c)
  }

  // ---------------------------------------------------------------------------
  // The dirty flag
  // ---------------------------------------------------------------------------

  /** State ids rise from the oldest snapshot to the newest. */
  ghost predicate Rising(h: History, next: nat) {
    && (forall i, j | 0 <= i < j < |h.past| :: h.past[i].snapshot.id < h.past[j].snapshot.id)
    && (forall i | 0 <= i < |h.past| :: h.past[i].snapshot.id < h.now.id)
    && h.now.id < next
    && (forall i | 0 <= i < |h.future| :: h.now.id < h.future[i].snapshot.id < next)
    && forall i, j | 0 <= i < j < |h.future| :: h.future[j].snapshot.id < h.future[i].snapshot.id
  }

  ghost predicate Holds(h: History, id: nat, text: string) {
    && (h.now.id == id ==> h.now.text == text)
    && (forall i | 0 <= i < |h.past| && h.past[i].snapshot.id == id :: h.past[i].snapshot.text == text)
    && forall i | 0 <= i < |h.future| && h.future[i].snapshot.id == id :: h.future[i].snapshot.text == text
  }

  ghost predicate Sound(b: Buffer) {
    && Rising(b.history, b.next)
    && (b.saved.Some? ==>
          && b.saved.value < b.next
          && b.ending == b.disk.ending && b.bom == b.disk.bom
          && Holds(b.history, b.saved.value, b.disk.text))
  }

  /** A buffer that is not modified shows what is on disk. */
  lemma CleanIsOnDisk(b: Buffer)
    requires Sound(b) && !b.Modified()
    ensures b.Shown() == b.disk
  {
  }

  lemma OpenedIsSound(c: Contents)
    ensures Sound(Opened(c))
  {
  }

  lemma EditedIsSound(b: Buffer, text: string, back: nat, forth: nat, merged: bool, typed: bool)
    requires Sound(b)
    ensures Sound(Edited(b, text, back, forth, merged, typed))
  {
  }

  lemma UndoneIsSound(b: Buffer)
    requires Sound(b)
    ensures Sound(Undone(b))
  {
  }

  lemma RedoneIsSound(b: Buffer)
    requires Sound(b)
    ensures Sound(Redone(b))
  {
  }

  lemma SavedIsSound(b: Buffer)
    requires Sound(b)
    ensures Sound(Saved(b))
  {
  }

  lemma ReloadedIsSound(b: Buffer, c: Contents)
    ensures Sound(Reloaded(b, c))
  {
  }

  // ---------------------------------------------------------------------------
  // Histories of operations
  // ---------------------------------------------------------------------------

  datatype Operation =
    | Editing(text: string, back: nat, forth: nat, merged: bool, typed: bool)
    | Undoing
    | Redoing
    | Breaking
    | FailingSave
    | Ending(ending: LineEnding)
    | Saving
    | Reloading(contents: Contents)

  /** An edit is only ever merged into an open group. */
  predicate Allowed(b: Buffer, op: Operation) {
    op.Editing? && op.merged ==> b.open && b.history.past != []
  }

  function Step(b: Buffer, op: Operation): Buffer {
    match op
    case Editing(text, back, forth, merged, typed) => Edited(b, text, back, forth, merged, typed)
    case Undoing => Undone(b)
    case Redoing => Redone(b)
    case Breaking => Broken(b)
    case FailingSave => Broken(b)
    case Ending(ending) => EndingSet(b, ending)
    case Saving => Saved(b)
    case Reloading(contents) => Reloaded(b, contents)
  }

  function Run(b: Buffer, log: seq<Operation>): Buffer {
    if log == [] then b else Step(Run(b, log[..|log| - 1]), log[|log| - 1])
  }

  function Saves(log: seq<Operation>): nat {
    if log == [] then 0 else Saves(log[..|log| - 1]) + if log[|log| - 1].Saving? then 1 else 0
  }

  /** The generation counts the saves, around its word. */
  lemma {:induction false} GenerationCountsSaves(c: Contents, log: seq<Operation>)
    ensures Run(Opened(c), log).generation == Saves(log) % (U64_MAX + 1)
  {
    if log != [] {
      GenerationCountsSaves(c, log[..|log| - 1]);
    }
  }

  lemma {:induction false} SoundOnRuns(c: Contents, log: seq<Operation>)
    ensures Sound(Run(Opened(c), log))
  {
    hide Sound, Edited, Undone, Redone, Saved, Reloaded;
    if log == [] {
      OpenedIsSound(c);
    } else {
      var b := Run(Opened(c), log[..|log| - 1]);
      SoundOnRuns(c, log[..|log| - 1]);
      match log[|log| - 1]
      case Editing(text, back, forth, merged, typed) => EditedIsSound(b, text, back, forth, merged, typed);
      case Undoing => UndoneIsSound(b);
      case Redoing => RedoneIsSound(b);
      case Saving => SavedIsSound(b);
      case Reloading(contents) => ReloadedIsSound(b, contents);
      case _ => OthersAreSound(b, log[|log| - 1]);
    }
  }

  lemma OthersAreSound(b: Buffer, op: Operation)
    requires Sound(b) && (op.Breaking? || op.FailingSave? || op.Ending?)
    ensures Sound(Step(b, op))
  {
  }

  /** Whatever happened to a buffer, when it says it is not modified it shows the latest save, load or reload. */
  lemma DirtyFlagIsSound(c: Contents, log: seq<Operation>)
    requires !Run(Opened(c), log).Modified()
    ensures Run(Opened(c), log).Shown() == Run(Opened(c), log).disk
  {
    SoundOnRuns(c, log);
    CleanIsOnDisk(Run(Opened(c), log));
  }

  /** Operations that neither touch the file nor its line ending, and never undo past the depth `floor`. */
  ghost predicate Above(b: Buffer, log: seq<Operation>, floor: nat) {
    log == []
    || (var before, op := log[..|log| - 1], log[|log| - 1];
        && Above(b, before, floor)
        && (op.Editing? || op.Undoing? || op.Redoing? || op.Breaking? || op.FailingSave?)
        && Allowed(Run(b, before), op)
        && |Run(b, log).history.past| >= floor)
  }

  /** The steps up to a save are still there under the ones taken since, and none was merged across. */
  ghost predicate StandsOn(b: Buffer, base: Buffer) {
    var floor := |base.history.past|;
    && |b.history.past| >= floor
    && b.history.past[..floor] == base.history.past
    && b.saved == base.saved && b.ending == base.ending && b.bom == base.bom && b.disk == base.disk
    && if |b.history.past| == floor then b.history.now == base.history.now && !b.open
       else b.history.past[floor].snapshot == base.history.now
  }

  lemma StepStandsOn(b: Buffer, base: Buffer, op: Operation)
    requires StandsOn(b, base) && Allowed(b, op)
    requires op.Editing? || op.Undoing? || op.Redoing? || op.Breaking? || op.FailingSave?
    requires |Step(b, op).history.past| >= |base.history.past|
    ensures StandsOn(Step(b, op), base)
  {
    var floor, past, after := |base.history.past|, b.history.past, Step(b, op).history.past;
    if |after| <= |past| {
      assert forall i | 0 <= i < floor && i < |after| - 1 :: after[i] == past[i];
      assert op.Editing? ==> |past| > floor;
    }
    assert after[..floor] == past[..floor];
  }

  lemma {:induction false} RunStandsOn(base: Buffer, log: seq<Operation>)
    requires !base.open && Above(base, log, |base.history.past|)
    ensures StandsOn(Run(base, log), base)
  {
    hide Step, StandsOn, Allowed;
    if log == [] {
      StandsOnItself(base);
    } else {
      var before := log[..|log| - 1];
      RunStandsOn(base, before);
      StepStandsOn(Run(base, before), base, log[|log| - 1]);
    }
  }

  lemma StandsOnItself(b: Buffer)
    requires !b.open
    ensures StandsOn(b, b)
  {
    assert b.history.past[..|b.history.past|] == b.history.past;
  }

  /** After a save, whatever was edited since can be undone back to a clean buffer. */
  lemma CleanIsReachable(b: Buffer, log: seq<Operation>)
    requires Above(Saved(b), log, |b.history.past|)
    ensures var base, after := Saved(b), Run(Saved(b), log);
            var steps := |after.history.past| - |base.history.past|;
            && steps >= 0
            && var back := after.(history := UndoMany(after.history, steps));
               back.history.now == b.history.now && !back.Modified() && back.Shown() == back.disk == b.Shown()
  {
    hide Run, Step, Above;
    var base := Saved(b);
    RunStandsOn(base, log);
    var after := Run(base, log);
    UndoReaches(after.history, |after.history.past| - |base.history.past|);
  }
}
