// When two scalar edits become one undo step: typing goes on in the same field, in the same
// direction, with a collapsed selection, within a second, and nothing in between breaks it.
module HistoryMerging {
  import opened Basics
  import opened HistoryState
  import opened NoteHistory

  // ---- What the commands on the stack tell ----

  // A scalar command names the texts of its field before and after it; one that may merge makes the
  // text longer, or shorter, as its kind says.
  predicate Tells(c: Command, a: Document, b: Document) {
    c.ScalarChange? ==>
      && Scalar(a, c.address) == Some(c.from) && Scalar(b, c.address) == Some(c.to)
      && (c.mergeable ==> if c.kind == "typing-insertion" then |c.from| < |c.to|
                          else c.kind == "typing-deletion" && |c.from| > |c.to|)
  }

  predicate Told(commands: seq<Command>, docs: seq<Document>, generation: int)
    requires |docs| == |commands| + 1
  {
    forall i :: 0 <= i < |commands| ==>
      Tells(commands[i], docs[i], docs[i + 1]) && (commands[i].ScalarChange? ==> commands[i].generation <= generation)
  }

  ghost predicate Recorded(h: History) {
    Consistent(h) && |h.docs| == |h.commands| + 1 && Told(h.commands, h.docs, h.generation)
  }

  // No command on the stack can be merged with any more.
  predicate Broken(h: History) {
    forall i :: 0 <= i < |h.commands| && h.commands[i].ScalarChange? ==> h.commands[i].generation < h.generation
  }

  // Of commands that tell the truth, two that merge never cancel each other: the text only grows,
  // or only shrinks. So the branch for an obsolete command is never taken.
  lemma MergesNeverCancel(top: Command, next: Command, a: Document, b: Document, c: Document)
    requires Merges(top, next) && Tells(top, a, b) && Tells(next, b, c)
    ensures Merged(top, next).from != Merged(top, next).to
    ensures Tells(Merged(top, next), a, c)
    ensures top.ScalarChange? && Merged(top, next).ScalarChange? && Merged(top, next).generation == top.generation
  {
    hide Scalar;
  }

  lemma ToldTruncates(commands: seq<Command>, docs: seq<Document>, generation: int, n: nat)
    requires |docs| == |commands| + 1 && Told(commands, docs, generation) && n <= |commands|
    ensures Told(commands[..n], docs[..n + 1], generation) && Told(commands[n..], docs[n..], generation)
  {
    hide Tells;
    forall i | 0 <= i < |commands| - n
      ensures Tells(commands[n..][i], docs[n..][i], docs[n..][i + 1])
      ensures commands[n..][i].ScalarChange? ==> commands[n..][i].generation <= generation
    {
      assert commands[n..][i] == commands[n + i] && docs[n..][i] == docs[n + i] && docs[n..][i + 1] == docs[n + i + 1];
    }
  }

  lemma ToldExtends(commands: seq<Command>, docs: seq<Document>, generation: int, command: Command, after: Document)
    requires |docs| == |commands| + 1 && Told(commands, docs, generation)
    requires Tells(command, docs[|commands|], after) && (command.ScalarChange? ==> command.generation <= generation)
    ensures Told(commands + [command], docs + [after], generation)
  {
    hide Tells;
  }

  // Pushing a truthful command keeps the stack truthful. Either it is merged into the last command,
  // or it stands on its own.
  lemma PushTold(h: History, command: Command, after: Document)
    requires |h.docs| == |h.commands| + 1 && h.index <= |h.commands| && Told(h.commands, h.docs, h.generation)
    requires Tells(command, h.docs[h.index], after) && (command.ScalarChange? ==> command.generation <= h.generation)
    ensures var r := Push(h, command, after);
      && |r.docs| == |r.commands| + 1 && Told(r.commands, r.docs, h.generation) && r.index == |r.commands| > 0
      && if h.index > 0 && Merges(h.commands[h.index - 1], command)
         then && r.index == h.index && r.commands[r.index - 1] == Merged(h.commands[h.index - 1], command)
              && r.docs[r.index - 1] == h.docs[h.index - 1] && r.docs[r.index] == after
         else r.commands[r.index - 1] == command && r.docs[r.index - 1] == h.docs[h.index] && r.docs[r.index] == after
  {
    hide Tells, Merges, Told;
    ToldTruncates(h.commands, h.docs, h.generation, h.index);
    var kept, past := h.commands[..h.index], h.docs[..h.index + 1];
    if h.index > 0 && Merges(kept[h.index - 1], command) {
      var top := kept[h.index - 1];
      ToldAt(h.commands, h.docs, h.generation, h.index - 1);
      MergesNeverCancel(top, command, h.docs[h.index - 1], h.docs[h.index], after);
      ToldTruncates(kept, past, h.generation, h.index - 1);
      ToldExtends(kept[..h.index - 1], past[..h.index], h.generation, Merged(top, command), after);
    } else {
      ToldExtends(kept, past, h.generation, command, after);
      ToldTruncates(kept + [command], past + [after], h.generation, 1);
    }
  }

  lemma ToldAt(commands: seq<Command>, docs: seq<Document>, generation: int, i: nat)
    requires |docs| == |commands| + 1 && Told(commands, docs, generation) && i < |commands|
    ensures Tells(commands[i], docs[i], docs[i + 1])
    ensures commands[i].ScalarChange? ==> commands[i].generation <= generation
  {
    hide Tells;
  }

  lemma LaterGeneration(commands: seq<Command>, docs: seq<Document>, generation: int, later: int)
    requires |docs| == |commands| + 1 && Told(commands, docs, generation) && generation <= later
    ensures Told(commands, docs, later)
  {
    hide Tells;
  }

  // ---- Every step keeps this ----

  lemma EditTold(h: History, after: Document, view: ViewState)
    requires Recorded(h)
    ensures Recorded(Apply(h, Edit(after, view)))
    ensures h.depth == 0 && after != h.document ==> Broken(Apply(h, Edit(after, view)))
  {
    hide Tells, Told, Push, Consistent;
    StepConsistent(h, Edit(after, view));
    ConsistentParts(h);
    if h.depth == 0 && after != h.document {
      var g := h.(document := after);
      var command := Snapshot("edit", h.current, h.currentView, after, view);
      SnapshotTells(command, h.current, after);
      PushTold(g, command, after);
      PushFrame(g, command, after);
      var r := Push(g, command, after);
      LaterGeneration(r.commands, r.docs, h.generation, h.generation + 1);
      ToldIsBroken(r.commands, r.docs, h.generation, Apply(h, Edit(after, view)));
    }
  }

  lemma ConsistentParts(h: History)
    requires Consistent(h)
    ensures h.index <= |h.commands| && |h.docs| == |h.commands| + 1 && h.docs[h.index] == h.current
    ensures !h.restoring && (h.depth == 0 ==> h.document == h.current)
    ensures h.depth >= 0 && (h.depth > 0 ==> h.transactionBefore == h.current)
  {
  }

  lemma RecordedIndices(h: History)
    requires Recorded(h)
    ensures h.index <= |h.commands| && h.index < |h.docs|
  {
  }

  lemma SnapshotTells(c: Command, a: Document, b: Document)
    requires c.Snapshot?
    ensures Tells(c, a, b)
  {
  }

  lemma ToldIsBroken(commands: seq<Command>, docs: seq<Document>, generation: int, h: History)
    requires |docs| == |commands| + 1 && Told(commands, docs, generation)
    requires h.commands == commands && generation < h.generation
    ensures Broken(h)
  {
    hide Tells;
  }

  lemma EndTold(h: History, view: ViewState)
    requires Recorded(h)
    ensures Recorded(Apply(h, End(view)))
    ensures h.depth == 1 && h.transactionBefore != h.document ==> Broken(Apply(h, End(view)))
  {
    hide Tells, Told, Push, Consistent;
    StepConsistent(h, End(view));
    ConsistentParts(h);
    if h.depth == 1 && h.transactionBefore != h.document {
      var g := h.(depth := 0);
      var command := Snapshot(h.transactionKind, h.transactionBefore, h.transactionBeforeView, h.document, view);
      SnapshotTells(command, h.current, h.document);
      PushTold(g, command, h.document);
      PushFrame(g, command, h.document);
      var r := Push(g, command, h.document);
      LaterGeneration(r.commands, r.docs, h.generation, h.generation + 1);
      ToldIsBroken(r.commands, r.docs, h.generation, Apply(h, End(view)));
    }
  }

  // The command a scalar edit records.
  function EditCommand(h: History, a: ScalarAddress, value: string, view: ViewState, now: int): Command
    requires Scalar(h.document, a).Some?
  {
    var before := Scalar(h.document, a).value;
    var kind := TypingKind(before, value, h.currentView);
    ScalarChange(if kind == "" then "edit" else kind, a, before, h.currentView, value, view, kind != "", h.generation, now)
  }

  lemma EditCommandTells(h: History, a: ScalarAddress, value: string, view: ViewState, now: int)
    requires Allowed(h, EditScalar(a, value, view, now))
    ensures Tells(EditCommand(h, a, value, view, now), h.document, SetScalar(h.document, a, value))
  {
    hide Scalar, SetScalar;
  }

  // A scalar edit that changes its field pushes that command; any other leaves the history alone.
  lemma EditScalarPushes(h: History, a: ScalarAddress, value: string, view: ViewState, now: int)
    requires Recorded(h) && h.depth == 0 && Allowed(h, EditScalar(a, value, view, now))
    ensures var r := Apply(h, EditScalar(a, value, view, now));
      var after := SetScalar(h.document, a, value);
      && Recorded(r) && r.generation == h.generation && r.depth == 0
      && (Scalar(h.document, a) == Some(value) ==> r == h)
      && (Scalar(h.document, a) != Some(value) ==>
            && r.document == after && r.currentView == view && r.index == |r.commands| > 0
            && var command := EditCommand(h, a, value, view, now);
               if h.index > 0 && Merges(h.commands[h.index - 1], command)
               then && r.index == h.index && r.commands[r.index - 1] == Merged(h.commands[h.index - 1], command)
                    && r.docs[r.index - 1] == h.docs[h.index - 1]
               else r.commands[r.index - 1] == command && r.docs[r.index - 1] == h.document)
  {
    hide Tells, Told, Push, Consistent, Scalar, SetScalar, TypingKind, Merges;
    var step := EditScalar(a, value, view, now);
    StepConsistent(h, step);
    ConsistentParts(h);
    ConsistentParts(Apply(h, step));
    var after := SetScalar(h.document, a, value);
    if Scalar(h.document, a) != Some(value) {
      var command := EditCommand(h, a, value, view, now);
      EditCommandTells(h, a, value, view, now);
      PushTold(h.(document := after), command, after);
      PushFrame(h.(document := after), command, after);
    } else {
      SetScalarSame(h.document, a);
    }
  }

  // What is recorded stays truthful through every step.
  lemma StepRecorded(h: History, step: Step)
    requires Recorded(h) && Allowed(h, step)
    ensures Recorded(Apply(h, step))
  {
    hide Told, Consistent, Scalar, SetScalar, Push, TypingKind;
    StepConsistent(h, step);
    ConsistentParts(h);
    LaterGeneration(h.commands, h.docs, h.generation, h.generation + 1);
    match step
    case Edit(after, view) => EditTold(h, after, view);
    case EditScalar(a, value, view, now) => if h.depth == 0 { EditScalarPushes(h, a, value, view, now); }
    case End(view) => EndTold(h, view);
    case Load(document) => NothingTold(document, h.generation + 1);
    case _ =>
  }

  lemma {:induction false} RunRecorded(states: seq<History>, steps: seq<Step>, n: nat)
    requires IsRun(states, steps) && Recorded(states[0]) && n < |states|
    ensures Recorded(states[n])
  {
    hide Recorded, Apply, Consistent;
    if n > 0 {
      RunRecorded(states, steps, n - 1);
      StepRecorded(states[n - 1], steps[n - 1]);
    }
  }

  lemma NothingTold(d: Document, generation: int)
    ensures Told([], [d], generation)
  {
  }

  // Stopping the merging, a change of the view that says so, undo, redo and loading; and other
  // changes of the document and transactions that change it.
  predicate BreaksMerging(h: History, step: Step) {
    match step
    case StopMerging => true
    case Load(_) => true
    case UpdateView(_, breakMerge) => h.depth == 0 && breakMerge
    case StepUndo => h.index > 0
    case StepRedo => h.index < |h.commands|
    case Edit(after, _) => h.depth == 0 && after != h.document
    case End(_) => h.depth == 1 && h.transactionBefore != h.document
    case _ => false
  }

  lemma StepBreaks(h: History, step: Step)
    requires Recorded(h) && Allowed(h, step) && BreaksMerging(h, step)
    ensures Broken(Apply(h, step))
  {
    hide Tells, Consistent, Scalar, SetScalar, Push, TypingKind;
    ConsistentParts(h);
    if step.Edit? {
      EditTold(h, step.after, step.view);
    } else if step.End? {
      EndTold(h, step.view);
    }
  }

  // After any of these steps a scalar edit is an undo step of its own.
  lemma EditAfterBreakStandsAlone(h: History, step: Step, a: ScalarAddress, x: string, view: ViewState, now: int)
    requires Recorded(h) && Allowed(h, step) && BreaksMerging(h, step)
    requires var b := Apply(h, step);
      b.depth == 0 && Allowed(b, EditScalar(a, x, view, now)) && Scalar(b.document, a) != Some(x)
      && b.index <= |b.commands| && b.index < |b.docs|
    ensures var b := Apply(h, step);
      var r := Apply(b, EditScalar(a, x, view, now));
      && 0 < r.index <= |r.commands| && Undo(r).document == b.document && Undo(r).currentView == b.currentView
      && Redo(Undo(r)).document == r.document == SetScalar(b.document, a, x) && Redo(Undo(r)).currentView == view
  {
    hide Recorded, Apply, Scalar, SetScalar, Undo, Redo, BreaksMerging, Merges, TypingKind;
    RecordedIndices(h);
    var b := Apply(h, step);
    StepRecorded(h, step);
    StepBreaks(h, step);
    EditScalarPushes(b, a, x, view, now);
    if b.index > 0 {
      BrokenTop(b, EditCommand(b, a, x, view, now));
    }
    UndoneIs(Apply(b, EditScalar(a, x, view, now)));
  }

  lemma BrokenTop(h: History, command: Command)
    requires Broken(h) && 0 < h.index <= |h.commands| && (command.ScalarChange? ==> command.generation == h.generation)
    ensures !Merges(h.commands[h.index - 1], command)
  {
  }

  // ---- Two edits in a row ----

  predicate Collapsed(view: ViewState) {
    view.selectionStart == view.selectionEnd
  }

  // Both edits insert, or both delete, with a collapsed selection.
  predicate SameDirection(before: string, between: string, after: string, view: ViewState, viewBetween: ViewState) {
    && Collapsed(view) && Collapsed(viewBetween)
    && (|before| < |between| < |after| || |before| > |between| > |after|)
  }

  // After a scalar edit the last command is about its field and text, and is as old as the edit.
  lemma TopAfterEdit(h: History, a: ScalarAddress, x: string, view: ViewState, now: int)
    requires Recorded(h) && h.depth == 0 && Allowed(h, EditScalar(a, x, view, now)) && Scalar(h.document, a) != Some(x)
    ensures var r := Apply(h, EditScalar(a, x, view, now));
      && 0 < r.index <= |r.commands|
      && var top, kind := r.commands[r.index - 1], TypingKind(Scalar(h.document, a).value, x, h.currentView);
         && top.ScalarChange? && top.address == a && top.to == x && top.generation == r.generation
         && top.timestamp == now && (top.mergeable <==> kind != "") && (top.mergeable ==> top.kind == kind)
  {
    hide Recorded, Apply, Scalar, SetScalar, TypingKind;
    EditScalarPushes(h, a, x, view, now);
  }

  lemma MergesWithTop(h: History, top: Command, before: string, viewBefore: ViewState,
                      b: ScalarAddress, y: string, view: ViewState, now: int)
    requires top.ScalarChange? && top.generation == h.generation
    requires Scalar(h.document, top.address) == Some(top.to) && Scalar(h.document, b).Some?
    requires var kind := TypingKind(before, top.to, viewBefore);
      (top.mergeable <==> kind != "") && (top.mergeable ==> top.kind == kind)
    ensures Merges(top, EditCommand(h, b, y, view, now))
            <==> b == top.address && now - top.timestamp <= 1000
                 && SameDirection(before, top.to, y, viewBefore, h.currentView)
  {
    hide Scalar;
  }

  // Undo leads to the document and the view before the last command, and redo back.
  lemma UndoneIs(h: History)
    requires Recorded(h) && h.depth == 0 && h.index > 0
    ensures h.index <= |h.commands| && h.index < |h.docs|
    ensures Undo(h).document == h.docs[h.index - 1] && Redo(Undo(h)).document == h.document
    ensures Undo(h).currentView == h.commands[h.index - 1].beforeView
    ensures Redo(Undo(h)).currentView == h.commands[h.index - 1].afterView
  {
    hide Consistent, Told;
    ConsistentParts(h);
    UndoManyReaches(h, 1);
    assert UndoMany(h, 1) == UndoMany(Undo(h), 0) == Undo(h);
    RedoManyReaches(Undo(h), 1);
    assert RedoMany(Undo(h), 1) == RedoMany(Redo(Undo(h)), 0) == Redo(Undo(h));
  }

  // A command that may merge has changed the document.
  lemma TextsDiffer(h: History)
    requires Recorded(h) && h.depth == 0 && h.index > 0
    requires h.commands[h.index - 1].ScalarChange? && h.commands[h.index - 1].mergeable
    ensures h.docs[h.index - 1] != h.document
  {
    hide Consistent, Told, Scalar;
    ConsistentParts(h);
    ToldAt(h.commands, h.docs, h.generation, h.index - 1);
  }

  // Two edits of scalar fields, one right after the other: they are one undo step if and only if
  // they are in the same field and the same direction and at most a second apart. Undo then leads
  // back to where undoing the first would have led; otherwise it leads to the document between them.
  lemma TwoEdits(h: History, a: ScalarAddress, x: string, viewBetween: ViewState, first: int,
                 b: ScalarAddress, y: string, view: ViewState, second: int)
    requires Recorded(h) && h.depth == 0
    requires Allowed(h, EditScalar(a, x, viewBetween, first)) && Scalar(h.document, a) != Some(x)
    requires var h1 := Apply(h, EditScalar(a, x, viewBetween, first));
      Allowed(h1, EditScalar(b, y, view, second)) && Scalar(h1.document, b) != Some(y)
    ensures var h1 := Apply(h, EditScalar(a, x, viewBetween, first));
      var h2 := Apply(h1, EditScalar(b, y, view, second));
      var joins := a == b && second - first <= 1000
                   && SameDirection(Scalar(h.document, a).value, x, y, h.currentView, viewBetween);
      && h1.index > 0 && h1.index <= |h1.commands| && h2.index > 0 && h2.index <= |h2.commands|
      && (joins ==> h2.index == h1.index && Undo(h2).document == Undo(h1).document != h1.document
                    && Undo(h2).currentView == Undo(h1).currentView)
      && (!joins ==> Undo(h2).document == h1.document && Undo(h2).currentView == viewBetween)
      && Redo(Undo(h2)).document == h2.document == SetScalar(h1.document, b, y) && Redo(Undo(h2)).currentView == view
  {
    hide Recorded, Apply, Scalar, SetScalar, Merges, Undo, Redo, EditCommand, SameDirection, TypingKind, Merged;
    RecordedIndices(h);
    var h1 := Apply(h, EditScalar(a, x, viewBetween, first));
    EditScalarPushes(h, a, x, viewBetween, first);
    RecordedIndices(h1);
    var h2 := Apply(h1, EditScalar(b, y, view, second));
    EditScalarPushes(h1, b, y, view, second);
    TopAfterEdit(h, a, x, viewBetween, first);
    var top := h1.commands[h1.index - 1];
    MergesWithTop(h1, top, Scalar(h.document, a).value, h.currentView, b, y, view, second);
    UndoneIs(h1);
    UndoneIs(h2);
    EditCommandViews(h1, b, y, view, second);
    if Merges(top, EditCommand(h1, b, y, view, second)) {
      MergesOnlyMergeable(top, EditCommand(h1, b, y, view, second));
      TextsDiffer(h1);
    }
  }

  lemma MergesOnlyMergeable(top: Command, next: Command)
    requires Merges(top, next)
    ensures top.ScalarChange? && top.mergeable
    ensures Merged(top, next).beforeView == top.beforeView && Merged(top, next).afterView == next.afterView
  {
  }

  lemma EditCommandViews(h: History, a: ScalarAddress, value: string, view: ViewState, now: int)
    requires Scalar(h.document, a).Some?
    ensures EditCommand(h, a, value, view, now).beforeView == h.currentView
    ensures EditCommand(h, a, value, view, now).afterView == view
  {
  }

  // ---- How far back undo leads ----

  // After a change of the document undo leads through the same past as before it, up to 256 steps, and
  // there is nothing to redo.
  lemma PastIsKept(h: History, after: Document, view: ViewState, k: nat)
    requires Consistent(h) && h.depth == 0 && after != h.document && k <= h.index && k < 256
    ensures var r := Apply(h, Edit(after, view));
      && k < r.index == |r.commands| <= 256 && Redo(r) == r
      && UndoMany(r, k + 1).document == UndoMany(h, k).document
  {
    hide Consistent, Apply, Restore;
    ConsistentParts(h);
    StepConsistent(h, Edit(after, view));
    LimitHolds(h);
    ChangePushes(h, after, view);
    var r := Apply(h, Edit(after, view));
    UndoManyReaches(h, k);
    UndoManyReaches(r, k + 1);
    assert r.docs[r.index - (k + 1)] == h.docs[h.index - k];
  }

  lemma ChangePushes(h: History, after: Document, view: ViewState)
    requires Consistent(h) && h.depth == 0 && after != h.document
    ensures var r := Apply(h, Edit(after, view));
      && r.depth == 0 && r.index == |r.commands| == (if h.index < 256 then h.index + 1 else h.index)
      && (h.index < 256 ==> r.docs == h.docs[..h.index + 1] + [after])
      && (h.index >= 256 ==> r.docs == (h.docs[..h.index + 1] + [after])[1..])
  {
    hide Consistent, Push;
    ConsistentParts(h);
    var command := Snapshot("edit", h.current, h.currentView, after, view);
    SnapshotPushed(h.(document := after), command, after);
    PushFrame(h.(document := after), command, after);
  }

  lemma LimitHolds(h: History)
    requires Consistent(h)
    ensures h.index <= |h.commands| <= 256
  {
  }

  lemma SnapshotPushed(h: History, command: Command, after: Document)
    requires h.index <= |h.commands| && h.index < |h.docs| && command.Snapshot?
    ensures var r := Push(h, command, after);
      && r.index == |r.commands| == (if h.index < 256 then h.index + 1 else h.index)
      && (h.index < 256 ==> r.docs == h.docs[..h.index + 1] + [after])
      && (h.index >= 256 ==> r.docs == (h.docs[..h.index + 1] + [after])[1..])
  {
  }

  // ---- What the editor shows ----

  // Outside a transaction every report says what view is current; inside, nothing does. A transaction
  // begins and ends with the views it is told, undo and redo go to those of their command, and a
  // document that is loaded starts with none.
  function ViewAfter(h: History, step: Step): ViewState
    requires h.index <= |h.commands|
  {
    match step
    case Edit(_, view) => if h.depth == 0 then view else h.currentView
    case EditScalar(a, value, view, _) => if h.depth == 0 && Scalar(h.document, a) != Some(value) then view else h.currentView
    case UpdateView(view, _) => if h.depth == 0 then view else h.currentView
    case Begin(_, view) => if h.depth == 0 then view else h.currentView
    case End(view) => if h.depth == 1 then view else h.currentView
    case StopMerging => h.currentView
    case Load(_) => NO_VIEW
    case StepUndo => if h.index > 0 then h.commands[h.index - 1].beforeView else h.currentView
    case StepRedo => if h.index < |h.commands| then h.commands[h.index].afterView else h.currentView
  }

  function DepthAfter(h: History, step: Step): int {
    match step
    case Begin(_, _) => h.depth + 1
    case End(_) => if h.depth > 0 then h.depth - 1 else 0
    case Load(_) => 0
    case _ => h.depth
  }

  // After every step the editor shows the document the step says, or the one before or after the
  // current one on the timeline, in the view and at the depth of transactions that belong to it.
  lemma StepShows(h: History, step: Step)
    requires Recorded(h) && Allowed(h, step)
    ensures var r := Apply(h, step);
      && r.currentView == ViewAfter(h, step) && r.depth == DepthAfter(h, step)
      && r.document == (match step
                        case Edit(after, _) => after
                        case EditScalar(a, value, _, _) => SetScalar(h.document, a, value)
                        case Load(document) => document
                        case StepUndo => if h.index > 0 then h.docs[h.index - 1] else h.document
                        case StepRedo => if h.index < |h.commands| then h.docs[h.index + 1] else h.document
                        case _ => h.document)
  {
    hide Told, Consistent, Scalar, SetScalar, Push, TypingKind;
    ConsistentParts(h);
    match step
    case Edit(after, view) => PushFrameOf(h.(document := after), after, Snapshot("edit", h.current, h.currentView, after, view));
    case EditScalar(a, value, view, _) =>
      var before := Scalar(h.document, a).value;
      var kind := TypingKind(before, value, h.currentView);
      PushFrameOf(h.(document := SetScalar(h.document, a, value)), SetScalar(h.current, a, value),
                  ScalarChange(if kind == "" then "edit" else kind, a, before, h.currentView, value, view, kind != "",
                               h.generation, step.now));
    case End(view) =>
      PushFrameOf(h.(depth := 0), h.document,
                  Snapshot(h.transactionKind, h.transactionBefore, h.transactionBeforeView, h.document, view));
    case StepUndo => if h.index > 0 { UndoneIs(h); }
    case StepRedo =>
      if h.index < |h.commands| {
        RedoManyReaches(h, 1);
        assert RedoMany(h, 1) == RedoMany(Redo(h), 0) == Redo(h);
      }
    case _ =>
  }

  lemma PushFrameOf(h: History, after: Document, command: Command)
    requires h.index <= |h.commands| && h.index < |h.docs|
    ensures var r := Push(h, command, after);
      r.document == h.document && r.depth == h.depth && r.currentView == h.currentView
  {
    PushFrame(h, command, after);
  }
}
