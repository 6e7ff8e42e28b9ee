// The undo history as a class, and what it promises: a timeline of documents with
// a cursor, through every mixture of edits, merges, transactions, undo and redo.
module NoteHistory {
  import opened Basics
  import opened HistoryState
  import H = HistoryState

  // ---- The timeline ----

  // `command` leads from document a to document b and back.
  ghost predicate Connects(command: Command, a: Document, b: Document) {
    match command
    case Snapshot(_, before, _, after, _) => before == a && after == b
    case ScalarChange(_, address, from, _, to, _, _, _, _) =>
      b == SetScalar(a, address, to) && a == SetScalar(b, address, from)
  }

  ghost predicate Chained(commands: seq<Command>, docs: seq<Document>) {
    && |docs| == |commands| + 1
    && forall i :: 0 <= i < |commands| ==> Connects(commands[i], docs[i], docs[i + 1])
  }

  // Each command's before-document is its predecessor's after-document, the cursor stands at
  // the current document, and outside a transaction that is the editor's document.
  ghost predicate Consistent(h: History) {
    && Chained(h.commands, h.docs)
    && h.index <= |h.commands| <= UNDO_LIMIT
    && h.docs[h.index] == h.current
    && !h.restoring && h.depth >= 0
    && (h.depth == 0 ==> h.document == h.current)
    && (h.depth > 0 ==> h.transactionBefore == h.current)
  }

  // ---- What happens to the history ----

  datatype Step =
    | Edit(after: Document, view: ViewState)
    | EditScalar(address: ScalarAddress, value: string, view: ViewState, now: int)
    | Begin(kind: string, view: ViewState)
    | End(view: ViewState)
    | UpdateView(view: ViewState, breakMerge: bool)
    | StopMerging
    | Load(document: Document)
    | StepUndo
    | StepRedo

  // The editor reports the truth: a scalar edit names a field and its text before and after.
  // Undo and redo are called outside transactions.
  predicate Allowed(h: History, step: Step) {
    match step
    case EditScalar(a, value, _, _) =>
      Scalar(h.document, a).Some? && Scalar(SetScalar(h.document, a, value), a) == Some(value)
    case StepUndo => h.depth == 0
    case StepRedo => h.depth == 0
    case _ => true
  }

  function Apply(h: History, step: Step): History
    requires h.index <= |h.commands| && h.index < |h.docs| && Allowed(h, step)
  {
    match step
    case Edit(after, view) => ObserveChange(h.(document := after), after, view)
    case EditScalar(a, value, view, now) =>
      var before := Scalar(h.document, a).value;
      ObserveScalar(h.(document := SetScalar(h.document, a, value)), a, before, value, view, now)
    case Begin(kind, view) => BeginTransaction(h, kind, h.document, view)
    case End(view) => EndTransaction(h, h.document, view)
    case UpdateView(view, breakMerge) => UpdateViewState(h, view, breakMerge)
    case StopMerging => BreakMerge(h)
    case Load(document) => Reset(h.(document := document), document)
    case StepUndo => Undo(h)
    case StepRedo => Redo(h)
  }

  // ---- Recording ----

  lemma MergedConnects(top: Command, next: Command, a: Document, b: Document, c: Document)
    requires Merges(top, next) && Connects(top, a, b) && Connects(next, b, c)
    ensures Connects(Merged(top, next), a, c)
    ensures Merged(top, next).from == Merged(top, next).to ==> a == c
  {
    hide SetScalar;
    SetScalarTwice(a, top.address, top.to, next.to);
    SetScalarTwice(b, top.address, next.to, top.from);
    SetScalarTwice(b, top.address, next.to, next.to);
    assert c == SetScalar(a, top.address, next.to);
    assert SetScalar(c, top.address, top.from) == SetScalar(b, top.address, top.from) == a;
    if top.from == next.to {
      assert c == SetScalar(a, top.address, top.from);
      SetScalarTwice(b, top.address, top.from, top.from);
    }
  }

  lemma ChainTruncates(commands: seq<Command>, docs: seq<Document>, n: nat)
    requires Chained(commands, docs) && n <= |commands|
    ensures Chained(commands[..n], docs[..n + 1]) && Chained(commands[n..], docs[n..])
  {
    hide Connects;
  }

  lemma ChainExtends(commands: seq<Command>, docs: seq<Document>, command: Command, after: Document)
    requires Chained(commands, docs) && Connects(command, docs[|commands|], after)
    ensures Chained(commands + [command], docs + [after])
  {
    hide Connects;
  }

  // Recording keeps the timeline: what lies ahead of the cursor is dropped; the new document is
  // appended, or it replaces the last one (a merge), or it is the last but one again (an obsolete
  // merge); at the limit the oldest document is dropped.
  lemma PushChains(h: History, command: Command, after: Document)
    requires Chained(h.commands, h.docs) && h.index <= |h.commands| <= UNDO_LIMIT
    requires Connects(command, h.docs[h.index], after)
    ensures var r := Push(h, command, after);
      && Chained(r.commands, r.docs) && r.index == |r.commands| <= UNDO_LIMIT && r.docs[r.index] == after
      && (r.docs == h.docs[..h.index + 1] + [after] || r.docs == (h.docs[..h.index + 1] + [after])[1..]
          || r.docs == h.docs[..h.index] + [after] || (h.index > 0 && r.docs == h.docs[..h.index]))
  {
    hide SetScalar, Connects, Merges, Chained;
    ChainTruncates(h.commands, h.docs, h.index);
    ChainLength(h.commands, h.docs);
    var kept, past := h.commands[..h.index], h.docs[..h.index + 1];
    if h.index > 0 && Merges(kept[h.index - 1], command) {
      ChainLink(h.commands, h.docs, h.index - 1);
      MergedConnects(kept[h.index - 1], command, h.docs[h.index - 1], h.docs[h.index], after);
      ChainTruncates(kept, past, h.index - 1);
      ChainExtends(kept[..h.index - 1], past[..h.index], Merged(kept[h.index - 1], command), after);
    } else {
      ChainExtends(kept, past, command, after);
      ChainTruncates(kept + [command], past + [after], 1);
    }
  }

  lemma ChainLength(commands: seq<Command>, docs: seq<Document>)
    requires Chained(commands, docs)
    ensures |docs| == |commands| + 1
  {
  }

  lemma ChainLink(commands: seq<Command>, docs: seq<Document>, i: nat)
    requires Chained(commands, docs) && i < |commands|
    ensures i + 1 < |docs| && Connects(commands[i], docs[i], docs[i + 1])
  {
    hide Connects;
  }

  lemma StepConsistent(h: History, step: Step)
    requires Consistent(h) && Allowed(h, step)
    ensures Consistent(Apply(h, step))
  {
    hide SetScalar, Push;
    match step
    case Edit(after, view) =>
      if h.depth == 0 && h.current != after {
        PushChains(h.(document := after), Snapshot("edit", h.current, h.currentView, after, view), after);
        PushFrame(h.(document := after), Snapshot("edit", h.current, h.currentView, after, view), after);
      }
    case EditScalar(a, value, view, now) => EditScalarConsistent(h, a, value, view, now);
    case End(view) =>
      if h.depth == 1 && h.transactionBefore != h.document {
        var command := Snapshot(h.transactionKind, h.transactionBefore, h.transactionBeforeView, h.document, view);
        PushChains(h.(depth := 0), command, h.document);
        PushFrame(h.(depth := 0), command, h.document);
      }
    case _ =>
  }

  // Pushing touches the stack and nothing else.
  lemma PushFrame(h: History, command: Command, after: Document)
    requires h.index <= |h.commands| && h.index < |h.docs|
    ensures var r := Push(h, command, after);
      r == h.(commands := r.commands, index := r.index, docs := r.docs)
  {
  }

  lemma EditScalarConsistent(h: History, a: ScalarAddress, value: string, view: ViewState, now: int)
    requires Consistent(h) && Allowed(h, EditScalar(a, value, view, now))
    ensures Consistent(Apply(h, EditScalar(a, value, view, now)))
  {
    hide SetScalar, Push, TypingKind, Scalar;
    var before := Scalar(h.document, a).value;
    var after := SetScalar(h.document, a, value);
    SetScalarSame(h.document, a);
    if h.depth == 0 {
      if before != value {
        var kind := TypingKind(before, value, h.currentView);
        var command := ScalarChange(if kind == "" then "edit" else kind, a, before, h.currentView, value, view,
                                    kind != "", h.generation, now);
        SetScalarTwice(h.document, a, value, before);
        assert Connects(command, h.document, after);
        PushChains(h.(document := after), command, after);
        PushFrame(h.(document := after), command, after);
      } else {
        assert after == h.document;
      }
    }
  }

  // ---- Runs ----

  ghost predicate IsRun(states: seq<History>, steps: seq<Step>) {
    && |states| == |steps| + 1
    && Consistent(states[0])
    && forall i :: 0 <= i < |steps| ==>
      states[i].index <= |states[i].commands| && states[i].index < |states[i].docs|
      && Allowed(states[i], steps[i]) && states[i + 1] == Apply(states[i], steps[i])
  }

  lemma {:induction false} RunConsistent(states: seq<History>, steps: seq<Step>, n: nat)
    requires IsRun(states, steps) && n < |states|
    ensures Consistent(states[n])
  {
    hide Consistent, Apply;
    if n > 0 {
      RunConsistent(states, steps, n - 1);
      StepConsistent(states[n - 1], steps[n - 1]);
    }
  }

  function UndoMany(h: History, n: nat): (r: History)
    requires n <= h.index <= |h.commands|
    ensures r.index == h.index - n && r.commands == h.commands && r.docs == h.docs && r.depth == h.depth
    decreases n
  {
    if n == 0 then h else UndoMany(Undo(h), n - 1)
  }

  function RedoMany(h: History, n: nat): (r: History)
    requires h.index + n <= |h.commands|
    ensures r.index == h.index + n && r.commands == h.commands && r.docs == h.docs && r.depth == h.depth
    decreases n
  {
    if n == 0 then h else RedoMany(Redo(h), n - 1)
  }

  lemma {:induction false} UndoManyReaches(h: History, n: nat)
    requires Consistent(h) && h.depth == 0 && n <= h.index
    ensures Consistent(UndoMany(h, n)) && UndoMany(h, n).document == h.docs[h.index - n]
    decreases n
  {
    hide SetScalar;
    if n > 0 {
      StepConsistent(h, StepUndo);
      UndoManyReaches(Undo(h), n - 1);
    }
  }

  lemma {:induction false} RedoManyReaches(h: History, n: nat)
    requires Consistent(h) && h.depth == 0 && h.index + n <= |h.commands|
    ensures Consistent(RedoMany(h, n)) && RedoMany(h, n).document == h.docs[h.index + n]
    decreases n
  {
    hide SetScalar;
    if n > 0 {
      StepConsistent(h, StepRedo);
      RedoManyReaches(Redo(h), n - 1);
    }
  }

  // After any run, outside a transaction: n undos lead to the n-th document back on the timeline,
  // and n redos from there restore the document, the stack and the cursor exactly.
  lemma UndoRedoRoundTrip(states: seq<History>, steps: seq<Step>, n: nat)
    requires IsRun(states, steps)
    requires var h := states[|steps|]; h.depth == 0 && n <= h.index <= |h.commands|
    ensures var h := states[|steps|];
      var back := UndoMany(h, n);
      var again := RedoMany(back, n);
      && h.index < |h.docs| && back.document == h.docs[h.index - n]
      && again.document == h.document && again.commands == h.commands && again.index == h.index
  {
    hide Consistent;
    var h := states[|steps|];
    RunConsistent(states, steps, |steps|);
    UndoManyReaches(h, n);
    RedoManyReaches(UndoMany(h, n), n);
    CursorAtDocument(h);
  }

  lemma CursorAtDocument(h: History)
    requires Consistent(h) && h.depth == 0
    ensures h.index < |h.docs| && h.docs[h.index] == h.document && |h.docs| == |h.commands| + 1
  {
  }

  // An edit that is not merged is undone and redone with the views it was made in.
  lemma EditUndoRedo(h: History, after: Document, view: ViewState)
    requires Consistent(h) && h.depth == 0 && after != h.document
    ensures var e := Apply(h, Edit(after, view));
      var u := Undo(e);
      var r := Redo(u);
      && u.document == h.document && u.currentView == h.currentView
      && r.document == after && r.currentView == view
  {
  }

  // Inside a transaction nothing observed reaches the stack.
  lemma ObservationsInTransactionAreIgnored(h: History, step: Step)
    requires Consistent(h) && h.depth > 0 && Allowed(h, step) && (step.Edit? || step.EditScalar?)
    ensures Apply(h, step) == h.(document := Apply(h, step).document)
  {
  }

  // What may happen between the outermost begin and its end: anything but loading another
  // document and the steps Allowed excludes.
  ghost predicate InsideStep(h: History, step: Step, r: History) {
    && Consistent(h) && h.depth > 0 && Allowed(h, step) && !step.Load?
    && h.index <= |h.commands| && h.index < |h.docs| && r == Apply(h, step) && r.depth > 0
  }

  ghost predicate InsideRun(states: seq<History>, steps: seq<Step>) {
    |states| == |steps| + 1 && forall i :: 0 <= i < |steps| ==> InsideStep(states[i], steps[i], states[i + 1])
  }

  // The stack and what the transaction remembers of its start.
  ghost predicate SameTransaction(a: History, b: History) {
    && b.commands == a.commands && b.index == a.index && b.docs == a.docs && b.current == a.current
    && b.transactionBefore == a.transactionBefore && b.transactionBeforeView == a.transactionBeforeView
    && b.transactionKind == a.transactionKind && b.restoring == a.restoring
  }

  lemma InsideStepKeepsTransaction(h: History, step: Step, r: History)
    requires InsideStep(h, step, r)
    ensures SameTransaction(h, r)
  {
    if step.Edit? || step.EditScalar? {
      ObservationsInTransactionAreIgnored(h, step);
    }
  }

  lemma {:induction false} InsideKeepsTransaction(states: seq<History>, steps: seq<Step>, n: nat)
    requires InsideRun(states, steps) && n < |states|
    ensures SameTransaction(states[0], states[n])
  {
    hide InsideStep;
    if n > 0 {
      InsideKeepsTransaction(states, steps, n - 1);
      InsideStepKeepsTransaction(states[n - 1], steps[n - 1], states[n - 1 + 1]);
    }
  }

  // A transaction, with any number of edits, scalar edits and nested transactions inside, is one
  // command, or none if it changed nothing.
  lemma TransactionIsOneCommand(h: History, kind: string, view: ViewState, states: seq<History>, steps: seq<Step>,
                                afterView: ViewState)
    requires Consistent(h) && h.depth == 0
    requires InsideRun(states, steps) && states[0] == BeginTransaction(h, kind, h.document, view)
    requires states[|steps|].depth == 1
    ensures IsOneCommand(h, kind, view, states[|steps|], afterView)
  {
    hide Consistent;
    InsideKeepsTransaction(states, steps, |steps|);
    OutermostBegins(h, kind, view);
    OutermostEnds(h, states[0], states[|steps|], kind, view, afterView);
  }

  // Ending the transaction in `middle` adds one command to the stack of h, or leaves it alone.
  ghost predicate IsOneCommand(h: History, kind: string, view: ViewState, middle: History, afterView: ViewState) {
    && h.index <= |h.commands| && middle.index <= |middle.commands| && middle.index < |middle.docs|
    && var e := EndTransaction(middle, middle.document, afterView);
    && e.depth == 0 && e.document == middle.document
    && (middle.document == h.document ==> e.commands == h.commands && e.index == h.index)
    && (middle.document != h.document ==>
          && e.commands == LimitedTo(h.commands[..h.index] + [Snapshot(kind, h.document, view, e.document, afterView)])
          && e.index == |e.commands|
          && Undo(e).document == h.document && Undo(e).currentView == view && Redo(Undo(e)).document == e.document)
  }

  // A stack that has outgrown the undo limit loses its oldest command.
  function LimitedTo(commands: seq<Command>): seq<Command> {
    if |commands| > UNDO_LIMIT then commands[1..] else commands
  }

  lemma OutermostBegins(h: History, kind: string, view: ViewState)
    requires Consistent(h) && h.depth == 0
    ensures var b := BeginTransaction(h, kind, h.document, view);
      && b.commands == h.commands && b.index == h.index && b.docs == h.docs && b.current == h.current
      && b.transactionBefore == h.document && b.transactionBeforeView == view && b.transactionKind == kind && !b.restoring
      && h.index <= |h.commands| && h.index < |h.docs| && |h.commands| <= UNDO_LIMIT
  {
  }

  lemma OutermostEnds(h: History, start: History, middle: History, kind: string, view: ViewState, afterView: ViewState)
    requires SameTransaction(start, middle) && middle.depth == 1
    requires h.index <= |h.commands| <= UNDO_LIMIT && h.index < |h.docs|
    requires start.commands == h.commands && start.index == h.index && start.docs == h.docs
    requires start.transactionBefore == h.document && start.transactionBeforeView == view && start.transactionKind == kind
    requires !start.restoring
    ensures IsOneCommand(h, kind, view, middle, afterView)
  {
    var command := Snapshot(kind, h.document, view, middle.document, afterView);
    assert LimitedTo(h.commands[..h.index] + [command]) != [];
  }

  // ---- Outside the promise ----

  // undo() keeps the timeline if and only if no transaction is open, there is nothing to undo, or
  // the command undone changed nothing.
  lemma UndoKeepsTimeline(h: History)
    requires Consistent(h)
    ensures Consistent(Undo(h))
            <==> h.depth == 0 || h.index == 0 || h.docs[h.index - 1] == h.docs[h.index]
  {
    if h.depth == 0 {
      StepConsistent(h, StepUndo);
    } else if h.index > 0 {
      assert Connects(h.commands[h.index - 1], h.docs[h.index - 1], h.docs[h.index]);
    }
  }

  // undo() does not check for an open transaction. Called inside one, it leaves a stack whose
  // commands no longer chain: no timeline of documents explains it.
  lemma UndoInTransactionBreaksChain(a: Document, b: Document, c: Document)
    requires a != b && b != c
    ensures var h0 := Reset(INITIAL.(document := a), a);
      var h2 := Apply(Apply(h0, Edit(b, NO_VIEW)), Edit(c, NO_VIEW));
      var h4 := Undo(Apply(h2, Begin("paste", NO_VIEW)));
      var h5 := Apply(h4, End(NO_VIEW));
      && Consistent(h2) && h4.depth > 0
      && forall docs :: !Chained(h5.commands, docs)
  {
    var h0 := Reset(INITIAL.(document := a), a);
    var h1 := Apply(h0, Edit(b, NO_VIEW));
    StepConsistent(h0, Edit(b, NO_VIEW));
    assert h1.commands == [Snapshot("edit", a, NO_VIEW, b, NO_VIEW)];
    var h2 := Apply(h1, Edit(c, NO_VIEW));
    StepConsistent(h1, Edit(c, NO_VIEW));
    assert h2.commands == [Snapshot("edit", a, NO_VIEW, b, NO_VIEW), Snapshot("edit", b, NO_VIEW, c, NO_VIEW)];
    var h4 := Undo(Apply(h2, Begin("paste", NO_VIEW)));
    assert h4.document == b && h4.transactionBefore == c && h4.index == 1;
    var h5 := Apply(h4, End(NO_VIEW));
    assert h4.commands[..1] == [Snapshot("edit", a, NO_VIEW, b, NO_VIEW)];
    assert h5.commands == [Snapshot("edit", a, NO_VIEW, b, NO_VIEW), Snapshot("paste", c, NO_VIEW, b, NO_VIEW)];
    SnapshotsChain(h5.commands);
  }

  // redo() keeps the timeline under the corresponding condition.
  lemma RedoKeepsTimeline(h: History)
    requires Consistent(h)
    ensures Consistent(Redo(h))
            <==> h.depth == 0 || h.index == |h.commands| || h.docs[h.index] == h.docs[h.index + 1]
  {
    if h.depth == 0 {
      StepConsistent(h, StepRedo);
    } else if h.index < |h.commands| {
      assert Connects(h.commands[h.index], h.docs[h.index], h.docs[h.index + 1]);
    }
  }

  // redo() does not check for an open transaction either.
  lemma RedoInTransactionBreaksChain(a: Document, b: Document)
    requires a != b
    ensures var h0 := Reset(INITIAL.(document := a), a);
      var h2 := Undo(Apply(h0, Edit(b, NO_VIEW)));
      var h4 := Redo(Apply(h2, Begin("paste", NO_VIEW)));
      var h5 := Apply(h4, End(NO_VIEW));
      && Consistent(h2) && h4.depth > 0
      && forall docs :: !Chained(h5.commands, docs)
  {
    var h0 := Reset(INITIAL.(document := a), a);
    var h1 := Apply(h0, Edit(b, NO_VIEW));
    StepConsistent(h0, Edit(b, NO_VIEW));
    assert h1.commands == [Snapshot("edit", a, NO_VIEW, b, NO_VIEW)];
    var h2 := Undo(h1);
    StepConsistent(h1, StepUndo);
    var h4 := Redo(Apply(h2, Begin("paste", NO_VIEW)));
    assert h4.document == b && h4.transactionBefore == a && h4.index == 1;
    var h5 := Apply(h4, End(NO_VIEW));
    assert h4.commands[..1] == [Snapshot("edit", a, NO_VIEW, b, NO_VIEW)];
    assert h5.commands == [Snapshot("edit", a, NO_VIEW, b, NO_VIEW), Snapshot("paste", a, NO_VIEW, b, NO_VIEW)];
    SnapshotsChain(h5.commands);
  }

  lemma SnapshotsChain(commands: seq<Command>)
    requires |commands| == 2 && commands[0].Snapshot? && commands[1].Snapshot?
    ensures forall docs :: Chained(commands, docs) ==> commands[0].after == commands[1].before
  {
    forall docs | Chained(commands, docs) ensures commands[0].after == commands[1].before {
      assert Connects(commands[0], docs[0], docs[1]) && Connects(commands[1], docs[1], docs[2]);
    }
  }

  const INITIAL := History([], 0, Document([], false, []), NO_VIEW, Document([], false, []), NO_VIEW, "", 0, 0, false,
                           Document([], false, []), [Document([], false, [])])

  // ---- The class ----

  class NoteDocumentHistory {
    var commands: seq<Command>
    var index: nat
    var current: Document
    var currentView: ViewState
    var transactionBefore: Document
    var transactionBeforeView: ViewState
    var transactionKind: string
    var transactionDepth: int
    var mergeGeneration: int
    var restoring: bool
    var document: Document       // the editor's document, written by the restore handlers
    ghost var docs: seq<Document>

    ghost function View(): History
      reads this
    {
      History(commands, index, current, currentView, transactionBefore, transactionBeforeView, transactionKind,
              transactionDepth, mergeGeneration, restoring, document, docs)
    }

    ghost predicate Valid()
      reads this
    {
      Consistent(View())
    }

    constructor (state: Document)
      ensures Valid() && document == state && commands == [] && transactionDepth == 0
    {
      commands, index, current, currentView := [], 0, state, NO_VIEW;
      transactionBefore, transactionBeforeView, transactionKind, transactionDepth := state, NO_VIEW, "", 0;
      mergeGeneration, restoring, document, docs := 1, false, state, [state];
    }

    // The editor loads another document.
    method Load(state: Document)
      modifies this
      ensures View() == Reset(old(View()).(document := state), state)
      ensures old(Valid()) ==> Valid()
    {
      document := state;
      commands, index, docs := [], 0, [state];
      current, currentView, transactionDepth := state, NO_VIEW, 0;
      mergeGeneration := mergeGeneration + 1;
    }

    // QUndoStack::push
    method PushCommand(command: Command, after: Document)
      requires index <= |commands| && index < |docs|
      modifies this`commands, this`index, this`docs
      ensures View() == Push(old(View()), command, after)
    {
      commands, docs := commands[..index], docs[..index + 1];
      if index > 0 && Merges(commands[index - 1], command) {
        var top := Merged(commands[index - 1], command);
        if top.from == top.to {
          commands, docs := commands[..index - 1], docs[..index];
          index := index - 1;
        } else {
          commands, docs := commands[..index - 1] + [top], docs[..index] + [after];
        }
        return;
      }
      commands, docs := commands + [command], docs + [after];
      if |commands| > UNDO_LIMIT {
        commands, docs := commands[1..], docs[1..];
        return;
      }
      index := index + 1;
    }

    method BeginTransaction(kind: string, beforeView: ViewState)
      requires Valid()
      modifies this
      ensures View() == Apply(old(View()), Begin(kind, beforeView)) && Valid()
    {
      StepConsistent(View(), Begin(kind, beforeView));
      if restoring {
        return;
      }
      transactionDepth := transactionDepth + 1;
      if transactionDepth > 1 {
        return;
      }
      transactionBefore, transactionBeforeView, transactionKind := document, beforeView, kind;
      currentView := beforeView;
    }

    method EndTransaction(afterView: ViewState)
      requires Valid()
      modifies this
      ensures View() == Apply(old(View()), End(afterView)) && Valid()
    {
      hide Connects, Push;
      StepConsistent(View(), End(afterView));
      if restoring || transactionDepth <= 0 {
        return;
      }
      transactionDepth := transactionDepth - 1;
      if transactionDepth > 0 {
        return;
      }
      var hasChanges := transactionBefore != document;
      if hasChanges {
        var command := Snapshot(transactionKind, transactionBefore, transactionBeforeView, document, afterView);
        PushFrame(View(), command, document);
        PushCommand(command, document);
        current := document;
      }
      currentView := afterView;
      if hasChanges {
        mergeGeneration := mergeGeneration + 1;
      }
    }

    // The editor's document has become `after`, and the history observes it.
    method ObserveChange(after: Document, afterView: ViewState)
      requires Valid()
      modifies this
      ensures View() == Apply(old(View()), Edit(after, afterView)) && Valid()
    {
      hide Connects, Push;
      StepConsistent(View(), Edit(after, afterView));
      document := after;
      if restoring || transactionDepth > 0 {
        return;
      }
      if current != after {
        var command := Snapshot("edit", current, currentView, after, afterView);
        PushFrame(View(), command, after);
        PushCommand(command, after);
        mergeGeneration := mergeGeneration + 1;
      }
      current, currentView := after, afterView;
    }

    // One field of the editor's document has been given the text `after`.
    method ObserveScalar(address: ScalarAddress, after: string, afterView: ViewState, now: int)
      requires Valid() && Allowed(View(), EditScalar(address, after, afterView, now))
      modifies this
      ensures View() == Apply(old(View()), EditScalar(address, after, afterView, now)) && Valid()
    {
      hide Connects, Push, SetScalar, Scalar, TypingKind;
      StepConsistent(View(), EditScalar(address, after, afterView, now));
      var before := Scalar(document, address).value;
      document := SetScalar(document, address, after);
      if restoring || transactionDepth > 0 || before == after {
        return;
      }
      var kind := TypingKind(before, after, currentView);
      var command := ScalarChange(if kind == "" then "edit" else kind, address, before, currentView, after, afterView,
                                  kind != "", mergeGeneration, now);
      PushFrame(View(), command, SetScalar(current, address, after));
      PushCommand(command, SetScalar(current, address, after));
      current := SetScalar(current, address, after);
      currentView := afterView;
    }

    method UpdateViewState(view: ViewState, breakMerge: bool)
      requires Valid()
      modifies this
      ensures View() == Apply(old(View()), UpdateView(view, breakMerge)) && Valid()
    {
      if restoring || transactionDepth > 0 {
        return;
      }
      currentView := view;
      if breakMerge {
        mergeGeneration := mergeGeneration + 1;
      }
    }

    method BreakMerge()
      requires Valid()
      modifies this
      ensures View() == Apply(old(View()), StopMerging) && Valid()
    {
      if !restoring {
        mergeGeneration := mergeGeneration + 1;
      }
    }

    // apply() and applyScalar(), with the restore handler's effect on the editor.
    method RestoreTo(command: Command, forward: bool)
      requires !restoring
      modifies this`document, this`current, this`currentView, this`restoring, this`mergeGeneration
      ensures View() == Restore(old(View()), command, forward)
    {
      restoring := true;
      currentView := if forward then command.afterView else command.beforeView;
      if command.Snapshot? {
        document := if forward then command.after else command.before;
        current := document;
      } else {
        var value := if forward then command.to else command.from;
        document := SetScalar(document, command.address, value);
        current := SetScalar(current, command.address, value);
      }
      restoring := false;
      mergeGeneration := mergeGeneration + 1;
    }

    method Undo()
      requires Valid() && transactionDepth == 0
      modifies this
      ensures View() == H.Undo(old(View())) && Valid()
    {
      hide Connects, Restore;
      StepConsistent(View(), StepUndo);
      if index > 0 {
        RestoreTo(commands[index - 1], false);
        index := index - 1;
      }
    }

    method Redo()
      requires Valid() && transactionDepth == 0
      modifies this
      ensures View() == H.Redo(old(View())) && Valid()
    {
      hide Connects, Restore;
      StepConsistent(View(), StepRedo);
      if index < |commands| {
        RestoreTo(commands[index], true);
        index := index + 1;
      }
    }
  }
}
