// What each step of a folder assignment leads to, and what must have happened before a native
// change is started.
module AssignmentOutcomes {
  import opened Basics
  import opened AssignmentState

  // ---- One step ----

  // The result that lets an operation go on, or ends it with success.
  predicate GoesWell(op: Operation, e: Event) {
    match e
    case CreateLoad(_, created) => created
    case LoadFires(_, loaded) =>
      && !loaded.job.storageLost && loaded.job.succeeded && loaded.sameNote
      && (op.request.overlayAlreadyStored || loaded.overlayError == None)
    case StartNative(_, p) => !p.lost && p.createsJob && (NeedsTree(op, p) ==> p.snapshotError == None)
    case TreeFires(_, outcome, createsJob) =>
      !outcome.storageLost && outcome.succeeded && (op.request.follows ==> createsJob)
    case ChangeFires(_, outcome) => outcome.succeeded
    case _ => true
  }

  predicate NeedsTree(op: Operation, p: Provider) {
    p.hasCatalog || !op.request.follows
  }

  // Where an operation goes then.
  function NextPhase(op: Operation, e: Event): Phase {
    match e
    case CreateLoad(_, _) => Loading
    case LoadFires(_, _) => Native
    case StartNative(_, p) => if NeedsTree(op, p) then AwaitingTree else Changing
    case TreeFires(_, _, _) => if op.request.follows then Changing else Emitting
    case ChangeFires(_, _) => Emitting
    case _ => Done
  }

  // What the user is told when it does not go well.
  function Complaint(op: Operation, e: Event): string {
    var reported := match e
      case CreateLoad(_, _) => "The note storage did not create a note load operation"
      case LoadFires(_, loaded) =>
        if loaded.job.storageLost then "The note storage is no longer available"
        else if loaded.job.succeeded && loaded.sameNote && loaded.overlayError.Some? then loaded.overlayError.value
        else if !loaded.job.succeeded && !loaded.notFound && loaded.job.error != "" then loaded.job.error
        else "The note used for the folder change was not found"
      case StartNative(_, p) =>
        if p.lost then "The note storage is no longer available"
        else if !NeedsTree(op, p) then "The note storage did not create a folder operation"
        else if p.snapshotError.Some? then p.snapshotError.value
        else "The note storage did not create a folder catalog operation"
      case TreeFires(_, outcome, _) =>
        if outcome.storageLost then "The note storage is no longer available"
        else if !outcome.succeeded then outcome.error
        else "The note storage did not create a folder operation"
      case ChangeFires(_, outcome) => outcome.error
      case _ => "";
    if reported == "" && op.request.follows then "The folder move is pending" else reported
  }

  function Announced(k: nat, op: Operation, stored: bool): Announcement {
    Announcement(k, op.request.storageId, op.request.noteId, op.request.folderId, stored)
  }

  // If the result of a step is good, the operation goes to its next phase, and success is announced if
  // that was the last; otherwise failure is announced, with the reason. An earlier error stays until
  // the overlay is stored. A native change is started exactly when the operation gets to Changing.
  predicate LeadsOn(s: State, t: State, k: nat, op: Operation, e: Event) {
    && k in t.operations
    && t.operations[k].phase == (if GoesWell(op, e) then NextPhase(op, e) else Emitting)
    && (if !GoesWell(op, e) then t.announced == s.announced + [Announced(k, op, false)] && t.error == Complaint(op, e)
        else if NextPhase(op, e) == Emitting then t.announced == s.announced + [Announced(k, op, true)] && t.error == ""
        else && t.announced == s.announced
             && t.error == (if e.LoadFires? && !op.request.overlayAlreadyStored then "" else s.error))
    && t.changes == (if t.operations[k].phase == Changing then s.changes + [k] else s.changes)
  }

  // So does every step of an operation that is not a repeated report.
  lemma StepLeadsOn(s: State, e: Event, k: nat)
    requires Inv(s) && Enabled(s, e) && Subject(e) == Some(k) && k in s.operations && !Repeated(s, e)
    ensures LeadsOn(s, Apply(s, e), k, s.operations[k], e)
  {
    hide Inv, LeadsOn, JobsFit, CreateLoadStep, LoadStep, StartNativeStep, TreeStep, ChangeStep, EndStep;
    FitsAt(s, k);
    match e
    case CreateLoad(_, created) => CreateLoadLeadsOn(s, k, s.operations[k], created);
    case LoadFires(_, loaded) => LoadLeadsOn(s, k, s.operations[k], loaded);
    case StartNative(_, p) => NativeLeadsOn(s, k, s.operations[k], p);
    case TreeFires(_, outcome, createsJob) => TreeLeadsOn(s, k, s.operations[k], outcome, createsJob);
    case ChangeFires(_, outcome) => ChangeLeadsOn(s, k, s.operations[k], outcome);
    case EndOperation(_) => EndLeadsOn(s, k, s.operations[k]);
  }

  lemma CreateLoadLeadsOn(s: State, k: nat, op: Operation, created: bool)
    ensures LeadsOn(s, CreateLoadStep(s, k, op, created), k, op, CreateLoad(k, created))
  {
  }

  lemma LoadLeadsOn(s: State, k: nat, op: Operation, loaded: LoadOutcome)
    requires JobsFit(op) && op.load == Waiting
    ensures LeadsOn(s, LoadStep(s, k, op, loaded), k, op, LoadFires(k, loaded))
  {
  }

  lemma NativeLeadsOn(s: State, k: nat, op: Operation, p: Provider)
    ensures LeadsOn(s, StartNativeStep(s, k, op, p), k, op, StartNative(k, p))
  {
  }

  lemma TreeLeadsOn(s: State, k: nat, op: Operation, outcome: Outcome, createsJob: bool)
    requires op.tree == Waiting
    ensures LeadsOn(s, TreeStep(s, k, op, outcome, createsJob), k, op, TreeFires(k, outcome, createsJob))
  {
  }

  lemma ChangeLeadsOn(s: State, k: nat, op: Operation, outcome: Outcome)
    requires op.change == Waiting && op.request.follows
    ensures LeadsOn(s, ChangeStep(s, k, op, outcome), k, op, ChangeFires(k, outcome))
  {
  }

  lemma EndLeadsOn(s: State, k: nat, op: Operation)
    ensures LeadsOn(s, EndStep(s, k, op), k, op, EndOperation(k))
  {
  }

  // ---- Calls ----

  // A refused call only says why.
  lemma RefusedCallsSayWhy(s: State, r: Request, f: Found)
    requires !Accepts(r, f)
    ensures AssignStep(s, r, f)
            == s.(error := if r.storageId == "" || r.noteId == "" then "A storage and note are required to assign a folder"
                           else if !f.storage then "The note storage is no longer available"
                           else if !f.note then "The note used for the folder change was not found"
                           else f.overlayError.value)
  {
  }

  // An accepted call has its overlay stored if its note is known. It is complete at once where there
  // are no native folders, goes on to the native part where there are, and loads its note first if the
  // note is not known.
  lemma AcceptedCallsLeadOn(s: State, r: Request, f: Found)
    requires Accepts(r, f)
    ensures var t := AssignStep(s, r, f);
      var op := NewOperation(r, if !f.note then Resolving else if f.nativeFolders then Native else Done,
                             f.note || r.overlayAlreadyStored);
      var atOnce := f.note && !f.nativeFolders;
      && t.operations == s.operations[s.next := op] && t.next == s.next + 1 && t.changes == s.changes
      && t.announced == s.announced + (if atOnce then [Announced(s.next, op, true)] else [])
      && t.pending == s.pending + (if atOnce then 0 else 1)
      && t.error == (if f.note && !r.overlayAlreadyStored then "" else s.error)
  {
  }

  // The same for preparing the tree alone.
  lemma PrepareLeadsOn(s: State, storageId: string, catalogError: Option<string>, storage: bool, hasCatalog: bool)
    requires Inv(s)
    ensures var t := PrepareStep(s, storageId, catalogError, storage, hasCatalog);
      && t.changes == s.changes
      && (if catalogError.Some? || !storage then
            t == s.(error := if catalogError.Some? then catalogError.value else "The note storage is no longer available")
          else
            && t.next == s.next + 1 && s.next in t.operations
            && t.operations[s.next].request == Request(storageId, "", "", false, false)
            && t.operations[s.next].phase == (if hasCatalog then Native else Done)
            && t.announced == s.announced + (if hasCatalog then [] else [Announcement(s.next, storageId, "", "", true)])
            && t.pending == s.pending + (if hasCatalog then 1 else 0)
            && t.error == (if hasCatalog then s.error else ""))
  {
    hide Inv;
  }

  // ---- Before a native change ----

  predicate InNativePart(op: Operation) {
    op.request.follows && op.phase in {Native, AwaitingTree, Changing}
  }

  // The step that finds the note of operation k: the call itself, or the first report of its load. By
  // then the overlay is stored too.
  predicate FindsNote(s: State, e: Event, k: nat) {
    match e
    case Assign(r, f) => k == s.next && Accepts(r, f) && f.note && f.nativeFolders
    case LoadFires(j, _) =>
      j == k && k in s.operations && s.operations[k].load == Waiting && GoesWell(s.operations[k], e)
    case _ => false
  }

  // The step after which the native change is due: its storage has no catalog, or the first report of
  // its tree says that the tree is in place.
  predicate MakesChangeDue(s: State, e: Event, k: nat) {
    match e
    case StartNative(j, p) => j == k && InPhase(s, k, Native) && !p.lost && !p.hasCatalog
    case TreeFires(j, outcome, _) =>
      j == k && k in s.operations && s.operations[k].tree == Waiting && !outcome.storageLost && outcome.succeeded
    case _ => false
  }

  lemma EntersNativePart(s: State, e: Event, k: nat)
    requires Inv(s) && Enabled(s, e) && k in Apply(s, e).operations && InNativePart(Apply(s, e).operations[k])
    ensures (k in s.operations && InNativePart(s.operations[k])) || FindsNote(s, e, k)
  {
    hide Inv, Apply, AssignStep, PrepareStep, JobsFit;
    NextIsFree(s);
    if k in s.operations {
      StepsProgress(s, e, k);
      FitsAt(s, k);
      if Subject(e) == Some(k) && !Repeated(s, e) {
        StepLeadsOn(s, e, k);
        GetsToNativePart(s, e, k);
      }
    } else {
      NewIs(s, e, k);
      Unfold(s, e);
      match e
      case Assign(r, f) => if Accepts(r, f) { AcceptedCallsLeadOn(s, r, f); } else { RefusedCallsSayWhy(s, r, f); }
      case PrepareTree(storageId, catalogError, storage, hasCatalog) =>
        PrepareLeadsOn(s, storageId, catalogError, storage, hasCatalog);
      case _ =>
    }
  }

  // Only calls make operations, one each.
  lemma NewIs(s: State, e: Event, k: nat)
    requires Inv(s) && Enabled(s, e) && k in Apply(s, e).operations && k !in s.operations
    ensures k == s.next && (e.Assign? || e.PrepareTree?)
  {
    hide Inv;
  }

  lemma GetsToNativePart(s: State, e: Event, k: nat)
    requires Enabled(s, e) && Subject(e) == Some(k) && k in s.operations && !Repeated(s, e)
    requires JobsFit(s.operations[k]) && s.operations[k].request.follows
    requires GoesWell(s.operations[k], e) && NextPhase(s.operations[k], e) in {Native, AwaitingTree, Changing}
    ensures InNativePart(s.operations[k]) || FindsNote(s, e, k)
    ensures NextPhase(s.operations[k], e) == Changing ==> InNativePart(s.operations[k]) && MakesChangeDue(s, e, k)
  {
  }

  // What starts a native change: a step of its operation, at a time when it is due.
  lemma ChangeIsDue(s: State, e: Event, k: nat)
    requires Inv(s) && Enabled(s, e) && k in Apply(s, e).changes && k !in s.changes
    ensures k in s.operations && InNativePart(s.operations[k]) && MakesChangeDue(s, e, k)
  {
    hide Inv, Apply, AssignStep, PrepareStep, JobsFit, InNativePart, MakesChangeDue, GoesWell, NextPhase;
    var t := Apply(s, e);
    match e
    case Assign(r, f) =>
      if Accepts(r, f) {
        AcceptedCallsLeadOn(s, r, f);
      } else {
        RefusedCallsSayWhy(s, r, f);
      }
      Unfold(s, e);
    case PrepareTree(storageId, catalogError, storage, hasCatalog) =>
      PrepareLeadsOn(s, storageId, catalogError, storage, hasCatalog);
      Unfold(s, e);
    case _ =>
      var j := Subject(e).value;
      SubjectExists(s, e);
      StepsProgress(s, e, j);
      if !Repeated(s, e) {
        StepLeadsOn(s, e, j);
        StepKeeps(s, e);
        FitsAt(s, j);
        FitsAt(t, j);
        ChangingFollows(t.operations[j]);
        GetsToNativePart(s, e, j);
      }
  }

  lemma Unfold(s: State, e: Event)
    requires Enabled(s, e)
    ensures e.Assign? ==> Apply(s, e) == AssignStep(s, e.request, e.found)
    ensures e.PrepareTree? ==> Apply(s, e) == PrepareStep(s, e.storageId, e.catalogError, e.storage, e.hasCatalog)
  {
  }

  lemma SubjectExists(s: State, e: Event)
    requires Enabled(s, e)
    ensures Subject(e).Some? ==> Subject(e).value in s.operations
  {
  }

  lemma ChangingFollows(op: Operation)
    requires JobsFit(op)
    ensures op.phase == Changing ==> op.request.follows
  {
  }

  // Over every run: an operation gets to its native part only after its note was found, at the call or
  // by the first report of its load.
  lemma {:induction false} NoteIsFoundFirst(states: seq<State>, events: seq<Event>, i: nat, k: nat)
    requires IsRun(states, events) && i < |states| && k in states[i].operations && InNativePart(states[i].operations[k])
    ensures exists m :: 0 <= m < i && FindsNote(states[m], events[m], k)
  {
    hide Inv, Apply, Enabled, FindsNote, InNativePart;
    if i == 0 {
      NothingAtFirst(states, events, k);
    } else {
      var s, e := states[i - 1], events[i - 1];
      assert states[i - 1 + 1] == Apply(s, e);
      RunKeeps(states, events, i - 1);
      EntersNativePart(s, e, k);
      if !FindsNote(s, e, k) {
        NoteIsFoundFirst(states, events, i - 1, k);
      }
    }
  }

  lemma NothingAtFirst(states: seq<State>, events: seq<Event>, k: nat)
    requires IsRun(states, events)
    ensures k !in states[0].operations && k !in states[0].changes
  {
  }

  // And its native change is started only after that, when the storage turned out to have no catalog
  // or its tree was reported to be in place.
  lemma {:induction false} ChangeNeedsNoteAndTree(states: seq<State>, events: seq<Event>, i: nat, k: nat)
    requires IsRun(states, events) && i < |states| && k in states[i].changes
    ensures exists m, n :: 0 <= m < n < i && FindsNote(states[m], events[m], k) && MakesChangeDue(states[n], events[n], k)
  {
    hide Inv, Apply, Enabled, FindsNote, InNativePart, MakesChangeDue;
    if i == 0 {
      NothingAtFirst(states, events, k);
    } else {
      var s, e := states[i - 1], events[i - 1];
      assert states[i - 1 + 1] == Apply(s, e);
      if k in s.changes {
        ChangeNeedsNoteAndTree(states, events, i - 1, k);
      } else {
        RunKeeps(states, events, i - 1);
        ChangeIsDue(s, e, k);
        NoteIsFoundFirst(states, events, i - 1, k);
      }
    }
  }
}
