// Assigning a note to a folder: the state machine behind the asynchronous chain of loading the
// note, preparing the provider's folder tree and changing the note.
module AssignmentState {
  import opened Basics

  // `follows` is whether an assignment follows the preparation of the tree; a bare preparation
  // has no note.
  datatype Request = Request(storageId: string, noteId: string, folderId: string, overlayAlreadyStored: bool, follows: bool)

  // A job whose completion may be reported more than once; only the first report is handled.
  datatype Job = NotStarted | Waiting | Handled

  // Where an operation stands. While it is Emitting, its outcome has been announced and
  // everything the listeners do comes before it ends.
  datatype Phase = Resolving | Loading | Native | AwaitingTree | Changing | Emitting | Done

  datatype Operation = Operation(request: Request, phase: Phase, overlayStored: bool, load: Job, tree: Job, change: Job)

  // assignmentFinished, or nativeTreePrepared for a bare preparation.
  datatype Announcement = Announcement(operation: nat, storageId: string, noteId: string, folderId: string, stored: bool)

  // Operations are numbered; `changes` lists those whose native change was started.
  datatype State = State(operations: map<nat, Operation>, next: nat, pending: int, error: string,
                         announced: seq<Announcement>, changes: seq<nat>)

  const UNAVAILABLE := "The note storage is no longer available"
  const NOT_FOUND := "The note used for the folder change was not found"
  const PENDING_MOVE := "The folder move is pending"
  const NO_LOAD_JOB := "The note storage did not create a note load operation"
  const NO_CATALOG_JOB := "The note storage did not create a folder catalog operation"
  const NO_FOLDER_JOB := "The note storage did not create a folder operation"

  // What a call finds: the storage, the note in the index or the storage, whether the storage has
  // native folders, and the error storing the overlay would have.
  datatype Found = Found(storage: bool, note: bool, nativeFolders: bool, overlayError: Option<string>)

  // How a job ended, as its completion finds it.
  datatype Outcome = Outcome(storageLost: bool, succeeded: bool, error: string)

  // Of a failed load, whether its error says that there is no such note; of a loaded note, whether it
  // is the one asked for, and the error storing the overlay would have.
  datatype LoadOutcome = LoadOutcome(job: Outcome, notFound: bool, sameNote: bool, overlayError: Option<string>)

  // What starting the native part finds.
  datatype Provider = Provider(lost: bool, hasCatalog: bool, snapshotError: Option<string>, createsJob: bool)

  datatype Event =
    | Assign(request: Request, found: Found)
    | PrepareTree(storageId: string, catalogError: Option<string>, storage: bool, hasCatalog: bool)
    | CreateLoad(operation: nat, created: bool)
    | LoadFires(operation: nat, loaded: LoadOutcome)
    | StartNative(operation: nat, provider: Provider)
    | TreeFires(operation: nat, outcome: Outcome, createsJob: bool)
    | ChangeFires(operation: nat, outcome: Outcome)
    | EndOperation(operation: nat)

  // ---- Steps ----

  function SetError(s: State, error: string): State {
    s.(error := error)
  }

  function Update(s: State, k: nat, op: Operation): State {
    s.(operations := s.operations[k := op])
  }

  // A new operation that is in flight from now on.
  function Begin(s: State, op: Operation): State {
    s.(operations := s.operations[s.next := op], next := s.next + 1, pending := s.pending + 1)
  }

  // finishAssignment up to the announcement, or the same for a bare preparation. The error is
  // set first; its listeners are taken not to call back in between.
  function Announce(s: State, k: nat, op: Operation, stored: bool, error: string): State {
    Update(s, k, op.(phase := Emitting)).(
      error := if stored then "" else if error == "" && op.request.follows then PENDING_MOVE else error,
      announced := s.announced + [Announcement(k, op.request.storageId, op.request.noteId, op.request.folderId, stored)])
  }

  function NewOperation(r: Request, phase: Phase, overlayStored: bool): Operation {
    Operation(r, phase, overlayStored, NotStarted, NotStarted, NotStarted)
  }

  // assignNoteFolder
  function AssignStep(s: State, r: Request, f: Found): State {
    if r.storageId == "" || r.noteId == "" then SetError(s, "A storage and note are required to assign a folder")
    else if !f.storage then SetError(s, UNAVAILABLE)
    else if !f.note then
      if f.nativeFolders then Begin(s, NewOperation(r, Resolving, r.overlayAlreadyStored)) else SetError(s, NOT_FOUND)
    else if !r.overlayAlreadyStored && f.overlayError.Some? then SetError(s, f.overlayError.value)
    else
      var t := if r.overlayAlreadyStored then s else SetError(s, "");
      if f.nativeFolders then Begin(t, NewOperation(r, Native, true))
      else
        t.(operations := t.operations[t.next := NewOperation(r, Done, true)], next := t.next + 1,
           announced := t.announced + [Announcement(t.next, r.storageId, r.noteId, r.folderId, true)])
  }

  // Whether assignNoteFolder answers true.
  predicate Accepts(r: Request, f: Found) {
    r.storageId != "" && r.noteId != "" && f.storage
    && (if f.note then r.overlayAlreadyStored || f.overlayError.None? else f.nativeFolders)
  }

  // prepareNativeFolderTree
  function PrepareStep(s: State, storageId: string, catalogError: Option<string>, storage: bool, hasCatalog: bool): State {
    if catalogError.Some? then SetError(s, catalogError.value)
    else if !storage then SetError(s, UNAVAILABLE)
    else
      var r := Request(storageId, "", "", false, false);
      if !hasCatalog then
        s.(operations := s.operations[s.next := NewOperation(r, Done, false)], next := s.next + 1, error := "",
           announced := s.announced + [Announcement(s.next, storageId, "", "", true)])
      else Begin(s, NewOperation(r, Native, false))
  }

  function CreateLoadStep(s: State, k: nat, op: Operation, created: bool): State {
    if !created then Announce(s, k, op, false, NO_LOAD_JOB)
    else Update(s, k, op.(phase := Loading, load := Waiting))
  }

  function LoadStep(s: State, k: nat, op: Operation, loaded: LoadOutcome): State {
    if op.load == Handled then s
    else
      var handled := op.(load := Handled);
      if loaded.job.storageLost then Announce(s, k, handled, false, UNAVAILABLE)
      else if !loaded.job.succeeded then
        Announce(s, k, handled, false, if loaded.notFound || loaded.job.error == "" then NOT_FOUND else loaded.job.error)
      else if !loaded.sameNote then Announce(s, k, handled, false, NOT_FOUND)
      else if !op.request.overlayAlreadyStored && loaded.overlayError.Some? then
        Announce(s, k, handled, false, loaded.overlayError.value)
      else
        var t := if op.request.overlayAlreadyStored then s else SetError(s, "");
        Update(t, k, handled.(phase := Native, overlayStored := true))
  }

  function StartChange(s: State, k: nat, op: Operation, created: bool): State {
    if !created then Announce(s, k, op, false, NO_FOLDER_JOB)
    else Update(s, k, op.(phase := Changing, change := Waiting)).(changes := s.changes + [k])
  }

  // startNativeAssignment and startNativeTreePreparation
  function StartNativeStep(s: State, k: nat, op: Operation, p: Provider): State {
    if p.lost then Announce(s, k, op, false, UNAVAILABLE)
    else if p.hasCatalog || !op.request.follows then
      if p.snapshotError.Some? then Announce(s, k, op, false, p.snapshotError.value)
      else if !p.createsJob then Announce(s, k, op, false, NO_CATALOG_JOB)
      else Update(s, k, op.(phase := AwaitingTree, tree := Waiting))
    else StartChange(s, k, op, p.createsJob)
  }

  function TreeStep(s: State, k: nat, op: Operation, outcome: Outcome, createsJob: bool): State {
    if op.tree == Handled then s
    else
      var handled := op.(tree := Handled);
      if outcome.storageLost then Announce(s, k, handled, false, UNAVAILABLE)
      else if !outcome.succeeded then Announce(s, k, handled, false, outcome.error)
      else if !op.request.follows then Announce(s, k, handled, true, "")
      else StartChange(s, k, handled, createsJob)
  }

  function ChangeStep(s: State, k: nat, op: Operation, outcome: Outcome): State {
    if op.change == Handled then s
    else Announce(s, k, op.(change := Handled), outcome.succeeded, outcome.error)
  }

  // endOperation
  function EndStep(s: State, k: nat, op: Operation): State {
    Update(s, k, op.(phase := Done)).(pending := Max(0, s.pending - 1))
  }

  predicate InPhase(s: State, k: nat, phase: Phase) {
    k in s.operations && s.operations[k].phase == phase
  }

  predicate Enabled(s: State, e: Event) {
    match e
    case Assign(r, _) => r.follows
    case PrepareTree(_, _, _, _) => true
    case CreateLoad(k, _) => InPhase(s, k, Resolving)
    case LoadFires(k, _) => k in s.operations && s.operations[k].load != NotStarted
    case StartNative(k, _) => InPhase(s, k, Native)
    case TreeFires(k, _, _) => k in s.operations && s.operations[k].tree != NotStarted
    case ChangeFires(k, _) => k in s.operations && s.operations[k].change != NotStarted
    case EndOperation(k) => InPhase(s, k, Emitting)
  }

  function Apply(s: State, e: Event): State
    requires Enabled(s, e)
  {
    match e
    case Assign(r, f) => AssignStep(s, r, f)
    case PrepareTree(storageId, catalogError, storage, hasCatalog) =>
      PrepareStep(s, storageId, catalogError, storage, hasCatalog)
    case CreateLoad(k, created) => CreateLoadStep(s, k, s.operations[k], created)
    case LoadFires(k, loaded) => LoadStep(s, k, s.operations[k], loaded)
    case StartNative(k, p) => StartNativeStep(s, k, s.operations[k], p)
    case TreeFires(k, outcome, createsJob) => TreeStep(s, k, s.operations[k], outcome, createsJob)
    case ChangeFires(k, outcome) => ChangeStep(s, k, s.operations[k], outcome)
    case EndOperation(k) => EndStep(s, k, s.operations[k])
  }

  const INITIAL := State(map[], 0, 0, "", [], [])

  // ---- What always holds ----

  predicate InFlight(op: Operation) {
    op.phase != Done
  }

  function Running(s: State): set<nat> {
    set k | k in s.operations && InFlight(s.operations[k])
  }

  // How often an operation was announced.
  function Announcements(announced: seq<Announcement>, k: nat): nat {
    if announced == [] then 0
    else Announcements(announced[..|announced| - 1], k) + (if announced[|announced| - 1].operation == k then 1 else 0)
  }

  function Changes(changes: seq<nat>, k: nat): nat {
    if changes == [] then 0 else Changes(changes[..|changes| - 1], k) + (if changes[|changes| - 1] == k then 1 else 0)
  }

  // Jobs are waited for in their own phase only.
  predicate JobsFit(op: Operation) {
    && (op.load == Waiting <==> op.phase == Loading)
    && (op.tree == Waiting <==> op.phase == AwaitingTree)
    && (op.change == Waiting <==> op.phase == Changing)
    && (op.phase in {Resolving, Loading} ==> op.tree == NotStarted)
    && (op.phase in {Resolving, Loading, Native, AwaitingTree} ==> op.change == NotStarted)
    && (op.phase in {Native, AwaitingTree, Changing} && op.request.follows ==> op.overlayStored)
    && (op.phase in {Resolving, Loading, Changing} ==> op.request.follows)
    && (op.phase == Native ==> op.tree == NotStarted)
    && (op.change != NotStarted ==> op.overlayStored && op.request.follows)
  }

  // An operation is announced once, when it is over, and its native change is started at most
  // once, with the overlay stored.
  predicate OperationFits(s: State, k: nat) {
    k in s.operations ==>
      var op := s.operations[k];
      && k < s.next && JobsFit(op)
      && Announcements(s.announced, k) == (if op.phase in {Emitting, Done} then 1 else 0)
      && Changes(s.changes, k) == (if op.change == NotStarted then 0 else 1)
  }

  predicate Unused(s: State, k: nat) {
    k !in s.operations ==> Announcements(s.announced, k) == 0 && Changes(s.changes, k) == 0
  }

  ghost predicate Inv(s: State) {
    && s.pending == |Running(s)|
    && (forall k :: k in s.operations ==> k < s.next)
    && (forall k :: OperationFits(s, k))
    && (forall k :: Unused(s, k))
  }

  lemma AnnouncedMore(announced: seq<Announcement>, a: Announcement, k: nat)
    ensures Announcements(announced + [a], k) == Announcements(announced, k) + (if a.operation == k then 1 else 0)
  {
    assert (announced + [a])[..|announced|] == announced;
  }

  lemma ChangedMore(changes: seq<nat>, c: nat, k: nat)
    ensures Changes(changes + [c], k) == Changes(changes, k) + (if c == k then 1 else 0)
  {
    assert (changes + [c])[..|changes|] == changes;
  }

  // How the count moves when operation k becomes `op`.
  lemma RunningAfter(s: State, t: State, k: nat, op: Operation)
    requires t.operations == s.operations[k := op]
    ensures Running(t) == if InFlight(op) then Running(s) + {k} else Running(s) - {k}
    ensures |Running(t)| == |Running(s)|
                            + (if InFlight(op) && k !in Running(s) then 1 else 0)
                            - (if !InFlight(op) && k in Running(s) then 1 else 0)
  {
    if InFlight(op) {
      assert Running(t) == Running(s) + {k};
    } else {
      assert Running(t) == Running(s) - {k};
      if k in Running(s) {
        assert Running(s) == Running(s) - {k} + {k};
      }
    }
  }

  // A step that changes only operation k, with the logs that fit, keeps the invariant.
  lemma OneOperationKeeps(s: State, t: State, k: nat, op: Operation)
    requires Inv(s) && t.operations == s.operations[k := op] && s.next <= t.next && k < t.next
    requires t.pending == |Running(t)|
    requires OperationFits(t, k)
    requires forall j :: j != k ==> Announcements(t.announced, j) == Announcements(s.announced, j)
    requires forall j :: j != k ==> Changes(t.changes, j) == Changes(s.changes, j)
    ensures Inv(t)
  {
    hide Announcements, Changes, JobsFit, Running;
    forall j ensures OperationFits(t, j) {
      assert OperationFits(s, j);
    }
    forall j ensures Unused(t, j) {
      assert Unused(s, j);
    }
  }

  lemma AnnounceKeeps(s: State, k: nat, op: Operation, stored: bool, error: string)
    requires Inv(s) && k in s.operations && InFlight(s.operations[k]) && s.operations[k].phase != Emitting
    requires op.request == s.operations[k].request && (op.change == NotStarted <==> s.operations[k].change == NotStarted)
    requires op.load != Waiting && op.tree != Waiting && op.change != Waiting
    requires op.change != NotStarted ==> op.overlayStored && op.request.follows
    ensures Inv(Announce(s, k, op, stored, error))
  {
    hide Announcements, Changes, Running;
    var t := Announce(s, k, op, stored, error);
    var a := Announcement(k, op.request.storageId, op.request.noteId, op.request.folderId, stored);
    assert OperationFits(s, k);
    forall j ensures Announcements(t.announced, j) == Announcements(s.announced, j) + (if j == k then 1 else 0) {
      AnnouncedMore(s.announced, a, j);
    }
    RunningAfter(s, t, k, op.(phase := Emitting));
    InRunning(s, k);
    OneOperationKeeps(s, t, k, op.(phase := Emitting));
  }

  lemma InRunning(s: State, k: nat)
    ensures k in Running(s) <==> k in s.operations && InFlight(s.operations[k])
  {
  }

  // Moving an operation on without announcing it.
  lemma UpdateKeeps(s: State, k: nat, op: Operation, error: string)
    requires Inv(s) && k in s.operations && s.operations[k].phase !in {Emitting, Done}
    requires op.phase !in {Emitting, Done} && JobsFit(op)
    requires op.change == NotStarted <==> s.operations[k].change == NotStarted
    ensures Inv(Update(SetError(s, error), k, op))
  {
    hide Announcements, Changes, Running, JobsFit;
    var t := Update(SetError(s, error), k, op);
    assert OperationFits(s, k);
    RunningAfter(s, t, k, op);
    InRunning(s, k);
    OneOperationKeeps(s, t, k, op);
  }

  lemma StartChangeKeeps(s: State, k: nat, op: Operation, created: bool)
    requires Inv(s) && k in s.operations && s.operations[k].phase in {Native, AwaitingTree}
    requires op.request == s.operations[k].request && op.request.follows && op.overlayStored
    requires op.load != Waiting && op.tree != Waiting && op.change == NotStarted
    ensures Inv(StartChange(s, k, op, created))
  {
    hide Announcements, Changes, Running;
    assert OperationFits(s, k);
    if !created {
      AnnounceKeeps(s, k, op, false, NO_FOLDER_JOB);
    } else {
      var t := StartChange(s, k, op, created);
      forall j ensures Changes(t.changes, j) == Changes(s.changes, j) + (if j == k then 1 else 0) {
        ChangedMore(s.changes, k, j);
      }
      RunningAfter(s, t, k, op.(phase := Changing, change := Waiting));
      InRunning(s, k);
      OneOperationKeeps(s, t, k, op.(phase := Changing, change := Waiting));
    }
  }

  lemma BeginKeeps(s: State, op: Operation)
    requires Inv(s) && op.phase in {Resolving, Native} && JobsFit(op) && op.change == NotStarted
    ensures Inv(Begin(s, op))
  {
    hide Announcements, Changes, Running, JobsFit;
    var t := Begin(s, op);
    assert Unused(s, s.next);
    RunningAfter(s, t, s.next, op);
    InRunning(s, s.next);
    OneOperationKeeps(s, t, s.next, op);
  }

  // A call that is complete at once: it is announced without ever being in flight.
  lemma ImmediateKeeps(s: State, t: State, op: Operation, a: Announcement)
    requires Inv(s) && op.phase == Done && JobsFit(op) && op.change == NotStarted && a.operation == s.next
    requires t.operations == s.operations[s.next := op] && t.next == s.next + 1 && t.pending == s.pending
    requires t.announced == s.announced + [a] && t.changes == s.changes
    ensures Inv(t)
  {
    hide Announcements, Changes, Running, JobsFit;
    assert Unused(s, s.next);
    forall j ensures Announcements(t.announced, j) == Announcements(s.announced, j) + (if j == s.next then 1 else 0) {
      AnnouncedMore(s.announced, a, j);
    }
    RunningAfter(s, t, s.next, op);
    InRunning(s, s.next);
    OneOperationKeeps(s, t, s.next, op);
  }

  lemma ErrorKeeps(s: State, error: string)
    requires Inv(s)
    ensures Inv(SetError(s, error))
  {
    hide Announcements, Changes, JobsFit;
    var t := SetError(s, error);
    assert Running(t) == Running(s);
    forall j ensures OperationFits(t, j) && Unused(t, j) {
      assert OperationFits(s, j) && Unused(s, j);
    }
  }

  // The operation that ends is one of those counted, so the clamp at zero never acts.
  lemma EndKeeps(s: State, k: nat)
    requires Inv(s) && InPhase(s, k, Emitting)
    ensures s.pending >= 1 && Inv(EndStep(s, k, s.operations[k])) && EndStep(s, k, s.operations[k]).pending == s.pending - 1
  {
    hide Announcements, Changes, Running;
    var t := EndStep(s, k, s.operations[k]);
    assert OperationFits(s, k);
    InRunning(s, k);
    RunningAfter(s, t, k, s.operations[k].(phase := Done));
    assert |Running(s)| >= 1 by { assert Running(s) != {}; }
    OneOperationKeeps(s, t, k, s.operations[k].(phase := Done));
  }

  lemma AssignKeeps(s: State, r: Request, f: Found)
    requires Inv(s) && r.follows
    ensures Inv(AssignStep(s, r, f))
    ensures s.next in AssignStep(s, r, f).operations <==> Accepts(r, f)
  {
    hide Inv;
    NextIsFree(s);
    forall error ensures Inv(SetError(s, error)) {
      ErrorKeeps(s, error);
    }
    var t := if r.overlayAlreadyStored then s else SetError(s, "");
    BeginKeeps(s, NewOperation(r, Resolving, r.overlayAlreadyStored));
    BeginKeeps(t, NewOperation(r, Native, true));
    if Accepts(r, f) && f.note && !f.nativeFolders {
      ImmediateKeeps(t, AssignStep(s, r, f), NewOperation(r, Done, true),
                     Announcement(t.next, r.storageId, r.noteId, r.folderId, true));
    }
  }

  lemma NextIsFree(s: State)
    requires Inv(s)
    ensures s.next !in s.operations
  {
  }

  lemma PrepareKeeps(s: State, storageId: string, catalogError: Option<string>, storage: bool, hasCatalog: bool)
    requires Inv(s)
    ensures Inv(PrepareStep(s, storageId, catalogError, storage, hasCatalog))
  {
    hide Inv;
    forall error ensures Inv(SetError(s, error)) {
      ErrorKeeps(s, error);
    }
    var r := Request(storageId, "", "", false, false);
    BeginKeeps(s, NewOperation(r, Native, false));
    if catalogError.None? && storage && !hasCatalog {
      ImmediateKeeps(SetError(s, ""), PrepareStep(s, storageId, catalogError, storage, hasCatalog), NewOperation(r, Done, false),
                     Announcement(s.next, storageId, "", "", true));
    }
  }

  lemma LoadKeeps(s: State, k: nat, loaded: LoadOutcome)
    requires Inv(s) && k in s.operations && s.operations[k].load != NotStarted
    ensures Inv(LoadStep(s, k, s.operations[k], loaded))
  {
    hide Inv, Announce, Update, SetError;
    var op := s.operations[k];
    FitsAt(s, k);
    if op.load == Waiting {
      var handled := op.(load := Handled);
      forall error ensures Inv(Announce(s, k, handled, false, error)) {
        AnnounceKeeps(s, k, handled, false, error);
      }
      UpdateKeeps(s, k, handled.(phase := Native, overlayStored := true), s.error);
      UpdateKeeps(s, k, handled.(phase := Native, overlayStored := true), "");
      SameError(s);
    }
  }

  lemma SameError(s: State)
    ensures SetError(s, s.error) == s
  {
  }

  lemma FitsAt(s: State, k: nat)
    requires Inv(s) && k in s.operations
    ensures JobsFit(s.operations[k])
  {
    assert OperationFits(s, k);
  }

  lemma NativeKeeps(s: State, k: nat, p: Provider)
    requires Inv(s) && InPhase(s, k, Native)
    ensures Inv(StartNativeStep(s, k, s.operations[k], p))
  {
    hide Inv, Announce, Update, SetError, StartChange;
    var op := s.operations[k];
    FitsAt(s, k);
    AnnounceKeeps(s, k, op, false, UNAVAILABLE);
    AnnounceKeeps(s, k, op, false, NO_CATALOG_JOB);
    if p.snapshotError.Some? {
      AnnounceKeeps(s, k, op, false, p.snapshotError.value);
    }
    UpdateKeeps(s, k, op.(phase := AwaitingTree, tree := Waiting), s.error);
    SameError(s);
    if op.request.follows {
      StartChangeKeeps(s, k, op, p.createsJob);
    }
  }

  lemma TreeKeeps(s: State, k: nat, outcome: Outcome, createsJob: bool)
    requires Inv(s) && k in s.operations && s.operations[k].tree != NotStarted
    ensures Inv(TreeStep(s, k, s.operations[k], outcome, createsJob))
  {
    hide Inv, Announce, StartChange;
    var op := s.operations[k];
    FitsAt(s, k);
    if op.tree == Waiting {
      var handled := op.(tree := Handled);
      forall stored, error ensures Inv(Announce(s, k, handled, stored, error)) {
        AnnounceKeeps(s, k, handled, stored, error);
      }
      if op.request.follows {
        StartChangeKeeps(s, k, handled, createsJob);
      }
    }
  }

  // Every step keeps the invariant.
  lemma StepKeeps(s: State, e: Event)
    requires Inv(s) && Enabled(s, e)
    ensures Inv(Apply(s, e))
  {
    hide Inv, Announce, Update, AssignStep, PrepareStep, LoadStep, StartNativeStep, TreeStep, EndStep;
    match e {
      case Assign(r, f) => AssignKeeps(s, r, f);
      case PrepareTree(storageId, catalogError, storage, hasCatalog) =>
        PrepareKeeps(s, storageId, catalogError, storage, hasCatalog);
      case CreateLoad(k, created) =>
        FitsAt(s, k);
        AnnounceKeeps(s, k, s.operations[k], false, NO_LOAD_JOB);
        UpdateKeeps(s, k, s.operations[k].(phase := Loading, load := Waiting), s.error);
        SameError(s);
      case LoadFires(k, loaded) => LoadKeeps(s, k, loaded);
      case StartNative(k, p) => NativeKeeps(s, k, p);
      case TreeFires(k, outcome, createsJob) => TreeKeeps(s, k, outcome, createsJob);
      case ChangeFires(k, outcome) =>
        FitsAt(s, k);
        if s.operations[k].change == Waiting {
          AnnounceKeeps(s, k, s.operations[k].(change := Handled), outcome.succeeded, outcome.error);
        }
      case EndOperation(k) => EndKeeps(s, k);
    }
  }

  // ---- Runs ----

  ghost predicate IsRun(states: seq<State>, events: seq<Event>) {
    && |states| == |events| + 1 && states[0] == INITIAL
    && forall i :: 0 <= i < |events| ==> Enabled(states[i], events[i]) && states[i + 1] == Apply(states[i], events[i])
  }

  lemma InitialFits()
    ensures Inv(INITIAL)
  {
    assert Running(INITIAL) == {};
  }

  lemma {:induction false} RunKeeps(states: seq<State>, events: seq<Event>, i: nat)
    requires IsRun(states, events) && i < |states|
    ensures Inv(states[i])
  {
    hide Inv, Apply, Enabled;
    if i == 0 {
      InitialFits();
    } else {
      RunKeeps(states, events, i - 1);
      assert states[i - 1 + 1] == Apply(states[i - 1], events[i - 1]);
      StepKeeps(states[i - 1], events[i - 1]);
    }
  }

  // Over every run, however often completions are reported and whatever listeners do: an
  // operation is announced exactly once when it is over and not before, pending is the number of
  // operations in flight, and a native change is started at most once and only with the overlay
  // stored.
  lemma ProtocolHolds(states: seq<State>, events: seq<Event>, i: nat, k: nat)
    requires IsRun(states, events) && i < |states| && k in states[i].operations
    ensures var s := states[i];
      var op := s.operations[k];
      && Announcements(s.announced, k) == (if op.phase in {Emitting, Done} then 1 else 0)
      && s.pending == |Running(s)|
      && Changes(s.changes, k) <= 1
      && (Changes(s.changes, k) == 1 ==> op.overlayStored && op.request.follows)
  {
    hide Announcements, Changes, Running;
    RunKeeps(states, events, i);
    assert OperationFits(states[i], k);
  }

  // ---- What is announced ----

  // The step that justifies announcing success: the change job succeeded at its first report, or
  // the storage has no native folders; for a bare preparation, the tree job succeeded or there is
  // no catalog to prepare.
  predicate Justifies(s: State, e: Event, k: nat) {
    match e
    case Assign(r, f) => k == s.next && Accepts(r, f) && f.note && !f.nativeFolders
    case PrepareTree(_, catalogError, storage, hasCatalog) => k == s.next && catalogError.None? && storage && !hasCatalog
    case TreeFires(j, outcome, _) =>
      k == j && j in s.operations && s.operations[j].tree == Waiting && !s.operations[j].request.follows
      && !outcome.storageLost && outcome.succeeded
    case ChangeFires(j, outcome) =>
      k == j && j in s.operations && s.operations[j].change == Waiting && outcome.succeeded
    case _ => false
  }

  // Of an announcement, made by the step: whose it is, and that success is announced exactly if
  // the step justifies it.
  lemma AnnouncedTruthfully(s: State, e: Event)
    requires Inv(s) && Enabled(s, e)
    ensures var t := Apply(s, e);
      || t.announced == s.announced
      || (|t.announced| == |s.announced| + 1 && t.announced[..|s.announced|] == s.announced
          && var a := t.announced[|s.announced|];
             && a.operation in t.operations
             && a.storageId == t.operations[a.operation].request.storageId
             && a.noteId == t.operations[a.operation].request.noteId
             && a.folderId == t.operations[a.operation].request.folderId
             && (a.stored <==> Justifies(s, e, a.operation)))
  {
    hide Inv, Announcements, Changes, AssignStep, PrepareStep, LoadStep, StartNativeStep, TreeStep, ChangeStep;
    match e {
      case Assign(r, f) => AssignAnnounces(s, r, f);
      case PrepareTree(storageId, catalogError, storage, hasCatalog) =>
        PrepareAnnounces(s, storageId, catalogError, storage, hasCatalog);
      case LoadFires(j, loaded) => LoadAnnounces(s, j, loaded);
      case StartNative(j, p) => NativeAnnounces(s, j, p);
      case TreeFires(j, outcome, createsJob) => TreeAnnounces(s, j, outcome, createsJob);
      case ChangeFires(j, outcome) => ChangeAnnounces(s, j, outcome);
      case _ =>
    }
  }

  // t announces operation k with this result, or nothing.
  predicate Announces(s: State, t: State, k: nat, stored: bool) {
    t.announced == s.announced
    || (k in t.operations
        && t.announced == s.announced + [Announcement(k, t.operations[k].request.storageId, t.operations[k].request.noteId,
                                                      t.operations[k].request.folderId, stored)])
  }

  lemma AssignAnnounces(s: State, r: Request, f: Found)
    ensures Announces(s, AssignStep(s, r, f), s.next, true)
    ensures AssignStep(s, r, f).announced != s.announced ==> Accepts(r, f) && f.note && !f.nativeFolders
  {
  }

  lemma PrepareAnnounces(s: State, storageId: string, catalogError: Option<string>, storage: bool, hasCatalog: bool)
    ensures Announces(s, PrepareStep(s, storageId, catalogError, storage, hasCatalog), s.next, true)
    ensures PrepareStep(s, storageId, catalogError, storage, hasCatalog).announced != s.announced ==>
      catalogError.None? && storage && !hasCatalog
  {
  }

  lemma LoadAnnounces(s: State, j: nat, loaded: LoadOutcome)
    requires j in s.operations
    ensures Announces(s, LoadStep(s, j, s.operations[j], loaded), j, false)
  {
  }

  lemma NativeAnnounces(s: State, j: nat, p: Provider)
    requires j in s.operations
    ensures Announces(s, StartNativeStep(s, j, s.operations[j], p), j, false)
  {
  }

  lemma TreeAnnounces(s: State, j: nat, outcome: Outcome, createsJob: bool)
    requires j in s.operations && s.operations[j].tree != NotStarted
    ensures var t := TreeStep(s, j, s.operations[j], outcome, createsJob);
      Announces(s, t, j, Justifies(s, TreeFires(j, outcome, createsJob), j))
  {
  }

  lemma ChangeAnnounces(s: State, j: nat, outcome: Outcome)
    requires j in s.operations && s.operations[j].change != NotStarted
    ensures Announces(s, ChangeStep(s, j, s.operations[j], outcome), j, Justifies(s, ChangeFires(j, outcome), j))
  {
  }

  ghost predicate Justified(states: seq<State>, events: seq<Event>, i: nat, k: nat)
    requires |states| == |events| + 1 && i <= |events|
  {
    exists m :: 0 <= m < i && Justifies(states[m], events[m], k)
  }

  // Over every run: success was announced only for operations whose step justified it.
  lemma {:induction false} SuccessIsJustified(states: seq<State>, events: seq<Event>, i: nat, n: nat)
    requires IsRun(states, events) && i < |states| && n < |states[i].announced|
    requires states[i].announced[n].stored
    ensures Justified(states, events, i, states[i].announced[n].operation)
    decreases i
  {
    hide Inv, Apply, Enabled, Justifies;
    if i > 0 {
      var s, e := states[i - 1], events[i - 1];
      assert states[i - 1 + 1] == Apply(s, e);
      RunKeeps(states, events, i - 1);
      AnnouncedTruthfully(s, e);
      if n < |s.announced| {
        assert states[i].announced[n] == s.announced[n];
        SuccessIsJustified(states, events, i - 1, n);
      }
    }
  }

  // ---- Progress ----

  // How many more steps an operation can take.
  function Rank(op: Operation): nat {
    match op.phase
    case Resolving => 6
    case Loading => 5
    case Native => 4
    case AwaitingTree => 3
    case Changing => 2
    case Emitting => 1
    case Done => 0
  }

  function Subject(e: Event): Option<nat> {
    match e
    case Assign(_, _) => None
    case PrepareTree(_, _, _, _) => None
    case CreateLoad(k, _) => Some(k)
    case LoadFires(k, _) => Some(k)
    case StartNative(k, _) => Some(k)
    case TreeFires(k, _, _) => Some(k)
    case ChangeFires(k, _) => Some(k)
    case EndOperation(k) => Some(k)
  }

  // A completion that was handled before.
  predicate Repeated(s: State, e: Event) {
    match e
    case LoadFires(k, _) => k in s.operations && s.operations[k].load == Handled
    case TreeFires(k, _, _) => k in s.operations && s.operations[k].tree == Handled
    case ChangeFires(k, _) => k in s.operations && s.operations[k].change == Handled
    case _ => false
  }

  // A repeated completion changes nothing; any other step of an operation brings it closer to
  // its end; steps of others leave it where it is. So an operation ends after at most six steps
  // of its own, if its jobs finish.
  lemma StepsProgress(s: State, e: Event, k: nat)
    requires Inv(s) && Enabled(s, e) && k in s.operations
    ensures Repeated(s, e) ==> Apply(s, e) == s
    ensures k in Apply(s, e).operations && Apply(s, e).operations[k].request == s.operations[k].request
    ensures Subject(e) != Some(k) ==> Apply(s, e).operations[k] == s.operations[k]
    ensures Subject(e) == Some(k) && !Repeated(s, e) ==> Rank(Apply(s, e).operations[k]) < Rank(s.operations[k])
  {
    hide Inv, Announcements, Changes, AssignStep, PrepareStep, LoadStep, StartNativeStep, TreeStep, ChangeStep;
    FitsAt(s, k);
    match e {
      case Assign(r, f) => NewCallsLeaveOthers(s, r, f, k);
      case PrepareTree(storageId, catalogError, storage, hasCatalog) =>
        PreparationsLeaveOthers(s, storageId, catalogError, storage, hasCatalog, k);
      case LoadFires(j, loaded) => LoadMovesOn(s, j, loaded, k);
      case StartNative(j, p) => NativeMovesOn(s, j, p, k);
      case TreeFires(j, outcome, createsJob) => TreeMovesOn(s, j, outcome, createsJob, k);
      case ChangeFires(j, outcome) => ChangeMovesOn(s, j, outcome, k);
      case _ =>
    }
  }

  lemma NewCallsLeaveOthers(s: State, r: Request, f: Found, k: nat)
    requires Inv(s) && k in s.operations
    ensures k in AssignStep(s, r, f).operations && AssignStep(s, r, f).operations[k] == s.operations[k]
  {
    hide Inv, Begin;
    NextIsFree(s);
    BeginLeavesOthers(s, NewOperation(r, Resolving, r.overlayAlreadyStored), k);
    BeginLeavesOthers(if r.overlayAlreadyStored then s else SetError(s, ""), NewOperation(r, Native, true), k);
  }

  lemma BeginLeavesOthers(s: State, op: Operation, k: nat)
    requires k in s.operations && k != s.next
    ensures k in Begin(s, op).operations && Begin(s, op).operations[k] == s.operations[k]
  {
  }

  lemma PreparationsLeaveOthers(s: State, storageId: string, catalogError: Option<string>, storage: bool,
                                hasCatalog: bool, k: nat)
    requires Inv(s) && k in s.operations
    ensures var t := PrepareStep(s, storageId, catalogError, storage, hasCatalog);
      k in t.operations && t.operations[k] == s.operations[k]
  {
    hide Inv;
    NextIsFree(s);
  }

  // Of the operations, t differs from s at most in j, and that one is closer to its end.
  predicate MovesOn(s: State, t: State, j: nat, k: nat)
    requires j in s.operations && k in s.operations
  {
    k in t.operations && t.operations[k].request == s.operations[k].request
    && (if j == k then Rank(t.operations[k]) < Rank(s.operations[k]) else t.operations[k] == s.operations[k])
  }

  lemma LoadMovesOn(s: State, j: nat, loaded: LoadOutcome, k: nat)
    requires Inv(s) && j in s.operations && k in s.operations && s.operations[j].load != NotStarted
    ensures var t := LoadStep(s, j, s.operations[j], loaded);
      if s.operations[j].load == Handled then t == s else MovesOn(s, t, j, k)
  {
    hide Inv;
    FitsAt(s, j);
  }

  lemma NativeMovesOn(s: State, j: nat, p: Provider, k: nat)
    requires InPhase(s, j, Native) && k in s.operations
    ensures MovesOn(s, StartNativeStep(s, j, s.operations[j], p), j, k)
  {
  }

  lemma TreeMovesOn(s: State, j: nat, outcome: Outcome, createsJob: bool, k: nat)
    requires Inv(s) && j in s.operations && k in s.operations && s.operations[j].tree != NotStarted
    ensures var t := TreeStep(s, j, s.operations[j], outcome, createsJob);
      if s.operations[j].tree == Handled then t == s else MovesOn(s, t, j, k)
  {
    hide Inv;
    FitsAt(s, j);
  }

  lemma ChangeMovesOn(s: State, j: nat, outcome: Outcome, k: nat)
    requires Inv(s) && j in s.operations && k in s.operations && s.operations[j].change != NotStarted
    ensures var t := ChangeStep(s, j, s.operations[j], outcome);
      if s.operations[j].change == Handled then t == s else MovesOn(s, t, j, k)
  {
    hide Inv;
    FitsAt(s, j);
  }

  // An operation that is not over has a step to take: it waits for a job or for its turn.
  lemma SomethingIsNext(s: State, k: nat)
    requires Inv(s) && k in s.operations && s.operations[k].phase != Done
    ensures var op := s.operations[k];
      || (op.phase == Resolving && forall created :: Enabled(s, CreateLoad(k, created)))
      || (op.load == Waiting && forall loaded :: Enabled(s, LoadFires(k, loaded)))
      || (op.phase == Native && forall p :: Enabled(s, StartNative(k, p)))
      || (op.tree == Waiting && forall outcome, created :: Enabled(s, TreeFires(k, outcome, created)))
      || (op.change == Waiting && forall outcome :: Enabled(s, ChangeFires(k, outcome)))
      || Enabled(s, EndOperation(k))
  {
    hide Inv, Announcements, Changes;
    FitsAt(s, k);
  }

  // Only accepted calls become operations, and nothing is announced for the others.
  lemma RefusedCallsAreSilent(s: State, r: Request, f: Found)
    requires Inv(s) && r.follows
    ensures s.next in AssignStep(s, r, f).operations <==> Accepts(r, f)
    ensures !Accepts(r, f) ==> AssignStep(s, r, f) == SetError(s, AssignStep(s, r, f).error)
  {
    hide Inv;
    AssignKeeps(s, r, f);
  }
}
