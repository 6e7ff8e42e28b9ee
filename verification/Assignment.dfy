// FolderOperationsController: its methods and completion handlers, each cut where the end of an
// operation is announced and listeners may call back, with the state machine as its specification.
// Listeners of errorStringChanged are taken to read the error only.
module Assignment {
  import opened Basics
  import opened AssignmentState

  class FolderOperationsController {
    var pendingOperations: int
    var errorString: string
    // What the completion handlers hold on to.
    var operations: map<nat, Operation>
    var next: nat
    ghost var announced: seq<Announcement>
    ghost var changes: seq<nat>

    ghost function View(): State
      reads this
    {
      State(operations, next, pendingOperations, errorString, announced, changes)
    }

    constructor ()
      ensures View() == INITIAL && Inv(View())
    {
      pendingOperations, errorString, operations, next := 0, "", map[], 0;
      announced, changes := [], [];
      new;
      InitialFits();
    }

    method BeginOperation(op: Operation)
      modifies this
      ensures View() == Begin(old(View()), op)
    {
      operations, next := operations[next := op], next + 1;
      pendingOperations := pendingOperations + 1;
    }

    // Ends an operation whose announcement all listeners have seen.
    method OnListenersReturn(k: nat)
      requires Inv(View()) && Enabled(View(), EndOperation(k))
      modifies this
      ensures Inv(View()) && View() == Apply(old(View()), EndOperation(k))
      ensures pendingOperations == old(pendingOperations) - 1
    {
      EndKeeps(View(), k);
      operations := operations[k := operations[k].(phase := Done)];
      pendingOperations := Max(0, pendingOperations - 1);
    }

    // finishAssignment, up to the signal.
    method FinishAssignment(k: nat, op: Operation, stored: bool, error: string)
      modifies this
      ensures View() == Announce(old(View()), k, op, stored, error)
    {
      if !stored {
        errorString := if error == "" && op.request.follows then PENDING_MOVE else error;
      } else {
        errorString := "";
      }
      operations := operations[k := op.(phase := Emitting)];
      announced := announced + [Announcement(k, op.request.storageId, op.request.noteId, op.request.folderId, stored)];
    }

    // What storing the overlay would answer is part of `found`.
    method AssignNoteFolder(r: Request, found: Found) returns (accepted: bool)
      requires Inv(View()) && r.follows
      modifies this
      ensures Inv(View()) && View() == Apply(old(View()), Assign(r, found))
      ensures accepted <==> Accepts(r, found)
      ensures accepted <==> old(next) in operations
    {
      hide Inv;
      AssignKeeps(View(), r, found);
      if r.storageId == "" || r.noteId == "" {
        errorString := "A storage and note are required to assign a folder";
        return false;
      }
      if !found.storage {
        errorString := UNAVAILABLE;
        return false;
      }
      if !found.note {
        if found.nativeFolders {
          BeginOperation(NewOperation(r, Resolving, r.overlayAlreadyStored));
          return true;
        }
        errorString := NOT_FOUND;
        return false;
      }
      accepted := AssignFound(r, found);
    }

    // The rest of it, once the note is found: stores the overlay, then goes on.
    method AssignFound(r: Request, found: Found) returns (accepted: bool)
      requires r.follows && r.storageId != "" && r.noteId != "" && found.storage && found.note
      modifies this
      ensures View() == AssignStep(old(View()), r, found)
      ensures accepted <==> Accepts(r, found)
      ensures accepted ==> old(next) in operations
      ensures !accepted ==> operations == old(operations)
    {
      if !r.overlayAlreadyStored {
        if found.overlayError.Some? {
          errorString := found.overlayError.value;
          return false;
        }
        errorString := "";
      }
      if !found.nativeFolders {
        operations, next := operations[next := NewOperation(r, Done, true)], next + 1;
        announced := announced + [Announcement(next - 1, r.storageId, r.noteId, r.folderId, true)];
        return true;
      }
      BeginOperation(NewOperation(r, Native, true));
      accepted := true;
    }

    method PrepareNativeFolderTree(storageId: string, catalogError: Option<string>, storage: bool, hasCatalog: bool)
      returns (accepted: bool)
      requires Inv(View())
      modifies this
      ensures Inv(View()) && View() == Apply(old(View()), PrepareTree(storageId, catalogError, storage, hasCatalog))
      ensures accepted <==> catalogError.None? && storage
    {
      hide Inv;
      PrepareKeeps(View(), storageId, catalogError, storage, hasCatalog);
      if catalogError.Some? {
        errorString := catalogError.value;
        return false;
      }
      if !storage {
        errorString := UNAVAILABLE;
        return false;
      }
      var r := Request(storageId, "", "", false, false);
      if !hasCatalog {
        errorString := "";
        operations, next := operations[next := NewOperation(r, Done, false)], next + 1;
        announced := announced + [Announcement(next - 1, storageId, "", "", true)];
        return true;
      }
      BeginOperation(NewOperation(r, Native, false));
      accepted := true;
    }

    method StartAssignmentLoad(k: nat, created: bool)
      requires Inv(View()) && Enabled(View(), CreateLoad(k, created))
      modifies this
      ensures Inv(View()) && View() == Apply(old(View()), CreateLoad(k, created))
    {
      hide Inv;
      StepKeeps(View(), CreateLoad(k, created));
      if !created {
        FinishAssignment(k, operations[k], false, NO_LOAD_JOB);
        return;
      }
      operations := operations[k := operations[k].(phase := Loading, load := Waiting)];
    }

    method OnLoadFinished(k: nat, loaded: LoadOutcome)
      requires Inv(View()) && Enabled(View(), LoadFires(k, loaded))
      modifies this
      ensures Inv(View()) && View() == Apply(old(View()), LoadFires(k, loaded))
    {
      hide Inv;
      StepKeeps(View(), LoadFires(k, loaded));
      var op := operations[k];
      if op.load == Handled {
        return;
      }
      op := op.(load := Handled);
      if loaded.job.storageLost {
        FinishAssignment(k, op, false, UNAVAILABLE);
        return;
      }
      if !loaded.job.succeeded {
        FinishAssignment(k, op, false, if loaded.notFound || loaded.job.error == "" then NOT_FOUND else loaded.job.error);
        return;
      }
      if !loaded.sameNote {
        FinishAssignment(k, op, false, NOT_FOUND);
        return;
      }
      if !op.request.overlayAlreadyStored {
        if loaded.overlayError.Some? {
          FinishAssignment(k, op, false, loaded.overlayError.value);
          return;
        }
        errorString := "";
      }
      operations := operations[k := op.(phase := Native, overlayStored := true)];
    }

    method ChangeNoteFolder(k: nat, op: Operation, created: bool)
      modifies this
      ensures View() == StartChange(old(View()), k, op, created)
    {
      if !created {
        FinishAssignment(k, op, false, NO_FOLDER_JOB);
        return;
      }
      operations := operations[k := op.(phase := Changing, change := Waiting)];
      changes := changes + [k];
    }

    method StartNativeAssignment(k: nat, p: Provider)
      requires Inv(View()) && Enabled(View(), StartNative(k, p))
      modifies this
      ensures Inv(View()) && View() == Apply(old(View()), StartNative(k, p))
    {
      hide Inv, Announce, StartChange;
      StepKeeps(View(), StartNative(k, p));
      var op := operations[k];
      if p.lost {
        FinishAssignment(k, op, false, UNAVAILABLE);
        return;
      }
      if p.hasCatalog || !op.request.follows {
        if p.snapshotError.Some? {
          FinishAssignment(k, op, false, p.snapshotError.value);
          return;
        }
        if !p.createsJob {
          FinishAssignment(k, op, false, NO_CATALOG_JOB);
          return;
        }
        operations := operations[k := op.(phase := AwaitingTree, tree := Waiting)];
        return;
      }
      ChangeNoteFolder(k, op, p.createsJob);
    }

    method OnTreePrepared(k: nat, outcome: Outcome, createsJob: bool)
      requires Inv(View()) && Enabled(View(), TreeFires(k, outcome, createsJob))
      modifies this
      ensures Inv(View()) && View() == Apply(old(View()), TreeFires(k, outcome, createsJob))
    {
      hide Inv, Announce, StartChange;
      StepKeeps(View(), TreeFires(k, outcome, createsJob));
      var op := operations[k];
      if op.tree == Handled {
        return;
      }
      op := op.(tree := Handled);
      if outcome.storageLost {
        FinishAssignment(k, op, false, UNAVAILABLE);
        return;
      }
      if !outcome.succeeded {
        FinishAssignment(k, op, false, outcome.error);
        return;
      }
      if !op.request.follows {
        FinishAssignment(k, op, true, "");
        return;
      }
      ChangeNoteFolder(k, op, createsJob);
    }

    method OnChangeFinished(k: nat, outcome: Outcome)
      requires Inv(View()) && Enabled(View(), ChangeFires(k, outcome))
      modifies this
      ensures Inv(View()) && View() == Apply(old(View()), ChangeFires(k, outcome))
    {
      hide Inv, Announce;
      StepKeeps(View(), ChangeFires(k, outcome));
      var op := operations[k];
      if op.change == Handled {
        return;
      }
      FinishAssignment(k, op.(change := Handled), outcome.succeeded, outcome.error);
    }
  }
}
