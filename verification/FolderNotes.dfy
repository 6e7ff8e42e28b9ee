// The flat list of folders and notes: turning the shown list into the next one by removals,
// insertions, moves and updates, each announced to the attached views.
module FolderNotes {
  import opened Basics

  datatype RowKind = FolderRow | NoteRow | UnsortedRow | DraftsRow

  datatype Row = Row(
    kind: RowKind, folderId: string, parentFolderId: string, storageId: string, noteId: string,
    title: string, preview: string, storageName: string, depth: int,
    accessible: bool, collapsed: bool, favorite: bool, archived: bool, systemFolder: bool, pendingDraft: bool,
    draftState: string, draftError: string, childFolderCount: int, noteCount: int)

  function RowKey(row: Row): string {
    match row.kind
    case FolderRow => "folder:" + row.folderId
    case NoteRow => "note:" + Decimal(|row.storageId|) + [0x1f as char] + row.storageId + row.noteId
    case UnsortedRow => "unsorted"
    case DraftsRow => "drafts"
  }

  // What a row stands for, whatever it currently displays.
  predicate SameIdentity(a: Row, b: Row) {
    && a.kind == b.kind
    && (a.kind == FolderRow ==> a.folderId == b.folderId)
    && (a.kind == NoteRow ==> a.storageId == b.storageId && a.noteId == b.noteId)
  }

  lemma NoteKeysDiffer(a: Row, b: Row)
    requires a.kind == NoteRow && b.kind == NoteRow && RowKey(a) == RowKey(b)
    ensures a.storageId == b.storageId && a.noteId == b.noteId
  {
    hide Decimal;
    var p, x, y := "note:", [0x1f as char] + (a.storageId + a.noteId), [0x1f as char] + (b.storageId + b.noteId);
    assert RowKey(a) == p + (Decimal(|a.storageId|) + x) && RowKey(b) == p + (Decimal(|b.storageId|) + y);
    assert Decimal(|a.storageId|) + x == RowKey(a)[|p|..] && Decimal(|b.storageId|) + y == RowKey(b)[|p|..];
    DecimalPrefixUnique(|a.storageId|, |b.storageId|, x, y);
    assert a.storageId == x[1..|a.storageId| + 1] && b.storageId == y[1..|b.storageId| + 1];
    assert a.noteId == x[|a.storageId| + 1..] && b.noteId == y[|b.storageId| + 1..];
  }

  // The key of a row is its identity, and is never empty.
  lemma KeyIsIdentity(a: Row, b: Row)
    ensures RowKey(a) != ""
    ensures RowKey(a) == RowKey(b) <==> SameIdentity(a, b)
  {
    if a.kind == b.kind == NoteRow {
      if RowKey(a) == RowKey(b) {
        NoteKeysDiffer(a, b);
      }
    } else if a.kind == b.kind == FolderRow {
      assert RowKey(a)[7..] == a.folderId && RowKey(b)[7..] == b.folderId;
    } else if a.kind != b.kind {
      assert RowKey(a)[0] != RowKey(b)[0];
    }
  }

  function SameRow(a: Row, b: Row): (same: bool)
    ensures same <==> a == b
  {
    a.kind == b.kind && a.folderId == b.folderId && a.parentFolderId == b.parentFolderId
    && a.storageId == b.storageId && a.noteId == b.noteId && a.title == b.title
    && a.preview == b.preview && a.storageName == b.storageName && a.depth == b.depth
    && a.accessible == b.accessible && a.collapsed == b.collapsed && a.favorite == b.favorite
    && a.archived == b.archived && a.systemFolder == b.systemFolder
    && a.pendingDraft == b.pendingDraft && a.draftState == b.draftState
    && a.draftError == b.draftError && a.childFolderCount == b.childFolderCount
    && a.noteCount == b.noteCount
  }

  // ---- Notifications and what a view makes of them ----

  // Rows a view fetches when it is notified are part of the notification. A move names the row
  // before which the moved row goes, as Qt does.
  datatype Notification =
    | Removed(index: int)
    | Inserted(index: int, row: Row)
    | Moved(from: int, destinationChild: int)
    | Changed(index: int, row: Row)
    | Reset(rows: seq<Row>)

  // Whether the range is one that Qt allows on a list like this.
  predicate Allowed(view: seq<Row>, n: Notification) {
    match n
    case Removed(i) => 0 <= i < |view|
    case Inserted(i, _) => 0 <= i <= |view|
    case Moved(from, to) => 0 <= from < |view| && 0 <= to <= |view| && to != from && to != from + 1
    case Changed(i, _) => 0 <= i < |view|
    case Reset(_) => true
  }

  function Shown(view: seq<Row>, n: Notification): seq<Row>
    requires Allowed(view, n)
  {
    match n
    case Removed(i) => RemoveAt(view, i)
    case Inserted(i, row) => InsertAt(view, i, row)
    case Moved(from, to) => MoveItem(view, from, if to > from then to - 1 else to)
    case Changed(i, row) => view[i := row]
    case Reset(rows) => rows
  }

  function RemoveAt(s: seq<Row>, i: nat): seq<Row>
    requires i < |s|
  {
    s[..i] + s[i + 1..]
  }

  function InsertAt(s: seq<Row>, i: nat, row: Row): seq<Row>
    requires i <= |s|
  {
    s[..i] + [row] + s[i..]
  }

  // QList::move
  function MoveItem(s: seq<Row>, from: nat, to: nat): seq<Row>
    requires from < |s| && to < |s|
  {
    InsertAt(RemoveAt(s, from), to, s[from])
  }

  // What a view that starts as `view` shows after the log; None if a notification is not allowed
  // when it arrives, or removes a row whose key is in `kept`.
  function Replay(view: seq<Row>, log: seq<Notification>, kept: set<string>): Option<seq<Row>>
    decreases |log|
  {
    if log == [] then Some(view)
    else
      var n := log[|log| - 1];
      match Replay(view, log[..|log| - 1], kept)
      case None => None
      case Some(before) =>
        if Allowed(before, n) && !(n.Removed? && RowKey(before[n.index]) in kept) then Some(Shown(before, n)) else None
  }

  ghost predicate Replays(view: seq<Row>, log: seq<Notification>, kept: set<string>, result: seq<Row>) {
    Replay(view, log, kept) == Some(result)
  }

  lemma ReplaysMore(view: seq<Row>, log: seq<Notification>, kept: set<string>, before: seq<Row>, n: Notification)
    requires Replays(view, log, kept, before) && Allowed(before, n)
    requires n.Removed? ==> RowKey(before[n.index]) !in kept
    ensures Replays(view, log + [n], kept, Shown(before, n))
  {
    hide RowKey;
    assert (log + [n])[..|log + [n]| - 1] == log;
  }

  // ---- Keys of a list ----

  predicate UniqueKeys(rows: seq<Row>) {
    forall i, j :: 0 <= i < j < |rows| ==> RowKey(rows[i]) != RowKey(rows[j])
  }

  function Keys(rows: seq<Row>): set<string> {
    set i | 0 <= i < |rows| :: RowKey(rows[i])
  }

  // Whether it starts like `target`, as far as the keys go.
  predicate StartsLike(rows: seq<Row>, target: seq<Row>, n: nat) {
    n <= |rows| && n <= |target| && forall i :: 0 <= i < n ==> RowKey(rows[i]) == RowKey(target[i])
  }

  lemma KeyOf(rows: seq<Row>, i: nat)
    requires i < |rows|
    ensures RowKey(rows[i]) in Keys(rows)
  {
  }

  lemma AfterRemove(rows: seq<Row>, i: nat)
    requires UniqueKeys(rows) && i < |rows|
    ensures UniqueKeys(RemoveAt(rows, i))
    ensures Keys(RemoveAt(rows, i)) == Keys(rows) - {RowKey(rows[i])}
  {
    hide RowKey;
    var left := RemoveAt(rows, i);
    forall key | key in Keys(rows) - {RowKey(rows[i])} ensures key in Keys(left) {
      var j :| 0 <= j < |rows| && RowKey(rows[j]) == key;
      assert left[if j < i then j else j - 1] == rows[j];
    }
  }

  lemma AfterInsert(rows: seq<Row>, i: nat, row: Row)
    requires UniqueKeys(rows) && i <= |rows| && RowKey(row) !in Keys(rows)
    ensures UniqueKeys(InsertAt(rows, i, row))
    ensures Keys(InsertAt(rows, i, row)) == Keys(rows) + {RowKey(row)}
  {
    hide RowKey;
    var more := InsertAt(rows, i, row);
    forall j | 0 <= j < |rows| ensures RowKey(rows[j]) != RowKey(row) {
      KeyOf(rows, j);
    }
    forall key | key in Keys(rows) + {RowKey(row)} ensures key in Keys(more) {
      if key == RowKey(row) {
        assert more[i] == row;
      } else {
        var j :| 0 <= j < |rows| && RowKey(rows[j]) == key;
        assert more[if j < i then j else j + 1] == rows[j];
      }
    }
  }

  lemma AfterMove(rows: seq<Row>, from: nat, to: nat)
    requires UniqueKeys(rows) && from < |rows| && to < |rows|
    ensures UniqueKeys(MoveItem(rows, from, to)) && Keys(MoveItem(rows, from, to)) == Keys(rows)
  {
    hide RowKey, Keys, UniqueKeys, RemoveAt, InsertAt;
    AfterRemove(rows, from);
    KeyOf(rows, from);
    assert |RemoveAt(rows, from)| == |rows| - 1 by { RemoveLength(rows, from); }
    AfterInsert(RemoveAt(rows, from), to, rows[from]);
  }

  lemma RemoveLength(rows: seq<Row>, i: nat)
    requires i < |rows|
    ensures |RemoveAt(rows, i)| == |rows| - 1
  {
  }

  lemma NotInPrefix(rows: seq<Row>, target: seq<Row>)
    requires UniqueKeys(rows) && StartsLike(rows, target, |target|) && |rows| > |target|
    ensures RowKey(rows[|target|]) !in Keys(target)
  {
    hide RowKey;
  }

  // A list without duplicates that starts like the target and has no other keys is as long.
  lemma SameLength(rows: seq<Row>, target: seq<Row>)
    requires UniqueKeys(rows) && Keys(rows) <= Keys(target) && StartsLike(rows, target, |target|)
    ensures |rows| == |target|
  {
    hide RowKey, Keys, UniqueKeys;
    if |rows| > |target| {
      NotInPrefix(rows, target);
      KeyOf(rows, |target|);
    }
  }

  // ---- The model ----

  class FolderNotesModel {
    var rows: seq<Row>
    // Everything announced to the views so far.
    ghost var log: seq<Notification>

    constructor ()
      ensures rows == [] && log == []
    {
      rows, log := [], [];
    }

    method KeysAreUnique(list: seq<Row>) returns (unique: bool)
      ensures unique <==> UniqueKeys(list)
    {
      hide RowKey;
      var keys: set<string>, i := {}, 0;
      while i < |list|
        invariant 0 <= i <= |list| && UniqueKeys(list[..i]) && keys == Keys(list[..i])
      {
        var key := RowKey(list[i]);
        KeyIsIdentity(list[i], list[i]);
        assert list[..i + 1] == InsertAt(list[..i], i, list[i]);
        if key == "" || key in keys {
          var j :| 0 <= j < i && RowKey(list[j]) == key;
          return false;
        }
        AfterInsert(list[..i], i, list[i]);
        keys := keys + {key};
        i := i + 1;
      }
      assert list[..i] == list;
      unique := true;
    }

    // The shown rows become `nextRows`; a view that replays what is announced shows them too,
    // and no announcement has a range Qt forbids. With unique keys, the model is not reset, no
    // row that stays is removed, only rows that are new are inserted, and rows only move up.
    method ReplaceRows(nextRows: seq<Row>) returns (ghost news: seq<Notification>)
      modifies this
      ensures rows == nextRows && log == old(log) + news
      ensures UniqueKeys(old(rows)) && UniqueKeys(nextRows) ==>
        Replays(old(rows), news, Keys(nextRows), nextRows) && Economical(news, Keys(old(rows)))
      ensures !(UniqueKeys(old(rows)) && UniqueKeys(nextRows)) ==> news == [Reset(nextRows)]
    {
      hide RowKey, Keys, UniqueKeys, Replays, StartsLike, RemoveAt, InsertAt, MoveItem;
      var uniqueBefore := KeysAreUnique(rows);
      var uniqueNext := KeysAreUnique(nextRows);
      ghost var initial, oldLog := rows, log;
      if !uniqueBefore || !uniqueNext {
        rows := nextRows;
        news := [Reset(nextRows)];
        log := log + news;
        return;
      }
      var nextKeys := KeySet(nextRows);
      ReplaysNothing(rows, nextKeys);
      news := RemoveGone(nextKeys);
      news := Arrange(nextRows, initial, news);
      news := Update(nextRows, initial, news);
      log := oldLog + news;
    }

    method KeySet(list: seq<Row>) returns (keys: set<string>)
      ensures keys == Keys(list)
    {
      hide RowKey;
      keys := {};
      var i := 0;
      while i < |list|
        invariant 0 <= i <= |list| && keys == Keys(list[..i])
      {
        assert list[..i + 1] == list[..i] + [list[i]];
        assert Keys(list[..i + 1]) == Keys(list[..i]) + {RowKey(list[i])} by {
          KeysOfAppend(list[..i], list[i]);
        }
        keys := keys + {RowKey(list[i])};
        i := i + 1;
      }
      assert list[..i] == list;
    }

    method RemoveGone(nextKeys: set<string>) returns (ghost news: seq<Notification>)
      requires UniqueKeys(rows)
      modifies `rows
      ensures UniqueKeys(rows) && Keys(rows) <= nextKeys && Keys(rows) == Keys(old(rows)) * nextKeys
      ensures Replays(old(rows), news, nextKeys, rows) && Economical(news, Keys(old(rows)))
    {
      hide RowKey, Replays, RemoveAt, UniqueKeys, Keys;
      news := [];
      ReplaysNothing(rows, nextKeys);
      var index := |rows| - 1;
      while index >= 0
        invariant -1 <= index < |rows| && UniqueKeys(rows)
        invariant forall j :: index < j < |rows| ==> RowKey(rows[j]) in nextKeys
        invariant Keys(rows) * nextKeys == Keys(old(rows)) * nextKeys
        invariant Replays(old(rows), news, nextKeys, rows) && Economical(news, Keys(old(rows)))
      {
        if RowKey(rows[index]) !in nextKeys {
          AfterRemove(rows, index);
          RemoveLeaves(rows, index);
          ReplaysMore(old(rows), news, nextKeys, rows, Removed(index));
          news := news + [Removed(index)];
          rows := RemoveAt(rows, index);
        }
        index := index - 1;
      }
      AllIn(rows, nextKeys);
    }

    method Arrange(nextRows: seq<Row>, ghost initial: seq<Row>, ghost before: seq<Notification>)
      returns (ghost news: seq<Notification>)
      requires UniqueKeys(rows) && UniqueKeys(nextRows) && Keys(rows) == Keys(initial) * Keys(nextRows)
      requires Replays(initial, before, Keys(nextRows), rows) && Economical(before, Keys(initial))
      modifies `rows
      ensures |rows| == |nextRows| && StartsLike(rows, nextRows, |nextRows|)
      ensures Replays(initial, news, Keys(nextRows), rows) && Economical(news, Keys(initial))
    {
      hide RowKey, Replays, RemoveAt, InsertAt, MoveItem, UniqueKeys, Keys;
      news := before;
      var target := 0;
      while target < |nextRows|
        invariant 0 <= target <= |nextRows| && StartsLike(rows, nextRows, target)
        invariant UniqueKeys(rows) && Keys(rows) <= Keys(nextRows) && Keys(initial) * Keys(nextRows) <= Keys(rows)
        invariant Replays(initial, news, Keys(nextRows), rows) && Economical(news, Keys(initial))
      {
        var targetKey := RowKey(nextRows[target]);
        KeyOf(nextRows, target);
        var current := 0;
        while current < |rows| && RowKey(rows[current]) != targetKey
          invariant 0 <= current <= |rows| && forall j :: 0 <= j < current ==> RowKey(rows[j]) != targetKey
        {
          current := current + 1;
        }
        NotAmongPlaced(rows, nextRows, target, current);
        if current == |rows| {
          NotIn(rows, targetKey);
          AfterInsert(rows, target, nextRows[target]);
          InsertPlaces(rows, nextRows, target);
          ReplaysMore(initial, news, Keys(nextRows), rows, Inserted(target, nextRows[target]));
          news := news + [Inserted(target, nextRows[target])];
          rows := InsertAt(rows, target, nextRows[target]);
        } else if current != target {
          var destinationChild := if current < target then target + 1 else target;
          AfterMove(rows, current, target);
          MovePlaces(rows, nextRows, current, target);
          ReplaysMore(initial, news, Keys(nextRows), rows, Moved(current, destinationChild));
          news := news + [Moved(current, destinationChild)];
          rows := MoveItem(rows, current, target);
        }
        target := target + 1;
      }
      SameLength(rows, nextRows);
    }

    method Update(nextRows: seq<Row>, ghost initial: seq<Row>, ghost before: seq<Notification>)
      returns (ghost news: seq<Notification>)
      requires |rows| == |nextRows|
      requires Replays(initial, before, Keys(nextRows), rows) && Economical(before, Keys(initial))
      modifies `rows
      ensures rows == nextRows
      ensures Replays(initial, news, Keys(nextRows), rows) && Economical(news, Keys(initial))
    {
      hide RowKey, Replays, RemoveAt, InsertAt, MoveItem, Keys;
      news := before;
      var index := 0;
      while index < |rows|
        invariant 0 <= index <= |rows| == |nextRows| && rows[..index] == nextRows[..index]
        invariant Replays(initial, news, Keys(nextRows), rows) && Economical(news, Keys(initial))
      {
        if !SameRow(rows[index], nextRows[index]) {
          ReplaysMore(initial, news, Keys(nextRows), rows, Changed(index, nextRows[index]));
          news := news + [Changed(index, nextRows[index])];
          rows := rows[index := nextRows[index]];
        }
        assert rows[..index + 1] == rows[..index] + [nextRows[index]];
        assert nextRows[..index + 1] == nextRows[..index] + [nextRows[index]];
        index := index + 1;
      }
      assert rows[..index] == rows && nextRows[..index] == nextRows;
    }
  }

  // No reset, insertions of new rows only, and moves towards the front only.
  ghost predicate Economical(news: seq<Notification>, oldKeys: set<string>) {
    forall i :: 0 <= i < |news| ==>
      && !news[i].Reset?
      && (news[i].Inserted? ==> RowKey(news[i].row) !in oldKeys)
      && (news[i].Moved? ==> news[i].destinationChild < news[i].from)
  }

  lemma ReplaysNothing(view: seq<Row>, kept: set<string>)
    ensures Replays(view, [], kept, view)
  {
  }

  lemma KeysOfAppend(rows: seq<Row>, row: Row)
    ensures Keys(rows + [row]) == Keys(rows) + {RowKey(row)}
  {
    hide RowKey;
    var more := rows + [row];
    forall key | key in Keys(rows) + {RowKey(row)} ensures key in Keys(more) {
      if key == RowKey(row) {
        assert more[|rows|] == row;
      } else {
        var j :| 0 <= j < |rows| && RowKey(rows[j]) == key;
        assert more[j] == rows[j];
      }
    }
  }

  lemma AllIn(rows: seq<Row>, keys: set<string>)
    requires forall j :: 0 <= j < |rows| ==> RowKey(rows[j]) in keys
    ensures Keys(rows) <= keys
  {
  }

  lemma NotIn(rows: seq<Row>, key: string)
    requires forall j :: 0 <= j < |rows| ==> RowKey(rows[j]) != key
    ensures key !in Keys(rows)
  {
  }

  lemma RemoveLeaves(rows: seq<Row>, index: nat)
    requires index < |rows|
    ensures |RemoveAt(rows, index)| == |rows| - 1
    ensures forall j :: index <= j < |rows| - 1 ==> RemoveAt(rows, index)[j] == rows[j + 1]
    ensures forall j :: index < j < |rows| ==> RemoveAt(rows, index)[j - 1] == rows[j]
  {
  }

  // The row looked for is not among those already in place, so a move never goes forward.
  lemma NotAmongPlaced(rows: seq<Row>, nextRows: seq<Row>, target: nat, current: nat)
    requires UniqueKeys(nextRows) && StartsLike(rows, nextRows, target) && target < |nextRows| && current <= |rows|
    requires current < |rows| ==> RowKey(rows[current]) == RowKey(nextRows[target])
    ensures target <= current
  {
    hide RowKey;
  }

  lemma InsertPlaces(rows: seq<Row>, nextRows: seq<Row>, target: nat)
    requires StartsLike(rows, nextRows, target) && target < |nextRows|
    ensures StartsLike(InsertAt(rows, target, nextRows[target]), nextRows, target + 1)
  {
    hide RowKey;
  }

  lemma MovePlaces(rows: seq<Row>, nextRows: seq<Row>, from: nat, target: nat)
    requires StartsLike(rows, nextRows, target) && target < |nextRows| && target <= from < |rows|
    requires RowKey(rows[from]) == RowKey(nextRows[target])
    ensures StartsLike(MoveItem(rows, from, target), nextRows, target + 1)
  {
    hide RowKey;
  }
}
