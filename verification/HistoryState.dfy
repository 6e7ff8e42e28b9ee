// The undo history of one editor: documents, commands and the undo stack.
module HistoryState {
  import opened Basics

  type Int32 = n: int | -0x8000_0000 <= n <= MAX_INT32

  // A block; `rest` holds the fields no scalar edit reaches.
  datatype Block = Block(
    text: string, items: seq<string>, cells: seq<string>, url: string, alt: string,
    mediaDisplayWidth: Int32, mediaAlignment: string, language: string, mediaTranscript: string,
    rest: seq<string>)

  datatype Document = Document(blocks: seq<Block>, markdown: bool, media: seq<string>)

  datatype Role =
    | TextRole | ItemsRole | CellsRole | UrlRole | AltRole
    | MediaDisplayWidthRole | MediaAlignmentRole | LanguageRole | MediaTranscriptRole | OtherRole

  datatype ScalarAddress = ScalarAddress(blockIndex: int, role: Role, fieldIndex: int)

  datatype ViewState = ViewState(selectionStart: int, selectionEnd: int, rest: string)

  const NO_VIEW := ViewState(0, 0, "")

  // QString::number and QString::toInt for 32-bit values.
  function NumberText(n: Int32): string {
    if n < 0 then "-" + Decimal(-(n as int)) else Decimal(n)
  }

  function ToInt(s: string): Int32 {
    if s != "" && AllDigits(s) && Number(s) <= MAX_INT32 then Number(s)
    else if |s| > 1 && s[0] == '-' && AllDigits(s[1..]) && Number(s[1..]) <= MAX_INT32 + 1 then -(Number(s[1..]) as int)
    else 0
  }

  lemma ToIntOfNumberText(n: Int32)
    ensures ToInt(NumberText(n)) == n
  {
    if n < 0 {
      assert NumberText(n)[1..] == Decimal(-(n as int));
      NumberOfDecimal(-(n as int));
      assert !IsDigit(NumberText(n)[0]);
    } else {
      NumberOfDecimal(n);
    }
  }

  function SetField(block: Block, role: Role, fieldIndex: int, value: string): Block {
    match role
    case TextRole => block.(text := value)
    case ItemsRole =>
      if 0 <= fieldIndex < |block.items| then block.(items := block.items[fieldIndex := value]) else block
    case CellsRole =>
      if 0 <= fieldIndex < |block.cells| then block.(cells := block.cells[fieldIndex := value]) else block
    case UrlRole => block.(url := value)
    case AltRole => block.(alt := value)
    case MediaDisplayWidthRole => block.(mediaDisplayWidth := ToInt(value))
    case MediaAlignmentRole => block.(mediaAlignment := value)
    case LanguageRole => block.(language := value)
    case MediaTranscriptRole => block.(mediaTranscript := value)
    case OtherRole => block
  }

  function Field(block: Block, role: Role, fieldIndex: int): Option<string> {
    match role
    case TextRole => Some(block.text)
    case ItemsRole => if 0 <= fieldIndex < |block.items| then Some(block.items[fieldIndex]) else None
    case CellsRole => if 0 <= fieldIndex < |block.cells| then Some(block.cells[fieldIndex]) else None
    case UrlRole => Some(block.url)
    case AltRole => Some(block.alt)
    case MediaDisplayWidthRole => Some(NumberText(block.mediaDisplayWidth))
    case MediaAlignmentRole => Some(block.mediaAlignment)
    case LanguageRole => Some(block.language)
    case MediaTranscriptRole => Some(block.mediaTranscript)
    case OtherRole => None
  }

  // setCurrentScalar
  function SetScalar(doc: Document, a: ScalarAddress, value: string): Document {
    if a.blockIndex < 0 || a.blockIndex >= |doc.blocks| then doc
    else doc.(blocks := doc.blocks[a.blockIndex := SetField(doc.blocks[a.blockIndex], a.role, a.fieldIndex, value)])
  }

  function Scalar(doc: Document, a: ScalarAddress): Option<string> {
    if a.blockIndex < 0 || a.blockIndex >= |doc.blocks| then None
    else Field(doc.blocks[a.blockIndex], a.role, a.fieldIndex)
  }

  // The later write wins.
  lemma SetScalarTwice(doc: Document, a: ScalarAddress, x: string, y: string)
    ensures SetScalar(SetScalar(doc, a, x), a, y) == SetScalar(doc, a, y)
  {
    hide ToInt;
    if 0 <= a.blockIndex < |doc.blocks| {
      var b := doc.blocks[a.blockIndex];
      assert SetField(SetField(b, a.role, a.fieldIndex, x), a.role, a.fieldIndex, y)
             == SetField(b, a.role, a.fieldIndex, y);
    }
  }

  // Writing a field's own text back changes nothing.
  lemma SetScalarSame(doc: Document, a: ScalarAddress)
    requires Scalar(doc, a).Some?
    ensures SetScalar(doc, a, Scalar(doc, a).value) == doc
  {
    hide ToInt, NumberText;
    var b := doc.blocks[a.blockIndex];
    ToIntOfNumberText(b.mediaDisplayWidth);
    assert SetField(b, a.role, a.fieldIndex, Field(b, a.role, a.fieldIndex).value) == b;
  }

  // ---- Commands ----

  datatype Command =
    | Snapshot(kind: string, before: Document, beforeView: ViewState, after: Document, afterView: ViewState)
    | ScalarChange(kind: string, address: ScalarAddress, from: string, beforeView: ViewState,
                   to: string, afterView: ViewState, mergeable: bool, generation: int, timestamp: int)

  const UNDO_LIMIT := 256

  function TypingKind(before: string, after: string, beforeView: ViewState): string {
    if beforeView.selectionStart != beforeView.selectionEnd then ""
    else if |after| > |before| then "typing-insertion"
    else if |after| < |before| then "typing-deletion"
    else ""
  }

  // ScalarCommand::mergeWith, with the identity test QUndoStack makes before it.
  predicate Merges(top: Command, next: Command) {
    && top.ScalarChange? && next.ScalarChange? && top.mergeable && next.mergeable
    && top.kind == next.kind && top.address == next.address && top.generation == next.generation
    && top.to == next.from && next.timestamp - top.timestamp <= 1000
  }

  function Merged(top: Command, next: Command): Command
    requires Merges(top, next)
  {
    top.(to := next.to, afterView := next.afterView, timestamp := next.timestamp)
  }

  // ---- State ----

  // `document` is the document in the editor, which the restore handlers write. `docs` is
  // bookkeeping: the documents the stack steps through, docs[index] being the current one.
  datatype History = History(
    commands: seq<Command>, index: nat,
    current: Document, currentView: ViewState,
    transactionBefore: Document, transactionBeforeView: ViewState, transactionKind: string, depth: int,
    generation: int, restoring: bool,
    document: Document, docs: seq<Document>)

  // QUndoStack::push of a command that turns the current document into `after`.
  function Push(h: History, command: Command, after: Document): History
    requires h.index <= |h.commands| && h.index < |h.docs|
  {
    var kept := h.commands[..h.index];
    var past := h.docs[..h.index + 1];
    if h.index > 0 && Merges(kept[h.index - 1], command) then
      var top := Merged(kept[h.index - 1], command);
      if top.from == top.to
      then h.(commands := kept[..h.index - 1], index := h.index - 1, docs := past[..h.index])
      else h.(commands := kept[..h.index - 1] + [top], docs := past[..h.index] + [after])
    else if |kept| + 1 > UNDO_LIMIT
    then h.(commands := (kept + [command])[1..], docs := (past + [after])[1..])
    else h.(commands := kept + [command], index := h.index + 1, docs := past + [after])
  }

  function Reset(h: History, state: Document): History {
    h.(commands := [], index := 0, current := state, currentView := NO_VIEW, depth := 0,
       generation := h.generation + 1, docs := [state])
  }

  function BeginTransaction(h: History, kind: string, before: Document, beforeView: ViewState): History {
    if h.restoring then h
    else if h.depth > 0 then h.(depth := h.depth + 1)
    else h.(depth := h.depth + 1, transactionBefore := before, transactionBeforeView := beforeView,
            transactionKind := kind, currentView := beforeView)
  }

  function EndTransaction(h: History, after: Document, afterView: ViewState): History
    requires h.index <= |h.commands| && h.index < |h.docs|
  {
    if h.restoring || h.depth <= 0 then h
    else if h.depth > 1 then h.(depth := h.depth - 1)
    else if h.transactionBefore == after then h.(depth := 0, currentView := afterView)
    else
      var command := Snapshot(h.transactionKind, h.transactionBefore, h.transactionBeforeView, after, afterView);
      Push(h.(depth := 0), command, after)
        .(current := after, currentView := afterView, generation := h.generation + 1)
  }

  function ObserveChange(h: History, after: Document, afterView: ViewState): History
    requires h.index <= |h.commands| && h.index < |h.docs|
  {
    if h.restoring || h.depth > 0 then h
    else if h.current == after then h.(currentView := afterView)
    else
      Push(h, Snapshot("edit", h.current, h.currentView, after, afterView), after)
        .(current := after, currentView := afterView, generation := h.generation + 1)
  }

  function ObserveScalar(h: History, a: ScalarAddress, before: string, after: string, afterView: ViewState,
                         now: int): History
    requires h.index <= |h.commands| && h.index < |h.docs|
  {
    if h.restoring || h.depth > 0 || before == after then h
    else
      var kind := TypingKind(before, after, h.currentView);
      var command := ScalarChange(if kind == "" then "edit" else kind, a, before, h.currentView, after, afterView,
                                  kind != "", h.generation, now);
      Push(h, command, SetScalar(h.current, a, after))
        .(current := SetScalar(h.current, a, after), currentView := afterView)
  }

  function UpdateViewState(h: History, view: ViewState, breakMerge: bool): History {
    if h.restoring || h.depth > 0 then h
    else h.(currentView := view, generation := if breakMerge then h.generation + 1 else h.generation)
  }

  function BreakMerge(h: History): History {
    if h.restoring then h else h.(generation := h.generation + 1)
  }

  // A restore handler rewrites the editor's document; what it signals meanwhile is ignored.
  function Restore(h: History, command: Command, forward: bool): History {
    var view := if forward then command.afterView else command.beforeView;
    match command
    case Snapshot(_, before, _, after, _) =>
      var doc := if forward then after else before;
      h.(document := doc, current := doc, currentView := view, restoring := false, generation := h.generation + 1)
    case ScalarChange(_, a, from, _, to, _, _, _, _) =>
      var value := if forward then to else from;
      h.(document := SetScalar(h.document, a, value), current := SetScalar(h.current, a, value),
         currentView := view, restoring := false, generation := h.generation + 1)
  }

  function Undo(h: History): History
    requires h.index <= |h.commands|
  {
    if h.index == 0 then h
    else Restore(h, h.commands[h.index - 1], false).(index := h.index - 1)
  }

  function Redo(h: History): History
    requires h.index <= |h.commands|
  {
    if h.index == |h.commands| then h
    else Restore(h, h.commands[h.index], true).(index := h.index + 1)
  }
}
