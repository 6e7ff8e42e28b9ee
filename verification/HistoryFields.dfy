// What a scalar edit writes: one field of one block.
module HistoryFields {
  import opened Basics
  import opened HistoryState

  // ---- Numbers as texts ----

  // A number is written in the usual way: a minus sign for negative ones, and digits that denote it,
  // without leading zeros.
  lemma NumberTextIsUsual(n: Int32)
    ensures var digits := if n < 0 then NumberText(n)[1..] else NumberText(n);
      && (n < 0 ==> NumberText(n)[0] == '-')
      && AllDigits(digits) && Number(digits) == (if n < 0 then -(n as int) else n)
      && (digits[0] == '0' ==> n == 0 && digits == "0")
  {
    var m: nat := if n < 0 then -(n as int) else n;
    NumberOfDecimal(m);
    FirstDigit(m);
    assert n < 0 ==> NumberText(n)[1..] == Decimal(m);
  }

  lemma {:induction false} FirstDigit(m: nat)
    ensures Decimal(m)[0] == '0' ==> m == 0 && Decimal(m) == "0"
  {
    if m >= 10 {
      FirstDigit(m / 10);
      assert Decimal(m)[0] == Decimal(m / 10)[0];
    }
  }

  // A text that denotes no 32-bit number reads as zero, any other as its number.
  lemma TextReadsAsNumber(s: string, n: Int32)
    requires n != 0
    ensures ToInt(s) == n
            <==> (n > 0 && s != "" && AllDigits(s) && Number(s) == n)
                 || (n < 0 && s != "" && s[0] == '-' && AllDigits(s[1..]) && Number(s[1..]) == -(n as int))
  {
    EmptyIsZero();
    if s != "" && s[0] == '-' {
      assert !IsDigit(s[0]);
      assert |s| == 1 ==> s[1..] == "";
    }
  }

  // ---- Blocks ----

  // The edit of a field changes that field of the block and no other; one that names no field of it
  // changes nothing.
  lemma EditWritesField(block: Block, role: Role, i: int, value: string)
    ensures var r := SetField(block, role, i, value);
      && r.text == (if role == TextRole then value else block.text)
      && |r.items| == |block.items|
      && (forall k :: 0 <= k < |r.items| ==> r.items[k] == if role == ItemsRole && k == i then value else block.items[k])
      && |r.cells| == |block.cells|
      && (forall k :: 0 <= k < |r.cells| ==> r.cells[k] == if role == CellsRole && k == i then value else block.cells[k])
      && r.url == (if role == UrlRole then value else block.url)
      && r.alt == (if role == AltRole then value else block.alt)
      && r.mediaDisplayWidth == (if role == MediaDisplayWidthRole then ToInt(value) else block.mediaDisplayWidth)
      && r.mediaAlignment == (if role == MediaAlignmentRole then value else block.mediaAlignment)
      && r.language == (if role == LanguageRole then value else block.language)
      && r.mediaTranscript == (if role == MediaTranscriptRole then value else block.mediaTranscript)
      && r.rest == block.rest
  {
    hide ToInt;
  }

  // The address names a field of the document.
  predicate Names(doc: Document, a: ScalarAddress) {
    0 <= a.blockIndex < |doc.blocks|
    && match a.role
       case ItemsRole => 0 <= a.fieldIndex < |doc.blocks[a.blockIndex].items|
       case CellsRole => 0 <= a.fieldIndex < |doc.blocks[a.blockIndex].cells|
       case OtherRole => false
       case _ => true
  }

  // Two addresses of one field: where a block has one field of a role, the index does not matter.
  predicate SameField(a: ScalarAddress, b: ScalarAddress) {
    a.blockIndex == b.blockIndex && a.role == b.role && (a.role in {ItemsRole, CellsRole} ==> a.fieldIndex == b.fieldIndex)
  }

  // After a scalar edit its field reads as written, a display width as the number that was written;
  // every other field reads as before. An address that names no field has no text and is not written.
  lemma EditReadsBack(doc: Document, a: ScalarAddress, value: string, b: ScalarAddress)
    ensures var r := SetScalar(doc, a, value);
      && (Scalar(doc, a).Some? <==> Names(doc, a)) && (!Names(doc, a) ==> r == doc)
      && Scalar(r, b) == (if Names(doc, a) && SameField(a, b)
                          then Some(if a.role == MediaDisplayWidthRole then NumberText(ToInt(value)) else value)
                          else Scalar(doc, b))
      && |r.blocks| == |doc.blocks| && r.markdown == doc.markdown && r.media == doc.media
      && forall k :: 0 <= k < |r.blocks| && k != a.blockIndex ==> r.blocks[k] == doc.blocks[k]
  {
    hide ToInt, NumberText;
  }
}
