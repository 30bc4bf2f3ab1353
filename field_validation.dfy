/**
 * What the purchase-order screen's field validation computes before a
 * dry run: which value states it clears and sets, which messages it adds
 * and whether mandatory input is missing. The controller's loops are
 * proved against these functions.
 */
module FieldValidation {
  import opened Wrappers
  import opened Messages
  import opened Numbers
  import opened MovementLines

  const DuplicatePoItemError := "duplicatePoItemError"
  const QuantityNotNumberError := "quantityNotNumberError"
  const MandatoryMissingError := "mandatoryMissingError"

  /** A line with an empty item, an empty quantity or no date. */
  predicate LineMissing(l: MovementLine)
  {
    l.poItem == "" || l.entryQnt == "" || l.docDate.None?
  }

  ghost predicate MandatoryMissing(lines: seq<MovementLine>)
  {
    exists k :: 0 <= k < |lines| && LineMissing(lines[k])
  }

  /** A quantity that was typed but is not a number. */
  predicate BadQuantity(l: MovementLine)
  {
    l.entryQnt != "" && !IsNumber(l.entryQnt)
  }

  /** Line `i` has a non-empty item that line `k`, another line, repeats. */
  ghost predicate DuplicateOf(lines: seq<MovementLine>, i: int, k: int)
    requires 0 <= i < |lines| && 0 <= k < |lines|
  {
    i != k && lines[i].poItem != "" && lines[i].poItem == lines[k].poItem
  }

  ghost predicate IsDuplicated(lines: seq<MovementLine>, k: int)
    requires 0 <= k < |lines|
  {
    exists i :: 0 <= i < |lines| && DuplicateOf(lines, i, k)
  }

  ghost predicate HasDuplicate(lines: seq<MovementLine>)
  {
    exists k :: 0 <= k < |lines| && IsDuplicated(lines, k)
  }

  /** A line as `_clearValidationStates` leaves it. */
  function ClearedLine(l: MovementLine): (r: MovementLine)
    ensures r.poItemVs == VsNone && r.entryQntVs == VsNone && r.docDateVs == VsNone && r.lineStatus == TypeNone
    ensures r.(poItemVs := l.poItemVs, entryQntVs := l.entryQntVs, docDateVs := l.docDateVs, lineStatus := l.lineStatus) == l
  {
    l.(poItemVs := VsNone, entryQntVs := VsNone, docDateVs := VsNone, lineStatus := TypeNone)
  }

  function Cleared(lines: seq<MovementLine>): (r: seq<MovementLine>)
    ensures |r| == |lines|
    ensures forall k :: 0 <= k < |lines| ==> r[k] == ClearedLine(lines[k])
  {
    seq(|lines|, k requires 0 <= k < |lines| => ClearedLine(lines[k]))
  }

  /**
   * Line `k` after validation: each state turns to Error when its check
   * fails and is left as it was otherwise.
   */
  ghost function ValidatedLine(lines: seq<MovementLine>, k: int): (r: MovementLine)
    requires 0 <= k < |lines|
    ensures r.(poItemVs := lines[k].poItemVs, entryQntVs := lines[k].entryQntVs, docDateVs := lines[k].docDateVs) == lines[k]
    ensures lines[k].poItem == "" || IsDuplicated(lines, k) ==> r.poItemVs == VsError
    ensures lines[k].entryQnt == "" || !IsNumber(lines[k].entryQnt) ==> r.entryQntVs == VsError
    ensures lines[k].docDate.None? ==> r.docDateVs == VsError
    ensures r.poItemVs == VsError <==> lines[k].poItemVs == VsError || lines[k].poItem == "" || IsDuplicated(lines, k)
    ensures r.entryQntVs == VsError <==> lines[k].entryQntVs == VsError || !IsNumber(lines[k].entryQnt)
    ensures r.docDateVs == VsError <==> lines[k].docDateVs == VsError || lines[k].docDate.None?
  {
    var l := lines[k];
    l.(poItemVs := if l.poItem == "" || IsDuplicated(lines, k) then VsError else l.poItemVs,
       entryQntVs := if l.entryQnt == "" || !IsNumber(l.entryQnt) then VsError else l.entryQntVs,
       docDateVs := if l.docDate.None? then VsError else l.docDateVs)
  }

  ghost function Validated(lines: seq<MovementLine>): (r: seq<MovementLine>)
    ensures |r| == |lines|
    ensures forall k :: 0 <= k < |lines| ==> r[k] == ValidatedLine(lines, k)
  {
    seq(|lines|, k requires 0 <= k < |lines| => ValidatedLine(lines, k))
  }

  /**
   * Line `k` once the validation loop has handled lines `0..i-1`: the own
   * checks of those lines, and the duplicate marks they placed on any line.
   */
  ghost function PartlyValidated(lines: seq<MovementLine>, i: int, k: int): MovementLine
    requires 0 <= k < |lines|
  {
    var l := lines[k];
    l.(poItemVs := if (k < i && l.poItem == "") || (exists d :: 0 <= d < i && d < |lines| && DuplicateOf(lines, d, k))
                   then VsError else l.poItemVs,
       entryQntVs := if k < i && (l.entryQnt == "" || !IsNumber(l.entryQnt)) then VsError else l.entryQntVs,
       docDateVs := if k < i && l.docDate.None? then VsError else l.docDateVs)
  }

  /** Some line before `i` repeats the item of another line. */
  ghost predicate DuplicateBefore(lines: seq<MovementLine>, i: int)
  {
    exists d, k :: 0 <= d < i && d < |lines| && 0 <= k < |lines| && DuplicateOf(lines, d, k)
  }

  function QuantityMessage(q: string): (m: Message)
    ensures m.msgType == Error && m.text == QuantityNotNumberError && m.params == [q]
  {
    Message(Error, QuantityNotNumberError, [q], "")
  }

  function DuplicateMessage(): (m: Message)
    ensures m.msgType == Error && m.text == DuplicatePoItemError && m.params == []
  {
    LocalMessage(Error, DuplicatePoItemError)
  }

  /** One "not a number" error per typed non-numeric quantity, in line order. */
  ghost function QuantityMessages(lines: seq<MovementLine>): seq<Message>
  {
    if lines == [] then []
    else
      var last := lines[|lines| - 1];
      QuantityMessages(lines[..|lines| - 1]) + (if BadQuantity(last) then [QuantityMessage(last.entryQnt)] else [])
  }

  predicate IsDuplicateText(m: Message)
  {
    m.text == DuplicatePoItemError && m.params == []
  }

  /** The list without its "duplicate item" messages. */
  ghost function Unflagged(msgs: seq<Message>): seq<Message>
  {
    if msgs == [] then []
    else
      var last := msgs[|msgs| - 1];
      Unflagged(msgs[..|msgs| - 1]) + (if IsDuplicateText(last) then [] else [last])
  }

  /** How many "duplicate item" messages the list holds. */
  ghost function DuplicateCount(msgs: seq<Message>): nat
  {
    if msgs == [] then 0
    else DuplicateCount(msgs[..|msgs| - 1]) + (if IsDuplicateText(msgs[|msgs| - 1]) then 1 else 0)
  }

  /**
   * The messages validation leaves in a list that started empty: all are
   * errors, the quantity errors in line order, and the duplicate error once
   * exactly when some item repeats; so an error is reported exactly when an
   * item repeats or a typed quantity is not a number.
   */
  ghost predicate ValidationMessages(msgs: seq<Message>, lines: seq<MovementLine>)
  {
    (forall k :: 0 <= k < |msgs| ==> msgs[k].msgType == Error) &&
    Unflagged(msgs) == QuantityMessages(lines) &&
    DuplicateCount(msgs) == (if HasDuplicate(lines) then 1 else 0) &&
    (HasError(msgs) <==> HasDuplicate(lines) || exists k :: 0 <= k < |lines| && BadQuantity(lines[k]))
  }

  /** Validation reports an error exactly when an item repeats or a typed quantity is not a number. */
  lemma ValidationMessagesErrors(msgs: seq<Message>, lines: seq<MovementLine>)
    requires forall k :: 0 <= k < |msgs| ==> msgs[k].msgType == Error
    requires Unflagged(msgs) == QuantityMessages(lines)
    requires DuplicateCount(msgs) == (if HasDuplicate(lines) then 1 else 0)
    ensures HasError(msgs) <==> HasDuplicate(lines) || exists k :: 0 <= k < |lines| && BadQuantity(lines[k])
  {
    assert HasError(msgs) <==> |msgs| > 0 by {
      if |msgs| > 0 {
        assert msgs[0] in msgs;
      }
    }
    CountSplit(msgs);
    QuantityMessagesEmpty(lines);
  }

  /** What `_validateMandatoryFields` leaves in an emptied list after the value states were cleared. */
  lemma ValidationMessagesFromEmpty(orig: seq<MovementLine>, msgs: seq<Message>)
    requires forall k :: 0 <= k < |msgs| ==> msgs[k].msgType == Error
    requires Unflagged(msgs) == Unflagged([]) + QuantityMessages(Cleared(orig))
    requires DuplicateCount(msgs) ==
      if HasDuplicate(Cleared(orig)) && DuplicateCount([]) == 0 then 1 else DuplicateCount([])
    ensures ValidationMessages(msgs, orig)
  {
    ClearedKeepsInputs(orig);
    ValidationMessagesErrors(msgs, orig);
  }

  lemma AppendLast(msgs: seq<Message>, m: Message)
    ensures (msgs + [m])[..|msgs + [m]| - 1] == msgs && (msgs + [m])[|msgs + [m]| - 1] == m
  {
  }

  /**
   * `_addError` with the duplicate text, repeated: the first call appends
   * the message unless the list already shows it, later calls find it.
   */
  lemma DuplicateErrorOnce(before: seq<Message>, m0: seq<Message>, m1: seq<Message>, found: bool)
    requires m0 == if found && !HasText(before, DuplicatePoItemError) then before + [DuplicateMessage()] else before
    requires m1 == if HasText(m0, DuplicatePoItemError) then m0 else m0 + [LocalMessage(Error, DuplicatePoItemError)]
    ensures m1 == if !HasText(before, DuplicatePoItemError) then before + [DuplicateMessage()] else before
  {
    assert DuplicateMessage() in before + [DuplicateMessage()];
  }

  /** The duplicate message is counted, every other message is kept. */
  lemma AppendMessage(msgs: seq<Message>, m: Message)
    ensures Unflagged(msgs + [m]) == Unflagged(msgs) + (if IsDuplicateText(m) then [] else [m])
    ensures DuplicateCount(msgs + [m]) == DuplicateCount(msgs) + (if IsDuplicateText(m) then 1 else 0)
  {
    AppendLast(msgs, m);
  }

  /** A list counts a duplicate message exactly when it shows the duplicate text. */
  lemma {:induction false} DuplicateCountHasText(msgs: seq<Message>)
    ensures DuplicateCount(msgs) > 0 <==> HasText(msgs, DuplicatePoItemError)
  {
    if msgs != [] {
      var init := msgs[..|msgs| - 1];
      var last := msgs[|msgs| - 1];
      DuplicateCountHasText(init);
      assert msgs == init + [last];
      if HasText(msgs, DuplicatePoItemError) {
        var m :| m in msgs && m.text == DuplicatePoItemError && m.params == [];
        assert m in init || m == last;
      }
      if HasText(init, DuplicatePoItemError) {
        var m :| m in init && m.text == DuplicatePoItemError && m.params == [];
        assert m in msgs;
      }
      assert last in msgs;
    }
  }

  /** Every message splits into the unflagged ones and the duplicate ones. */
  lemma {:induction false} CountSplit(msgs: seq<Message>)
    ensures |msgs| == |Unflagged(msgs)| + DuplicateCount(msgs)
  {
    if msgs != [] {
      CountSplit(msgs[..|msgs| - 1]);
    }
  }

  lemma {:induction false} QuantityMessagesEmpty(lines: seq<MovementLine>)
    ensures QuantityMessages(lines) == [] <==> forall k :: 0 <= k < |lines| ==> !BadQuantity(lines[k])
  {
    if lines != [] {
      var init := lines[..|lines| - 1];
      QuantityMessagesEmpty(init);
      assert forall k :: 0 <= k < |init| ==> init[k] == lines[k];
    }
  }

  lemma PrefixStep<T>(s: seq<T>, i: int)
    requires 0 <= i < |s|
    ensures s[..i + 1][..i] == s[..i] && s[..i + 1][i] == s[i]
  {
  }

  /** The loop's state after all lines is the validated state. */
  lemma PartlyValidatedComplete(lines: seq<MovementLine>, k: int)
    requires 0 <= k < |lines|
    ensures PartlyValidated(lines, |lines|, k) == ValidatedLine(lines, k)
  {
  }

  /** Having looked at every line, the loop has seen a duplicate exactly when there is one. */
  lemma DuplicateBeforeComplete(lines: seq<MovementLine>)
    ensures DuplicateBefore(lines, |lines|) <==> HasDuplicate(lines)
  {
    if HasDuplicate(lines) {
      var k :| 0 <= k < |lines| && IsDuplicated(lines, k);
      var d :| 0 <= d < |lines| && DuplicateOf(lines, d, k);
      assert DuplicateBefore(lines, |lines|);
    }
    if DuplicateBefore(lines, |lines|) {
      var d, k :| 0 <= d < |lines| && 0 <= k < |lines| && DuplicateOf(lines, d, k);
      assert IsDuplicated(lines, k);
    }
  }

  /** Duplicates are symmetric: both lines that share an item are marked, the first one included. */
  lemma DuplicatesMarkEveryOccurrence(lines: seq<MovementLine>, i: int, j: int)
    requires 0 <= i < |lines| && 0 <= j < |lines| && i != j
    requires lines[i].poItem != "" && lines[i].poItem == lines[j].poItem
    ensures Validated(lines)[i].poItemVs == VsError && Validated(lines)[j].poItemVs == VsError
  {
    assert DuplicateOf(lines, i, j) && DuplicateOf(lines, j, i);
  }

  /**
   * The "missing" verdict reads only whether item, quantity and date are
   * empty: two tables that agree on that get the same verdict, however their
   * item numbers repeat, so a duplicate never makes the verdict "missing".
   */
  lemma DuplicatesDoNotBlock(a: seq<MovementLine>, b: seq<MovementLine>)
    requires |a| == |b|
    requires forall k :: 0 <= k < |a| ==>
      (a[k].poItem == "" <==> b[k].poItem == "") &&
      (a[k].entryQnt == "" <==> b[k].entryQnt == "") &&
      (a[k].docDate.None? <==> b[k].docDate.None?)
    ensures MandatoryMissing(a) <==> MandatoryMissing(b)
  {
    if MandatoryMissing(a) {
      var k :| 0 <= k < |a| && LineMissing(a[k]);
      assert LineMissing(b[k]);
    }
    if MandatoryMissing(b) {
      var k :| 0 <= k < |b| && LineMissing(b[k]);
      assert LineMissing(a[k]);
    }
  }

  /** Clearing value states changes none of the inputs validation looks at. */
  lemma ClearedKeepsInputs(lines: seq<MovementLine>)
    ensures MandatoryMissing(Cleared(lines)) <==> MandatoryMissing(lines)
    ensures HasDuplicate(Cleared(lines)) <==> HasDuplicate(lines)
    ensures QuantityMessages(Cleared(lines)) == QuantityMessages(lines)
  {
    var c := Cleared(lines);
    assert forall d, k :: 0 <= d < |lines| && 0 <= k < |lines| ==> (DuplicateOf(c, d, k) <==> DuplicateOf(lines, d, k));
    assert forall k :: 0 <= k < |lines| ==> (IsDuplicated(c, k) <==> IsDuplicated(lines, k));
    ClearedQuantityMessages(lines);
  }

  lemma {:induction false} ClearedQuantityMessages(lines: seq<MovementLine>)
    ensures QuantityMessages(Cleared(lines)) == QuantityMessages(lines)
  {
    if lines != [] {
      ClearedQuantityMessages(lines[..|lines| - 1]);
      assert Cleared(lines)[..|lines| - 1] == Cleared(lines[..|lines| - 1]);
    }
  }

  /**
   * On cleared lines the marks are exactly the failed checks: an item is
   * marked iff it is empty or duplicated, a quantity iff it is not a
   * number, a date iff it is missing.
   */
  lemma ValidatedMarksExactly(lines: seq<MovementLine>, k: int)
    requires 0 <= k < |lines|
    ensures Validated(Cleared(lines))[k].poItemVs == VsError <==> lines[k].poItem == "" || IsDuplicated(lines, k)
    ensures Validated(Cleared(lines))[k].entryQntVs == VsError <==> !IsNumber(lines[k].entryQnt)
    ensures Validated(Cleared(lines))[k].docDateVs == VsError <==> lines[k].docDate.None?
  {
    var c := Cleared(lines);
    assert forall d :: 0 <= d < |lines| ==> (DuplicateOf(c, d, k) <==> DuplicateOf(lines, d, k));
  }

  /** Handling line i adds the marks it places on other lines and its own checks. */
  lemma PartlyValidatedStep(lines: seq<MovementLine>, i: int)
    requires 0 <= i < |lines|
    ensures forall k :: 0 <= k < |lines| && k != i ==>
      PartlyValidated(lines, i + 1, k) ==
        if DuplicateOf(lines, i, k) then PartlyValidated(lines, i, k).(poItemVs := VsError) else PartlyValidated(lines, i, k)
    ensures var p := PartlyValidated(lines, i, i);
      PartlyValidated(lines, i + 1, i) ==
        p.(poItemVs := if lines[i].poItem == "" then VsError else p.poItemVs,
           entryQntVs := if lines[i].entryQnt == "" || !IsNumber(lines[i].entryQnt) then VsError else p.entryQntVs,
           docDateVs := if lines[i].docDate.None? then VsError else p.docDateVs)
  {
    forall k | 0 <= k < |lines|
      ensures (exists d :: 0 <= d < i + 1 && d < |lines| && DuplicateOf(lines, d, k)) <==>
        (exists d :: 0 <= d < i && d < |lines| && DuplicateOf(lines, d, k)) || DuplicateOf(lines, i, k)
    {
      if DuplicateOf(lines, i, k) {
        assert 0 <= i < i + 1 && i < |lines| && DuplicateOf(lines, i, k);
      }
    }
  }

  lemma DuplicateBeforeStep(lines: seq<MovementLine>, i: int)
    requires 0 <= i < |lines|
    ensures DuplicateBefore(lines, i + 1) <==>
      DuplicateBefore(lines, i) || exists k :: 0 <= k < |lines| && DuplicateOf(lines, i, k)
  {
    if DuplicateBefore(lines, i + 1) {
      var d, k :| 0 <= d < i + 1 && d < |lines| && 0 <= k < |lines| && DuplicateOf(lines, d, k);
      if d < i {
        assert DuplicateBefore(lines, i);
      }
    }
    if exists k :: 0 <= k < |lines| && DuplicateOf(lines, i, k) {
      var k :| 0 <= k < |lines| && DuplicateOf(lines, i, k);
      assert 0 <= i < i + 1 && i < |lines| && DuplicateOf(lines, i, k);
    }
  }

  lemma QuantityMessagesStep(lines: seq<MovementLine>, i: int)
    requires 0 <= i < |lines|
    ensures QuantityMessages(lines[..i + 1]) ==
      QuantityMessages(lines[..i]) + (if BadQuantity(lines[i]) then [QuantityMessage(lines[i].entryQnt)] else [])
  {
    PrefixStep(lines, i);
  }

  /** An empty item marks no other line. */
  lemma NoDuplicateOfEmpty(lines: seq<MovementLine>, i: int)
    requires 0 <= i < |lines| && lines[i].poItem == ""
    ensures forall k :: 0 <= k < |lines| ==> !DuplicateOf(lines, i, k)
  {
  }

  /** Duplicates depend on the items only. */
  lemma SameItemsSameDuplicates(a: seq<MovementLine>, b: seq<MovementLine>, i: int)
    requires |a| == |b| && 0 <= i < |a|
    requires forall k :: 0 <= k < |a| ==> a[k].poItem == b[k].poItem
    ensures forall k :: 0 <= k < |a| ==> (DuplicateOf(a, i, k) <==> DuplicateOf(b, i, k))
  {
  }

  /** The lines after the validation loop has handled lines `0..i-1`. */
  ghost predicate LinesProgress(orig: seq<MovementLine>, i: int, lines: seq<MovementLine>)
  {
    0 <= i <= |orig| == |lines| &&
    forall k :: 0 <= k < |orig| ==> lines[k] == PartlyValidated(orig, i, k)
  }

  /**
   * The messages after lines `0..i-1`: the list only grew, by errors, and
   * it holds the quantity errors so far and the one duplicate error once a
   * duplicate was seen.
   */
  ghost predicate MessagesProgress(orig: seq<MovementLine>, start: seq<Message>, i: int, msgs: seq<Message>)
    requires 0 <= i <= |orig|
  {
    start <= msgs &&
    (forall k :: |start| <= k < |msgs| ==> msgs[k].msgType == Error) &&
    Unflagged(msgs) == Unflagged(start) + QuantityMessages(orig[..i]) &&
    DuplicateCount(msgs) == if DuplicateBefore(orig, i) && DuplicateCount(start) == 0 then 1 else DuplicateCount(start)
  }

  /** The state of the validation loop after lines `0..i-1`. */
  ghost predicate Progress(orig: seq<MovementLine>, start: seq<Message>, i: int, lines: seq<MovementLine>, msgs: seq<Message>)
  {
    LinesProgress(orig, i, lines) && MessagesProgress(orig, start, i, msgs)
  }

  /** Some line before `i` lacks mandatory input. */
  ghost predicate MissingBefore(orig: seq<MovementLine>, i: int)
  {
    exists k :: 0 <= k < i && k < |orig| && LineMissing(orig[k])
  }

  /** The loop's `missing` flag after line i. */
  lemma MissingStep(orig: seq<MovementLine>, i: int)
    requires 0 <= i < |orig|
    ensures MissingBefore(orig, i + 1) <==> MissingBefore(orig, i) || LineMissing(orig[i])
  {
  }

  lemma MissingEnds(orig: seq<MovementLine>)
    ensures !MissingBefore(orig, 0)
    ensures MissingBefore(orig, |orig|) <==> MandatoryMissing(orig)
  {
  }

  /** Before the loop nothing is marked and no message was added. */
  lemma ProgressStart(orig: seq<MovementLine>, start: seq<Message>)
    ensures Progress(orig, start, 0, orig, start)
  {
    assert orig[..0] == [];
    forall k | 0 <= k < |orig|
      ensures orig[k] == PartlyValidated(orig, 0, k)
    {
    }
  }

  /** After the loop the lines are validated and the messages hold the quantity errors and at most one duplicate error. */
  lemma ProgressComplete(orig: seq<MovementLine>, start: seq<Message>, lines: seq<MovementLine>, msgs: seq<Message>)
    requires Progress(orig, start, |orig|, lines, msgs)
    ensures lines == Validated(orig)
    ensures start <= msgs
    ensures forall k :: |start| <= k < |msgs| ==> msgs[k].msgType == Error
    ensures Unflagged(msgs) == Unflagged(start) + QuantityMessages(orig)
    ensures DuplicateCount(msgs) == if HasDuplicate(orig) && DuplicateCount(start) == 0 then 1 else DuplicateCount(start)
  {
    DuplicateBeforeComplete(orig);
    assert orig[..|orig|] == orig;
    forall k | 0 <= k < |orig|
      ensures lines[k] == ValidatedLine(orig, k)
    {
      PartlyValidatedComplete(orig, k);
    }
  }

  /** Line k after the item check of line i: the empty item of line i and every repeat of a non-empty one are marked. */
  ghost function ItemMarked(lines: seq<MovementLine>, i: int, k: int): MovementLine
    requires 0 <= i < |lines| && 0 <= k < |lines|
  {
    if (k == i && lines[i].poItem == "") || DuplicateOf(lines, i, k) then lines[k].(poItemVs := VsError) else lines[k]
  }

  /** The marks of one pass: the item check (l1), the quantity check (l2), then the date check (l3) on line i. */
  lemma LinesStep(orig: seq<MovementLine>, i: int, l0: seq<MovementLine>, l1: seq<MovementLine>, l2: seq<MovementLine>, l3: seq<MovementLine>)
    requires 0 <= i < |orig| && LinesProgress(orig, i, l0)
    requires |l1| == |l0| && forall k :: 0 <= k < |l0| ==> l1[k] == ItemMarked(l0, i, k)
    requires l2 == l1[i := l1[i].(entryQntVs := if l1[i].entryQnt == "" || !IsNumber(l1[i].entryQnt) then VsError else l1[i].entryQntVs)]
    requires l3 == l2[i := l2[i].(docDateVs := if l2[i].docDate.None? then VsError else l2[i].docDateVs)]
    ensures LinesProgress(orig, i + 1, l3)
  {
    PartlyValidatedStep(orig, i);
    assert forall k :: 0 <= k < |orig| ==> l0[k].poItem == orig[k].poItem;
    SameItemsSameDuplicates(l0, orig, i);
    forall k | 0 <= k < |orig|
      ensures l3[k] == PartlyValidated(orig, i + 1, k)
    {
    }
  }

  /** Line i adds a duplicate to those seen exactly when another line repeats its item. */
  lemma DuplicateSeen(orig: seq<MovementLine>, i: int, l0: seq<MovementLine>)
    requires 0 <= i < |orig| && LinesProgress(orig, i, l0)
    ensures DuplicateBefore(orig, i + 1) <==>
      DuplicateBefore(orig, i) || exists k :: 0 <= k < |l0| && DuplicateOf(l0, i, k)
  {
    DuplicateBeforeStep(orig, i);
    assert forall k :: 0 <= k < |orig| ==> l0[k].poItem == orig[k].poItem;
    SameItemsSameDuplicates(l0, orig, i);
  }

  /**
   * The duplicate error of one pass: when a duplicate is seen (`dup`) and
   * no message shows the text yet, it is added, so the list counts one
   * duplicate error from the first duplicate on.
   */
  lemma DuplicateMessageStep(start: seq<Message>, m0: seq<Message>, m1: seq<Message>, before: bool, after: bool, dup: bool)
    requires start <= m0 && forall k :: |start| <= k < |m0| ==> m0[k].msgType == Error
    requires DuplicateCount(m0) == if before && DuplicateCount(start) == 0 then 1 else DuplicateCount(start)
    requires after <==> before || dup
    requires m1 == m0 + if dup && !HasText(m0, DuplicatePoItemError) then [DuplicateMessage()] else []
    ensures start <= m1 && forall k :: |start| <= k < |m1| ==> m1[k].msgType == Error
    ensures Unflagged(m1) == Unflagged(m0)
    ensures DuplicateCount(m1) == if after && DuplicateCount(start) == 0 then 1 else DuplicateCount(start)
  {
    DuplicateCountHasText(m0);
    if dup && !HasText(m0, DuplicatePoItemError) {
      AppendMessage(m0, DuplicateMessage());
    } else {
      assert m1 == m0;
    }
  }

  /** The quantity error of one pass: added, and kept among the unflagged messages, when the quantity is bad. */
  lemma QuantityMessageStep(start: seq<Message>, m1: seq<Message>, m2: seq<Message>, qs: seq<Message>, q: string, bad: bool)
    requires start <= m1 && forall k :: |start| <= k < |m1| ==> m1[k].msgType == Error
    requires Unflagged(m1) == Unflagged(start) + qs
    requires m2 == m1 + if bad then [QuantityMessage(q)] else []
    ensures start <= m2 && forall k :: |start| <= k < |m2| ==> m2[k].msgType == Error
    ensures Unflagged(m2) == Unflagged(start) + (qs + if bad then [QuantityMessage(q)] else [])
    ensures DuplicateCount(m2) == DuplicateCount(m1)
  {
    if bad {
      AppendMessage(m1, QuantityMessage(q));
      assert !IsDuplicateText(QuantityMessage(q));
    } else {
      assert m2 == m1;
    }
  }

  /** One pass of the loop keeps `Progress`. */
  lemma ProgressStep(orig: seq<MovementLine>, start: seq<Message>, i: int, l0: seq<MovementLine>, m0: seq<Message>,
                     l1: seq<MovementLine>, m1: seq<Message>, l2: seq<MovementLine>, m2: seq<Message>, l3: seq<MovementLine>)
    requires 0 <= i < |orig| && Progress(orig, start, i, l0, m0)
    requires |l1| == |l0| && forall k :: 0 <= k < |l0| ==> l1[k] == ItemMarked(l0, i, k)
    requires m1 == m0 + if (exists k :: 0 <= k < |l0| && DuplicateOf(l0, i, k)) && !HasText(m0, DuplicatePoItemError)
                        then [DuplicateMessage()] else []
    requires l2 == l1[i := l1[i].(entryQntVs := if l1[i].entryQnt == "" || !IsNumber(l1[i].entryQnt) then VsError else l1[i].entryQntVs)]
    requires m2 == m1 + if BadQuantity(l1[i]) then [QuantityMessage(l1[i].entryQnt)] else []
    requires l3 == l2[i := l2[i].(docDateVs := if l2[i].docDate.None? then VsError else l2[i].docDateVs)]
    ensures Progress(orig, start, i + 1, l3, m2)
  {
    assert l1[i].entryQnt == orig[i].entryQnt;
    LinesStep(orig, i, l0, l1, l2, l3);
    DuplicateSeen(orig, i, l0);
    DuplicateMessageStep(start, m0, m1, DuplicateBefore(orig, i), DuplicateBefore(orig, i + 1),
      exists k :: 0 <= k < |l0| && DuplicateOf(l0, i, k));
    QuantityMessagesStep(orig, i);
    QuantityMessageStep(start, m1, m2, QuantityMessages(orig[..i]), orig[i].entryQnt, BadQuantity(orig[i]));
  }
}
