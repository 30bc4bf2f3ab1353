/**
 * The goods-receipt controller: it binds a material document chosen by its
 * object id (document number and year run together), checks the document
 * the backend returns, and keeps the items that may still be cancelled.
 * The same screen serves display mode and edit (cancellation) mode.
 */
module GoodsReceipt {
  import opened Wrappers
  import opened Numbers
  import opened Messages

  /** Width of a material document number, of its year, and of the two together. */
  const MatDocLength: nat := 10
  const DocYearLength: nat := 4
  const FullObjectIdLength: nat := 14

  const GrNotFound := "grNotFoundErrorText"
  const GrCancelCancellation := "grCancelCancellation"
  const GrNotStandardPo := "grNotStandardPo"
  const GrNotStandardPoDisplay := "grNotStandardPoDisplay"
  const GrNoLines := "grNoLines"

  /** The key of a goods receipt. */
  datatype GrKey = GrKey(matDoc: string, docYear: string)

  /** One item of a material document: the posted quantity and the two flags that exclude it from cancellation. */
  datatype GrItem = GrItem(entryQnt: string, cancellationBlocked: bool, reversed: bool)

  /** A goods receipt as the backend returns it (`Items` expanded). */
  datatype GrRecord = GrRecord(matDoc: string, docYear: string, items: seq<GrItem>)

  /** The outcome of `_validateGRData`: valid, or the i18n key of the error and whether it is shown as formatted text. */
  datatype GrCheck = Valid | Invalid(key: string, formatted: bool)

  /**
   * `_parseObjectId`: the first ten characters are the document number and
   * the next four the year; an id of ten to thirteen characters has no
   * year, and a shorter one yields neither. What it returns is always a
   * prefix of the id, split at position ten.
   */
  function ParseObjectId(id: string): (r: GrKey)
    ensures r.matDoc + r.docYear <= id
    ensures |r.matDoc| == MatDocLength || r == GrKey("", "")
    ensures r.docYear == "" || |r.docYear| == DocYearLength
    ensures |id| >= MatDocLength ==> r.matDoc != ""
    ensures r.docYear != "" <==> |id| >= FullObjectIdLength
  {
    if |id| >= FullObjectIdLength then GrKey(id[..MatDocLength], id[MatDocLength..FullObjectIdLength])
    else if |id| >= MatDocLength then GrKey(id[..MatDocLength], "")
    else GrKey("", "")
  }

  /** The object id the controller stores: document number followed by year. */
  function ObjectIdOf(gr: GrRecord): string
  {
    gr.matDoc + gr.docYear
  }

  /** A ten-character document number and a four-character year come back from their object id unchanged. */
  lemma ParseObjectIdRoundTrip(matDoc: string, docYear: string)
    requires |matDoc| == MatDocLength && |docYear| == DocYearLength
    ensures ParseObjectId(matDoc + docYear) == GrKey(matDoc, docYear)
  {
    var id := matDoc + docYear;
    assert id[..MatDocLength] == matDoc;
    assert id[MatDocLength..FullObjectIdLength] == docYear;
  }

  /** Characters after the fourteenth do not matter. */
  lemma ParseObjectIdIgnoresTail(id: string, tail: string)
    requires |id| == FullObjectIdLength
    ensures ParseObjectId(id + tail) == ParseObjectId(id)
  {
    var s := id + tail;
    assert s[..MatDocLength] == id[..MatDocLength];
    assert s[MatDocLength..FullObjectIdLength] == id[MatDocLength..FullObjectIdLength];
  }

  /** `Number(q) < 0`: only a finite negative value; NaN compares false. */
  predicate IsNegative(q: string)
  {
    ToNumber(q).Finite? && ToNumber(q).value < 0.0
  }

  /** The first item is a cancellation itself: its quantity is negative. */
  predicate FirstItemNegative(items: seq<GrItem>)
  {
    |items| > 0 && IsNegative(items[0].entryQnt)
  }

  /**
   * `_validateGRData`: no document (or an empty number) is "not found";
   * in edit mode a document whose first item is negative is a cancellation
   * and cannot be cancelled again; the number "_" marks a document that
   * does not come from a standard order; anything else is valid.
   */
  function ValidateGrData(gr: Option<GrRecord>, editMode: bool): (r: GrCheck)
    ensures r == Valid <==>
      gr.Some? && gr.value.matDoc != "" && gr.value.matDoc != "_" && !(editMode && FirstItemNegative(gr.value.items))
    ensures r.Invalid? ==> (r.formatted <==> r.key == GrCancelCancellation)
    ensures r == Invalid(GrNotFound, false) <==> gr.None? || gr.value.matDoc == ""
    ensures r == Invalid(GrCancelCancellation, true) <==>
      gr.Some? && gr.value.matDoc != "" && editMode && FirstItemNegative(gr.value.items)
    ensures r == Invalid(GrNotStandardPo, false) <==>
      gr.Some? && gr.value.matDoc == "_" && editMode && !FirstItemNegative(gr.value.items)
    ensures r == Invalid(GrNotStandardPoDisplay, false) <==> gr.Some? && gr.value.matDoc == "_" && !editMode
  {
    if gr.None? || gr.value.matDoc == "" then Invalid(GrNotFound, false)
    else if editMode && FirstItemNegative(gr.value.items) then Invalid(GrCancelCancellation, true)
    else if gr.value.matDoc == "_" then Invalid(if editMode then GrNotStandardPo else GrNotStandardPoDisplay, false)
    else Valid
  }

  /** Display mode never reports a cancellation of a cancellation, whatever the items. */
  lemma DisplayNeverCancelsCancellation(gr: Option<GrRecord>)
    ensures ValidateGrData(gr, false) != Invalid(GrCancelCancellation, true)
    ensures ValidateGrData(gr, false).Invalid? ==> ValidateGrData(gr, false).key != GrCancelCancellation
  {
  }

  /**
   * Of the items, validation reads only whether the first one is negative,
   * and in display mode it reads no item at all.
   */
  lemma ValidationReadsFirstItemOnly(a: GrRecord, b: GrRecord, editMode: bool)
    requires a.matDoc == b.matDoc && FirstItemNegative(a.items) == FirstItemNegative(b.items)
    ensures ValidateGrData(Some(a), editMode) == ValidateGrData(Some(b), editMode)
    ensures ValidateGrData(Some(a), false) == ValidateGrData(Some(a.(items := [])), false)
  {
  }

  /** An item that may still be cancelled: neither blocked nor reversed. */
  predicate Cancellable(it: GrItem)
  {
    !it.cancellationBlocked && !it.reversed
  }

  /** The `Items.filter` of `_processValidGRData`: the cancellable items in their original order. */
  function EligibleItems(items: seq<GrItem>): (r: seq<GrItem>)
    ensures |r| <= |items|
    ensures forall it :: it in r <==> it in items && Cancellable(it)
  {
    if items == [] then []
    else EligibleItems(items[..|items| - 1]) + (if Cancellable(items[|items| - 1]) then [items[|items| - 1]] else [])
  }

  /** Filtering distributes over concatenation, so the kept items stay in their order. */
  lemma {:induction false} EligibleItemsAppend(a: seq<GrItem>, b: seq<GrItem>)
    ensures EligibleItems(a + b) == EligibleItems(a) + EligibleItems(b)
    decreases |b|
  {
    if b == [] {
      assert a + b == a;
    } else {
      var b' := b[..|b| - 1];
      assert (a + b)[..|a + b| - 1] == a + b';
      assert (a + b)[|a + b| - 1] == b[|b| - 1];
      EligibleItemsAppend(a, b');
    }
  }

  /** Filtering twice keeps what filtering once kept. */
  lemma {:induction false} EligibleItemsIdempotent(items: seq<GrItem>)
    ensures EligibleItems(EligibleItems(items)) == EligibleItems(items)
  {
    if items != [] {
      var init := items[..|items| - 1];
      var last := items[|items| - 1];
      EligibleItemsIdempotent(init);
      var tail := if Cancellable(last) then [last] else [];
      EligibleItemsAppend(EligibleItems(init), tail);
      if Cancellable(last) {
        assert tail[..0] == [];
        assert EligibleItems(tail) == tail;
      }
    }
  }

  /** No item survives exactly when every item is blocked or reversed. */
  lemma {:induction false} NoEligibleIffAllExcluded(items: seq<GrItem>)
    ensures EligibleItems(items) == [] <==> forall k :: 0 <= k < |items| ==> !Cancellable(items[k])
  {
    if EligibleItems(items) == [] {
      forall k | 0 <= k < |items|
        ensures !Cancellable(items[k])
      {
        assert items[k] in items;
      }
    } else {
      var it := EligibleItems(items)[0];
      assert it in EligibleItems(items);
      var k :| 0 <= k < |items| && items[k] == it;
    }
  }

  /** The MessageBox `_showErrorAndNavigate` and `_showNoLinesError` open: its text key and whether it is formatted text. */
  datatype ErrorDialog = ErrorDialog(key: string, formatted: bool)

  /** The view model (`viewModel`) as far as the core reads or writes it. */
  datatype GrView = GrView(
    busy: bool,
    bound: bool,
    editMode: bool,
    canBeCancelled: bool,
    objectId: string,
    selected: bool)

  /** `_resetView`: the defaults of a fresh view model. */
  const InitialView := GrView(false, false, false, true, "", false)

  class GrController {
    var view: GrView
    /** The data of the `itemModel`. */
    var itemModel: seq<GrItem>
    var messages: seq<Message>
    /** The error box on screen, if any. */
    var dialog: Option<ErrorDialog>

    constructor ()
      ensures view == InitialView && itemModel == [] && messages == [] && dialog == None
    {
      view := InitialView;
      itemModel := [];
      messages := [];
      dialog := None;
    }

    /** `_resetView`: a fresh view model and an empty item model. */
    method ResetView()
      modifies this
      ensures view == InitialView && itemModel == []
      ensures messages == old(messages) && dialog == old(dialog)
    {
      view := InitialView;
      itemModel := [];
    }

    /** `_handleGRSelection`: reset, then remember the mode the dialog was opened in. */
    method HandleGrSelection(editMode: bool)
      modifies this
      ensures view == InitialView.(editMode := editMode) && itemModel == []
      ensures messages == old(messages) && dialog == old(dialog)
    {
      ResetView();
      view := view.(editMode := editMode);
    }

    /** `_showErrorAndNavigate`: open the error box with the key, formatted or plain. */
    method ShowErrorAndNavigate(key: string, formatted: bool)
      modifies this
      ensures dialog == Some(ErrorDialog(key, formatted))
      ensures view == old(view) && itemModel == old(itemModel) && messages == old(messages)
    {
      dialog := Some(ErrorDialog(key, formatted));
    }

    /** `onNoGR`, run when the error box closes: unbind and clear the binding state. */
    method CloseErrorDialog()
      modifies this
      ensures dialog == None
      ensures view == old(view).(bound := false, selected := false, busy := false)
      ensures itemModel == old(itemModel) && messages == old(messages)
    {
      dialog := None;
      view := view.(bound := false, selected := false, busy := false);
    }

    /**
     * `_processValidGRData`: in edit mode the items are narrowed to the
     * cancellable ones and, when none remain, the "no lines" box opens and
     * nothing else changes; otherwise the item model shows the items, the
     * document counts as cancellable only in display mode with some
     * cancellable item, the view is bound, the object id is recorded and
     * the messages are cleared.
     */
    method ProcessValidGrData(gr: GrRecord)
      modifies this
      ensures view.editMode && EligibleItems(gr.items) == [] ==>
        dialog == Some(ErrorDialog(GrNoLines, true)) &&
        view == old(view) && itemModel == old(itemModel) && messages == old(messages)
      ensures !(view.editMode && EligibleItems(gr.items) == []) ==>
        itemModel == (if view.editMode then EligibleItems(gr.items) else gr.items) &&
        view == old(view).(canBeCancelled := EligibleItems(gr.items) != [] && !old(view).editMode, bound := true,
                           objectId := ObjectIdOf(gr)) &&
        messages == [] && dialog == old(dialog)
      ensures view.editMode == old(view.editMode)
    {
      var editMode := view.editMode;
      var eligible := EligibleItems(gr.items);
      var items := gr.items;
      if editMode {
        items := eligible;
      }
      if editMode && |eligible| == 0 {
        dialog := Some(ErrorDialog(GrNoLines, true));
        return;
      }
      itemModel := items;
      view := view.(canBeCancelled := |eligible| != 0 && !editMode, bound := true, objectId := gr.matDoc + gr.docYear);
      messages := [];
    }

    /**
     * `_onDataReceived`: clear the busy flag, then either report the first
     * failed check or take the document over.
     */
    method OnDataReceived(gr: Option<GrRecord>) returns (check: GrCheck)
      modifies this
      ensures check == ValidateGrData(gr, old(view).editMode)
      ensures check.Invalid? ==>
        dialog == Some(ErrorDialog(check.key, check.formatted)) &&
        view == old(view).(busy := false) && itemModel == old(itemModel) && messages == old(messages)
      ensures check == Valid && old(view).editMode && EligibleItems(gr.value.items) == [] ==>
        dialog == Some(ErrorDialog(GrNoLines, true)) &&
        view == old(view).(busy := false) && itemModel == old(itemModel) && messages == old(messages)
      ensures check == Valid && !(old(view).editMode && EligibleItems(gr.value.items) == []) ==>
        itemModel == (if old(view).editMode then EligibleItems(gr.value.items) else gr.value.items) &&
        view == old(view).(busy := false, canBeCancelled := EligibleItems(gr.value.items) != [] && !old(view).editMode,
                           bound := true, objectId := ObjectIdOf(gr.value)) &&
        messages == [] && dialog == old(dialog)
      ensures view.editMode == old(view).editMode
    {
      view := view.(busy := false);
      check := ValidateGrData(gr, view.editMode);
      if check.Invalid? {
        ShowErrorAndNavigate(check.key, check.formatted);
        return;
      }
      ProcessValidGrData(gr.value);
    }
  }

  /**
   * The stored object id of a document taken over by `_processValidGRData`
   * parses back to its key when number and year have their full widths,
   * so re-binding the view finds the same document.
   */
  lemma StoredObjectIdParsesBack(gr: GrRecord)
    requires |gr.matDoc| == MatDocLength && |gr.docYear| == DocYearLength
    ensures ParseObjectId(ObjectIdOf(gr)) == GrKey(gr.matDoc, gr.docYear)
  {
    ParseObjectIdRoundTrip(gr.matDoc, gr.docYear);
  }
}
