/**
 * The goods-receipt screen for a purchase order: binding and
 * classification of the order, the movement-line table engine, the field
 * validator and the dry-run / confirm / post workflow. The controller's
 * JSON models become fields of `PoController`: the order's items, the
 * movement lines, the view model, the message list and the stage of the
 * submission workflow (what the pending callbacks would continue with).
 */
module PurchaseOrder {
  import opened Wrappers
  import opened Messages
  import opened Numbers
  import opened Severity
  import opened MovementLines
  import opened FieldValidation

  /* ------------------------------------------------------------------ */
  /* Binding and classification                                          */
  /* ------------------------------------------------------------------ */

  /** A purchase order as the OData service delivers it. */
  datatype PoRecord = PoRecord(
    poNumber: string,
    excluded: bool,
    complete: bool,
    approved: bool,
    items: seq<OrderItem>,
    movements: seq<MovementLine>)

  /** The outcome of the checks on a received order: an i18n key to show, or acceptance. */
  datatype PoVerdict = Rejected(key: string, formatted: bool) | Accepted

  const PoNumberLength := 10
  const PoNotFound := "poNotFoundErrorText"
  const PoExcluded := "poExcluded"
  const PoNotComplete := "poNotComplete"
  const PoNotApproved := "poNotApproved"
  const PoNotValidForGr := "poNotValidForGRErrorText"

  /** The key `_bindView` looks up: the route id cut to ten characters. */
  function TruncatePoNumber(id: string): (r: string)
    ensures r <= id
    ensures |r| == if |id| >= PoNumberLength then PoNumberLength else |id|
  {
    if |id| >= PoNumberLength then id[..PoNumberLength] else id
  }

  /** The record passes every check of `_onDataReceived`. */
  predicate Eligible(po: PoRecord, posted: bool)
  {
    po.poNumber != "" && !po.excluded && po.complete && po.approved && (|po.items| != 0 || posted)
  }

  /** The check chain of `_onDataReceived`: the first failing check names the rejection. */
  function ClassifyPo(po: Option<PoRecord>, posted: bool): (v: PoVerdict)
    ensures v == Accepted <==> po.Some? && Eligible(po.value, posted)
    ensures v.Rejected? ==> (v.formatted <==> v.key == PoNotApproved)
  {
    if po.None? || po.value.poNumber == "" then Rejected(PoNotFound, false)
    else if po.value.excluded then Rejected(PoExcluded, false)
    else if !po.value.complete then Rejected(PoNotComplete, false)
    else if !po.value.approved then Rejected(PoNotApproved, true)
    else if |po.value.items| == 0 && !posted then Rejected(PoNotValidForGr, false)
    else Accepted
  }

  /** Each rejection key is given exactly when its check is the first one to fail. */
  lemma ClassificationOrder(po: Option<PoRecord>, posted: bool)
    ensures ClassifyPo(po, posted).Rejected? && ClassifyPo(po, posted).key == PoNotFound
      <==> po.None? || po.value.poNumber == ""
    ensures ClassifyPo(po, posted).Rejected? && ClassifyPo(po, posted).key == PoExcluded
      <==> po.Some? && po.value.poNumber != "" && po.value.excluded
    ensures ClassifyPo(po, posted).Rejected? && ClassifyPo(po, posted).key == PoNotComplete
      <==> po.Some? && po.value.poNumber != "" && !po.value.excluded && !po.value.complete
    ensures ClassifyPo(po, posted).Rejected? && ClassifyPo(po, posted).key == PoNotApproved
      <==> po.Some? && po.value.poNumber != "" && !po.value.excluded && po.value.complete && !po.value.approved
    ensures ClassifyPo(po, posted).Rejected? && ClassifyPo(po, posted).key == PoNotValidForGr
      <==> po.Some? && po.value.poNumber != "" && !po.value.excluded && po.value.complete && po.value.approved
           && |po.value.items| == 0 && !posted
  {
  }

  /** After a post the order may come back without open items and is still shown. */
  lemma PostedOrderWithoutItemsIsKept(po: PoRecord)
    requires po.poNumber != "" && !po.excluded && po.complete && po.approved && po.items == []
    ensures ClassifyPo(Some(po), true) == Accepted
    ensures ClassifyPo(Some(po), false) == Rejected(PoNotValidForGr, false)
  {
  }

  /* ------------------------------------------------------------------ */
  /* Property filter                                                     */
  /* ------------------------------------------------------------------ */

  /** Every criterion key is present on the object with the same value. */
  predicate Matches(obj: map<string, string>, criteria: map<string, string>)
  {
    forall key :: key in criteria ==> key in obj && obj[key] == criteria[key]
  }

  /** `_filterByProperty`: the objects matching every criterion, in their original order. */
  function FilterByProperty(objs: seq<map<string, string>>, criteria: map<string, string>): (r: seq<map<string, string>>)
    ensures |r| <= |objs|
    ensures forall obj :: obj in r <==> obj in objs && Matches(obj, criteria)
  {
    if objs == [] then []
    else Kept(objs[0], criteria) + FilterByProperty(objs[1..], criteria)
  }

  /** The part of the result contributed by one object. */
  function Kept(obj: map<string, string>, criteria: map<string, string>): seq<map<string, string>>
  {
    if Matches(obj, criteria) then [obj] else []
  }

  /** Filtering keeps the order: it distributes over concatenation. */
  lemma {:induction false} FilterByPropertyAppend(a: seq<map<string, string>>, b: seq<map<string, string>>, criteria: map<string, string>)
    ensures FilterByProperty(a + b, criteria) == FilterByProperty(a, criteria) + FilterByProperty(b, criteria)
  {
    if a != [] {
      var ab := a + b;
      assert ab[0] == a[0];
      assert ab[1..] == a[1..] + b;
      FilterByPropertyAppend(a[1..], b, criteria);
      calc {
        FilterByProperty(ab, criteria);
        Kept(a[0], criteria) + FilterByProperty(a[1..] + b, criteria);
        Kept(a[0], criteria) + (FilterByProperty(a[1..], criteria) + FilterByProperty(b, criteria));
        (Kept(a[0], criteria) + FilterByProperty(a[1..], criteria)) + FilterByProperty(b, criteria);
      }
    } else {
      assert a + b == b;
    }
  }

  /** No criteria keep everything. */
  lemma {:induction false} FilterByNoCriteria(objs: seq<map<string, string>>)
    ensures FilterByProperty(objs, map[]) == objs
  {
    if objs != [] {
      FilterByNoCriteria(objs[1..]);
      assert Matches(objs[0], map[]);
      assert objs == [objs[0]] + objs[1..];
    }
  }

  /** Filtering twice is filtering once. */
  lemma {:induction false} FilterByPropertyIdempotent(objs: seq<map<string, string>>, criteria: map<string, string>)
    ensures FilterByProperty(FilterByProperty(objs, criteria), criteria) == FilterByProperty(objs, criteria)
  {
    if objs != [] {
      var head := Kept(objs[0], criteria);
      var rest := FilterByProperty(objs[1..], criteria);
      FilterByPropertyIdempotent(objs[1..], criteria);
      FilterByPropertyAppend(head, rest, criteria);
      if head != [] {
        assert head[1..] == [];
      }
      assert FilterByProperty(head, criteria) == head;
    }
  }

  /* ------------------------------------------------------------------ */
  /* Dry run and post                                                    */
  /* ------------------------------------------------------------------ */

  const DuplicateWarningCode := "ZFSS_GR/003"

  /** The create request: the order with its movement lines, a value and the dry-run / post switch. */
  datatype Payload = Payload(submitFlag: bool, grValue: Num, movements: seq<MovementLine>)

  /** What a create call delivers: a transport error, or returned lines and the backend's messages. */
  datatype Response = TransportError | Received(movements: seq<MovementLine>, backendMessages: seq<Message>)

  /** Where the dry-run response leads. */
  datatype DryRunRoute = ShowErrors | ConfirmDuplicate | ConfirmFinal

  /** The pending continuation of the workflow, with the payload it closes over. */
  datatype Stage =
    | Idle
    | DryRunPending(payload: Payload)
    | AwaitingDuplicate(payload: Payload)
    | AwaitingFinal(payload: Payload)
    | Posting(payload: Payload)

  /** A returned line with the backend's empty markers turned back into empty fields. */
  function NormalisedLine(l: MovementLine): (r: MovementLine)
    ensures r.(poItem := l.poItem, entryQnt := l.entryQnt) == l
    ensures r.poItem != "00000" && r.entryQnt != "0.000"
    ensures l.poItem != "00000" ==> r.poItem == l.poItem
    ensures l.entryQnt != "0.000" ==> r.entryQnt == l.entryQnt
    ensures ToNumber(r.entryQnt) == ToNumber(l.entryQnt)
  {
    ZeroForms();
    l.(poItem := if l.poItem == "00000" then "" else l.poItem,
       entryQnt := if l.entryQnt == "0.000" then "" else l.entryQnt)
  }

  lemma NormalisedLineIdempotent(l: MovementLine)
    ensures NormalisedLine(NormalisedLine(l)) == NormalisedLine(l)
  {
  }

  /** A line of the payload: a quantity that is not a number is sent as "0". */
  function CoercedLine(l: MovementLine): (r: MovementLine)
    ensures r.(entryQnt := l.entryQnt) == l
    ensures IsNumber(r.entryQnt)
    ensures IsNumber(l.entryQnt) ==> r == l
    ensures ToNumber(r.entryQnt) == if IsNumber(l.entryQnt) then ToNumber(l.entryQnt) else Finite(0.0)
  {
    ZeroForms();
    if IsNumber(l.entryQnt) then l else l.(entryQnt := "0")
  }

  function Coerced(lines: seq<MovementLine>): (r: seq<MovementLine>)
    ensures |r| == |lines|
    ensures forall k :: 0 <= k < |lines| ==> r[k] == CoercedLine(lines[k])
  {
    seq(|lines|, k requires 0 <= k < |lines| => CoercedLine(lines[k]))
  }

  /** Once coerced, no quantity can make the totals NaN. */
  lemma CoercedTotalsFinite(lines: seq<MovementLine>, items: seq<OrderItem>)
    ensures NetTotal(Coerced(lines), items).Finite? && GrossTotal(Coerced(lines), items).Finite?
  {
    var c := Coerced(lines);
    forall k | 0 <= k < |c|
      ensures QuantityUsable(c[k], items)
    {
      IsNumberAgreesWithToNumber(c[k].entryQnt);
    }
    NetTotalExact(c, items);
    GrossTotalExact(c, items);
  }

  /**
   * The message scan of `_handleValidationResponse`: any Error wins; else
   * the duplicate-document code asks for confirmation of the duplicate;
   * else the final confirmation follows.
   */
  method RouteDryRun(msgs: seq<Message>) returns (route: DryRunRoute)
    ensures route == ShowErrors <==> HasError(msgs)
    ensures route == ConfirmDuplicate <==> !HasError(msgs) && HasCode(msgs, DuplicateWarningCode)
    ensures route == ConfirmFinal <==> !HasError(msgs) && !HasCode(msgs, DuplicateWarningCode)
  {
    var error := false;
    var duplicateWarning := false;
    var i := 0;
    while i < |msgs|
      invariant 0 <= i <= |msgs|
      invariant error <==> exists k :: 0 <= k < i && msgs[k].msgType == Error
      invariant duplicateWarning <==> exists k :: 0 <= k < i && msgs[k].code == DuplicateWarningCode
    {
      if msgs[i].msgType == Error {
        error := true;
      }
      if msgs[i].code == DuplicateWarningCode {
        duplicateWarning := true;
      }
      i := i + 1;
    }
    InListIffIndexed(msgs);
    if error {
      route := ShowErrors;
    } else if duplicateWarning {
      route := ConfirmDuplicate;
    } else {
      route := ConfirmFinal;
    }
  }

  lemma InListIffIndexed(msgs: seq<Message>)
    ensures HasError(msgs) <==> exists k :: 0 <= k < |msgs| && msgs[k].msgType == Error
    ensures HasCode(msgs, DuplicateWarningCode) <==> exists k :: 0 <= k < |msgs| && msgs[k].code == DuplicateWarningCode
  {
    if HasError(msgs) {
      var m :| m in msgs && m.msgType == Error;
      var k :| 0 <= k < |msgs| && msgs[k] == m;
    }
    if HasCode(msgs, DuplicateWarningCode) {
      var m :| m in msgs && m.code == DuplicateWarningCode;
      var k :| 0 <= k < |msgs| && msgs[k] == m;
    }
    if exists k :: 0 <= k < |msgs| && msgs[k].msgType == Error {
      var k :| 0 <= k < |msgs| && msgs[k].msgType == Error;
      assert msgs[k] in msgs;
    }
    if exists k :: 0 <= k < |msgs| && msgs[k].code == DuplicateWarningCode {
      var k :| 0 <= k < |msgs| && msgs[k].code == DuplicateWarningCode;
      assert msgs[k] in msgs;
    }
  }

  /** The in-place normalisation loop over the returned lines. */
  method NormaliseReturned(returned: seq<MovementLine>) returns (r: seq<MovementLine>)
    ensures |r| == |returned|
    ensures forall k :: 0 <= k < |r| ==> r[k] == NormalisedLine(returned[k])
  {
    r := returned;
    var i := 0;
    while i < |r|
      invariant 0 <= i <= |r| == |returned|
      invariant forall k :: 0 <= k < i ==> r[k] == NormalisedLine(returned[k])
      invariant forall k :: i <= k < |r| ==> r[k] == returned[k]
    {
      if r[i].poItem == "00000" {
        r := r[i := r[i].(poItem := "")];
      }
      if r[i].entryQnt == "0.000" {
        r := r[i := r[i].(entryQnt := "")];
      }
      i := i + 1;
    }
  }

  /** A line list agrees with the items: reconciling it changes nothing. */
  ghost predicate InSync(lines: seq<MovementLine>, items: seq<OrderItem>)
  {
    forall k :: 0 <= k < |lines| ==> Reconciled(lines[k], items) == lines[k]
  }

  /** The view's bookkeeping matches the table: count, highest id, both totals, and the asset flags are current. */
  ghost predicate Bookkept(v: PoView, lines: seq<MovementLine>, items: seq<OrderItem>)
  {
    v.movtLineCount == |lines| &&
    v.maxMovtLineId == MaxId(lines) &&
    v.movtTotal == NetTotal(lines, items) &&
    v.movtTotalIncTax == GrossTotal(lines, items) &&
    InSync(lines, items)
  }

  /** The view model `refreshMovts` leaves behind. */
  ghost function Refreshed(v: PoView, lines: seq<MovementLine>, items: seq<OrderItem>): PoView
  {
    v.(movtLineCount := |lines|, maxMovtLineId := MaxId(lines), movtTotal := NetTotal(lines, items),
       movtTotalIncTax := GrossTotal(lines, items), hasChanges := true)
  }

  /**
   * After reconciliation the bookkeeping computed from the old lines
   * describes the new ones: reconciliation changes neither the count, the
   * highest id nor the totals, and it leaves the table in sync.
   */
  lemma RefreshEstablishesBookkeeping(v: PoView, lines: seq<MovementLine>, items: seq<OrderItem>)
    ensures Bookkept(Refreshed(v, lines, items), ReconcileAll(lines, items), items)
  {
    ReconcileKeepsAggregates(lines, items);
  }

  /** Lines drawn from a synchronised list are unchanged by reconciliation. */
  lemma InSyncFixed(lines: seq<MovementLine>, items: seq<OrderItem>)
    requires InSync(lines, items)
    ensures ReconcileAll(lines, items) == lines
  {
  }

  /** `splice(i, 1)`: line i removed when it exists, nothing otherwise. */
  function Removed(lines: seq<MovementLine>, i: nat): (r: seq<MovementLine>)
    ensures i < |lines| ==> |r| == |lines| - 1
    ensures i < |lines| ==> forall k :: 0 <= k < |r| ==> r[k] == if k < i then lines[k] else lines[k + 1]
    ensures i >= |lines| ==> r == lines
  {
    if i < |lines| then lines[..i] + lines[i + 1..] else lines
  }

  /**
   * Adding to a synchronised table appends exactly one line after the
   * existing ones, which stay as they were, and its id is above every
   * existing id.
   */
  lemma AppendKeepsLines(v: PoView, lines: seq<MovementLine>, items: seq<OrderItem>, line: MovementLine)
    requires Bookkept(v, lines, items)
    requires line.movtId == v.maxMovtLineId + 1
    ensures |ReconcileAll(lines + [line], items)| == |lines| + 1
    ensures ReconcileAll(lines + [line], items)[..|lines|] == lines
    ensures ReconcileAll(lines + [line], items)[|lines|] == Reconciled(line, items)
    ensures forall k :: 0 <= k < |lines| ==> lines[k].movtId < ReconcileAll(lines + [line], items)[|lines|].movtId
  {
    var r := ReconcileAll(lines + [line], items);
    assert forall k :: 0 <= k < |lines| ==> r[k] == lines[k];
  }

  /** Deleting from a synchronised table removes exactly line i and keeps the order of the others. */
  lemma DeleteKeepsOrder(lines: seq<MovementLine>, items: seq<OrderItem>, i: nat)
    requires InSync(lines, items) && i < |lines|
    ensures ReconcileAll(Removed(lines, i), items) == lines[..i] + lines[i + 1..]
  {
    var r := Removed(lines, i);
    assert InSync(r, items);
  }

  /**
   * The id `onAddMovtLine` and `onCopyMovtLine` issue, the recorded maximum
   * plus one, belongs to no live line and is the new maximum once the line
   * is appended and the table refreshed.
   */
  lemma NextIdIsFresh(v: PoView, lines: seq<MovementLine>, items: seq<OrderItem>, l: MovementLine)
    requires Bookkept(v, lines, items)
    requires l.movtId == v.maxMovtLineId + 1
    ensures l.movtId >= 1
    ensures forall k :: 0 <= k < |lines| ==> lines[k].movtId != l.movtId
    ensures MaxId(ReconcileAll(lines + [l], items)) == l.movtId
  {
    var ext := lines + [l];
    assert ext[..|ext| - 1] == lines;
    ReconcileKeepsAggregates(ext, items);
  }

  /**
   * Ids are not history-wide: when the line just issued is deleted again,
   * the refreshed maximum falls back and the next add issues the same id.
   */
  lemma DeletedIdIsReissued(v: PoView, lines: seq<MovementLine>, items: seq<OrderItem>, l: MovementLine)
    requires Bookkept(v, lines, items)
    requires l.movtId == v.maxMovtLineId + 1
    ensures MaxId(lines + [l]) == l.movtId
    ensures MaxId(ReconcileAll(Removed(lines + [l], |lines|), items)) + 1 == l.movtId
  {
    var ext := lines + [l];
    assert ext[..|ext| - 1] == lines;
    assert Removed(ext, |lines|) == lines;
    ReconcileKeepsAggregates(lines, items);
  }

  /**
   * `_prepareAndSubmitData` reads `GrValue` from the view before it coerces
   * the quantities: the recorded gross total it sends is NaN exactly when a
   * matched line holds a quantity that is not a number, although every line
   * sent with it holds a number.
   */
  lemma GrValueBeforeCoercion(v: PoView, lines: seq<MovementLine>, items: seq<OrderItem>)
    requires Bookkept(v, lines, items)
    ensures v.movtTotalIncTax.NaN? <==> exists k :: 0 <= k < |lines| && !QuantityUsable(lines[k], items)
    ensures GrossTotal(Coerced(lines), items).Finite?
  {
    GrossTotalExact(lines, items);
    CoercedTotalsFinite(lines, items);
  }

  /** The view model (`viewModel`), as far as the core reads or writes it. */
  datatype PoView = PoView(
    busy: bool,
    bound: bool,
    movtLineCount: int,
    maxMovtLineId: int,
    movtTotal: Num,
    movtTotalIncTax: Num,
    itemsCount: int,
    posted: bool,
    hasChanges: bool,
    messageButtonType: ButtonType,
    messageButtonIcon: string,
    movtConfirmValueState: ValueState)

  /** The view model `_resetView` installs. */
  const InitialView := PoView(false, false, 0, 0, Finite(0.0), Finite(0.0), 0, false, false, Ghost, NeutralIcon, VsNone)

  /** The view model without the fields `refreshMovts` writes. */
  function Untouched(v: PoView): PoView
  {
    v.(movtLineCount := 0, maxMovtLineId := 0, movtTotal := Finite(0.0), movtTotalIncTax := Finite(0.0), hasChanges := false)
  }

  class PoController {
    var items: seq<OrderItem>
    var lines: seq<MovementLine>
    var view: PoView
    var messages: seq<Message>
    var stage: Stage

    constructor ()
      ensures items == [] && lines == [] && view == InitialView && messages == [] && stage == Idle
    {
      items := [];
      lines := [];
      view := InitialView;
      messages := [];
      stage := Idle;
    }

    /** The bookkeeping `refreshMovts` leaves behind matches the table. */
    ghost predicate Consistent()
      reads this
    {
      Bookkept(view, lines, items)
    }

    method ResetView()
      modifies this
      ensures view == InitialView
      ensures items == old(items) && lines == old(lines) && messages == old(messages) && stage == old(stage)
    {
      view := InitialView;
    }

    /**
     * The loop of `refreshMovts`: one pass over the lines that tracks the
     * highest id, copies the asset flag of the first matching item into
     * the line and adds up the line totals with and without tax.
     */
    static method Recompute(movts: seq<MovementLine>, items: seq<OrderItem>)
      returns (r: seq<MovementLine>, maxId: int, total: Num, totalIncTax: Num)
      ensures r == ReconcileAll(movts, items)
      ensures maxId == MaxId(movts)
      ensures total == NetTotal(movts, items) && totalIncTax == GrossTotal(movts, items)
    {
      r := movts;
      maxId := 0;
      total := Finite(0.0);
      totalIncTax := Finite(0.0);
      var i := 0;
      while i < |r|
        invariant 0 <= i <= |r| == |movts|
        invariant forall k :: 0 <= k < i ==> r[k] == Reconciled(movts[k], items)
        invariant forall k :: i <= k < |r| ==> r[k] == movts[k]
        invariant maxId == MaxId(movts[..i])
        invariant total == NetTotal(movts[..i], items)
        invariant totalIncTax == GrossTotal(movts[..i], items)
      {
        PrefixAggregates(movts, items, i);
        if r[i].movtId > maxId {
          maxId := r[i].movtId;
        }
        var line, lineTotal, lineTax := MatchLine(r[i], items);
        r := r[i := line];
        total := Add(total, lineTotal);
        totalIncTax := Add(totalIncTax, Add(lineTotal, lineTax));
        i := i + 1;
      }
      assert movts[..|movts|] == movts;
    }

    /** `refreshMovts`: recompute the table against the items and record the bookkeeping in the view model. */
    method RefreshMovts()
      modifies this
      ensures lines == ReconcileAll(old(lines), items)
      ensures view == Refreshed(old(view), old(lines), items)
      ensures Consistent()
      ensures items == old(items) && messages == old(messages) && stage == old(stage)
    {
      ghost var v0, l0 := view, lines;
      var movts, maxId, total, totalIncTax := Recompute(lines, items);
      lines := movts;
      view := view.(maxMovtLineId := maxId, movtLineCount := |movts|, movtTotal := total,
        movtTotalIncTax := totalIncTax, hasChanges := true);
      RefreshEstablishesBookkeeping(v0, l0, items);
    }

    /**
     * The inner loop of `refreshMovts` for one line: the first item with
     * the line's item number gives the asset flag, the line total (price
     * times quantity) and the tax on it; without a match both are 0 and
     * the line stays as it is.
     */
    static method MatchLine(l: MovementLine, items: seq<OrderItem>) returns (r: MovementLine, lineTotal: Num, lineTax: Num)
      ensures r == Reconciled(l, items)
      ensures lineTotal == LineNet(l, items)
      ensures Add(lineTotal, lineTax) == LineGross(l, items)
    {
      r := l;
      lineTotal := Finite(0.0);
      lineTax := Finite(0.0);
      var j := 0;
      while j < |items|
        invariant 0 <= j <= |items|
        invariant forall k :: 0 <= k < j ==> items[k].poItem != l.poItem
      {
        if items[j].poItem == l.poItem {
          lineTotal := Mul(Finite(items[j].netPrice), ToNumber(l.entryQnt));
          lineTax := Mul(lineTotal, Finite(items[j].taxRate));
          r := l.(isAsset := items[j].isAsset);
          assert FirstMatch(items, l.poItem) == Some(j);
          return;
        }
        j := j + 1;
      }
    }

    /** Push one line onto the table and refresh, as both add and copy do. */
    method PushLine(line: MovementLine)
      modifies this
      ensures lines == ReconcileAll(old(lines) + [line], items)
      ensures Consistent() && view.hasChanges && Untouched(view) == Untouched(old(view))
      ensures old(Consistent()) && line.movtId == old(view).maxMovtLineId + 1 ==>
        (lines[..|old(lines)|] == old(lines) && |lines| == |old(lines)| + 1 && lines[|old(lines)|] == Reconciled(line, items))
      ensures items == old(items) && messages == old(messages) && stage == old(stage)
    {
      ghost var v0, l0 := view, lines;
      lines := lines + [line];
      RefreshMovts();
      if Bookkept(v0, l0, items) && line.movtId == v0.maxMovtLineId + 1 {
        AppendKeepsLines(v0, l0, items, line);
      }
    }

    /** `onAddMovtLine`: push an empty line numbered after the recorded maximum, then refresh. */
    method AddMovtLine()
      modifies this
      ensures lines == ReconcileAll(old(lines) + [NewLine(old(view).maxMovtLineId + 1)], items)
      ensures Consistent() && view.hasChanges && Untouched(view) == Untouched(old(view))
      ensures old(Consistent()) ==> (lines[..|old(lines)|] == old(lines) && |lines| == |old(lines)| + 1 &&
        lines[|old(lines)|] == Reconciled(NewLine(old(view).maxMovtLineId + 1), items))
      ensures items == old(items) && messages == old(messages) && stage == old(stage)
    {
      PushLine(NewLine(view.maxMovtLineId + 1));
    }

    /** `onCopyMovtLine`: push a copy of line k with a new id and item, quantity and asset flag cleared. */
    method CopyMovtLine(k: nat)
      requires k < |lines|
      modifies this
      ensures lines == ReconcileAll(old(lines) + [CopyOf(old(lines)[k], old(view).maxMovtLineId + 1)], items)
      ensures Consistent() && view.hasChanges && Untouched(view) == Untouched(old(view))
      ensures old(Consistent()) ==> (lines[..|old(lines)|] == old(lines) && |lines| == |old(lines)| + 1 &&
        lines[|old(lines)|] == Reconciled(CopyOf(old(lines)[k], old(view).maxMovtLineId + 1), items))
      ensures items == old(items) && messages == old(messages) && stage == old(stage)
    {
      PushLine(CopyOf(lines[k], view.maxMovtLineId + 1));
    }

    /** `onDeleteMovtLine`: splice line i out, then refresh. */
    method DeleteMovtLine(i: nat)
      modifies this
      ensures lines == ReconcileAll(Removed(old(lines), i), items)
      ensures Consistent() && view.hasChanges && Untouched(view) == Untouched(old(view))
      ensures old(Consistent()) && i < |old(lines)| ==> lines == old(lines)[..i] + old(lines)[i + 1..]
      ensures items == old(items) && messages == old(messages) && stage == old(stage)
    {
      ghost var l0, inSync := lines, Consistent();
      lines := Removed(lines, i);
      RefreshMovts();
      if inSync && i < |l0| {
        DeleteKeepsOrder(l0, items, i);
      }
    }

    /** `_showErrorAndNavigate`: the key becomes the only message, then `_onNoPO` resets the view. */
    method ShowErrorAndNavigate(key: string)
      modifies this
      ensures messages == [LocalMessage(Error, key)]
      ensures view == InitialView
      ensures items == old(items) && lines == old(lines) && stage == old(stage)
    {
      messages := [LocalMessage(Error, key)];
      var buttonType := GetMessageButtonType(messages);
      var buttonIcon := GetMessageButtonIcon(messages);
      view := view.(messageButtonType := buttonType, messageButtonIcon := buttonIcon);
      ResetView();
    }

    /** `_setupModelsAndData`: install the order's items and lines, start from id 0 and add one line. */
    method SetupModelsAndData(po: PoRecord)
      modifies this
      ensures items == po.items
      ensures lines == ReconcileAll(po.movements + [NewLine(1)], items)
      ensures Consistent() && view.bound && view.itemsCount == |po.items| && view.hasChanges && messages == []
      ensures Untouched(view) == Untouched(old(view)).(bound := true, itemsCount := |po.items|)
      ensures stage == old(stage)
    {
      items := po.items;
      lines := po.movements;
      view := view.(maxMovtLineId := 0);
      AddMovtLine();
      view := view.(itemsCount := |po.items|, bound := true);
      messages := [];
    }

    /**
     * `_onDataReceived`: clear the busy flag, then either reject the order
     * (message, reset) or set it up.
     */
    method OnDataReceived(po: Option<PoRecord>) returns (verdict: PoVerdict)
      modifies this
      ensures verdict == ClassifyPo(po, old(view).posted)
      ensures verdict.Rejected? ==> (messages == [LocalMessage(Error, verdict.key)] && view == InitialView &&
        items == old(items) && lines == old(lines))
      ensures verdict == Accepted ==> (items == po.value.items &&
        lines == ReconcileAll(po.value.movements + [NewLine(1)], items) &&
        |lines| == |po.value.movements| + 1 && Consistent() && messages == [] &&
        view.itemsCount == |po.value.items| && view.hasChanges &&
        Untouched(view) == Untouched(old(view)).(busy := false, bound := true, itemsCount := |po.value.items|))
      ensures stage == old(stage)
    {
      view := view.(busy := false);
      verdict := ClassifyPo(po, view.posted);
      if verdict.Rejected? {
        ShowErrorAndNavigate(verdict.key);
      } else {
        SetupModelsAndData(po.value);
      }
    }

    /* ---------------------------------------------------------------- */
    /* Validation                                                        */
    /* ---------------------------------------------------------------- */

    /** `_clearValidationStates`: every line's three value states and its status back to none. */
    method ClearValidationStates()
      modifies this
      ensures lines == Cleared(old(lines))
      ensures view == old(view).(movtConfirmValueState := VsNone)
      ensures items == old(items) && messages == old(messages) && stage == old(stage)
    {
      view := view.(movtConfirmValueState := VsNone);
      ghost var orig := lines;
      var i := 0;
      while i < |lines|
        invariant 0 <= i <= |lines| == |orig|
        invariant forall k :: 0 <= k < i ==> lines[k] == ClearedLine(orig[k])
        invariant forall k :: i <= k < |lines| ==> lines[k] == orig[k]
        invariant items == old(items) && messages == old(messages) && stage == old(stage)
        invariant view == old(view).(movtConfirmValueState := VsNone)
      {
        lines := lines[i := lines[i].(poItemVs := VsNone, entryQntVs := VsNone, docDateVs := VsNone, lineStatus := TypeNone)];
        i := i + 1;
      }
    }

    /** `_addError`: add the text as an Error unless a message already shows it; mark line j's item. */
    method AddError(text: string, j: nat)
      requires j < |lines|
      modifies this
      ensures messages == if HasText(old(messages), text) then old(messages) else old(messages) + [LocalMessage(Error, text)]
      ensures lines == old(lines)[j := old(lines)[j].(poItemVs := VsError)]
      ensures items == old(items) && view == old(view) && stage == old(stage)
    {
      var alreadyIn := false;
      var i := 0;
      while i < |messages|
        invariant 0 <= i <= |messages|
        invariant alreadyIn <==> exists k :: 0 <= k < i && messages[k].text == text && messages[k].params == []
        invariant items == old(items) && messages == old(messages) && stage == old(stage) && view == old(view)
        invariant lines == old(lines)
      {
        if messages[i].text == text && messages[i].params == [] {
          alreadyIn := true;
        }
        i := i + 1;
      }
      assert alreadyIn <==> HasText(messages, text) by {
        if HasText(messages, text) {
          var m :| m in messages && m.text == text && m.params == [];
          var k :| 0 <= k < |messages| && messages[k] == m;
        }
        if alreadyIn {
          var k :| 0 <= k < |messages| && messages[k].text == text && messages[k].params == [];
          assert messages[k] in messages;
        }
      }
      if !alreadyIn {
        messages := messages + [LocalMessage(Error, text)];
      }
      lines := lines[j := lines[j].(poItemVs := VsError)];
    }

    /** The inner loop of `_validateMandatoryFields` for line i: mark every other line with the same item. */
    method MarkDuplicatesOf(i: nat)
      requires i < |lines| && lines[i].poItem != ""
      modifies this
      ensures |lines| == |old(lines)|
      ensures forall k :: 0 <= k < |lines| ==>
        lines[k] == if DuplicateOf(old(lines), i, k) then old(lines)[k].(poItemVs := VsError) else old(lines)[k]
      ensures messages ==
        if (exists k :: 0 <= k < |old(lines)| && DuplicateOf(old(lines), i, k)) && !HasText(old(messages), DuplicatePoItemError)
        then old(messages) + [DuplicateMessage()] else old(messages)
      ensures items == old(items) && view == old(view) && stage == old(stage)
    {
      ghost var orig := lines;
      ghost var before := messages;
      ghost var found := false;
      var j := 0;
      while j < |lines|
        invariant 0 <= j <= |lines| == |orig|
        invariant forall k :: 0 <= k < |lines| ==>
          lines[k] == if k < j && DuplicateOf(orig, i, k) then orig[k].(poItemVs := VsError) else orig[k]
        invariant found <==> exists k :: 0 <= k < j && DuplicateOf(orig, i, k)
        invariant messages == if found && !HasText(before, DuplicatePoItemError) then before + [DuplicateMessage()] else before
        invariant items == old(items) && view == old(view) && stage == old(stage)
      {
        if j != i && lines[j].poItem == lines[i].poItem {
          assert DuplicateOf(orig, i, j);
          ghost var m0 := messages;
          AddError(DuplicatePoItemError, j);
          DuplicateErrorOnce(before, m0, messages, found);
          found := true;
        }
        j := j + 1;
      }
    }

    /**
     * `_validateMandatoryFields`: per line, an empty item is missing input
     * and a non-empty one marks its duplicates; an empty quantity is
     * missing input and a non-numeric one adds an error carrying the value;
     * a missing date is missing input.
     */
    method ValidateMandatoryFields() returns (missing: bool)
      modifies this
      ensures missing <==> MandatoryMissing(old(lines))
      ensures lines == Validated(old(lines))
      ensures old(messages) <= messages
      ensures forall k :: |old(messages)| <= k < |messages| ==> messages[k].msgType == Error
      ensures Unflagged(messages) == Unflagged(old(messages)) + QuantityMessages(old(lines))
      ensures DuplicateCount(messages) ==
        if HasDuplicate(old(lines)) && DuplicateCount(old(messages)) == 0 then 1 else DuplicateCount(old(messages))
      ensures items == old(items) && view == old(view) && stage == old(stage)
    {
      ghost var orig := lines;
      ghost var start := messages;
      ProgressStart(orig, start);
      MissingEnds(orig);
      missing := false;
      var i := 0;
      while i < |lines|
        invariant i <= |lines| == |orig|
        invariant Progress(orig, start, i, lines, messages)
        invariant missing <==> MissingBefore(orig, i)
        invariant items == old(items) && view == old(view) && stage == old(stage)
      {
        missing := ValidateLine(orig, start, i, missing);
        i := i + 1;
      }
      ProgressComplete(orig, start, lines, messages);
    }

    /** One pass of the validation loop, on line i. */
    method ValidateLine(ghost orig: seq<MovementLine>, ghost start: seq<Message>, i: nat, missingBefore: bool)
      returns (missing: bool)
      requires i < |orig| && Progress(orig, start, i, lines, messages)
      requires missingBefore <==> MissingBefore(orig, i)
      modifies this
      ensures Progress(orig, start, i + 1, lines, messages)
      ensures missing <==> MissingBefore(orig, i + 1)
      ensures items == old(items) && view == old(view) && stage == old(stage)
    {
      ghost var l0, m0 := lines, messages;
      var itemMissing := CheckItem(i);
      ghost var l1, m1 := lines, messages;
      var quantityMissing := CheckQuantity(i);
      ghost var l2, m2 := lines, messages;
      var dateMissing := CheckDate(i);
      missing := missingBefore || itemMissing || quantityMissing || dateMissing;
      ProgressStep(orig, start, i, l0, m0, l1, m1, l2, m2, lines);
      MissingStep(orig, i);
    }

    /** The item part of the loop body: an empty item is missing input, a non-empty one marks its duplicates. */
    method CheckItem(i: nat) returns (itemMissing: bool)
      requires i < |lines|
      modifies this
      ensures |lines| == |old(lines)|
      ensures forall k :: 0 <= k < |lines| ==> lines[k] == ItemMarked(old(lines), i, k)
      ensures messages == old(messages) +
        if (exists k :: 0 <= k < |old(lines)| && DuplicateOf(old(lines), i, k)) && !HasText(old(messages), DuplicatePoItemError)
        then [DuplicateMessage()] else []
      ensures itemMissing <==> old(lines)[i].poItem == ""
      ensures items == old(items) && view == old(view) && stage == old(stage)
    {
      if lines[i].poItem == "" {
        lines := lines[i := lines[i].(poItemVs := VsError)];
        itemMissing := true;
      } else {
        MarkDuplicatesOf(i);
        itemMissing := false;
      }
    }

    /** The quantity part: empty is missing input; typed but not a number adds an error carrying the value. */
    method CheckQuantity(i: nat) returns (quantityMissing: bool)
      requires i < |lines|
      modifies this
      ensures lines == old(lines)[i := old(lines)[i].(entryQntVs :=
        if old(lines)[i].entryQnt == "" || !IsNumber(old(lines)[i].entryQnt) then VsError else old(lines)[i].entryQntVs)]
      ensures messages == old(messages) + if BadQuantity(old(lines)[i]) then [QuantityMessage(old(lines)[i].entryQnt)] else []
      ensures quantityMissing <==> old(lines)[i].entryQnt == ""
      ensures items == old(items) && view == old(view) && stage == old(stage)
    {
      quantityMissing := false;
      if lines[i].entryQnt == "" {
        lines := lines[i := lines[i].(entryQntVs := VsError)];
        quantityMissing := true;
      } else if !IsNumber(lines[i].entryQnt) {
        messages := messages + [QuantityMessage(lines[i].entryQnt)];
        lines := lines[i := lines[i].(entryQntVs := VsError)];
      }
    }

    /** The date part: no date is missing input. */
    method CheckDate(i: nat) returns (dateMissing: bool)
      requires i < |lines|
      modifies this
      ensures lines == old(lines)[i := old(lines)[i].(docDateVs :=
        if old(lines)[i].docDate.None? then VsError else old(lines)[i].docDateVs)]
      ensures dateMissing <==> old(lines)[i].docDate.None?
      ensures items == old(items) && view == old(view) && stage == old(stage) && messages == old(messages)
    {
      dateMissing := false;
      if lines[i].docDate.None? {
        lines := lines[i := lines[i].(docDateVs := VsError)];
        dateMissing := true;
      }
    }

    /* ---------------------------------------------------------------- */
    /* Submission workflow                                               */
    /* ---------------------------------------------------------------- */

    /** `_prepareAndSubmitData` with `_submitForValidation`: coerce quantities in place and send the dry run. */
    method PrepareAndSubmitData() returns (payload: Payload)
      modifies this
      ensures lines == Coerced(old(lines))
      ensures payload == Payload(false, old(view).movtTotalIncTax, lines)
      ensures stage == DryRunPending(payload) && view == old(view).(busy := true)
      ensures items == old(items) && messages == old(messages)
    {
      var grValue := view.movtTotalIncTax;
      ghost var orig := lines;
      var i := 0;
      while i < |lines|
        invariant 0 <= i <= |lines| == |orig|
        invariant forall k :: 0 <= k < i ==> lines[k] == CoercedLine(orig[k])
        invariant forall k :: i <= k < |lines| ==> lines[k] == orig[k]
        invariant items == old(items) && messages == old(messages) && stage == old(stage) && view == old(view)
      {
        if !IsNumber(lines[i].entryQnt) {
          lines := lines[i := lines[i].(entryQnt := "0")];
        }
        i := i + 1;
      }
      payload := Payload(false, grValue, lines);
      view := view.(busy := true);
      stage := DryRunPending(payload);
    }

    /**
     * `onSubmit`: clear messages and value states, validate, and either
     * report missing input or send the dry run.
     */
    method OnSubmit() returns (request: Option<Payload>)
      modifies this
      ensures request.None? <==> MandatoryMissing(old(lines))
      ensures request.None? ==> (lines == Validated(Cleared(old(lines))) && stage == old(stage) &&
        view == old(view).(movtConfirmValueState := VsNone) &&
        |messages| > 0 && messages[|messages| - 1] == LocalMessage(Error, MandatoryMissingError) &&
        ValidationMessages(messages[..|messages| - 1], old(lines)))
      ensures request.Some? ==> (request.value.submitFlag == false && request.value.grValue == old(view).movtTotalIncTax &&
        request.value.movements == Coerced(Validated(Cleared(old(lines)))) && lines == request.value.movements &&
        stage == DryRunPending(request.value) && view == old(view).(movtConfirmValueState := VsNone, busy := true) &&
        ValidationMessages(messages, old(lines)))
      ensures items == old(items)
    {
      ghost var orig := lines;
      messages := [];
      ClearValidationStates();
      ClearedKeepsInputs(orig);
      var missing := ValidateMandatoryFields();
      ghost var found := messages;
      ValidationMessagesFromEmpty(orig, found);
      if missing {
        messages := messages + [LocalMessage(Error, MandatoryMissingError)];
        assert messages[..|messages| - 1] == found;
        request := None;
      } else {
        var payload := PrepareAndSubmitData();
        request := Some(payload);
      }
    }

    /**
     * `_handleValidationResponse` with `_handleWarningsAndConfirm`: take
     * over the normalised returned lines, add the backend's messages and
     * route on the whole list.
     */
    method HandleValidationResponse(resp: Response) returns (route: Option<DryRunRoute>)
      requires stage.DryRunPending?
      modifies this
      ensures resp.TransportError? ==> (route.None? && stage == Idle && view == old(view).(busy := false) &&
        lines == old(lines) && messages == old(messages))
      ensures resp.Received? ==> (route.Some? && messages == old(messages) + resp.backendMessages &&
        |lines| == |resp.movements| && (forall k :: 0 <= k < |lines| ==> lines[k] == NormalisedLine(resp.movements[k])) &&
        view == old(view).(busy := false, messageButtonType := DominantType(messages),
          messageButtonIcon := IconFor(DominantType(messages))))
      ensures route == Some(ShowErrors) <==> resp.Received? && HasError(messages)
      ensures route == Some(ConfirmDuplicate) <==>
        resp.Received? && !HasError(messages) && HasCode(messages, DuplicateWarningCode)
      ensures route == Some(ShowErrors) ==> stage == Idle
      ensures route == Some(ConfirmDuplicate) ==> stage == AwaitingDuplicate(old(stage).payload)
      ensures route == Some(ConfirmFinal) ==> stage == AwaitingFinal(old(stage).payload)
      ensures items == old(items)
    {
      var payload := stage.payload;
      view := view.(busy := false);
      if resp.TransportError? {
        stage := Idle;
        return None;
      }
      lines := NormaliseReturned(resp.movements);
      messages := messages + resp.backendMessages;
      var r := RouteDryRun(messages);
      match r {
        case ShowErrors => stage := Idle;
        case ConfirmDuplicate => stage := AwaitingDuplicate(payload);
        case ConfirmFinal => stage := AwaitingFinal(payload);
      }
      route := Some(r);
      var buttonType := GetMessageButtonType(messages);
      var buttonIcon := GetMessageButtonIcon(messages);
      view := view.(messageButtonType := buttonType, messageButtonIcon := buttonIcon);
    }

    /** The duplicate-document prompt: OK leads to the final prompt, Cancel ends the flow. */
    method HandleDuplicateAnswer(ok: bool)
      requires stage.AwaitingDuplicate?
      modifies this
      ensures stage == if ok then AwaitingFinal(old(stage).payload) else Idle
      ensures items == old(items) && lines == old(lines) && view == old(view) && messages == old(messages)
    {
      if ok {
        stage := AwaitingFinal(stage.payload);
      } else {
        stage := Idle;
      }
    }

    /** The final prompt; OK runs `_postGR`: busy, messages cleared, the same payload sent with the post switch on. */
    method HandleFinalAnswer(ok: bool) returns (request: Option<Payload>)
      requires stage.AwaitingFinal?
      modifies this
      ensures request.Some? <==> ok
      ensures !ok ==> stage == Idle && view == old(view) && messages == old(messages)
      ensures ok ==> (request.value == old(stage).payload.(submitFlag := true) && request.value.submitFlag &&
        stage == Posting(request.value) && messages == [] && view == old(view).(busy := true))
      ensures items == old(items) && lines == old(lines)
    {
      if !ok {
        stage := Idle;
        return None;
      }
      view := view.(busy := true);
      messages := [];
      var payload := stage.payload.(submitFlag := true);
      stage := Posting(payload);
      request := Some(payload);
    }

    /**
     * `_handlePostResponse`: the post succeeded when the message list holds
     * no Error; then `posted` is set, otherwise the message button shows
     * the errors.
     */
    method HandlePostResponse(resp: Response) returns (succeeded: bool)
      requires stage.Posting?
      modifies this
      ensures succeeded <==> resp.Received? && !HasError(messages)
      ensures messages == if resp.Received? then old(messages) + resp.backendMessages else old(messages)
      ensures view == old(view).(busy := false, posted := old(view).posted || succeeded,
        messageButtonType := if resp.Received? && !succeeded then DominantType(messages) else old(view).messageButtonType,
        messageButtonIcon := if resp.Received? && !succeeded then IconFor(DominantType(messages)) else old(view).messageButtonIcon)
      ensures stage == Idle
      ensures items == old(items) && lines == old(lines)
    {
      view := view.(busy := false);
      stage := Idle;
      if resp.TransportError? {
        return false;
      }
      messages := messages + resp.backendMessages;
      var error := CheckForErrors(messages);
      if error {
        var buttonType := GetMessageButtonType(messages);
        var buttonIcon := GetMessageButtonIcon(messages);
        view := view.(messageButtonType := buttonType, messageButtonIcon := buttonIcon);
      } else {
        view := view.(posted := true);
      }
      succeeded := !error;
    }
  }
}
