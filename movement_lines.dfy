/**
 * Movement lines of the purchase-order screen and the reconciliation of
 * those lines against the order's items: the specification functions that
 * `refreshMovts` computes, and what they satisfy.
 */
module MovementLines {
  import opened Wrappers
  import opened Messages
  import opened Numbers

  /** sap.ui.core.ValueState as the line fields use it. */
  datatype ValueState = VsNone | VsError

  /** A JavaScript Date object; only its presence matters to the core. */
  datatype Date = Date(ticks: int)

  /** One editable movement line of the `movtModel` array. */
  datatype MovementLine = MovementLine(
    movtId: int,
    poItem: string,
    poItemVs: ValueState,
    refDocNo: string,
    headerTxt: string,
    docDate: Option<Date>,
    isAsset: bool,
    entryQnt: string,
    entryQntVs: ValueState,
    entryUom: string,
    docDateVs: ValueState,
    lineStatus: MessageType)

  /** One item of the purchase order (`itemModel`); read-only to the line engine. */
  datatype OrderItem = OrderItem(poItem: string, netPrice: real, taxRate: real, isAsset: bool)

  /** The line `onAddMovtLine` pushes: everything empty, no date, no asset, no value state. */
  function NewLine(id: int): MovementLine
  {
    MovementLine(id, "", VsNone, "", "", None, false, "", VsNone, "", VsNone, TypeNone)
  }

  /** The line `onCopyMovtLine` pushes: a deep copy with a new id and item, quantity and asset flag cleared. */
  function CopyOf(l: MovementLine, id: int): (r: MovementLine)
    ensures r.movtId == id && r.poItem == "" && r.entryQnt == "" && !r.isAsset
    ensures r.(movtId := l.movtId, poItem := l.poItem, entryQnt := l.entryQnt, isAsset := l.isAsset) == l
  {
    l.(movtId := id, poItem := "", entryQnt := "", isAsset := false)
  }

  /** The highest live id, or 0 for no lines (the running maximum starts at 0). */
  function MaxId(lines: seq<MovementLine>): (r: int)
    ensures r >= 0
    ensures forall k :: 0 <= k < |lines| ==> lines[k].movtId <= r
    ensures r == 0 || exists k :: 0 <= k < |lines| && lines[k].movtId == r
  {
    if lines == [] then 0
    else
      var init := MaxId(lines[..|lines| - 1]);
      var last := lines[|lines| - 1].movtId;
      if last > init then last else init
  }

  /** The index of the first item whose `PoItem` equals `key` (the inner loop breaks on it). */
  function FirstMatch(items: seq<OrderItem>, key: string): (r: Option<nat>)
    ensures r.Some? ==> r.value < |items| && items[r.value].poItem == key
    ensures r.Some? ==> forall k :: 0 <= k < r.value ==> items[k].poItem != key
    ensures r.None? <==> forall k :: 0 <= k < |items| ==> items[k].poItem != key
  {
    if items == [] then None
    else if items[0].poItem == key then Some(0)
    else match FirstMatch(items[1..], key)
      case None => None
      case Some(j) => Some(j + 1)
  }

  /** A line after reconciliation: a matched line takes the item's asset flag; nothing else changes. */
  function Reconciled(l: MovementLine, items: seq<OrderItem>): (r: MovementLine)
    ensures r.(isAsset := l.isAsset) == l
    ensures (forall j :: 0 <= j < |items| ==> items[j].poItem != l.poItem) ==> r == l
    ensures forall j :: (0 <= j < |items| && items[j].poItem == l.poItem &&
      forall i :: 0 <= i < j ==> items[i].poItem != l.poItem) ==> r.isAsset == items[j].isAsset
  {
    match FirstMatch(items, l.poItem)
    case None => l
    case Some(j) => l.(isAsset := items[j].isAsset)
  }

  function ReconcileAll(lines: seq<MovementLine>, items: seq<OrderItem>): (r: seq<MovementLine>)
    ensures |r| == |lines|
    ensures forall k :: 0 <= k < |lines| ==> r[k] == Reconciled(lines[k], items)
  {
    seq(|lines|, k requires 0 <= k < |lines| => Reconciled(lines[k], items))
  }

  /** `iLineTotal`: price times `Number(EntryQnt)` for a matched line, 0 otherwise. */
  function LineNet(l: MovementLine, items: seq<OrderItem>): Num
  {
    match FirstMatch(items, l.poItem)
    case None => Finite(0.0)
    case Some(j) => Mul(Finite(items[j].netPrice), ToNumber(l.entryQnt))
  }

  /** `iLineTotal + iLineTax`, where the tax is the line total times the item's rate. */
  function LineGross(l: MovementLine, items: seq<OrderItem>): Num
  {
    match FirstMatch(items, l.poItem)
    case None => Finite(0.0)
    case Some(j) =>
      var lineTotal := Mul(Finite(items[j].netPrice), ToNumber(l.entryQnt));
      Add(lineTotal, Mul(lineTotal, Finite(items[j].taxRate)))
  }

  /** `movtTotal`: the running sum over the lines, in order. */
  function NetTotal(lines: seq<MovementLine>, items: seq<OrderItem>): Num
  {
    if lines == [] then Finite(0.0)
    else Add(NetTotal(lines[..|lines| - 1], items), LineNet(lines[|lines| - 1], items))
  }

  /** `movtTotalIncTax`: the running sum of line totals including tax. */
  function GrossTotal(lines: seq<MovementLine>, items: seq<OrderItem>): Num
  {
    if lines == [] then Finite(0.0)
    else Add(GrossTotal(lines[..|lines| - 1], items), LineGross(lines[|lines| - 1], items))
  }

  /** A line whose quantity does not poison the totals: unmatched, or a quantity that converts to a number. */
  ghost predicate QuantityUsable(l: MovementLine, items: seq<OrderItem>)
  {
    FirstMatch(items, l.poItem).None? || ToNumber(l.entryQnt).Finite?
  }

  ghost predicate AllUsable(lines: seq<MovementLine>, items: seq<OrderItem>)
  {
    lines == [] || (AllUsable(lines[..|lines| - 1], items) && QuantityUsable(lines[|lines| - 1], items))
  }

  lemma {:induction false} AllUsableIff(lines: seq<MovementLine>, items: seq<OrderItem>)
    ensures AllUsable(lines, items) <==> forall k :: 0 <= k < |lines| ==> QuantityUsable(lines[k], items)
  {
    if lines != [] {
      var init := lines[..|lines| - 1];
      AllUsableIff(init, items);
      assert forall k :: 0 <= k < |init| ==> init[k] == lines[k];
    }
  }

  /** The amount of a line as arithmetic on reals: price times quantity for the first matching item. */
  ghost function Amount(l: MovementLine, items: seq<OrderItem>): real
  {
    match FirstMatch(items, l.poItem)
    case None => 0.0
    case Some(j) => if ToNumber(l.entryQnt).Finite? then items[j].netPrice * ToNumber(l.entryQnt).value else 0.0
  }

  /** The amount plus the tax on it at the matching item's rate. */
  ghost function AmountIncTax(l: MovementLine, items: seq<OrderItem>): real
  {
    match FirstMatch(items, l.poItem)
    case None => 0.0
    case Some(j) => Amount(l, items) + Amount(l, items) * items[j].taxRate
  }

  ghost function NetSum(lines: seq<MovementLine>, items: seq<OrderItem>): real
  {
    if lines == [] then 0.0 else NetSum(lines[..|lines| - 1], items) + Amount(lines[|lines| - 1], items)
  }

  ghost function GrossSum(lines: seq<MovementLine>, items: seq<OrderItem>): real
  {
    if lines == [] then 0.0 else GrossSum(lines[..|lines| - 1], items) + AmountIncTax(lines[|lines| - 1], items)
  }

  lemma LineNetValue(l: MovementLine, items: seq<OrderItem>)
    ensures LineNet(l, items) == if QuantityUsable(l, items) then Finite(Amount(l, items)) else NaN
  {
    var q := ToNumber(l.entryQnt);
    match FirstMatch(items, l.poItem)
    case None =>
    case Some(j) =>
      assert LineNet(l, items) == Mul(Finite(items[j].netPrice), q);
  }

  lemma {:induction false} NetTotalBySum(lines: seq<MovementLine>, items: seq<OrderItem>)
    ensures NetTotal(lines, items) == if AllUsable(lines, items) then Finite(NetSum(lines, items)) else NaN
  {
    if lines != [] {
      NetTotalBySum(lines[..|lines| - 1], items);
      LineNetValue(lines[|lines| - 1], items);
    }
  }

  lemma AmountOfMatch(l: MovementLine, items: seq<OrderItem>, j: nat)
    requires FirstMatch(items, l.poItem) == Some(j)
    ensures Amount(l, items) == if ToNumber(l.entryQnt).Finite? then items[j].netPrice * ToNumber(l.entryQnt).value else 0.0
  {
  }

  lemma AmountIncTaxOfMatch(l: MovementLine, items: seq<OrderItem>, j: nat, a: real)
    requires FirstMatch(items, l.poItem) == Some(j)
    requires Amount(l, items) == a
    ensures AmountIncTax(l, items) == a + a * items[j].taxRate
  {
    assert AmountIncTax(l, items) == Amount(l, items) + Amount(l, items) * items[j].taxRate;
  }

  lemma LineGrossValue(l: MovementLine, items: seq<OrderItem>)
    ensures LineGross(l, items) == if QuantityUsable(l, items) then Finite(AmountIncTax(l, items)) else NaN
  {
    var m := FirstMatch(items, l.poItem);
    if m.Some? {
      var q := ToNumber(l.entryQnt);
      var price, rate := items[m.value].netPrice, items[m.value].taxRate;
      if q.Finite? {
        var a := price * q.value;
        AmountOfMatch(l, items, m.value);
        AmountIncTaxOfMatch(l, items, m.value, a);
        assert LineGross(l, items) == Add(Finite(a), Mul(Finite(a), Finite(rate)));
      } else {
        assert LineGross(l, items) == Add(NaN, Mul(NaN, Finite(rate)));
      }
    }
  }

  lemma {:induction false} GrossTotalBySum(lines: seq<MovementLine>, items: seq<OrderItem>)
    ensures GrossTotal(lines, items) == if AllUsable(lines, items) then Finite(GrossSum(lines, items)) else NaN
  {
    if lines != [] {
      GrossTotalBySum(lines[..|lines| - 1], items);
      LineGrossValue(lines[|lines| - 1], items);
    }
  }

  /**
   * The net total is the sum of price times quantity over matched lines
   * (first match only; unmatched lines add 0), and it is NaN as soon as one
   * matched line holds a quantity that is not a number.
   */
  lemma NetTotalExact(lines: seq<MovementLine>, items: seq<OrderItem>)
    ensures NetTotal(lines, items) ==
      if forall k :: 0 <= k < |lines| ==> QuantityUsable(lines[k], items)
      then Finite(NetSum(lines, items)) else NaN
  {
    NetTotalBySum(lines, items);
    AllUsableIff(lines, items);
  }

  /** The gross total is the sum of amount plus amount times tax rate over matched lines, NaN on the same condition. */
  lemma GrossTotalExact(lines: seq<MovementLine>, items: seq<OrderItem>)
    ensures GrossTotal(lines, items) ==
      if forall k :: 0 <= k < |lines| ==> QuantityUsable(lines[k], items)
      then Finite(GrossSum(lines, items)) else NaN
  {
    GrossTotalBySum(lines, items);
    AllUsableIff(lines, items);
  }

  /** Reconciling only rewrites asset flags, so it changes neither the highest id nor the totals. */
  lemma {:induction false} ReconcileKeepsAggregates(lines: seq<MovementLine>, items: seq<OrderItem>)
    ensures MaxId(ReconcileAll(lines, items)) == MaxId(lines)
    ensures NetTotal(ReconcileAll(lines, items), items) == NetTotal(lines, items)
    ensures GrossTotal(ReconcileAll(lines, items), items) == GrossTotal(lines, items)
  {
    if lines != [] {
      var init := lines[..|lines| - 1];
      var r := ReconcileAll(lines, items);
      assert r[..|r| - 1] == ReconcileAll(init, items);
      ReconcileKeepsAggregates(init, items);
    }
  }

  /** Recomputing twice with no change in between gives the same lines: the refresh is idempotent. */
  lemma ReconcileIdempotent(lines: seq<MovementLine>, items: seq<OrderItem>)
    ensures ReconcileAll(ReconcileAll(lines, items), items) == ReconcileAll(lines, items)
  {
  }

  /** Extending a prefix by one line extends the maximum and both totals by that line. */
  lemma PrefixAggregates(lines: seq<MovementLine>, items: seq<OrderItem>, i: int)
    requires 0 <= i < |lines|
    ensures MaxId(lines[..i + 1]) == if lines[i].movtId > MaxId(lines[..i]) then lines[i].movtId else MaxId(lines[..i])
    ensures NetTotal(lines[..i + 1], items) == Add(NetTotal(lines[..i], items), LineNet(lines[i], items))
    ensures GrossTotal(lines[..i + 1], items) == Add(GrossTotal(lines[..i], items), LineGross(lines[i], items))
  {
    assert lines[..i + 1][..i] == lines[..i];
    assert lines[..i + 1][i] == lines[i];
  }
}
